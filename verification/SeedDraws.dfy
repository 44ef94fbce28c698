/**
 What the demo-data generator draws. Its random source is a tape that holds the outcome of each draw by the number of
 the draw. Every outcome has a tape, and the tape and the stock it builds on leave the generator no choice.
 */
module SeedDraws {
  import opened Ledger
  import opened Endpoints
  import opened SeedRuns

  /******* Single draws *******/

  datatype Draw = Number(value: int) | Members(members: seq<nat>)

  type Tape = map<nat, Draw>

  /** `rng.randint`, as draw number `i`; an outcome that cannot be stands for the lowest number. */
  function IntAt(tape: Tape, i: nat, low: int, high: int): (r: int)
    ensures low <= r && (low <= high ==> r <= high)
  {
    if i in tape && tape[i].Number? && low <= tape[i].value <= high then tape[i].value else low
  }

  /** `rng.random()` compared with a probability that is neither 0 nor 1. */
  predicate CoinAt(tape: Tape, i: nat) {
    i in tape && tape[i] == Number(1)
  }

  predicate Among(picked: seq<nat>, pool: seq<nat>) {
    forall i :: 0 <= i < |picked| ==> picked[i] in pool
  }

  predicate Distinct(numbers: seq<nat>) {
    forall i, j :: 0 <= i < j < |numbers| ==> numbers[i] != numbers[j]
  }

  /** Every member is in the pool and none comes twice. */
  predicate OneByOne(picked: seq<nat>, pool: seq<nat>) {
    picked != [] ==>
      var n := |picked| - 1;
      OneByOne(picked[..n], pool) && picked[n] in pool && picked[n] !in picked[..n]
  }

  lemma {:induction false} OneByOneIs(picked: seq<nat>, pool: seq<nat>)
    ensures OneByOne(picked, pool) <==> Among(picked, pool) && Distinct(picked)
  {
    if picked != [] {
      var init, last := picked[..|picked| - 1], picked[|picked| - 1];
      assert picked == init + [last];
      OneByOneIs(init, pool);
    }
  }

  /** `rng.sample`: `k` different members; an outcome that cannot be stands for the first ones. */
  function SampleAt(tape: Tape, i: nat, pool: seq<nat>, k: nat): (picked: seq<nat>)
    requires k <= |pool|
    ensures |picked| == k
  {
    if i in tape && tape[i].Members? && |tape[i].members| == k && OneByOne(tape[i].members, pool) then tape[i].members
    else pool[..k]
  }

  lemma SamplesAre(tape: Tape, i: nat, pool: seq<nat>, k: nat)
    requires k <= |pool| && Distinct(pool)
    ensures Among(SampleAt(tape, i, pool, k), pool) && Distinct(SampleAt(tape, i, pool, k))
  {
    OneByOneIs(SampleAt(tape, i, pool, k), pool);
  }

  /** Every number of the range can be drawn, both sides of a coin, and every sample in every order. */
  lemma EveryDraw(i: nat, low: int, high: int, wanted: int, pool: seq<nat>, members: seq<nat>)
    requires low <= wanted <= high && Among(members, pool) && Distinct(members) && |members| <= |pool|
    ensures IntAt(map[i := Number(wanted)], i, low, high) == wanted
    ensures CoinAt(map[i := Number(1)], i) && !CoinAt(map[i := Number(0)], i)
    ensures SampleAt(map[i := Members(members)], i, pool, |members|) == members
  {
    OneByOneIs(members, pool);
  }

  function Min(a: int, b: int): int {
    if a < b then a else b
  }

  function Max(a: int, b: int): int {
    if a > b then a else b
  }

  /******* The products in stock *******/

  function StockOf(stock: seq<int>, p: nat): int {
    if p < |stock| then stock[p] else 0
  }

  /** The picked products that are in stock, in the order in which they were picked. */
  function InStockOf(stock: seq<int>, picked: seq<nat>): seq<nat> {
    if picked == [] then []
    else
      var last := picked[|picked| - 1];
      InStockOf(stock, picked[..|picked| - 1]) + if StockOf(stock, last) > 0 then [last] else []
  }

  lemma {:induction false} InStockIs(stock: seq<int>, picked: seq<nat>)
    ensures forall p :: p in InStockOf(stock, picked) <==> p in picked && p < |stock| && stock[p] > 0
    ensures Distinct(picked) ==> Distinct(InStockOf(stock, picked))
  {
    if picked != [] {
      var init, last := picked[..|picked| - 1], picked[|picked| - 1];
      assert picked == init + [last];
      InStockIs(stock, init);
      if Distinct(picked) {
        assert last !in init;
      }
    }
  }

  /** The numbers of `count` new rows of a table that had `first`. */
  function Numbers(first: nat, count: nat): (numbers: seq<nat>)
    ensures |numbers| == count && Distinct(numbers)
    ensures forall n :: n in numbers <==> first <= n < first + count
  {
    var numbers := seq(count, i requires 0 <= i < count => first + i);
    assert forall n :: first <= n < first + count ==> n in numbers by {
      forall n: int | first <= n < first + count ensures n in numbers {
        assert numbers[n - first] == n;
      }
    }
    numbers
  }

  /******* Products *******/

  /** The generated products, and each one's supplier. */
  datatype Catalog = Catalog(products: seq<nat>, supplierOf: map<nat, nat>)

  /** The products are the next ones, each with 50 to 500 units and one of the new suppliers; products are numbered from
      `first` and the 20 new suppliers from `offset`. */
  ghost predicate ProductsDrawn(
    tape: Tape, at: nat, first: nat, offset: nat, count: nat, catalog: Catalog, units: seq<int>)
  {
    && catalog.products == Numbers(first, count) && |units| == count
    && (forall i :: 0 <= i < count ==> units[i] == IntAt(tape, at + 2 * i, 50, 500))
    && (forall p <- catalog.products ::
          && p in catalog.supplierOf
          && catalog.supplierOf[p] == offset + IntAt(tape, at + 2 * (p - first) + 1, 0, 19))
  }

  /******* Orders *******/

  /** The lines of a purchase order: 5 to 100 units of each picked product. */
  predicate PurchaseLinesDrawn(tape: Tape, at: nat, picked: seq<nat>, lines: seq<Line>) {
    lines != [] ==>
      var n := |lines| - 1;
      && PurchaseLinesDrawn(tape, at, picked, lines[..n])
      && n < |picked| && lines[n] == Line(picked[n], IntAt(tape, at + n, 5, 100))
  }

  lemma {:induction false} PurchaseLinesAre(tape: Tape, at: nat, picked: seq<nat>, lines: seq<Line>)
    requires PurchaseLinesDrawn(tape, at, picked, lines)
    ensures |lines| <= |picked|
    ensures forall j :: 0 <= j < |lines| ==> lines[j] == Line(picked[j], IntAt(tape, at + j, 5, 100))
  {
    if lines != [] {
      PurchaseLinesAre(tape, at, picked, lines[..|lines| - 1]);
    }
  }

  /** How many products to order, which, whether they have been received, and how many of each; the supplier is that of
      the first product. */
  predicate PurchaseDrawn(tape: Tape, at: nat, catalog: Catalog, po: PurchaseOrder) {
    var k := IntAt(tape, at, 1, 3);
    && k <= |catalog.products| && |po.lines| == k
    && var picked := SampleAt(tape, at + 1, catalog.products, k);
       && picked[0] in catalog.supplierOf && po.supplier == catalog.supplierOf[picked[0]]
       && po.received == CoinAt(tape, at + 2) && PurchaseLinesDrawn(tape, at + 3, picked, po.lines)
  }

  /** The up to three sampled products that are in stock. */
  function CandidatesAt(tape: Tape, at: nat, stock: seq<int>, products: seq<nat>): seq<nat> {
    InStockOf(stock, SampleAt(tape, at, products, Min(3, |products|)))
  }

  /** The lines of a sale: one to five units of each candidate, and no more than it has. */
  predicate SaleLinesDrawn(tape: Tape, at: nat, stock: seq<int>, candidates: seq<nat>, lines: seq<Line>) {
    lines != [] ==>
      var n := |lines| - 1;
      && SaleLinesDrawn(tape, at, stock, candidates, lines[..n])
      && n < |candidates|
      && lines[n] == Line(candidates[n], IntAt(tape, at + n, 1, Min(5, StockOf(stock, candidates[n]))))
  }

  lemma OneMoreSaleLine(tape: Tape, at: nat, stock: seq<int>, candidates: seq<nat>, lines: seq<Line>, quantity: nat)
    requires SaleLinesDrawn(tape, at, stock, candidates, lines) && |lines| < |candidates|
    requires quantity == IntAt(tape, at + |lines|, 1, Min(5, StockOf(stock, candidates[|lines|])))
    ensures SaleLinesDrawn(tape, at, stock, candidates, lines + [Line(candidates[|lines|], quantity)])
  {
    assert (lines + [Line(candidates[|lines|], quantity)])[..|lines|] == lines;
  }

  lemma {:induction false} SaleLinesAre(
    tape: Tape, at: nat, stock: seq<int>, candidates: seq<nat>, lines: seq<Line>)
    requires SaleLinesDrawn(tape, at, stock, candidates, lines)
    ensures |lines| <= |candidates|
    ensures forall j :: 0 <= j < |lines| ==>
              lines[j] == Line(candidates[j], IntAt(tape, at + j, 1, Min(5, StockOf(stock, candidates[j]))))
  {
    if lines != [] {
      SaleLinesAre(tape, at, stock, candidates, lines[..|lines| - 1]);
    }
  }

  /** Whether the sale has been completed, and how many of each candidate. */
  predicate SaleDrawn(tape: Tape, at: nat, stock: seq<int>, candidates: seq<nat>, so: SalesOrder) {
    && so.completed == CoinAt(tape, at) && |so.lines| == |candidates|
    && SaleLinesDrawn(tape, at + 1, stock, candidates, so.lines)
  }

  /** What one turn of the order loop builds: a purchase order, or a sale, or nothing when none of the sample is in
      stock. */
  predicate OrderDrawn(tape: Tape, at: nat, catalog: Catalog, stock: seq<int>, order: Order) {
    var candidates := CandidatesAt(tape, at + 1, stock, catalog.products);
    match order
    case Bought(po) => CoinAt(tape, at) && PurchaseDrawn(tape, at + 1, catalog, po)
    case Sold(so) => !CoinAt(tape, at) && candidates != [] && SaleDrawn(tape, at + 2, stock, candidates, so)
    case Nothing => !CoinAt(tape, at) && candidates == []
  }

  /** The number of the next draw. */
  function NextAt(at: nat, order: Order): nat {
    match order
    case Bought(po) => at + 4 + |po.lines|
    case Sold(so) => at + 3 + |so.lines|
    case Nothing => at + 2
  }

  /** A turn that raises: a purchase order wants to sample more products than there are. */
  predicate Overdraws(tape: Tape, at: nat, products: seq<nat>) {
    CoinAt(tape, at) && IntAt(tape, at + 1, 1, 3) > |products|
  }

  /** The tape and the stock leave a turn no choice: it raises, or there is one order that it builds. */
  lemma OneOutcome(tape: Tape, at: nat, catalog: Catalog, stock: seq<int>, order: Order, other: Order)
    requires OrderDrawn(tape, at, catalog, stock, order)
    ensures !Overdraws(tape, at, catalog.products)
    ensures OrderDrawn(tape, at, catalog, stock, other) ==> order == other
  {
    if OrderDrawn(tape, at, catalog, stock, other) {
      match order
      case Bought(po) =>
        var picked := SampleAt(tape, at + 2, catalog.products, |po.lines|);
        PurchaseLinesAre(tape, at + 4, picked, po.lines);
        PurchaseLinesAre(tape, at + 4, picked, other.po.lines);
        assert po.lines == other.po.lines;
      case Sold(so) =>
        var candidates := CandidatesAt(tape, at + 1, stock, catalog.products);
        SaleLinesAre(tape, at + 3, stock, candidates, so.lines);
        SaleLinesAre(tape, at + 3, stock, candidates, other.so.lines);
        assert so.lines == other.so.lines;
      case Nothing =>
    }
  }

  /** The orders in turn: the database and the number of the next draw after them. */
  function AfterOrders(db: Store, orders: seq<Order>): Store {
    if orders == [] then db else AfterOrder(AfterOrders(db, orders[..|orders| - 1]), orders[|orders| - 1])
  }

  function AfterDraws(at: nat, orders: seq<Order>): nat {
    if orders == [] then at else NextAt(AfterDraws(at, orders[..|orders| - 1]), orders[|orders| - 1])
  }

  /** Each order is drawn where the ones before it stopped, from the stock they left. */
  predicate OrdersDrawn(tape: Tape, at: nat, catalog: Catalog, db: Store, orders: seq<Order>) {
    orders != [] ==>
      var init, last := orders[..|orders| - 1], orders[|orders| - 1];
      && OrdersDrawn(tape, at, catalog, db, init)
      && OrderDrawn(tape, AfterDraws(at, init), catalog, AfterOrders(db, init).stock, last)
  }

  lemma OneMoreOrder(tape: Tape, at: nat, catalog: Catalog, db: Store, orders: seq<Order>, order: Order)
    requires OrdersDrawn(tape, at, catalog, db, orders)
    requires OrderDrawn(tape, AfterDraws(at, orders), catalog, AfterOrders(db, orders).stock, order)
    ensures OrdersDrawn(tape, at, catalog, db, orders + [order])
    ensures AfterOrders(db, orders + [order]) == AfterOrder(AfterOrders(db, orders), order)
    ensures AfterDraws(at, orders + [order]) == NextAt(AfterDraws(at, orders), order)
  {
    assert (orders + [order])[..|orders|] == orders;
  }

  lemma LastIsSame(tape: Tape, at: nat, catalog: Catalog, db: Store, orders: seq<Order>, others: seq<Order>)
    requires OrdersDrawn(tape, at, catalog, db, orders) && OrdersDrawn(tape, at, catalog, db, others)
    requires orders != [] && |orders| == |others| && orders[..|orders| - 1] == others[..|orders| - 1]
    ensures orders[|orders| - 1] == others[|orders| - 1]
  {
    var n := |orders| - 1;
    var next, stock := AfterDraws(at, orders[..n]), AfterOrders(db, orders[..n]).stock;
    OneOutcome(tape, next, catalog, stock, orders[n], others[n]);
  }

  lemma SameToTheLast(orders: seq<Order>, others: seq<Order>)
    requires |orders| == |others| > 0 && orders[..|orders| - 1] == others[..|orders| - 1]
    requires orders[|orders| - 1] == others[|orders| - 1]
    ensures orders == others
  {
    var n := |orders| - 1;
    assert orders == orders[..n] + [orders[n]] && others == others[..n] + [others[n]];
  }

  lemma {:induction false} SameDraws(
    tape: Tape, at: nat, catalog: Catalog, db: Store, orders: seq<Order>, others: seq<Order>)
    requires OrdersDrawn(tape, at, catalog, db, orders) && OrdersDrawn(tape, at, catalog, db, others)
    requires |orders| == |others|
    ensures orders == others
  {
    if orders != [] {
      SameDraws(tape, at, catalog, db, orders[..|orders| - 1], others[..|orders| - 1]);
      LastIsSame(tape, at, catalog, db, orders, others);
      SameToTheLast(orders, others);
    }
  }

  /** Of two lists of orders drawn from one tape, the longer starts with the shorter. */
  lemma {:induction false} OnlyOrders(
    tape: Tape, at: nat, catalog: Catalog, db: Store, orders: seq<Order>, others: seq<Order>)
    requires OrdersDrawn(tape, at, catalog, db, orders) && OrdersDrawn(tape, at, catalog, db, others)
    requires |orders| <= |others|
    ensures orders <= others
    decreases |others|
  {
    if |orders| == |others| {
      SameDraws(tape, at, catalog, db, orders, others);
    } else {
      OnlyOrders(tape, at, catalog, db, orders, others[..|others| - 1]);
    }
  }

  /** The loop raises in the turn after these orders. */
  predicate RaisesAfter(tape: Tape, at: nat, catalog: Catalog, db: Store, orders: seq<Order>) {
    OrdersDrawn(tape, at, catalog, db, orders) && Overdraws(tape, AfterDraws(at, orders), catalog.products)
  }

  lemma DrawnDoesNotRaise(tape: Tape, at: nat, catalog: Catalog, db: Store, orders: seq<Order>)
    requires OrdersDrawn(tape, at, catalog, db, orders) && orders != []
    ensures var init := orders[..|orders| - 1];
            OrdersDrawn(tape, at, catalog, db, init) && !RaisesAfter(tape, at, catalog, db, init)
  {
    var init, last := orders[..|orders| - 1], orders[|orders| - 1];
    OneOutcome(tape, AfterDraws(at, init), catalog, AfterOrders(db, init).stock, last, last);
  }

  /** With a tape that makes the loop raise, it takes none of the turns beyond. */
  lemma {:induction false} NoOrdersBeyond(
    tape: Tape, at: nat, catalog: Catalog, db: Store, orders: seq<Order>, others: seq<Order>)
    requires RaisesAfter(tape, at, catalog, db, orders) && OrdersDrawn(tape, at, catalog, db, others)
    ensures |others| <= |orders|
    decreases |others|
  {
    if |others| > |orders| {
      var init := others[..|others| - 1];
      DrawnDoesNotRaise(tape, at, catalog, db, others);
      NoOrdersBeyond(tape, at, catalog, db, orders, init);
      SameDraws(tape, at, catalog, db, init, orders);
      assert false;
    }
  }

  /** Some tape makes a loop of `count` turns raise exactly when it takes a turn and there are fewer than three
      products. */
  lemma CanRaiseIffFew(at: nat, catalog: Catalog, db: Store, count: nat)
    ensures (exists tape, orders :: |orders| < count && RaisesAfter(tape, at, catalog, db, orders)) <==>
            count > 0 && |catalog.products| < 3
  {
    var tape: Tape := map[at := Number(1), at + 1 := Number(3)];
    if count > 0 && |catalog.products| < 3 {
      assert CoinAt(tape, at) && IntAt(tape, at + 1, 1, 3) == 3;
      assert RaisesAfter(tape, at, catalog, db, []);
    }
  }

  lemma NoneInStock(stock: seq<int>, picked: seq<nat>)
    requires forall i :: 0 <= i < |picked| ==> picked[i] < |stock|
    ensures InStockOf(stock, picked) == [] <==> forall i :: 0 <= i < |picked| ==> stock[picked[i]] <= 0
  {
    InStockIs(stock, picked);
    var candidates := InStockOf(stock, picked);
    if candidates != [] {
      assert candidates[0] in candidates;
      var i :| 0 <= i < |picked| && picked[i] == candidates[0];
      assert stock[picked[i]] > 0;
    } else {
      forall i | 0 <= i < |picked| ensures stock[picked[i]] <= 0 {
        assert picked[i] in picked && picked[i] !in candidates;
      }
    }
  }

  /** A turn builds nothing exactly when it tosses a sale and none of the up to three sampled products is in stock. */
  lemma NothingIffNoneInStock(tape: Tape, at: nat, catalog: Catalog, stock: seq<int>)
    requires Distinct(catalog.products) && forall p <- catalog.products :: p < |stock|
    ensures var picked := SampleAt(tape, at + 1, catalog.products, Min(3, |catalog.products|));
            OrderDrawn(tape, at, catalog, stock, Nothing) <==>
              !CoinAt(tape, at) && forall i :: 0 <= i < |picked| && picked[i] < |stock| ==> stock[picked[i]] <= 0
  {
    SamplesAre(tape, at + 1, catalog.products, Min(3, |catalog.products|));
    NoneInStock(stock, SampleAt(tape, at + 1, catalog.products, Min(3, |catalog.products|)));
  }

  /******* Returns and write-offs *******/

  /** The completed ones among the sales from number `first` on. */
  function CompletedSince(sales: seq<SalesOrder>, first: nat): seq<nat> {
    if |sales| <= first then []
    else
      var last := |sales| - 1;
      CompletedSince(sales[..last], first) + if sales[last].completed then [last] else []
  }

  lemma OneMoreSale(sales: seq<SalesOrder>, first: nat, so: SalesOrder)
    requires first <= |sales|
    ensures CompletedSince(sales + [so], first)
         == CompletedSince(sales, first) + if so.completed then [|sales|] else []
  {
    assert (sales + [so])[..|sales|] == sales;
  }

  lemma {:induction false} CompletedSinceAre(sales: seq<SalesOrder>, first: nat)
    ensures forall sale :: sale in CompletedSince(sales, first) <==> first <= sale < |sales| && sales[sale].completed
    ensures Distinct(CompletedSince(sales, first))
  {
    if |sales| > first {
      var last := |sales| - 1;
      CompletedSinceAre(sales[..last], first);
      assert last !in CompletedSince(sales[..last], first);
    }
  }

  /** One in twenty, and at least one when there is any. */
  function Twentieth(n: nat): nat {
    Min(n, Max(1, n / 20))
  }

  /** Which line of the sale, how much of it, and whether the return has been approved. */
  predicate ReturnDrawn(tape: Tape, at: nat, sales: seq<SalesOrder>, sale: nat, note: ReturnNote) {
    && note.sale == sale < |sales| && sales[sale].lines != [] && note.approved == CoinAt(tape, at + 2)
    && var line := sales[sale].lines[IntAt(tape, at, 0, |sales[sale].lines| - 1)];
       note.product == line.product && note.quantity == IntAt(tape, at + 1, 1, line.quantity)
  }

  predicate NotesDrawn(tape: Tape, at: nat, sales: seq<SalesOrder>, picked: seq<nat>, made: seq<ReturnNote>) {
    made != [] ==>
      var n := |made| - 1;
      && NotesDrawn(tape, at, sales, picked, made[..n])
      && n < |picked| && ReturnDrawn(tape, at + 3 * n, sales, picked[n], made[n])
  }

  lemma OneMoreNote(
    tape: Tape, at: nat, sales: seq<SalesOrder>, picked: seq<nat>, made: seq<ReturnNote>, note: ReturnNote)
    requires NotesDrawn(tape, at, sales, picked, made) && |made| < |picked|
    requires ReturnDrawn(tape, at + 3 * |made|, sales, picked[|made|], note)
    ensures NotesDrawn(tape, at, sales, picked, made + [note])
  {
    assert (made + [note])[..|made|] == made;
  }

  lemma {:induction false} NotesAre(
    tape: Tape, at: nat, sales: seq<SalesOrder>, picked: seq<nat>, made: seq<ReturnNote>)
    requires NotesDrawn(tape, at, sales, picked, made)
    ensures |made| <= |picked|
    ensures forall j :: 0 <= j < |made| ==>
              made[j].sale == picked[j] && ReturnDrawn(tape, at + 3 * j, sales, picked[j], made[j])
  {
    if made != [] {
      NotesAre(tape, at, sales, picked, made[..|made| - 1]);
    }
  }

  /** Which of the completed sales have a return, and each one's return. */
  predicate ReturnsDrawn(tape: Tape, at: nat, sales: seq<SalesOrder>, completed: seq<nat>, made: seq<ReturnNote>) {
    && |made| == Twentieth(|completed|)
    && NotesDrawn(tape, at + 1, sales, SampleAt(tape, at, completed, |made|), made)
  }

  /** The number of the draw after `n` returns; without completed sales nothing is drawn. */
  function AfterReturnsAt(at: nat, n: nat): nat {
    if n == 0 then at else at + 1 + 3 * n
  }

  predicate RowsDrawn(tape: Tape, at: nat, stock: seq<int>, picked: seq<nat>, rows: seq<Entry>) {
    rows != [] ==>
      var n := |rows| - 1;
      && RowsDrawn(tape, at, stock, picked, rows[..n])
      && n < |picked|
      && rows[n] == Entry(picked[n], IntAt(tape, at + n, 1, Min(5, StockOf(stock, picked[n]))), Damage, NoRef)
  }

  lemma OneMoreRow(tape: Tape, at: nat, stock: seq<int>, picked: seq<nat>, rows: seq<Entry>, quantity: nat)
    requires RowsDrawn(tape, at, stock, picked, rows) && |rows| < |picked|
    requires quantity == IntAt(tape, at + |rows|, 1, Min(5, StockOf(stock, picked[|rows|])))
    ensures RowsDrawn(tape, at, stock, picked, rows + [Entry(picked[|rows|], quantity, Damage, NoRef)])
  {
    assert (rows + [Entry(picked[|rows|], quantity, Damage, NoRef)])[..|rows|] == rows;
  }

  lemma {:induction false} RowsAre(tape: Tape, at: nat, stock: seq<int>, picked: seq<nat>, rows: seq<Entry>)
    requires RowsDrawn(tape, at, stock, picked, rows)
    ensures |rows| <= |picked|
    ensures forall j :: 0 <= j < |rows| ==>
              rows[j] == Entry(picked[j], IntAt(tape, at + j, 1, Min(5, StockOf(stock, picked[j]))), Damage, NoRef)
  {
    if rows != [] {
      RowsAre(tape, at, stock, picked, rows[..|rows| - 1]);
    }
  }

  /** Which of the products in stock are damaged, and one to five units of each. */
  predicate WriteOffsDrawn(
    tape: Tape, at: nat, stock: seq<int>, products: seq<nat>, count: nat, rows: seq<Entry>)
  {
    var candidates := InStockOf(stock, products);
    && |rows| == Min(count, |candidates|)
    && RowsDrawn(tape, at + 1, stock, SampleAt(tape, at, candidates, |rows|), rows)
  }

  /******* Everything the orders command generates *******/

  /** From the opening database, draw number `at` on: what the order loop builds, then returns of the completed sales,
      then write-offs. */
  ghost predicate Generated(
    tape: Tape, at: nat, catalog: Catalog, opening: Store, count: nat,
    orders: seq<Order>, made: seq<ReturnNote>, writeOffs: seq<Entry>, after: Store)
  {
    var loop, next, damaged := AfterOrders(opening, orders), AfterDraws(at, orders), Max(1, count / 40);
    && |orders| == count && OrdersDrawn(tape, at, catalog, opening, orders)
    && ReturnsDrawn(tape, next, loop.sales, CompletedSince(loop.sales, |opening.sales|), made)
    && NotesFit(made, |loop.stock|)
    && var returned := AfterReturns(loop, made);
    && WriteOffsDrawn(tape, AfterReturnsAt(next, |made|), returned.stock, catalog.products, damaged, writeOffs)
    && RowsFit(writeOffs, |returned.stock|)
    && after == AfterWriteOffs(returned, writeOffs)
  }

  /** One turn for each order, one return for every twenty completed sales but at least one, and one write-off for every
      forty orders but at least one, as far as there are sales and products in stock. */
  lemma HowMuchIsGenerated(
    tape: Tape, at: nat, catalog: Catalog, opening: Store, count: nat,
    orders: seq<Order>, made: seq<ReturnNote>, writeOffs: seq<Entry>, after: Store)
    requires Generated(tape, at, catalog, opening, count, orders, made, writeOffs, after)
    ensures |orders| == count
    ensures var sold := |CompletedSince(after.sales, |opening.sales|)|;
            |made| == if sold == 0 then 0 else if sold < 40 then 1 else sold / 20
    ensures var inStock := InStockOf(Approved(AfterOrders(opening, orders).stock, made), catalog.products);
            |writeOffs| == if |inStock| <= count / 40 then |inStock|
                           else if |inStock| == 0 then 0
                           else if count < 80 then 1 else count / 40
  {
  }
}
