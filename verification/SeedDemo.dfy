/**
 The demo-data generator. Every random draw may come out anyhow within its range, and whatever is drawn, the rows
 added to the database are those the real endpoints would have left behind, starting from the opening purchases.
 */
module SeedDemo {
  import opened Sums
  import opened Ledger
  import opened Endpoints
  import opened History
  import opened Conservation
  import opened Guarantees
  import opened InventoryViews
  import opened Reports
  import opened Tasks
  import opened SeedRuns
  import opened SeedDraws

  const NUM_SUPPLIERS: nat := 20

  class Seeder {
    /** The database before the command. */
    const base: Store
    /** The random source, and the number of the next draw. */
    const tape: Tape
    var drawn: nat
    /** The generated products, and each one's supplier. */
    var products: seq<nat>
    var supplierOf: map<nat, nat>
    /** `current_stock` of the product rows. */
    var currentStock: seq<int>
    /** The running `stock` dictionary, together with the stock of the products it does not hold. */
    var stock: seq<int>
    var active: seq<bool>
    var suppliers: seq<bool>
    var purchases: seq<PurchaseOrder>
    var sales: seq<SalesOrder>
    var notes: seq<ReturnNote>
    var transactions: seq<Entry>

    /** The database as it would be saved now. */
    function View(): Store
      reads `stock, `active, `suppliers, `purchases, `sales, `notes, `transactions
    {
      Store(stock, active, suppliers, purchases, sales, notes, transactions)
    }

    ghost function Products(): Catalog
      reads `products, `supplierOf
    {
      Catalog(products, supplierOf)
    }

    /** The generated products exist, are active, and have active suppliers. */
    ghost predicate Ready()
      reads `products, `supplierOf, `stock, `active, `suppliers
    {
      && Distinct(products) && |active| == |stock|
      && forall p <- products ::
           && p < |stock| && active[p]
           && p in supplierOf && supplierOf[p] < |suppliers| && suppliers[supplierOf[p]]
    }

    constructor (db: Store, tape: Tape)
      ensures base == View() == db && currentStock == db.stock && this.tape == tape && drawn == 0
    {
      base, this.tape, drawn, products, supplierOf := db, tape, 0, [], map[];
      currentStock, stock, active, suppliers := db.stock, db.stock, db.active, db.suppliers;
      purchases, sales, notes, transactions := db.purchases, db.sales, db.notes, db.ledger;
    }

    /******* Random draws *******/

    /** `rng.randint`: raises on an empty range, so no caller may pass one. */
    method RandInt(low: int, high: int) returns (r: int)
      requires low <= high
      modifies `drawn
      ensures low <= r <= high && r == IntAt(tape, old(drawn), low, high) && drawn == old(drawn) + 1
    {
      r := IntAt(tape, drawn, low, high);
      drawn := drawn + 1;
    }

    method Toss() returns (heads: bool)
      modifies `drawn
      ensures heads == CoinAt(tape, old(drawn)) && drawn == old(drawn) + 1
    {
      heads := CoinAt(tape, drawn);
      drawn := drawn + 1;
    }

    /** `rng.sample`: raises when asked for more than there are. */
    method Sample(population: seq<nat>, k: nat) returns (picked: seq<nat>)
      requires k <= |population| && Distinct(population)
      modifies `drawn
      ensures picked == SampleAt(tape, old(drawn), population, k) && drawn == old(drawn) + 1
      ensures |picked| == k && Among(picked, population) && Distinct(picked)
    {
      picked := SampleAt(tape, drawn, population, k);
      SamplesAre(tape, drawn, population, k);
      drawn := drawn + 1;
    }

    /******* The command *******/

    /** The whole command. With demo data present it does nothing; else it generates what is drawn, one turn per order,
        or raises in the turn after `orders` and then leaves nothing behind. A sound database stays sound. */
    method Handle(numProducts: nat, numOrders: nat, present: bool)
      returns (ok: bool, ghost units: seq<int>, ghost orders: seq<Order>, ghost made: seq<ReturnNote>,
               ghost writeOffs: seq<Entry>)
      requires View() == base && currentStock == stock && WellFormed(base)
      modifies this
      ensures present ==> ok
      ensures present || !ok ==> View() == base
      ensures !present ==>
                ProductsDrawn(tape, old(drawn), |base.stock|, |base.suppliers|, numProducts, Products(), units)
      ensures !present ==>
                && (forall u <- units :: u >= 0)
                && var at, opening := old(drawn) + 2 * numProducts, Opening(base, units);
                   if ok then Generated(tape, at, Products(), opening, numOrders, orders, made, writeOffs, View())
                   else |orders| < numOrders && RaisesAfter(tape, at, Products(), opening, orders)
      ensures numOrders == 0 || numProducts >= 3 ==> ok
      ensures !present && ok ==> |stock| == |base.stock| + numProducts && currentStock == stock
      ensures ok ==> WellFormed(View()) && (NonNegative(base) ==> NonNegative(View()))
      ensures ok && Sound(base) ==> Sound(View())
      ensures ok ==> notes == base.notes + made && OnePerSale(made) && ReturnsFit(sales, made)
    {
      ok, units, orders, made, writeOffs := true, [], [], [], [];
      if present {
        assert notes == base.notes + [];
      } else {
        ghost var events;
        ok, units, orders, made, writeOffs, events := SeedData(numProducts, numOrders);
        if ok {
          GeneratedRowsAreSound(base, units, events, View());
        } else {
          RollBack();
        }
      }
    }

    /** The command's transaction, as far as it gets. */
    method SeedData(numProducts: nat, numOrders: nat)
      returns (ok: bool, ghost units: seq<int>, ghost orders: seq<Order>, ghost made: seq<ReturnNote>,
               ghost writeOffs: seq<Entry>, ghost events: seq<Event>)
      requires View() == base && currentStock == stock && WellFormed(base)
      modifies this
      ensures ProductsDrawn(tape, old(drawn), |base.stock|, |base.suppliers|, numProducts, Products(), units)
      ensures forall u <- units :: u >= 0
      ensures var at, opening := old(drawn) + 2 * numProducts, Opening(base, units);
              if ok then Generated(tape, at, Products(), opening, numOrders, orders, made, writeOffs, View())
              else |orders| < numOrders && RaisesAfter(tape, at, Products(), opening, orders)
      ensures ok ==> Effect(Opening(base, units), events, View()) && currentStock == stock
      ensures ok ==> notes == base.notes + made && OnePerSale(made) && ReturnsFit(sales, made)
    {
      units := SeedReferenceData(numProducts);
      ghost var at, catalog, opening := old(drawn) + 2 * numProducts, Products(), Opening(base, units);
      ok, orders, made, writeOffs, events := SeedOrders(numOrders, units);
      if ok {
        assert Generated(tape, at, catalog, opening, numOrders, orders, made, writeOffs, View());
      } else {
        assert RaisesAfter(tape, at, catalog, opening, orders);
      }
    }

    /** The command runs in one transaction: an exception leaves nothing behind. */
    method RollBack()
      modifies `currentStock, `stock, `active, `suppliers, `purchases, `sales, `notes, `transactions
      ensures View() == base && currentStock == stock
    {
      currentStock, stock, active, suppliers := base.stock, base.stock, base.active, base.suppliers;
      purchases, sales, notes, transactions := base.purchases, base.sales, base.notes, base.ledger;
    }

    /** The suppliers and the products. */
    method SeedReferenceData(count: nat) returns (ghost units: seq<int>)
      requires View() == base && currentStock == stock && |base.active| == |base.stock|
      modifies `drawn, `products, `supplierOf, `currentStock, `stock, `active, `suppliers
      ensures ProductsDrawn(tape, old(drawn), |base.stock|, |base.suppliers|, count, Products(), units)
      ensures Ready() && currentStock == stock == base.stock + units && forall u <- units :: u >= 0
      ensures products == Numbers(|base.stock|, |units|) && drawn == old(drawn) + 2 * count
      ensures View() == base.(stock := stock, active := base.active + AllActive(|units|),
                              suppliers := base.suppliers + AllActive(NUM_SUPPLIERS))
    {
      SeedSuppliers();
      units := SeedProducts(count);
    }

    method SeedSuppliers()
      modifies `suppliers
      ensures suppliers == old(suppliers) + AllActive(NUM_SUPPLIERS)
    {
      suppliers := suppliers + AllActive(NUM_SUPPLIERS);
    }

    /** New active products with 50 to 500 units each, of the new suppliers. */
    method SeedProducts(count: nat) returns (ghost units: seq<int>)
      requires View() == base.(suppliers := suppliers) && |base.active| == |base.stock|
      requires suppliers == base.suppliers + AllActive(NUM_SUPPLIERS)
      modifies `drawn, `products, `supplierOf, `currentStock, `stock, `active
      ensures ProductsDrawn(tape, old(drawn), |base.stock|, |base.suppliers|, count, Products(), units)
      ensures Ready() && currentStock == stock == base.stock + units && forall u <- units :: u >= 0
      ensures active == base.active + AllActive(count) && drawn == old(drawn) + 2 * count
    {
      products, supplierOf, units := [], map[], [];
      for i := 0 to count
        invariant products == Numbers(|base.stock|, i) && active == base.active && |units| == i
        invariant stock == base.stock + units && drawn == old(drawn) + 2 * i
        invariant forall j :: 0 <= j < i ==> units[j] == IntAt(tape, old(drawn) + 2 * j, 50, 500)
        invariant forall p <- products ::
                    && p in supplierOf
                    && supplierOf[p] == |base.suppliers|
                                        + IntAt(tape, old(drawn) + 2 * (p - |base.stock|) + 1, 0, 19)
      {
        var quantity := RandInt(50, 500);
        var supplier := RandInt(0, NUM_SUPPLIERS - 1);
        supplierOf := supplierOf[|stock| := |base.suppliers| + supplier];
        assert Numbers(|base.stock|, i + 1) == Numbers(|base.stock|, i) + [|stock|];
        products := products + [|stock|];
        stock := stock + [quantity];
        units := units + [quantity];
      }
      active := active + AllActive(count);
      currentStock := stock;
    }

    /******* The builders *******/

    /** One to three products, received or not; fails when the sample is too large. */
    method BuildPurchaseOrder(id: nat) returns (ok: bool, po: PurchaseOrder, txns: seq<Entry>)
      requires Ready()
      modifies `stock, `drawn
      ensures |stock| == old(|stock|)
      ensures ok <==> IntAt(tape, old(drawn), 1, 3) <= |products|
      ensures ok ==>
                && PurchaseDrawn(tape, old(drawn), Products(), po)
                && drawn == old(drawn) + 3 + |po.lines|
                && po.supplier < |suppliers| && suppliers[po.supplier]
                && LinesAccepted(po.lines, active) && DistinctProducts(po.lines)
                && stock == (if po.received then Restocked(old(stock), po.lines) else old(stock))
                && txns == if po.received then Rows(po.lines, Purchase, PurchaseRef(id)) else []
    {
      var k := RandInt(1, 3);
      if k > |products| {
        return false, PurchaseOrder(0, [], false), [];
      }
      var supplierItems := Sample(products, k);
      assert supplierItems[0] in products;
      var received := Toss();
      var items;
      ghost var at := drawn;
      items, txns := PurchaseLines(supplierItems, received, id);
      PurchaseLinesOk(tape, at, active, supplierItems, items);
      ok, po := true, PurchaseOrder(supplierOf[supplierItems[0]], items, received);
    }

    /** One line of 5 to 100 units per picked product, put into stock when the order is received. */
    method PurchaseLines(supplierItems: seq<nat>, received: bool, id: nat) returns (items: seq<Line>, txns: seq<Entry>)
      requires forall p <- supplierItems :: p < |stock|
      modifies `stock, `drawn
      ensures |stock| == old(|stock|) && drawn == old(drawn) + |items|
      ensures |items| == |supplierItems| && PurchaseLinesDrawn(tape, old(drawn), supplierItems, items)
      ensures stock == if received then Restocked(old(stock), items) else old(stock)
      ensures txns == if received then Rows(items, Purchase, PurchaseRef(id)) else []
    {
      items, txns := [], [];
      for i := 0 to |supplierItems|
        invariant |stock| == old(|stock|) && drawn == old(drawn) + i
        invariant |items| == i && PurchaseLinesDrawn(tape, old(drawn), supplierItems, items)
        invariant received ==> stock == Restocked(old(stock), items) && txns == Rows(items, Purchase, PurchaseRef(id))
        invariant !received ==> stock == old(stock) && txns == []
      {
        var p := supplierItems[i];
        assert p in supplierItems;
        var quantity := RandInt(5, 100);
        RestockedSnoc(old(stock), items, Line(p, quantity));
        RowsMore(items, Line(p, quantity), Purchase, PurchaseRef(id));
        assert (items + [Line(p, quantity)])[..i] == items;
        items := items + [Line(p, quantity)];
        if received {
          stock := stock[p := stock[p] + quantity];
          txns := txns + [Entry(p, quantity, Purchase, PurchaseRef(id))];
        }
      }
    }

    /** Up to three products in stock, at most five of each; nothing exactly when none of the sample is in stock. */
    method BuildSalesOrder(id: nat) returns (built: bool, so: SalesOrder, txns: seq<Entry>)
      requires Ready()
      modifies `stock, `drawn
      ensures |stock| == old(|stock|)
      ensures var candidates := CandidatesAt(tape, old(drawn), old(stock), products);
              && (built <==> candidates != [])
              && (!built ==> stock == old(stock) && drawn == old(drawn) + 1)
              && (built ==>
                    && SaleDrawn(tape, old(drawn) + 1, old(stock), candidates, so)
                    && drawn == old(drawn) + 2 + |so.lines|)
      ensures built ==>
                && LinesAccepted(so.lines, active) && DistinctProducts(so.lines)
                && CanFulfil(old(stock), so.lines)
                && stock == (if so.completed then Deducted(old(stock), so.lines) else old(stock))
                && txns == if so.completed then Rows(so.lines, Sale, SaleRef(id)) else []
    {
      so, txns := SalesOrder([], false), [];
      var candidates := Candidates();
      if candidates == [] {
        return false, so, [];
      }
      var completed := Toss();
      var items;
      ghost var at := drawn;
      items, txns := SaleLines(candidates, completed, id);
      SaleLinesOk(tape, at, old(stock), active, candidates, items);
      built, so := true, SalesOrder(items, completed);
    }

    /** The up to three sampled products that are in stock. */
    method Candidates() returns (candidates: seq<nat>)
      requires Ready()
      modifies `drawn
      ensures candidates == CandidatesAt(tape, old(drawn), stock, products) && drawn == old(drawn) + 1
      ensures Distinct(candidates) && forall p <- candidates :: p < |active| && active[p] && p < |stock| && stock[p] > 0
    {
      var picked := Sample(products, if |products| < 3 then |products| else 3);
      assert forall p <- picked :: p in products;
      candidates := InStock(picked);
    }

    /** One line per candidate of one to five units it has, taken out of stock when the order is completed. */
    method SaleLines(candidates: seq<nat>, completed: bool, id: nat) returns (items: seq<Line>, txns: seq<Entry>)
      requires Distinct(candidates) && forall p <- candidates :: p < |stock| && stock[p] > 0
      modifies `stock, `drawn
      ensures |stock| == old(|stock|) && drawn == old(drawn) + |items|
      ensures |items| == |candidates| && SaleLinesDrawn(tape, old(drawn), old(stock), candidates, items)
      ensures stock == if completed then Deducted(old(stock), items) else old(stock)
      ensures txns == if completed then Rows(items, Sale, SaleRef(id)) else []
    {
      items, txns := [], [];
      for i := 0 to |candidates|
        invariant |stock| == old(|stock|) && drawn == old(drawn) + i
        invariant |items| == i && SaleLinesDrawn(tape, old(drawn), old(stock), candidates, items)
        invariant completed ==> stock == Deducted(old(stock), items) && txns == Rows(items, Sale, SaleRef(id))
        invariant !completed ==> stock == old(stock) && txns == []
      {
        var p := candidates[i];
        assert p in candidates;
        StillInStock(tape, old(drawn), old(stock), items, candidates);
        var available := stock[p];
        assert available == old(stock)[p] > 0;
        var quantity := RandInt(1, if available < 5 then available else 5);
        DeductedSnoc(old(stock), items, Line(p, quantity));
        RowsMore(items, Line(p, quantity), Sale, SaleRef(id));
        OneMoreSaleLine(tape, old(drawn), old(stock), candidates, items, quantity);
        items := items + [Line(p, quantity)];
        if completed {
          stock := stock[p := stock[p] - quantity];
          txns := txns + [Entry(p, quantity, Sale, SaleRef(id))];
        }
      }
    }

    /** Keeps exactly the picked products that are in stock. */
    method InStock(picked: seq<nat>) returns (candidates: seq<nat>)
      requires Distinct(picked) && forall p <- picked :: p < |stock|
      ensures candidates == InStockOf(stock, picked)
      ensures Distinct(candidates) && forall p :: p in candidates <==> p in picked && p < |stock| && stock[p] > 0
    {
      candidates := [];
      for i := 0 to |picked|
        invariant candidates == InStockOf(stock, picked[..i])
      {
        assert picked[i] in picked;
        assert picked[..i + 1][..i] == picked[..i];
        if stock[picked[i]] > 0 {
          candidates := candidates + [picked[i]];
        }
      }
      assert picked[..|picked|] == picked;
      InStockIs(stock, picked);
    }

    /** Exactly the generated sales that are completed, each once; every generated sale has lines of known products. */
    ghost predicate CompletedOnes(completedSales: seq<nat>)
      reads `sales, `stock
    {
      && |base.sales| <= |sales| && completedSales == CompletedSince(sales, |base.sales|)
      && forall i :: |base.sales| <= i < |sales| ==> sales[i].lines != [] && LinesFit(sales[i].lines, |stock|)
    }

    /** One in twenty completed sales, and at least one, gets one return of one of its lines. */
    method BuildReturns(completedSales: seq<nat>) returns (made: seq<ReturnNote>, txns: seq<Entry>)
      requires CompletedOnes(completedSales)
      modifies `stock, `drawn
      ensures ReturnsDrawn(tape, old(drawn), sales, completedSales, made) && drawn == AfterReturnsAt(old(drawn), |made|)
      ensures OnePerSale(made) && ReturnsFit(sales, made) && NotesFit(made, |stock|)
      ensures forall i :: 0 <= i < |made| ==> made[i].sale >= |base.sales|
      ensures |stock| == old(|stock|) && stock == Approved(old(stock), made) && txns == ApprovalRows(|notes|, made)
    {
      made, txns := [], [];
      if completedSales == [] {
        return;
      }
      CompletedSinceAre(sales, |base.sales|);
      var twentieth := if |completedSales| / 20 > 1 then |completedSales| / 20 else 1;
      var picked := Sample(completedSales, if |completedSales| < twentieth then |completedSales| else twentieth);
      forall sale | sale in picked ensures |base.sales| <= sale < |sales| && sales[sale].completed {
        assert sale in completedSales;
      }
      ghost var at := drawn;
      made, txns := ReturnsOf(picked);
      NotesAre(tape, at, sales, picked, made);
      forall i | 0 <= i < |made| ensures made[i].sale >= |base.sales| {
        assert picked[i] in picked;
      }
    }

    /** One return for each picked sale, put back into stock when approved. */
    method ReturnsOf(picked: seq<nat>) returns (made: seq<ReturnNote>, txns: seq<Entry>)
      requires forall sale <- picked ::
                 && sale < |sales| && sales[sale].completed
                 && sales[sale].lines != [] && LinesFit(sales[sale].lines, |stock|)
      modifies `stock, `drawn
      ensures |made| == |picked| && drawn == old(drawn) + 3 * |made|
      ensures NotesDrawn(tape, old(drawn), sales, picked, made)
      ensures ReturnsFit(sales, made) && NotesFit(made, |stock|)
      ensures |stock| == old(|stock|) && stock == Approved(old(stock), made) && txns == ApprovalRows(|notes|, made)
    {
      made, txns := [], [];
      for i := 0 to |picked|
        invariant |made| == i && drawn == old(drawn) + 3 * i
        invariant NotesDrawn(tape, old(drawn), sales, picked, made)
        invariant |stock| == old(|stock|) && ReturnsFit(sales, made) && NotesFit(made, old(|stock|))
        invariant stock == Approved(old(stock), made) && txns == ApprovalRows(|notes|, made)
      {
        assert picked[i] in picked;
        var note, rows := ReturnOne(picked[i], |notes| + i);
        OneMoreReturn(sales, old(stock), |notes|, made, note);
        OneMoreNote(tape, old(drawn), sales, picked, made, note);
        made, txns := made + [note], txns + rows;
      }
    }

    /** A return of the sale, put back into stock when approved. */
    method ReturnOne(sale: nat, id: nat) returns (note: ReturnNote, rows: seq<Entry>)
      requires sale < |sales| && sales[sale].lines != [] && LinesFit(sales[sale].lines, |stock|)
      modifies `stock, `drawn
      ensures ReturnDrawn(tape, old(drawn), sales, sale, note) && drawn == old(drawn) + 3
      ensures note.sale == sale && WithinALine(sales, note) && note.product < old(|stock|)
      ensures stock == if note.approved then old(stock)[note.product := old(stock[note.product]) + note.quantity]
                       else old(stock)
      ensures rows == if note.approved then [Entry(note.product, note.quantity, Return, ReturnRef(id))] else []
    {
      note := DrawReturn(sale);
      rows := PutBack(note, id);
    }

    /** The stock and the ledger row of an approved return; nothing for a pending one. */
    method PutBack(note: ReturnNote, id: nat) returns (rows: seq<Entry>)
      requires note.product < |stock|
      modifies `stock
      ensures stock == if note.approved then old(stock)[note.product := old(stock[note.product]) + note.quantity]
                       else old(stock)
      ensures rows == if note.approved then [Entry(note.product, note.quantity, Return, ReturnRef(id))] else []
    {
      rows := [];
      if note.approved {
        stock := stock[note.product := stock[note.product] + note.quantity];
        rows := [Entry(note.product, note.quantity, Return, ReturnRef(id))];
      }
    }

    /** A return of one of the sale's lines, approved or not. */
    method DrawReturn(sale: nat) returns (note: ReturnNote)
      requires sale < |sales| && sales[sale].lines != [] && LinesFit(sales[sale].lines, |stock|)
      modifies `drawn
      ensures ReturnDrawn(tape, old(drawn), sales, sale, note) && drawn == old(drawn) + 3
      ensures note.sale == sale && WithinALine(sales, note) && note.product < |stock|
    {
      var choice := RandInt(0, |sales[sale].lines| - 1);
      var item := sales[sale].lines[choice];
      assert item in sales[sale].lines;
      var quantity := RandInt(1, item.quantity);
      var approved := Toss();
      note := ReturnNote(sale, item.product, quantity, approved);
    }

    /** Writes off up to five units of some generated products in stock. */
    method BuildDamage(count: nat) returns (txns: seq<Entry>)
      requires Ready()
      modifies `stock, `drawn
      ensures WriteOffsDrawn(tape, old(drawn), old(stock), products, count, txns)
      ensures |stock| == old(|stock|) && RowsFit(txns, |stock|) && ActiveRows(active, txns)
      ensures WriteOffs(old(stock), txns) && stock == WrittenOff(old(stock), txns)
    {
      var picked := Damaged(count);
      txns := DamageOf(picked);
    }

    /** Which of the generated products in stock to write off. */
    method Damaged(count: nat) returns (picked: seq<nat>)
      requires Ready()
      modifies `drawn
      ensures var candidates := InStockOf(stock, products);
              |picked| == Min(count, |candidates|) && picked == SampleAt(tape, old(drawn), candidates, |picked|)
      ensures drawn == old(drawn) + 1
      ensures Distinct(picked) && forall p <- picked :: p < |stock| && stock[p] > 0 && active[p]
    {
      var candidates := InStock(products);
      picked := Sample(candidates, if count < |candidates| then count else |candidates|);
      forall p | p in picked ensures p < |stock| && stock[p] > 0 && active[p] {
        assert p in candidates && p in products;
      }
    }

    /** One write-off of one to five units for each picked product. */
    method DamageOf(picked: seq<nat>) returns (txns: seq<Entry>)
      requires Distinct(picked) && |active| == |stock|
      requires forall p <- picked :: p < |stock| && stock[p] > 0 && active[p]
      modifies `stock, `drawn
      ensures |txns| == |picked| && RowsDrawn(tape, old(drawn), old(stock), picked, txns)
      ensures |stock| == old(|stock|) && RowsFit(txns, |stock|) && ActiveRows(active, txns)
      ensures WriteOffs(old(stock), txns) && stock == WrittenOff(old(stock), txns)
    {
      txns := [];
      for i := 0 to |picked|
        invariant |txns| == i && drawn == old(drawn) + i && RowsDrawn(tape, old(drawn), old(stock), picked, txns)
        invariant |stock| == old(|stock|) && RowsFit(txns, |stock|) && ActiveRows(active, txns)
        invariant WriteOffs(old(stock), txns) && stock == WrittenOff(old(stock), txns)
      {
        assert picked[i] in picked;
        NotYetDamaged(tape, old(drawn), old(stock), picked, txns);
        var row := DamageOne(picked[i]);
        OneMoreRow(tape, old(drawn), old(stock), picked, txns, row.quantity);
        OneMoreFits(active, |stock|, txns, row);
        OneMoreWriteOff(old(stock), txns, row, txns + [row]);
        txns := txns + [row];
      }
    }

    method DamageOne(p: nat) returns (row: Entry)
      requires p < |stock| && stock[p] > 0
      modifies `stock, `drawn
      ensures row == Entry(p, IntAt(tape, old(drawn), 1, Min(5, old(stock)[p])), Damage, NoRef)
      ensures stock == old(stock)[p := old(stock)[p] - row.quantity] && drawn == old(drawn) + 1
    {
      var quantity := RandInt(1, if stock[p] < 5 then stock[p] else 5);
      stock := stock[p := stock[p] - quantity];
      row := Entry(p, quantity, Damage, NoRef);
    }

    /** One purchase row per generated product that starts with stock. */
    method OpeningRows() returns (rows: seq<Entry>)
      requires |base.stock| <= |currentStock| && products == Numbers(|base.stock|, |currentStock| - |base.stock|)
      requires forall p <- products :: currentStock[p] >= 0
      ensures rows == OpeningLedger(|base.stock|, currentStock[|base.stock|..], |products|)
    {
      rows := [];
      ghost var units := currentStock[|base.stock|..];
      for i := 0 to |products|
        invariant rows == OpeningLedger(|base.stock|, units, i)
      {
        var p := products[i];
        assert p in products && units[i] == currentStock[p];
        if currentStock[p] > 0 {
          rows := rows + [Entry(p, currentStock[p], Purchase, NoRef)];
        }
      }
    }

    /******* The order loop *******/

    /** One turn of the order loop: a purchase order, a sales order or nothing, as it is drawn, saved to the lists. */
    method SeedOne(completedSales: seq<nat>) returns (ok: bool, completed: seq<nat>, ghost order: Order)
      requires Ready() && CompletedOnes(completedSales)
      modifies `stock, `drawn, `purchases, `sales, `transactions
      ensures |stock| == old(|stock|)
      ensures ok <==> !Overdraws(tape, old(drawn), products)
      ensures ok ==> OrderDrawn(tape, old(drawn), Products(), old(stock), order) && drawn == NextAt(old(drawn), order)
      ensures ok ==> Drawable(old(View()), order) && View() == AfterOrder(old(View()), order)
      ensures ok ==> CompletedOnes(completed)
    {
      var coin := Toss();
      if coin {
        completed := completedSales;
        ok, order := SeedPurchase();
      } else {
        ok := true;
        completed, order := SeedSale(completedSales);
      }
    }

    method SeedPurchase() returns (ok: bool, ghost order: Order)
      requires Ready()
      modifies `stock, `drawn, `purchases, `transactions
      ensures |stock| == old(|stock|)
      ensures ok <==> IntAt(tape, old(drawn), 1, 3) <= |products|
      ensures ok ==> order.Bought? && PurchaseDrawn(tape, old(drawn), Products(), order.po)
      ensures ok ==> Drawable(old(View()), order) && View() == AfterOrder(old(View()), order)
      ensures ok ==> drawn == old(drawn) + 3 + |order.po.lines|
    {
      var po, txns;
      ok, po, txns := BuildPurchaseOrder(|purchases|);
      order := Bought(po);
      if ok {
        purchases := purchases + [po];
        transactions := transactions + txns;
      }
    }

    method SeedSale(completedSales: seq<nat>) returns (completed: seq<nat>, ghost order: Order)
      requires Ready() && CompletedOnes(completedSales)
      modifies `stock, `drawn, `sales, `transactions
      ensures |stock| == old(|stock|) && CompletedOnes(completed)
      ensures var candidates := CandidatesAt(tape, old(drawn), old(stock), products);
              if candidates == [] then order == Nothing && drawn == old(drawn) + 1
              else
                && order.Sold? && SaleDrawn(tape, old(drawn) + 1, old(stock), candidates, order.so)
                && drawn == old(drawn) + 2 + |order.so.lines|
      ensures Drawable(old(View()), order) && View() == AfterOrder(old(View()), order)
    {
      completed, order := completedSales, Nothing;
      var built, so, txns := BuildSalesOrder(|sales|);
      if built {
        transactions := transactions + txns;
        order := Sold(so);
        completed := SaveSale(so, completedSales);
      }
    }

    /** A built sale goes to the lists. */
    method SaveSale(so: SalesOrder, completedSales: seq<nat>) returns (completed: seq<nat>)
      requires CompletedOnes(completedSales) && so.lines != [] && LinesFit(so.lines, |stock|)
      modifies `sales
      ensures sales == old(sales) + [so] && CompletedOnes(completed)
    {
      OneMoreSale(sales, |base.sales|, so);
      sales := sales + [so];
      completed := completedSales;
      if so.completed {
        completed := completedSales + [|sales| - 1];
      }
    }

    /** The opening purchases, then the order loop, then returns and damage; fails exactly where the loop does. */
    method SeedOrders(count: nat, ghost units: seq<int>)
      returns (ok: bool, ghost orders: seq<Order>, ghost made: seq<ReturnNote>, ghost writeOffs: seq<Entry>,
               ghost events: seq<Event>)
      requires Ready() && WellFormed(base) && currentStock == stock == base.stock + units
      requires products == Numbers(|base.stock|, |units|) && forall n <- units :: n >= 0
      requires View() == base.(stock := stock, active := base.active + AllActive(|units|),
                               suppliers := base.suppliers + AllActive(NUM_SUPPLIERS))
      modifies `stock, `currentStock, `drawn, `purchases, `sales, `notes, `transactions
      ensures var opening := Opening(base, units);
              if ok then Generated(tape, old(drawn), Products(), opening, count, orders, made, writeOffs, View())
              else |orders| < count && RaisesAfter(tape, old(drawn), Products(), opening, orders)
      ensures ok ==> Effect(Opening(base, units), events, View()) && currentStock == stock
      ensures ok ==> notes == base.notes + made && OnePerSale(made) && ReturnsFit(sales, made)
    {
      OpeningIsWellFormed(base, units);
      SaveOpening(units);
      var completedSales;
      ok, completedSales, orders, events := OrderLoop(count, View());
      made, writeOffs := [], [];
      if ok {
        ghost var before := View();
        made, writeOffs := Finish(completedSales, if count / 40 > 1 then count / 40 else 1);
        NoReturnsYet(base, made);
        events := LastSteps(Opening(base, units), events, before, made, writeOffs);
      }
    }

    /** The ledger rows behind the generated products' stock. */
    method SaveOpening(ghost units: seq<int>)
      requires currentStock == stock == base.stock + units && forall n <- units :: n >= 0
      requires products == Numbers(|base.stock|, |units|)
      requires View() == base.(stock := stock, active := base.active + AllActive(|units|),
                               suppliers := base.suppliers + AllActive(NUM_SUPPLIERS))
      modifies `transactions
      ensures View() == Opening(base, units)
    {
      assert currentStock[|base.stock|..] == units;
      forall p | p in products ensures currentStock[p] >= 0 {
        assert units[p - |base.stock|] in units;
      }
      var opening := OpeningRows();
      transactions := transactions + opening;
    }

    /** The loop takes `count` turns, or raises in the turn after `orders`. */
    method OrderLoop(count: nat, ghost start: Store)
      returns (ok: bool, completedSales: seq<nat>, ghost orders: seq<Order>, ghost events: seq<Event>)
      requires Ready() && start == View() && WellFormed(start) && sales == base.sales
      modifies `stock, `drawn, `purchases, `sales, `transactions
      ensures |stock| == old(|stock|)
      ensures if ok then |orders| == count && OrdersDrawn(tape, old(drawn), Products(), start, orders)
              else |orders| < count && RaisesAfter(tape, old(drawn), Products(), start, orders)
      ensures ok ==> View() == AfterOrders(start, orders) && drawn == AfterDraws(old(drawn), orders)
      ensures ok ==> Effect(start, events, View()) && CompletedOnes(completedSales)
    {
      ok, completedSales, orders, events := true, [], [], [];
      for n := 0 to count
        invariant ok && Ready() && |stock| == old(|stock|) && |orders| == n
        invariant OrdersDrawn(tape, old(drawn), Products(), start, orders)
        invariant View() == AfterOrders(start, orders) && drawn == AfterDraws(old(drawn), orders)
        invariant Effect(start, events, View()) && CompletedOnes(completedSales)
      {
        ghost var before, order := View(), Nothing;
        ok, completedSales, order := SeedOne(completedSales);
        if !ok {
          return;
        }
        OneMoreOrder(tape, old(drawn), Products(), start, orders, order);
        orders := orders + [order];
        events := AnotherOrder(start, events, before, order);
      }
    }

    /** Returns, damage, and the running stock saved back to the product rows. */
    method Finish(completedSales: seq<nat>, damageCount: nat)
      returns (ghost made: seq<ReturnNote>, ghost writeOffs: seq<Entry>)
      requires Ready() && CompletedOnes(completedSales)
      modifies `stock, `currentStock, `drawn, `notes, `transactions
      ensures |stock| == old(|stock|) && currentStock == stock && notes == old(notes) + made
      ensures ReturnsDrawn(tape, old(drawn), sales, completedSales, made)
      ensures NotesFit(made, |stock|) && ReturnsFit(sales, made) && OnePerSale(made)
      ensures forall i :: 0 <= i < |made| ==> made[i].sale >= |base.sales|
      ensures WriteOffsDrawn(
                tape, AfterReturnsAt(old(drawn), |made|), Approved(old(stock), made), products, damageCount, writeOffs)
      ensures RowsFit(writeOffs, |stock|) && ActiveRows(active, writeOffs)
      ensures WriteOffs(Approved(old(stock), made), writeOffs)
      ensures View() == AfterWriteOffs(AfterReturns(old(View()), made), writeOffs)
    {
      var returned, returnTxns := BuildReturns(completedSales);
      var damageTxns := BuildDamage(damageCount);
      notes := notes + returned;
      transactions := transactions + returnTxns + damageTxns;
      currentStock := stock;
      made, writeOffs := returned, damageTxns;
    }
  }

  lemma NoReturnsYet(base: Store, made: seq<ReturnNote>)
    requires WellFormed(base) && forall i :: 0 <= i < |made| ==> made[i].sale >= |base.sales|
    ensures NewSales(base.notes, made)
  {
    forall i, j | 0 <= i < |base.notes| && 0 <= j < |made| ensures base.notes[i].sale != made[j].sale {
      assert base.notes[i] in base.notes;
    }
  }

  /******* The opening stock *******/

  /** A purchase row for each of the first `n` new products with stock; they are numbered from `first`. */
  function OpeningLedger(first: nat, units: seq<int>, n: nat): (rows: seq<Entry>)
    requires n <= |units| && forall u <- units :: u >= 0
  {
    if n == 0 then []
    else
      assert units[n - 1] in units;
      OpeningLedger(first, units, n - 1) +
      if units[n - 1] > 0 then [Entry(first + n - 1, units[n - 1], Purchase, NoRef)] else []
  }

  /** The database with the generated products and suppliers, their stock backed by purchase rows, and nothing else. */
  function Opening(base: Store, units: seq<int>): Store
    requires forall u <- units :: u >= 0
  {
    base.(
    stock := base.stock + units,
    active := base.active + AllActive(|units|),
    suppliers := base.suppliers + AllActive(NUM_SUPPLIERS),
    ledger := base.ledger + OpeningLedger(|base.stock|, units, |units|))
  }

  lemma OpeningIsWellFormed(base: Store, units: seq<int>)
    requires WellFormed(base) && forall u <- units :: u >= 0
    ensures WellFormed(Opening(base, units))
    ensures NonNegative(base) ==> NonNegative(Opening(base, units))
  {
    var db := Opening(base, units);
    if NonNegative(base) {
      forall p | 0 <= p < |db.stock| ensures db.stock[p] >= 0 {
        assert p >= |base.stock| ==> units[p - |base.stock|] in units;
      }
    }
  }

  lemma {:induction false} OpeningBalance(first: nat, units: seq<int>, n: nat, p: nat)
    requires n <= |units| && forall u <- units :: u >= 0
    ensures Balance(OpeningLedger(first, units, n), p) == if first <= p < first + n then units[p - first] else 0
  {
    if n > 0 {
      OpeningBalance(first, units, n - 1, p);
      assert units[n - 1] in units;
      if units[n - 1] > 0 {
        SumSnoc(SignedFor(p), OpeningLedger(first, units, n - 1), Entry(first + n - 1, units[n - 1], Purchase, NoRef));
      } else {
        assert OpeningLedger(first, units, n - 1) + [] == OpeningLedger(first, units, n - 1);
      }
    }
  }

  lemma {:induction false} OpeningRowsAre(first: nat, units: seq<int>, n: nat)
    requires n <= |units| && forall u <- units :: u >= 0
    ensures forall row <- OpeningLedger(first, units, n) ::
              row.kind == Purchase && row.ref == NoRef && row.product < first + n
  {
    if n > 0 {
      OpeningRowsAre(first, units, n - 1);
    }
  }

  lemma {:induction false} NothingAbove(ledger: seq<Entry>, p: nat)
    requires forall row <- ledger :: row.product < p
    ensures Balance(ledger, p) == 0
  {
    if ledger != [] {
      NothingAbove(ledger[..|ledger| - 1], p);
    }
  }

  lemma NothingFrom(ledger: seq<Entry>, first: nat, p: nat)
    requires first <= p && forall row <- ledger :: row.product < first
    ensures Balance(ledger, p) == 0
  {
    NothingAbove(ledger, p);
  }

  /** The generated products are reconciled from the start. */
  lemma OpeningReconciled(base: Store, units: seq<int>)
    requires WellFormed(base) && LedgerInRange(base) && Reconciled(base) && forall u <- units :: u >= 0
    ensures Reconciled(Opening(base, units))
  {
    var db, first := Opening(base, units), |base.stock|;
    forall p: nat | p < |db.stock| ensures Surplus(db, p) == 0 {
      OpeningBalance(first, units, |units|, p);
      SumConcat(SignedFor(p), base.ledger, OpeningLedger(first, units, |units|));
      if p < first {
        assert Surplus(base, p) == 0;
      } else {
        NothingFrom(base.ledger, first, p);
      }
    }
  }

  lemma OpeningPostedOnce(base: Store, units: seq<int>)
    requires PostedOnce(base) && forall u <- units :: u >= 0
    ensures PostedOnce(Opening(base, units))
  {
    var db, rows := Opening(base, units), OpeningLedger(|base.stock|, units, |units|);
    OpeningRowsAre(|base.stock|, units, |units|);
    forall ref: Ref ensures multiset(Posted(db.ledger, ref)) == multiset(Expected(db, ref)) {
      if ref != NoRef {
        UnreferencedPurchases(rows, ref, 0);
        PostedConcat(base.ledger, rows, ref);
        SameOrders(base, db, ref);
      }
    }
  }

  lemma OpeningTotals(base: Store, units: seq<int>)
    requires TotalsMatch(base) && forall u <- units :: u >= 0
    ensures TotalsMatch(Opening(base, units))
  {
    var db, rows := Opening(base, units), OpeningLedger(|base.stock|, units, |units|);
    OpeningRowsAre(|base.stock|, units, |units|);
    forall p: nat
      ensures Total(db.ledger, Sale, p) == Sum(SoldFor(p), db.sales)
      ensures Total(db.ledger, Return, p) == Sum(ApprovedFor(p), db.notes)
    {
      UnreferencedPurchases(rows, NoRef, p);
      SumConcat(OfKind(Sale, p), base.ledger, rows);
      SumConcat(OfKind(Return, p), base.ledger, rows);
    }
  }

  /******* What is left behind *******/

  /** All the protocol's guarantees hold, the reconciliation is silent, and the ledger accounts for all stock. */
  ghost predicate Sound(db: Store) {
    && WellFormed(db) && NonNegative(db) && PostedOnce(db) && WithinSales(db) && TotalsMatch(db) && LedgerInRange(db)
    && Reconciled(db) && Reconcile(db) == []
  }

  lemma OpeningIsSound(base: Store, units: seq<int>)
    requires Sound(base) && forall u <- units :: u >= 0
    ensures var db := Opening(base, units);
            && WellFormed(db) && NonNegative(db) && PostedOnce(db) && WithinSales(db) && TotalsMatch(db)
            && LedgerInRange(db) && Reconciled(db)
  {
    OpeningIsWellFormed(base, units);
    OpeningReconciled(base, units);
    OpeningPostedOnce(base, units);
    OpeningTotals(base, units);
    OpeningRowsAre(|base.stock|, units, |units|);
  }

  lemma RunsStaySound(start: Store, events: seq<Event>, db: Store)
    requires Effect(start, events, db) && NonNegative(start) && PostedOnce(start) && WithinSales(start)
    requires TotalsMatch(start) && LedgerInRange(start) && Reconciled(start)
    ensures Sound(db)
  {
    StockStaysNonNegative(start, events);
    RunsPostOnce(start, events);
    RunsStayWithinSales(start, events);
    RunsStayInRange(start, events);
    SilentIffDistinctSales(start, events);
    InStepIffDistinctSales(start, events);
    forall p: nat | p < |db.stock| ensures Surplus(db, p) == 0 {
      assert Surplus(db, p) == Surplus(start, p);
    }
  }

  /** Whatever was drawn, and whatever was there before: a sound database is still sound, and in any case nothing
      dangles and no stock is negative that was not. */
  lemma GeneratedRowsAreSound(base: Store, units: seq<int>, events: seq<Event>, db: Store)
    requires WellFormed(base) && forall u <- units :: u >= 0
    requires Effect(Opening(base, units), events, db)
    ensures WellFormed(db) && |db.stock| == |base.stock| + |units|
    ensures NonNegative(base) ==> NonNegative(db)
    ensures Sound(base) ==> Sound(db)
  {
    OpeningIsWellFormed(base, units);
    if NonNegative(base) {
      StockStaysNonNegative(Opening(base, units), events);
    }
    if Sound(base) {
      OpeningIsSound(base, units);
      RunsStaySound(Opening(base, units), events, db);
    }
  }

  /** An empty database is sound, so a freshly seeded one is too. */
  lemma EmptyIsSound()
    ensures Sound(Store([], [], [], [], [], [], []))
  {
    FreshStoreQualifies(Store([], [], [], [], [], [], []));
  }

  /******* Lines *******/

  lemma RowsMore(items: seq<Line>, line: Line, kind: Kind, ref: Ref)
    ensures Rows(items + [line], kind, ref) == Rows(items, kind, ref) + [Entry(line.product, line.quantity, kind, ref)]
  {
    assert (items + [line])[..|items|] == items;
  }

  lemma PurchaseLinesOk(tape: Tape, at: nat, active: seq<bool>, picked: seq<nat>, items: seq<Line>)
    requires picked != [] && Distinct(picked) && forall p <- picked :: p < |active| && active[p]
    requires |items| == |picked| && PurchaseLinesDrawn(tape, at, picked, items)
    ensures LinesAccepted(items, active) && DistinctProducts(items)
  {
    PurchaseLinesAre(tape, at, picked, items);
    forall line | line in items ensures line.product in picked && line.quantity >= 1 {
      var j :| 0 <= j < |items| && items[j] == line;
    }
  }

  /** The next candidate has no line yet. */
  lemma NotYetSold(tape: Tape, at: nat, stock: seq<int>, items: seq<Line>, candidates: seq<nat>)
    requires Distinct(candidates) && |items| < |candidates| && SaleLinesDrawn(tape, at, stock, candidates, items)
    ensures LastQty(items, candidates[|items|]) == 0
  {
    SaleLinesAre(tape, at, stock, candidates, items);
    forall line | line in items ensures line.product != candidates[|items|] {
      var j :| 0 <= j < |items| && items[j] == line;
    }
    QtyBounds(items, candidates[|items|]);
  }

  lemma StillInStock(tape: Tape, at: nat, stock: seq<int>, items: seq<Line>, candidates: seq<nat>)
    requires Distinct(candidates) && |items| < |candidates| && SaleLinesDrawn(tape, at, stock, candidates, items)
    requires candidates[|items|] < |stock|
    ensures Deducted(stock, items)[candidates[|items|]] == stock[candidates[|items|]]
  {
    NotYetSold(tape, at, stock, items, candidates);
  }

  lemma SaleLinesOk(
    tape: Tape, at: nat, stock: seq<int>, active: seq<bool>, candidates: seq<nat>, items: seq<Line>)
    requires candidates != [] && Distinct(candidates)
    requires forall p <- candidates :: p < |active| && active[p] && p < |stock| && stock[p] > 0
    requires |items| == |candidates| && SaleLinesDrawn(tape, at, stock, candidates, items)
    ensures LinesAccepted(items, active) && DistinctProducts(items) && CanFulfil(stock, items)
  {
    SaleLinesAre(tape, at, stock, candidates, items);
    forall line | line in items
      ensures line.product in candidates && line.product < |stock| && 1 <= line.quantity <= stock[line.product]
    {
      var j :| 0 <= j < |items| && items[j] == line;
      assert candidates[j] in candidates;
    }
  }

  /******* Damage *******/

  lemma {:induction false} WrittenOffElsewhere(stock: seq<int>, rows: seq<Entry>, p: nat)
    requires RowsFit(rows, |stock|) && p < |stock| && forall j :: 0 <= j < |rows| ==> rows[j].product != p
    ensures WrittenOff(stock, rows)[p] == stock[p]
  {
    if rows != [] {
      WrittenOffElsewhere(stock, rows[..|rows| - 1], p);
    }
  }

  /** The next picked product still has its stock. */
  lemma NotYetDamaged(tape: Tape, at: nat, stock: seq<int>, picked: seq<nat>, rows: seq<Entry>)
    requires Distinct(picked) && |rows| < |picked| && picked[|rows|] < |stock|
    requires RowsFit(rows, |stock|) && RowsDrawn(tape, at, stock, picked, rows)
    ensures WrittenOff(stock, rows)[picked[|rows|]] == stock[picked[|rows|]]
  {
    RowsAre(tape, at, stock, picked, rows);
    WrittenOffElsewhere(stock, rows, picked[|rows|]);
  }
}
