/** Runs of `complete` with INVENTORY_LOCKING_ENABLED off: what they leave behind, and how an update gets lost. */
module UnlockedSales {
  import opened Sums
  import opened Ledger
  import opened Endpoints
  import opened History
  import opened RowLocks
  import Locked = Serializability

  function LinesOf(db: Store, req: Request): seq<Line> {
    if req.Complete? && req.id < |db.sales| then db.sales[req.id].lines else []
  }

  /** A request that can succeed: its order is open and every line is covered by the opening stock. */
  predicate Live(db: Store, req: Request) {
    req.Complete? && Locked.OpenSale(db, req.id) && CanFulfil(db.stock, LinesOf(db, req))
  }

  /******* Lines *******/

  lemma InProducts(items: seq<Line>, lines: seq<Line>, k: nat)
    requires multiset(items) == multiset(lines) && k < |items|
    ensures items[k].product in Products(lines)
  {
    MembersPermuted(items, lines);
    assert items[k] in lines;
  }

  lemma SameProducts(items: seq<Line>, lines: seq<Line>)
    requires multiset(items) == multiset(lines)
    ensures Products(items) == Products(lines)
  {
    MembersPermuted(items, lines);
  }

  lemma SoleLine(lines: seq<Line>, k: nat)
    requires k < |lines| && DistinctProducts(lines) && forall line <- lines :: line.quantity > 0
    ensures Qty(lines, lines[k].product) == lines[k].quantity
  {
    NoOverhangIffDistinct(lines);
    assert Overhang(lines, lines[k].product) == 0;
    assert lines[k] in lines;
    var j := LastQtyIsALine(lines, lines[k].product);
    assert j == k;
  }

  /** With distinct products the last line of a product is its only one, in whatever order the lines come. */
  lemma LastIsAll(items: seq<Line>, lines: seq<Line>, p: nat)
    requires multiset(items) == multiset(lines) && DistinctProducts(lines) && forall line <- lines :: line.quantity > 0
    ensures LastQty(items, p) == Qty(items, p)
  {
    QtyBounds(items, p);
    if p in Products(items) {
      var k := LastQtyIsALine(items, p);
      MembersPermuted(items, lines);
      assert items[k] in items;
      var j :| 0 <= j < |lines| && lines[j] == items[k];
      SoleLine(lines, j);
      QtyPermuted(items, lines, p);
    }
  }

  lemma SaleAdds(db: Store, w: Writes, id: nat, items: seq<Line>, p: nat)
    requires w.rows == Rows(items, Sale, SaleRef(id))
    ensures Total(Apply(db, w).ledger, Sale, p) == Total(db.ledger, Sale, p) + Qty(items, p)
  {
    RowsAmount(items, Sale, SaleRef(id), p);
    assert Total(w.rows, Sale, p) == Qty(items, p);
    SumConcat(OfKind(Sale, p), db.ledger, w.rows);
  }

  lemma DistinctPermuted(items: seq<Line>, lines: seq<Line>)
    requires multiset(items) == multiset(lines) && DistinctProducts(lines) && forall line <- lines :: line.quantity > 0
    ensures DistinctProducts(items)
  {
    MembersPermuted(items, lines);
    forall p: nat ensures Overhang(items, p) == 0 {
      LastIsAll(items, lines, p);
    }
    NoOverhangIffDistinct(items);
  }

  /******* Runs: live requests can check at the same time and then save one after the other *******/

  function Stage(id: nat, phase: Phase, writes: Writes): Txn {
    Txn(Complete(id), phase, {}, writes)
  }

  /** The copies a sale reads while the stock is that of `db`. */
  function Copies(db: Store, items: seq<Line>): (copies: seq<int>)
    ensures |copies| == |items|
  {
    seq(|items|, k requires 0 <= k < |items| => StockOf(db, items[k].product))
  }

  function WholeSale(db: Store, id: nat, items: seq<Line>): Writes {
    Locked.CompleteWrites(db, id, items).(mark := MarkCompleted(id))
  }

  ghost predicate NobodyElseLocks(s: System, tid: nat) {
    forall u :: 0 <= u < |s.txns| && u != tid ==> s.txns[u].held == {}
  }

  lemma LocksNothing(db: Store, t: Txn, fetched: seq<Line>)
    requires t.req.Complete? && !t.phase.Deducting?
    ensures Wants(db, t, false) == {} && Advance(db, t, fetched).held == t.held
  {
  }

  /** One more step of an unlocked sale, neither a save nor its answer. */
  lemma Sells(s0: System, run: seq<Action>, s: System, tid: nat, fetched: seq<Line>, after: Txn)
      returns (longer: seq<Action>, s': System)
    requires Reaches(s0, run, s, false)
    requires tid < |s.txns| && s.txns[tid].req.Complete? && !Finished(s.txns[tid]) && !s.txns[tid].phase.Deducting?
    requires FetchOk(s.db, s.txns[tid], fetched)
    requires Advance(s.db, s.txns[tid], fetched) == after && !after.phase.Done?
    ensures Reaches(s0, longer, s', false) && s' == s.(txns := s.txns[tid := after])
  {
    LocksNothing(s.db, s.txns[tid], fetched);
    assert after.held + {} == after.held;
    ReachesSnoc(s0, run, s, Go(tid, fetched), false);
    longer, s' := run + [Go(tid, fetched)], s.(txns := s.txns[tid := after]);
  }

  /** What `seen` says of the products of lines `k` to `n` is what `db` says now, and it is enough. */
  ghost predicate SeesEnough(db: Store, seen: Store, items: seq<Line>, k: nat, n: nat) {
    forall i :: k <= i < n <= |items| ==>
      StockOf(db, items[i].product) == StockOf(seen, items[i].product) >= items[i].quantity
  }

  lemma ChecksOne(db: Store, seen: Store, id: nat, items: seq<Line>, k: nat)
    requires k < |items| && SeesEnough(db, seen, items, k, k + 1)
    ensures Advance(db, Stage(id, Checking(items, Copies(seen, items)[..k]), BLANK), [])
         == Stage(id, Checking(items, Copies(seen, items)[..k + 1]), BLANK)
  {
    PrefixSnoc(Copies(seen, items), k);
  }

  /** Checks lines `k` to `n`. */
  lemma ChecksSome(
    s0: System, run: seq<Action>, s: System, tid: nat, id: nat, seen: Store, items: seq<Line>, k: nat, n: nat)
      returns (longer: seq<Action>, s': System)
    requires Reaches(s0, run, s, false) && k <= n <= |items| && SeesEnough(s.db, seen, items, k, n)
    requires tid < |s.txns| && s.txns[tid] == Stage(id, Checking(items, Copies(seen, items)[..k]), BLANK)
    ensures Reaches(s0, longer, s', false)
    ensures s' == s.(txns := s.txns[tid := Stage(id, Checking(items, Copies(seen, items)[..n]), BLANK)])
    decreases n - k
  {
    longer, s' := run, s;
    if k < n {
      ChecksOne(s.db, seen, id, items, k);
      longer, s' := Sells(s0, run, s, tid, [], Stage(id, Checking(items, Copies(seen, items)[..k + 1]), BLANK));
      longer, s' := ChecksSome(s0, longer, s', tid, id, seen, items, k + 1, n);
    }
  }

  lemma ChecksAll(s0: System, run: seq<Action>, s: System, tid: nat, id: nat, items: seq<Line>)
      returns (longer: seq<Action>, s': System)
    requires Reaches(s0, run, s, false) && CanFulfil(s.db.stock, items)
    requires tid < |s.txns| && s.txns[tid] == Stage(id, Checking(items, []), BLANK)
    ensures Reaches(s0, longer, s', false)
    ensures s' == s.(txns := s.txns[tid := Stage(id, Checking(items, Copies(s.db, items)), BLANK)])
  {
    assert Copies(s.db, items)[..0] == [] && Copies(s.db, items)[..|items|] == Copies(s.db, items);
    assert forall i :: 0 <= i < |items| ==> items[i] in items;
    longer, s' := ChecksSome(s0, run, s, tid, id, s.db, items, 0, |items|);
  }

  lemma OpensAndFetches(db: Store, id: nat, items: seq<Line>)
    requires Locked.OpenSale(db, id)
    ensures Advance(db, Stage(id, Start, BLANK), []) == Stage(id, Opened, BLANK)
    ensures Advance(db, Stage(id, Opened, BLANK), items) == Stage(id, Checking(items, []), BLANK)
  {
  }

  /** An open sale fetches its lines. */
  lemma Fetches(s0: System, run: seq<Action>, s: System, tid: nat, id: nat)
      returns (longer: seq<Action>, s': System, items: seq<Line>)
    requires Reaches(s0, run, s, false) && Locked.OpenSale(s.db, id)
    requires tid < |s.txns| && s.txns[tid] == Stage(id, Start, BLANK)
    ensures Reaches(s0, longer, s', false) && OrderedBy(items, s.db.sales[id].lines)
    ensures s' == s.(txns := s.txns[tid := Stage(id, Checking(items, []), BLANK)])
  {
    items := SomeOrdering(s.db.sales[id].lines);
    OpensAndFetches(s.db, id, items);
    longer, s' := Sells(s0, run, s, tid, [], Stage(id, Opened, BLANK));
    longer, s' := Sells(s0, longer, s', tid, items, Stage(id, Checking(items, []), BLANK));
  }

  /** A live request can pass its check, and nothing is written yet. */
  lemma PassesCheck(s0: System, run: seq<Action>, s: System, tid: nat, id: nat)
      returns (longer: seq<Action>, s': System, items: seq<Line>)
    requires Reaches(s0, run, s, false) && Live(s.db, Complete(id))
    requires tid < |s.txns| && s.txns[tid] == Stage(id, Start, BLANK)
    ensures Reaches(s0, longer, s', false) && multiset(items) == multiset(LinesOf(s.db, Complete(id)))
    ensures s' == s.(txns := s.txns[tid := Stage(id, Checking(items, Copies(s.db, items)), BLANK)])
  {
    longer, s', items := Fetches(s0, run, s, tid, id);
    MembersPermuted(items, LinesOf(s.db, Complete(id)));
    longer, s' := ChecksAll(s0, longer, s', tid, id, items);
  }

  lemma DeductIsSave(db: Store, t: Txn, fetched: seq<Line>, items: seq<Line>, copies: seq<int>, i: nat)
    requires t.req.Complete? && t.phase == Deducting(items, copies, i) && i < |items| == |copies|
    ensures Advance(db, t, fetched)
         == Save(t, items[i], copies[i] - items[i].quantity, Sale, SaleRef(t.req.id), Deducting(items, copies, i + 1))
  {
  }

  /** A sale that has saved its first `i` lines, and so locked their products. */
  function Saving(seen: Store, id: nat, items: seq<Line>, i: nat): Txn
    requires i <= |items|
  {
    Txn(
      Complete(id),
      Deducting(items, Copies(seen, items), i),
      Locked.ProductRows(items[..i]),
      Locked.CompleteWrites(seen, id, items[..i]))
  }

  lemma DeductsOne(db: Store, seen: Store, id: nat, items: seq<Line>, i: nat)
    requires i < |items|
    ensures var t := Saving(seen, id, items, i);
            Advance(db, t, []).(held := t.held + Wants(db, t, false)) == Saving(seen, id, items, i + 1)
  {
    var copies, t := Copies(seen, items), Saving(seen, id, items, i);
    DeductIsSave(db, t, [], items, copies, i);
    Locked.CompleteWritesGrow(seen, t, id, items, i, copies[i], Deducting(items, copies, i + 1));
    Locked.ProductRowsSnoc(items, i);
  }

  /** One save, while nobody else holds a lock. */
  lemma Saves(s0: System, run: seq<Action>, s: System, tid: nat, after: Txn) returns (longer: seq<Action>, s': System)
    requires Reaches(s0, run, s, false) && tid < |s.txns| && NobodyElseLocks(s, tid)
    requires s.txns[tid].req.Complete? && s.txns[tid].phase.Deducting?
    requires Advance(s.db, s.txns[tid], []).(held := s.txns[tid].held + Wants(s.db, s.txns[tid], false)) == after
    requires !after.phase.Done?
    ensures Reaches(s0, longer, s', false) && s' == s.(txns := s.txns[tid := after])
  {
    ReachesSnoc(s0, run, s, Go(tid, []), false);
    longer, s' := run + [Go(tid, [])], s.(txns := s.txns[tid := after]);
  }

  /** From the copies it has read, a sale saves all its lines, whatever is committed by now. */
  lemma DeductsAll(s0: System, run: seq<Action>, s: System, tid: nat, seen: Store, id: nat, items: seq<Line>, i: nat)
      returns (longer: seq<Action>, s': System)
    requires Reaches(s0, run, s, false) && i <= |items| && tid < |s.txns| && NobodyElseLocks(s, tid)
    requires s.txns[tid] == Saving(seen, id, items, i)
    ensures Reaches(s0, longer, s', false)
    ensures s' == s.(txns := s.txns[tid := Saving(seen, id, items, |items|)])
    decreases |items| - i
  {
    longer, s' := run, s;
    if i < |items| {
      DeductsOne(s.db, seen, id, items, i);
      longer, s' := Saves(s0, run, s, tid, Saving(seen, id, items, i + 1));
      longer, s' := DeductsAll(s0, longer, s', tid, seen, id, items, i + 1);
    }
  }

  function Sold(s: System, tid: nat, seen: Store, id: nat, items: seq<Line>): System
    requires tid < |s.txns|
  {
    System(
      Apply(s.db, WholeSale(seen, id, items)),
      s.txns[tid := Stage(id, Done(Ok), BLANK)],
      s.log + [Event(tid, Complete(id), items, Ok)])
  }

  /** A sale about to commit. */
  function Closing(seen: Store, id: nat, items: seq<Line>): Txn {
    Txn(Complete(id), Written(items), Locked.ProductRows(items) + {SaleRow(id)}, WholeSale(seen, id, items))
  }

  lemma Turns(db: Store, seen: Store, id: nat, items: seq<Line>)
    ensures Advance(db, Stage(id, Checking(items, Copies(seen, items)), BLANK), []) == Saving(seen, id, items, 0)
    ensures var t := Saving(seen, id, items, |items|);
            Advance(db, t, []).(held := t.held + Wants(db, t, false)) == Closing(seen, id, items)
  {
    assert items[..0] == [] && items[..|items|] == items;
    assert Locked.CompleteWrites(seen, id, []) == BLANK && Locked.ProductRows([]) == {};
  }

  lemma CommitIsSold(s: System, tid: nat, seen: Store, id: nat, items: seq<Line>)
    requires tid < |s.txns| && s.txns[tid] == Closing(seen, id, items)
    ensures Enabled(s, Go(tid, []), false) && Next(s, Go(tid, []), false) == Sold(s, tid, seen, id, items)
  {
    LocksNothing(s.db, s.txns[tid], []);
  }

  /** Having passed its check on `seen`, a sale writes what `seen` had minus its last lines. */
  lemma SavesItsCopies(s0: System, run: seq<Action>, s: System, tid: nat, seen: Store, id: nat, items: seq<Line>)
      returns (longer: seq<Action>)
    requires Reaches(s0, run, s, false) && tid < |s.txns| && NobodyElseLocks(s, tid)
    requires s.txns[tid] == Stage(id, Checking(items, Copies(seen, items)), BLANK)
    ensures Reaches(s0, longer, Sold(s, tid, seen, id, items), false)
  {
    var s';
    longer, s' := SavesLines(s0, run, s, tid, seen, id, items);
    longer := Commits(s0, longer, s', tid, seen, id, items);
    assert s'.txns[tid := Stage(id, Done(Ok), BLANK)] == s.txns[tid := Stage(id, Done(Ok), BLANK)];
  }

  lemma SavesLines(s0: System, run: seq<Action>, s: System, tid: nat, seen: Store, id: nat, items: seq<Line>)
      returns (longer: seq<Action>, s': System)
    requires Reaches(s0, run, s, false) && tid < |s.txns| && NobodyElseLocks(s, tid)
    requires s.txns[tid] == Stage(id, Checking(items, Copies(seen, items)), BLANK)
    ensures Reaches(s0, longer, s', false) && s' == s.(txns := s.txns[tid := Closing(seen, id, items)])
  {
    Turns(s.db, seen, id, items);
    longer, s' := Sells(s0, run, s, tid, [], Saving(seen, id, items, 0));
    longer, s' := DeductsAll(s0, longer, s', tid, seen, id, items, 0);
    longer, s' := Saves(s0, longer, s', tid, Closing(seen, id, items));
  }

  lemma Commits(s0: System, run: seq<Action>, s: System, tid: nat, seen: Store, id: nat, items: seq<Line>)
      returns (longer: seq<Action>)
    requires Reaches(s0, run, s, false) && tid < |s.txns| && s.txns[tid] == Closing(seen, id, items)
    ensures Reaches(s0, longer, Sold(s, tid, seen, id, items), false)
  {
    CommitIsSold(s, tid, seen, id, items);
    ReachesSnoc(s0, run, s, Go(tid, []), false);
    longer := run + [Go(tid, [])];
  }

  lemma StartsAsStage(s0: System, tid: nat)
    requires Init(s0) && tid < |s0.txns| && s0.txns[tid].req.Complete?
    ensures s0.txns[tid] == Stage(s0.txns[tid].req.id, Start, BLANK)
  {
    assert s0.txns[tid] in s0.txns;
  }

  /** A live request can sell, alone. */
  lemma SellsAlone(s0: System, tid: nat) returns (run: seq<Action>, s: System, items: seq<Line>)
    requires Init(s0) && tid < |s0.txns| && Live(s0.db, s0.txns[tid].req)
    ensures Reaches(s0, run, s, false) && multiset(items) == multiset(LinesOf(s0.db, s0.txns[tid].req))
    ensures s.db == Apply(s0.db, WholeSale(s0.db, s0.txns[tid].req.id, items))
  {
    var id := s0.txns[tid].req.id;
    StartsAsStage(s0, tid);
    run, s, items := PassesCheck(s0, [], s0, tid, id);
    run := SavesItsCopies(s0, run, s, tid, s0.db, id, items);
    s := Sold(s, tid, s0.db, id, items);
  }

  /** Two live requests, of the same order or not, can both pass their checks before either saves. */
  lemma BothSell(s0: System, t: nat, u: nat)
      returns (run: seq<Action>, s: System, first: seq<Line>, second: seq<Line>)
    requires Init(s0) && t < |s0.txns| && u < |s0.txns| && t != u
    requires Live(s0.db, s0.txns[t].req) && Live(s0.db, s0.txns[u].req)
    ensures Reaches(s0, run, s, false) && |s.txns| == |s0.txns|
    ensures s.txns[t] == Stage(s0.txns[t].req.id, Done(Ok), BLANK)
    ensures s.txns[u] == Stage(s0.txns[u].req.id, Done(Ok), BLANK)
    ensures multiset(first) == multiset(LinesOf(s0.db, s0.txns[t].req))
    ensures multiset(second) == multiset(LinesOf(s0.db, s0.txns[u].req))
    ensures s.db == Apply(Apply(s0.db, WholeSale(s0.db, s0.txns[t].req.id, first)),
                          WholeSale(s0.db, s0.txns[u].req.id, second))
  {
    var i, j := s0.txns[t].req.id, s0.txns[u].req.id;
    StartsAsStage(s0, t);
    StartsAsStage(s0, u);
    run, s, first := PassesCheck(s0, [], s0, t, i);
    run, s, second := PassesCheck(s0, run, s, u, j);
    run := SavesItsCopies(s0, run, s, t, s0.db, i, first);
    s := Sold(s, t, s0.db, i, first);
    run := SavesItsCopies(s0, run, s, u, s0.db, j, second);
    s := Sold(s, u, s0.db, j, second);
  }

  /******* Requests that meet: something can be lost *******/

  /** Stock is the opening stock minus what was sold, for every product. */
  ghost predicate Kept(db0: Store, db: Store) {
    && |db.stock| == |db0.stock|
    && forall p: nat :: p < |db0.stock| ==>
         db.stock[p] == db0.stock[p] - (Total(db.ledger, Sale, p) - Total(db0.ledger, Sale, p))
  }

  /** What a commit of a sale leaves of a product it sells. */
  lemma SaleLeaves(db: Store, seen: Store, id: nat, items: seq<Line>, p: nat)
    requires p in Products(items) && p < |db.stock|
    ensures Apply(db, WholeSale(seen, id, items)).stock[p] == StockOf(seen, p) - LastQty(items, p)
    ensures Total(Apply(db, WholeSale(seen, id, items)).ledger, Sale, p) == Total(db.ledger, Sale, p) + Qty(items, p)
  {
    SaleAdds(db, WholeSale(seen, id, items), id, items, p);
  }

  lemma SellableLines(db: Store, req: Request, items: seq<Line>)
    requires WellFormed(db) && Live(db, req) && multiset(items) == multiset(LinesOf(db, req))
    ensures LinesFit(LinesOf(db, req), |db.stock|) && LinesFit(items, |db.stock|)
  {
    assert db.sales[req.id] in db.sales;
    MembersPermuted(items, LinesOf(db, req));
  }

  predicate Repeats(db0: Store, req: Request) {
    Live(db0, req) && !DistinctProducts(LinesOf(db0, req))
  }

  /** A live request that repeats a product loses all but its last line of it, without any help. */
  lemma RepeatLoses(s0: System, tid: nat) returns (run: seq<Action>, s: System)
    requires Init(s0) && tid < |s0.txns| && Repeats(s0.db, s0.txns[tid].req)
    ensures Reaches(s0, run, s, false) && !Kept(s0.db, s.db)
  {
    var items;
    run, s, items := SellsAlone(s0, tid);
    SellableLines(s0.db, s0.txns[tid].req, items);
    if DistinctProducts(items) {
      DistinctPermuted(LinesOf(s0.db, s0.txns[tid].req), items);
    }
    NoOverhangIffDistinct(items);
    var p: nat :| Overhang(items, p) != 0;
    QtyBounds(items, p);
    assert exists line <- items :: line.product == p;
    SaleLeaves(s0.db, s0.db, s0.txns[tid].req.id, items, p);
  }

  /** Two live requests that share a product can lose the first one's sale of it. */
  lemma MeetingLoses(s0: System, t: nat, u: nat, p: nat) returns (run: seq<Action>, s: System)
    requires Init(s0) && t < |s0.txns| && u < |s0.txns| && t != u
    requires Live(s0.db, s0.txns[t].req) && Live(s0.db, s0.txns[u].req)
    requires p in Products(LinesOf(s0.db, s0.txns[t].req)) && p in Products(LinesOf(s0.db, s0.txns[u].req))
    ensures Reaches(s0, run, s, false) && |s.db.stock| == |s0.db.stock| && p < |s0.db.stock|
    ensures s.db.stock[p] > s0.db.stock[p] - (Total(s.db.ledger, Sale, p) - Total(s0.db.ledger, Sale, p))
    ensures |s.txns| == |s0.txns|
    ensures s.txns[t] == Stage(s0.txns[t].req.id, Done(Ok), BLANK)
    ensures s.txns[u] == Stage(s0.txns[u].req.id, Done(Ok), BLANK)
  {
    var first, second;
    run, s, first, second := BothSell(s0, t, u);
    var i, j := s0.txns[t].req.id, s0.txns[u].req.id;
    SellableLines(s0.db, s0.txns[t].req, first);
    SellableLines(s0.db, s0.txns[u].req, second);
    SameProducts(first, LinesOf(s0.db, s0.txns[t].req));
    SameProducts(second, LinesOf(s0.db, s0.txns[u].req));
    var line :| line in first && line.product == p;
    var k :| 0 <= k < |first| && first[k] == line;
    QtyBounds(first, p);
    QtyBounds(second, p);
    SaleLeaves(s0.db, s0.db, i, first, p);
    SaleLeaves(Apply(s0.db, WholeSale(s0.db, i, first)), s0.db, j, second, p);
  }

  /** Two units, one open sale of one unit, and two requests to complete it. */
  function RaceStart(): System {
    System(
      Store([2], [true], [], [], [SalesOrder([Line(0, 1)], false)], [], []),
      [Stage(0, Start, BLANK), Stage(0, Start, BLANK)],
      [])
  }

  /** The order is completed twice and the ledger sells two units, but one of the two stays in the stock. */
  lemma UpdateLost() returns (run: seq<Action>, s: System)
    ensures Init(RaceStart()) && Reaches(RaceStart(), run, s, false)
    ensures |s.txns| == 2 && s.txns[0].phase == s.txns[1].phase == Done(Ok)
    ensures |s.db.stock| == 1 && s.db.stock[0] > 2 - Total(s.db.ledger, Sale, 0)
  {
    var lines := [Line(0, 1)];
    assert LinesOf(RaceStart().db, Complete(0)) == lines && lines[0] in lines;
    run, s := MeetingLoses(RaceStart(), 0, 1, 0);
  }

  /******* Completing an order twice *******/

  ghost predicate CompletedTwice(s: System, id: nat) {
    exists t: nat, u: nat ::
      && t < u < |s.txns| && s.txns[t].req == s.txns[u].req == Complete(id)
      && s.txns[t].phase == s.txns[u].phase == Done(Ok)
  }

  ghost predicate NamedTwice(s0: System, id: nat) {
    exists t: nat, u: nat :: t < u < |s0.txns| && s0.txns[t].req == s0.txns[u].req == Complete(id)
  }

  lemma StepKeepsRequests(s: System, a: Action)
    requires a.tid < |s.txns|
    ensures |Next(s, a, false).txns| == |s.txns|
    ensures forall t :: 0 <= t < |s.txns| ==> Next(s, a, false).txns[t].req == s.txns[t].req
  {
  }

  lemma {:induction false} ReachableRequests(s0: System, run: seq<Action>, s: System)
    requires Reaches(s0, run, s, false)
    ensures |s.txns| == |s0.txns| && forall t :: 0 <= t < |s.txns| ==> s.txns[t].req == s0.txns[t].req
  {
    if run != [] {
      var init, last := run[..|run| - 1], run[|run| - 1];
      var prev :| Reaches(s0, init, prev, false) && Enabled(prev, last, false) && s == Next(prev, last, false);
      ReachableRequests(s0, init, prev);
      StepKeepsRequests(prev, last);
    }
  }
}
