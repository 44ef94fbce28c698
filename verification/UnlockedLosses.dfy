/** For every way two unlocked requests can clash there is a run in which an update is lost. */
module UnlockedLosses {
  import opened Ledger
  import opened Endpoints
  import opened History
  import opened RowLocks
  import opened Ceilings
  import opened MixInStep
  import opened UnlockedRuns
  import opened UnlockedExact

  /** Saving copies of `seen` moves stock and ledger apart by what the copies are off, and by repeated lines. */
  lemma SaleShifts(db: Store, seen: Store, id: nat, items: seq<Line>, p: nat)
    requires p in Products(items) && p < |db.stock|
    ensures var after := Apply(db, Sales.WholeSale(seen, id, items));
            && |after.stock| == |db.stock|
            && after.stock[p] == StockOf(seen, p) - LastQty(items, p)
            && Surplus(after, p) == Surplus(db, p) + StockOf(seen, p) - db.stock[p] + Overhang(items, p)
  {
    var w := Sales.WholeSale(seen, id, items);
    Sales.SaleLeaves(db, seen, id, items, p);
    RowsAmount(items, Sale, SaleRef(id), p);
    SurplusAdds(db, Apply(db, w), w.rows, p);
  }

  /** Any other request served between an unlocked sale's check and its saves is undone in the stock of what the sale
      sells, though not in the ledger. */
  lemma CallIsUndone(s0: System, t: nat, u: nat, p: nat) returns (run: seq<Action>, s: System, fetched: seq<Line>)
    requires Init(s0) && t < |s0.txns| && u < |s0.txns| && t != u && !s0.txns[u].req.Complete?
    requires Sales.Live(s0.db, s0.txns[t].req) && DistinctProducts(Sales.LinesOf(s0.db, s0.txns[t].req))
    requires p in Products(Sales.LinesOf(s0.db, s0.txns[t].req))
    ensures Reaches(s0, run, s, false) && Fetched(s0.db, s0.txns[u].req, fetched)
    ensures |s.db.stock| == |s0.db.stock| && p < |s0.db.stock|
    ensures Surplus(s.db, p) - Surplus(s0.db, p)
         == Balance(s0.db.ledger, p) - Balance(Serve(s0.db, s0.txns[u].req, fetched).store.ledger, p)
  {
    var items;
    var sale := s0.txns[t].req;
    run, s, items, fetched := Mix.SaleOverwrites(s0, t, u);
    PositiveLines(s0.db, sale.id, Sales.LinesOf(s0.db, sale));
    Sales.SameProducts(items, Sales.LinesOf(s0.db, sale));
    LinesInRange(s0.db, sale, items, p);
    Sales.LastIsAll(items, Sales.LinesOf(s0.db, sale), p);
    SaleShifts(Serve(s0.db, s0.txns[u].req, fetched).store, s0.db, sale.id, items, p);
  }

  lemma ReadySurplus(s0: System, skip: set<Row>, s: System, p: nat)
    requires Ready(s0, skip, s) && p < |s0.db.stock|
    ensures |s.db.stock| == |s0.db.stock| && Surplus(s.db, p) == Surplus(s0.db, p)
  {
  }

  lemma LinesInRange(db: Store, sale: Request, items: seq<Line>, p: nat)
    requires WellFormed(db) && sale.Complete? && sale.id < |db.sales|
    requires multiset(items) == multiset(Sales.LinesOf(db, sale)) && p in Products(items)
    ensures p < |db.stock| && LinesFit(items, |db.stock|)
    ensures p in Products(Sales.LinesOf(db, sale)) && LastQty(items, p) >= 1 && Overhang(items, p) >= 0
  {
    PositiveLines(db, sale.id, items);
    Sales.SameProducts(items, Sales.LinesOf(db, sale));
    var k := LastQtyIsALine(items, p);
    assert items[k] in items;
    QtyBounds(items, p);
  }

  /******* A repeated product, and two sales *******/

  lemma RepeatLoses(s0: System, t: nat) returns (run: seq<Action>, s: System)
    requires Init(s0) && t < |s0.txns| && Repeats(s0.db, Requests(s0), s0.txns[t].req)
    ensures Reaches(s0, run, s, false) && !SameSurplus(s0.db, s.db)
  {
    var id, items := s0.txns[t].req.id, [];
    run, s := ServesMovers(s0, {});
    var ready := s;
    SellableIsLive(s0, s, t);
    run, s, items := Sales.PassesCheck(s0, run, s, t, id);
    run := Sales.SavesItsCopies(s0, run, s, t, ready.db, id, items);
    s := Sales.Sold(s, t, ready.db, id, items);
    var p := RepeatedProduct(s0.db, s0.txns[t].req, items);
    LinesInRange(s0.db, s0.txns[t].req, items, p);
    ReadySurplus(s0, {}, ready, p);
    SaleShifts(ready.db, ready.db, id, items, p);
  }

  lemma RepeatedProduct(db: Store, sale: Request, items: seq<Line>) returns (p: nat)
    requires WellFormed(db) && sale.Complete? && sale.id < |db.sales| && !DistinctProducts(Sales.LinesOf(db, sale))
    requires multiset(items) == multiset(Sales.LinesOf(db, sale))
    ensures p in Products(items) && Overhang(items, p) > 0
  {
    PositiveLines(db, sale.id, items);
    if DistinctProducts(items) {
      Sales.DistinctPermuted(Sales.LinesOf(db, sale), items);
    }
    NoOverhangIffDistinct(items);
    p :| Overhang(items, p) != 0;
    QtyBounds(items, p);
  }

  lemma MeetingLoses(s0: System, t: nat, u: nat) returns (run: seq<Action>, s: System)
    requires Init(s0) && t < |s0.txns| && u < |s0.txns| && t != u
    requires Meet(s0.db, Requests(s0), s0.txns[t].req, s0.txns[u].req)
    ensures Reaches(s0, run, s, false) && !SameSurplus(s0.db, s.db)
  {
    var first, second;
    run, s := ServesMovers(s0, {});
    var ready := s;
    SellableIsLive(s0, s, t);
    SellableIsLive(s0, s, u);
    run, s, first, second := BothSellFrom(s0, run, s, t, u);
    var p :| p in Products(Sales.LinesOf(s0.db, s0.txns[t].req)) && p in Products(Sales.LinesOf(s0.db, s0.txns[u].req));
    MeetingShifts(s0, ready, s0.txns[t].req, s0.txns[u].req, first, second, p);
  }

  lemma MeetingShifts(
    s0: System, ready: System, sale: Request, other: Request, first: seq<Line>, second: seq<Line>, p: nat)
    requires Init(s0) && Ready(s0, {}, ready) && sale.Complete? && other.Complete?
    requires sale.id < |s0.db.sales| && other.id < |s0.db.sales|
    requires multiset(first) == multiset(Sales.LinesOf(s0.db, sale)) && p in Products(Sales.LinesOf(s0.db, sale))
    requires multiset(second) == multiset(Sales.LinesOf(s0.db, other)) && p in Products(Sales.LinesOf(s0.db, other))
    ensures var between := Apply(ready.db, Sales.WholeSale(ready.db, sale.id, first));
            !SameSurplus(s0.db, Apply(between, Sales.WholeSale(ready.db, other.id, second)))
  {
    Sales.SameProducts(first, Sales.LinesOf(s0.db, sale));
    Sales.SameProducts(second, Sales.LinesOf(s0.db, other));
    LinesInRange(s0.db, sale, first, p);
    LinesInRange(s0.db, other, second, p);
    ReadySurplus(s0, {}, ready, p);
    SaleShifts(ready.db, ready.db, sale.id, first, p);
    var between := Apply(ready.db, Sales.WholeSale(ready.db, sale.id, first));
    SaleShifts(between, ready.db, other.id, second, p);
    assert Surplus(Apply(between, Sales.WholeSale(ready.db, other.id, second)), p) > Surplus(s0.db, p);
  }

  /******* A write-off *******/

  lemma WriteOffLoses(s0: System, t: nat, u: nat, p: nat) returns (run: seq<Action>, s: System)
    requires Init(s0) && t < |s0.txns| && u < |s0.txns| && t != u && s0.txns[u].req.WriteOff?
    requires CrossesAt(s0.db, Requests(s0), s0.txns[t].req, s0.txns[u].req, p)
    ensures Reaches(s0, run, s, false) && !SameSurplus(s0.db, s.db)
  {
    var id, items, fetched := s0.txns[t].req.id, [], [];
    run, s := ServesMovers(s0, {});
    var ready := s;
    SellableIsLive(s0, s, t);
    UntouchedStart(s0, u);
    run, s, items := Sales.PassesCheck(s0, run, s, t, id);
    run, s, fetched := Mix.FinishesAlone(s0, run, s, u, 0);
    run := Sales.SavesItsCopies(s0, run, s, t, ready.db, id, items);
    s := Sales.Sold(s, t, ready.db, id, items);
    WriteOffShifts(s0, ready, s0.txns[t].req, items, p, s0.txns[u].req.amount, fetched);
  }

  lemma WriteOffShifts(
    s0: System, ready: System, sale: Request, items: seq<Line>, p: nat, amount: int, fetched: seq<Line>)
    requires Init(s0) && Ready(s0, {}, ready) && sale.Complete? && sale.id < |s0.db.sales|
    requires multiset(items) == multiset(Sales.LinesOf(s0.db, sale)) && p in Products(Sales.LinesOf(s0.db, sale))
    requires Removable(s0.db, CapAt(s0.db, Movers(s0.db, Requests(s0))), p, amount)
    ensures var between := Serve(ready.db, WriteOff(p, amount), fetched).store;
            !SameSurplus(s0.db, Apply(between, Sales.WholeSale(ready.db, sale.id, items)))
  {
    Sales.SameProducts(items, Sales.LinesOf(s0.db, sale));
    LinesInRange(s0.db, sale, items, p);
    ReadySurplus(s0, {}, ready, p);
    var outcome := Serve(ready.db, WriteOff(p, amount), fetched);
    assert Movers(s0.db, Requests(s0)) - {} == Movers(s0.db, Requests(s0));
    assert StockOf(ready.db, p) == Cap(s0.db, Movers(s0.db, Requests(s0)), p);
    StepSurplus(ready.db, Event(0, WriteOff(p, amount), fetched, outcome.reply), p);
    SaleShifts(outcome.store, ready.db, sale.id, items, p);
    assert Surplus(Apply(outcome.store, Sales.WholeSale(ready.db, sale.id, items)), p) > Surplus(s0.db, p);
  }

  /******* A receipt or a return *******/

  /** The stock a sale reads when the lines up to `p` are checked before `other` is served, and the rest after. */
  function SeenAround(db0: Store, reqs: seq<Request>, other: Request, p: nat): Store {
    var all := Movers(db0, reqs);
    db0.(stock := seq(|db0.stock|, q requires 0 <= q < |db0.stock| =>
      if q <= p then Cap(db0, all - Closes(other), q) else Cap(db0, all, q)))
  }

  /** A receipt or return that `other` brings in. */
  ghost predicate BringsIn(db0: Store, reqs: seq<Request>, other: Request, p: nat) {
    && other in reqs && Closes(other) != {} && Closes(other) <= Movers(db0, reqs)
    && Cap(db0, Movers(db0, reqs), p) > Cap(db0, Movers(db0, reqs) - Closes(other), p)
  }

  lemma EarlyLines(s0: System, s: System, sale: Request, other: Request, items: seq<Line>, p: nat, n: nat)
    requires WellFormed(s0.db) && Ready(s0, Closes(other), s) && CanSell(s0.db, Requests(s0), sale) && n <= |items|
    requires multiset(items) == multiset(Sales.LinesOf(s0.db, sale))
    requires EarlyCovered(s0.db, Movers(s0.db, Requests(s0)) - Closes(other), Sales.LinesOf(s0.db, sale), p)
    requires forall i :: 0 <= i < n ==> items[i].product <= p
    ensures Sales.SeesEnough(s.db, SeenAround(s0.db, Requests(s0), other, p), items, 0, n)
  {
    PositiveLines(s0.db, sale.id, items);
    MembersPermuted(items, Sales.LinesOf(s0.db, sale));
    forall i | 0 <= i < n
      ensures StockOf(s.db, items[i].product)
           == StockOf(SeenAround(s0.db, Requests(s0), other, p), items[i].product) >= items[i].quantity
    {
      assert items[i] in items;
    }
  }

  lemma LateLines(s0: System, db: Store, sale: Request, other: Request, items: seq<Line>, p: nat, n: nat)
    requires WellFormed(s0.db) && CanSell(s0.db, Requests(s0), sale)
    requires Lifted(s0.db, Requests(s0), Movers(s0.db, Requests(s0)), db)
    requires multiset(items) == multiset(Sales.LinesOf(s0.db, sale))
    requires forall i :: n <= i < |items| ==> items[i].product > p
    ensures Sales.SeesEnough(db, SeenAround(s0.db, Requests(s0), other, p), items, n, |items|)
  {
    var all := Movers(s0.db, Requests(s0));
    PositiveLines(s0.db, sale.id, items);
    MembersPermuted(items, Sales.LinesOf(s0.db, sale));
    forall i | n <= i < |items|
      ensures StockOf(db, items[i].product)
           == StockOf(SeenAround(s0.db, Requests(s0), other, p), items[i].product) >= items[i].quantity
    {
      assert items[i] in items;
      assert items[i].quantity <= CapAt(s0.db, all)(items[i].product);
    }
  }

  lemma CrossingShifts(s0: System, db: Store, sale: Request, other: Request, items: seq<Line>, p: nat)
    requires WellFormed(s0.db) && sale.Complete? && sale.id < |s0.db.sales|
    requires DistinctProducts(Sales.LinesOf(s0.db, sale))
    requires Lifted(s0.db, Requests(s0), Movers(s0.db, Requests(s0)), db) && BringsIn(s0.db, Requests(s0), other, p)
    requires multiset(items) == multiset(Sales.LinesOf(s0.db, sale)) && p in Products(Sales.LinesOf(s0.db, sale))
    ensures var seen := SeenAround(s0.db, Requests(s0), other, p);
            !SameSurplus(s0.db, Apply(db, Sales.WholeSale(seen, sale.id, items)))
  {
    var seen := SeenAround(s0.db, Requests(s0), other, p);
    Sales.SameProducts(items, Sales.LinesOf(s0.db, sale));
    LinesInRange(s0.db, sale, items, p);
    PositiveLines(s0.db, sale.id, Sales.LinesOf(s0.db, sale));
    Sales.LastIsAll(items, Sales.LinesOf(s0.db, sale), p);
    SaleShifts(db, seen, sale.id, items, p);
    assert StockOf(db, p) == Cap(s0.db, Movers(s0.db, Requests(s0)), p);
    assert Surplus(Apply(db, Sales.WholeSale(seen, sale.id, items)), p) < Surplus(s0.db, p);
  }

  /** The sale has checked its lines up to `p`; `other` and the rest of the lines are still to come. */
  ghost predicate HalfChecked(s0: System, ready: System, s: System, t: nat, u: nat, items: seq<Line>, n: nat, p: nat)
    requires t < |s0.txns| && u < |s0.txns| && s0.txns[t].req.Complete?
  {
    var id, seen := s0.txns[t].req.id, SeenAround(s0.db, Requests(s0), s0.txns[u].req, p);
    && Ready(s0, Closes(s0.txns[u].req), ready) && n <= |items|
    && multiset(items) == multiset(Sales.LinesOf(s0.db, s0.txns[t].req))
    && (forall i :: n <= i < |items| ==> items[i].product > p)
    && s.db == ready.db && |s.txns| == |ready.txns|
    && s.txns == ready.txns[t := Sales.Stage(id, Checking(items, Sales.Copies(seen, items)[..n]), BLANK)]
  }

  lemma ChecksEarlyLines(s0: System, t: nat, u: nat, p: nat)
      returns (run: seq<Action>, ready: System, s: System, items: seq<Line>, n: nat)
    requires Init(s0) && t < |s0.txns| && u < |s0.txns| && t != u && CanSell(s0.db, Requests(s0), s0.txns[t].req)
    requires EarlyCovered(s0.db, Movers(s0.db, Requests(s0)) - Closes(s0.txns[u].req),
                          Sales.LinesOf(s0.db, s0.txns[t].req), p)
    ensures Reaches(s0, run, s, false) && HalfChecked(s0, ready, s, t, u, items, n, p)
  {
    var sale, other := s0.txns[t].req, s0.txns[u].req;
    var seen := SeenAround(s0.db, Requests(s0), other, p);
    run, s := ServesMovers(s0, Closes(other));
    UntouchedStart(s0, t);
    ready := s;
    run, s, items := Sales.Fetches(s0, run, s, t, sale.id);
    n := InsertionPoint(items, Line(p, 0));
    assert forall i :: n <= i < |items| ==> items[i].product > p;
    EarlyLines(s0, ready, sale, other, items, p, n);
    assert Sales.Copies(seen, items)[..0] == [];
    run, s := Sales.ChecksSome(s0, run, s, t, sale.id, seen, items, 0, n);
  }

  /** A receipt or return of `p` that comes in after a sale has read `p` is lost from the stock. */
  lemma BringingLoses(s0: System, t: nat, u: nat, p: nat) returns (run: seq<Action>, s: System)
    requires Init(s0) && t < |s0.txns| && u < |s0.txns| && t != u && !s0.txns[u].req.Complete?
    requires CanSell(s0.db, Requests(s0), s0.txns[t].req) && !Repeats(s0.db, Requests(s0), s0.txns[t].req)
    requires BringsIn(s0.db, Requests(s0), s0.txns[u].req, p) && p in Products(Sales.LinesOf(s0.db, s0.txns[t].req))
    requires EarlyCovered(s0.db, Movers(s0.db, Requests(s0)) - Closes(s0.txns[u].req),
                          Sales.LinesOf(s0.db, s0.txns[t].req), p)
    ensures Reaches(s0, run, s, false) && !SameSurplus(s0.db, s.db)
  {
    var sale, other := s0.txns[t].req, s0.txns[u].req;
    var seen := SeenAround(s0.db, Requests(s0), other, p);
    var ready, items, n;
    run, ready, s, items, n := ChecksEarlyLines(s0, t, u, p);
    run, s := ServesBetween(s0, ready, run, s, t, u);
    LateLines(s0, s.db, sale, other, items, p, n);
    CrossingShifts(s0, s.db, sale, other, items, p);
    run, s := ChecksRestAndSaves(s0, run, s, t, sale.id, seen, items, n);
  }

  lemma ChecksRestAndSaves(
    s0: System, run: seq<Action>, s: System, t: nat, id: nat, seen: Store, items: seq<Line>, n: nat)
      returns (longer: seq<Action>, s': System)
    requires Reaches(s0, run, s, false) && t < |s.txns| && Sales.NobodyElseLocks(s, t) && n <= |items|
    requires s.txns[t] == Sales.Stage(id, Checking(items, Sales.Copies(seen, items)[..n]), BLANK)
    requires Sales.SeesEnough(s.db, seen, items, n, |items|)
    ensures Reaches(s0, longer, s', false) && s'.db == Apply(s.db, Sales.WholeSale(seen, id, items))
  {
    longer, s' := Sales.ChecksSome(s0, run, s, t, id, seen, items, n, |items|);
    assert Sales.Copies(seen, items)[..|items|] == Sales.Copies(seen, items);
    longer := Sales.SavesItsCopies(s0, longer, s', t, seen, id, items);
    s' := Sales.Sold(s', t, seen, id, items);
  }

  /** The skipped receipt or return is served while the sale is half way through its check. */
  lemma ServesBetween(s0: System, ready: System, run: seq<Action>, s: System, t: nat, u: nat)
      returns (longer: seq<Action>, s': System)
    requires Init(s0) && t < |s0.txns| && u < |s0.txns| && t != u && !s0.txns[u].req.Complete?
    requires Closes(s0.txns[u].req) != {} && Closes(s0.txns[u].req) <= Movers(s0.db, Requests(s0))
    requires Ready(s0, Closes(s0.txns[u].req), ready) && Reaches(s0, run, s, false)
    requires s.db == ready.db && |s.txns| == |ready.txns|
    requires s.txns == ready.txns[t := s.txns[t]] && s.txns[t].held == {}
    ensures Reaches(s0, longer, s', false) && |s'.txns| == |s.txns| && s'.txns[t] == s.txns[t]
    ensures Sales.NobodyElseLocks(s', t)
    ensures Lifted(s0.db, Requests(s0), Movers(s0.db, Requests(s0)), s'.db)
  {
    var req, all := s0.txns[u].req, Movers(s0.db, Requests(s0));
    UntouchedStart(s0, u);
    assert req == Requests(s0)[u];
    var cap := if req.Receive? && req.id < |s.db.purchases| then |s.db.purchases[req.id].lines| else 0;
    var fetched;
    longer, s', fetched := Mix.FinishesAlone(s0, run, s, u, cap);
    ServedLifts(s0.db, Requests(s0), all - Closes(req), s.db, req, fetched);
    assert all - Closes(req) + Closes(req) == all;
  }

  /******* Exactly when nothing is lost *******/

  /** What a mover brings in shows in the ceiling. */
  lemma GainShows(db0: Store, reqs: seq<Request>, other: Request, p: nat)
    requires WellFormed(db0) && other in reqs && Closes(other) != {} && Closes(other) <= Movers(db0, reqs)
    requires other.Receive? ==> p in Products(db0.purchases[other.id].lines)
    requires other.Approve? ==> p == db0.notes[other.id].product && db0.notes[other.id].quantity > 0
    ensures BringsIn(db0, reqs, other, p)
  {
    var rows := Movers(db0, reqs) - Closes(other);
    assert rows + Closes(other) == Movers(db0, reqs);
    CapAfter(db0, rows, other, p);
    if other.Receive? {
      assert db0.purchases[other.id] in db0.purchases;
      var lines := db0.purchases[other.id].lines;
      var line :| line in lines && line.product == p;
      var k :| 0 <= k < |lines| && lines[k] == line;
      QtyBounds(lines, p);
    }
  }

  lemma CrossingLoses(s0: System, t: nat, u: nat) returns (run: seq<Action>, s: System)
    requires Init(s0) && t < |s0.txns| && u < |s0.txns| && t != u
    requires Crosses(s0.db, Requests(s0), s0.txns[t].req, s0.txns[u].req)
    requires !Repeats(s0.db, Requests(s0), s0.txns[t].req)
    ensures Reaches(s0, run, s, false) && !SameSurplus(s0.db, s.db)
  {
    var other := s0.txns[u].req;
    var p: nat :| CrossesAt(s0.db, Requests(s0), s0.txns[t].req, other, p);
    assert other == Requests(s0)[u];
    if other.WriteOff? {
      run, s := WriteOffLoses(s0, t, u, p);
    } else {
      GainShows(s0.db, Requests(s0), other, p);
      run, s := BringingLoses(s0, t, u, p);
    }
  }

  lemma WhoClashes(db0: Store, reqs: seq<Request>) returns (t: nat, u: nat)
    requires !Safe(db0, reqs)
    ensures t < |reqs| && u < |reqs|
    ensures Repeats(db0, reqs, reqs[t]) ||
            (t != u && !Repeats(db0, reqs, reqs[t])
             && (Meet(db0, reqs, reqs[t], reqs[u]) || Crosses(db0, reqs, reqs[t], reqs[u])))
  {
    if r: nat :| r < |reqs| && Repeats(db0, reqs, reqs[r]) {
      t, u := r, r;
    } else if m: nat, n: nat :| m < |reqs| && n < |reqs| && m != n && Meet(db0, reqs, reqs[m], reqs[n]) {
      t, u := m, n;
    } else {
      t, u :| 0 <= t < |reqs| && 0 <= u < |reqs| && t != u && Crosses(db0, reqs, reqs[t], reqs[u]);
    }
  }

  lemma ClashLoses(s0: System) returns (run: seq<Action>, s: System)
    requires Init(s0) && !Safe(s0.db, Requests(s0))
    ensures Reaches(s0, run, s, false) && !SameSurplus(s0.db, s.db)
  {
    var t, u := WhoClashes(s0.db, Requests(s0));
    assert Requests(s0)[t] == s0.txns[t].req && Requests(s0)[u] == s0.txns[u].req;
    if Repeats(s0.db, Requests(s0), s0.txns[t].req) {
      run, s := RepeatLoses(s0, t);
    } else if Meet(s0.db, Requests(s0), s0.txns[t].req, s0.txns[u].req) {
      run, s := MeetingLoses(s0, t, u);
    } else {
      run, s := CrossingLoses(s0, t, u);
    }
  }

  lemma SafeKeeps(s0: System, run: seq<Action>, s: System)
    requires Init(s0) && NamesExisting(s0.db, Requests(s0)) && Safe(s0.db, Requests(s0)) && Reaches(s0, run, s, false)
    ensures SameSurplus(s0.db, s.db)
  {
    ReachableSafe(s0, run, s);
  }

  /** Without locks, beside any other requests: stock and ledger move together over every run exactly when no sale that
      can succeed repeats a product, no two of them share one, and none crosses a receipt, a return or a write-off. */
  lemma KeptIffSafe(s0: System)
    requires Init(s0) && NamesExisting(s0.db, Requests(s0))
    ensures Safe(s0.db, Requests(s0)) <==>
            forall run: seq<Action>, s: System :: Reaches(s0, run, s, false) ==> SameSurplus(s0.db, s.db)
  {
    if Safe(s0.db, Requests(s0)) {
      forall run: seq<Action>, s: System | Reaches(s0, run, s, false) ensures SameSurplus(s0.db, s.db) {
        SafeKeeps(s0, run, s);
      }
    } else {
      var run, s := ClashLoses(s0);
      assert Reaches(s0, run, s, false) && !SameSurplus(s0.db, s.db);
    }
  }
}
