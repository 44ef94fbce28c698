/** Unlocked sales beside other requests: exactly when stock and ledger stay in step over every run. */
module UnlockedExact {
  import opened Ledger
  import opened Endpoints
  import opened RowLocks
  import opened Ceilings
  import opened MixInStep

  /******* The ways to lose an update, in terms of the opening store and the requests *******/

  /** Every line of a product up to `p` is covered by the ceiling over `rows`. */
  ghost predicate EarlyCovered(db0: Store, rows: set<Row>, lines: seq<Line>, p: nat) {
    forall line <- lines :: line.product <= p ==> line.quantity <= Cap(db0, rows, line.product)
  }

  /** A sale that can succeed and repeats a product. */
  ghost predicate Repeats(db0: Store, reqs: seq<Request>, sale: Request) {
    CanSell(db0, reqs, sale) && !DistinctProducts(Sales.LinesOf(db0, sale))
  }

  /** Two sales that can succeed and share a product. */
  ghost predicate Meet(db0: Store, reqs: seq<Request>, sale: Request, other: Request) {
    && CanSell(db0, reqs, sale) && CanSell(db0, reqs, other)
    && exists p <- Products(Sales.LinesOf(db0, sale)) :: p in Products(Sales.LinesOf(db0, other))
  }

  /** A sale that can succeed reaches product `p`, in product order, while `other` can still change it: a receipt or
      return that is not needed for the lines up to `p`, or a write-off within the ceiling. */
  ghost predicate CrossesAt(db0: Store, reqs: seq<Request>, sale: Request, other: Request, p: nat) {
    && CanSell(db0, reqs, sale) && p in Products(Sales.LinesOf(db0, sale))
    && var rows := Movers(db0, reqs) - Closes(other);
       match other
       case Receive(k) =>
         && k < |db0.purchases| && !db0.purchases[k].received && p in Products(db0.purchases[k].lines)
         && EarlyCovered(db0, rows, Sales.LinesOf(db0, sale), p)
       case Approve(k) =>
         && k < |db0.notes| && !db0.notes[k].approved && p == db0.notes[k].product && db0.notes[k].quantity > 0
         && EarlyCovered(db0, rows, Sales.LinesOf(db0, sale), p)
       case WriteOff(product, amount) => p == product && Removable(db0, CapAt(db0, Movers(db0, reqs)), product, amount)
       case _ => false
  }

  ghost predicate Crosses(db0: Store, reqs: seq<Request>, sale: Request, other: Request) {
    exists p: nat :: CrossesAt(db0, reqs, sale, other, p)
  }

  ghost predicate Safe(db0: Store, reqs: seq<Request>) {
    && (forall t :: 0 <= t < |reqs| ==> !Repeats(db0, reqs, reqs[t]))
    && (forall t, u :: 0 <= t < |reqs| && 0 <= u < |reqs| && t != u ==> !Meet(db0, reqs, reqs[t], reqs[u]))
    && (forall t, u :: 0 <= t < |reqs| && 0 <= u < |reqs| && t != u ==> !Crosses(db0, reqs, reqs[t], reqs[u]))
  }

  /******* Safe mixes lose nothing *******/

  ghost function Able(db0: Store, reqs: seq<Request>): set<nat> {
    set t | 0 <= t < |reqs| && CanSell(db0, reqs, reqs[t])
  }

  /** A sale that is about to save has found every line covered. */
  lemma SaverIsAble(db0: Store, reqs: seq<Request>, s: System, t: nat)
    requires WellFormed(db0) && Ceiled(db0, reqs, s) && t < |s.txns| && s.txns[t].req.Complete?
    requires s.txns[t].phase.Deducting? || s.txns[t].phase.Written?
    ensures t in Able(db0, reqs)
    ensures Covers(CapAt(db0, Spent(db0, s.db)), Sales.LinesOf(db0, s.txns[t].req))
    ensures multiset(s.txns[t].phase.items) == multiset(Sales.LinesOf(db0, s.txns[t].req))
    ensures LinesFit(s.txns[t].phase.items, |s.db.stock|)
  {
    var txn, rows := s.txns[t], Spent(db0, s.db);
    var items, lines := txn.phase.items, Sales.LinesOf(db0, txn.req);
    assert Requests(s)[t] == txn.req && TxnUnder(db0, CapAt(db0, rows), s.db, txn);
    MembersPermuted(items, lines);
    assert db0.sales[txn.req.id] in db0.sales;
    if txn.phase.Deducting? {
      CopiesCover(db0, CapAt(db0, rows), txn.req.id, items, txn.phase.copies);
    }
    CapsRise(db0, rows, Movers(db0, reqs));
    CoversMore(CapAt(db0, rows), CapAt(db0, Movers(db0, reqs)), lines);
  }

  lemma CopiesCover(db0: Store, cap: nat -> int, id: nat, items: seq<Line>, copies: seq<int>)
    requires ChecksUnder(db0, cap, id, items, copies) && |copies| == |items|
    ensures Covers(cap, items)
  {
    forall line | line in items ensures line.quantity <= cap(line.product) {
      var k :| 0 <= k < |items| && items[k] == line;
      assert items[k].quantity <= copies[k] <= cap(items[k].product);
    }
  }

  lemma SafeOnlyAbleSave(db0: Store, reqs: seq<Request>, s: System)
    requires WellFormed(db0) && Ceiled(db0, reqs, s) && Safe(db0, reqs)
    ensures OnlyAbleSave(Able(db0, reqs), s)
    ensures forall t <- s.txns :: t.req.Complete? && t.phase.Written? ==> LinesFit(t.phase.items, |s.db.stock|)
  {
    forall t | 0 <= t < |s.txns| && s.txns[t].req.Complete? && (s.txns[t].phase.Deducting? || s.txns[t].phase.Written?)
      ensures t in Able(db0, reqs) && DistinctProducts(s.txns[t].phase.items)
      ensures LinesFit(s.txns[t].phase.items, |s.db.stock|)
    {
      SaverIsAble(db0, reqs, s, t);
      assert Requests(s)[t] == s.txns[t].req && !Repeats(db0, reqs, reqs[t]);
      assert db0.sales[s.txns[t].req.id] in db0.sales;
      Sales.DistinctPermuted(s.txns[t].phase.items, Sales.LinesOf(db0, s.txns[t].req));
    }
  }

  /** A sale that has read a copy of `p` has found all lines up to `p` covered. */
  lemma EarlyByCopies(db0: Store, rows: set<Row>, id: nat, items: seq<Line>, copies: seq<int>, k: nat, line: Line)
    requires ChecksUnder(db0, CapAt(db0, rows), id, items, copies) && k < |copies|
    requires DistinctProducts(db0.sales[id].lines) && forall l <- db0.sales[id].lines :: l.quantity > 0
    requires line in db0.sales[id].lines && line.product <= items[k].product
    ensures line.quantity <= Cap(db0, rows, line.product)
  {
    MembersPermuted(items, db0.sales[id].lines);
    Sales.DistinctPermuted(items, db0.sales[id].lines);
    assert line in items;
    var j :| 0 <= j < |items| && items[j] == line;
    assert j <= k;
    assert items[j].quantity <= copies[j] <= CapAt(db0, rows)(items[j].product);
  }

  /** The products an able sale relies on: every line up to them was covered by what had been spent. */
  lemma SeenIsCovered(db0: Store, reqs: seq<Request>, s: System, u: nat, p: nat)
    requires WellFormed(db0) && Ceiled(db0, reqs, s) && Safe(db0, reqs) && u < |s.txns|
    requires s.txns[u].req.Complete? && u in Able(db0, reqs) && p in Seen(s.txns[u])
    ensures p in Products(Sales.LinesOf(db0, s.txns[u].req))
    ensures EarlyCovered(db0, Spent(db0, s.db), Sales.LinesOf(db0, s.txns[u].req), p)
  {
    var txn, rows := s.txns[u], Spent(db0, s.db);
    var lines := Sales.LinesOf(db0, txn.req);
    assert Requests(s)[u] == txn.req && TxnUnder(db0, CapAt(db0, rows), s.db, txn) && !Repeats(db0, reqs, reqs[u]);
    assert db0.sales[txn.req.id] in db0.sales;
    if txn.phase.Checking? {
      CheckedIsCovered(db0, rows, txn.req.id, txn.phase.items, txn.phase.copies, p);
    } else {
      SaverIsAble(db0, reqs, s, u);
      Sales.SameProducts(txn.phase.items, lines);
      forall l | l in lines ensures l.quantity <= Cap(db0, rows, l.product) {
        assert l.quantity <= CapAt(db0, rows)(l.product);
      }
    }
  }

  lemma CheckedIsCovered(db0: Store, rows: set<Row>, id: nat, items: seq<Line>, copies: seq<int>, p: nat)
    requires ChecksUnder(db0, CapAt(db0, rows), id, items, copies) && p in Products(items[..|copies|])
    requires DistinctProducts(db0.sales[id].lines) && forall l <- db0.sales[id].lines :: l.quantity > 0
    ensures p in Products(db0.sales[id].lines) && EarlyCovered(db0, rows, db0.sales[id].lines, p)
  {
    var line :| line in items[..|copies|] && line.product == p;
    var k :| 0 <= k < |copies| && items[..|copies|][k] == line;
    Sales.InProducts(items, db0.sales[id].lines, k);
    forall l | l in db0.sales[id].lines && l.product <= p ensures l.quantity <= Cap(db0, rows, l.product) {
      EarlyByCopies(db0, rows, id, items, copies, k, l);
    }
  }

  /******* No clash *******/

  lemma ApproveTouches(db0: Store, reqs: seq<Request>, rows: set<Row>, db: Store, t: Txn, id: nat, p: nat)
    requires Evolved(db0, reqs, db) && rows == Spent(db0, db) && t.req == Approve(id)
    requires ApproveUnder(db0, CapAt(db0, rows), db, t, id) && Locked.Agrees(db, t) && t.phase.Written?
    requires p in t.writes.stock && t.writes.stock[p] != StockOf(db, p)
    ensures Touches(db0, reqs, rows, t.req, p)
  {
    assert !db0.notes[id].approved && NoteRow(id) !in rows;
    assert db.notes[id].(approved := true) == db0.notes[id].(approved := true);
  }

  /** `req` can still change the stock of `p` when `rows` are spent. */
  ghost predicate Touches(db0: Store, reqs: seq<Request>, rows: set<Row>, req: Request, p: nat) {
    match req
    case Receive(k) =>
      && k < |db0.purchases| && !db0.purchases[k].received && p in Products(db0.purchases[k].lines)
      && PurchaseRow(k) !in rows
    case Approve(k) =>
      && k < |db0.notes| && !db0.notes[k].approved && p == db0.notes[k].product && db0.notes[k].quantity > 0
      && NoteRow(k) !in rows
    case WriteOff(product, amount) => p == product && Removable(db0, CapAt(db0, Movers(db0, reqs)), product, amount)
    case _ => false
  }

  lemma ReceiveTouches(db0: Store, reqs: seq<Request>, rows: set<Row>, db: Store, t: Txn, id: nat, p: nat)
    requires Evolved(db0, reqs, db) && rows == Spent(db0, db) && t.req == Receive(id)
    requires ReceiveUnder(db0, CapAt(db0, rows), db, t, id) && Locked.Agrees(db, t) && p in Seen(t)
    ensures Touches(db0, reqs, rows, t.req, p)
  {
    assert !db0.purchases[id].received && PurchaseRow(id) !in rows;
    var items := t.phase.items;
    Sales.SameProducts(items, db0.purchases[id].lines);
    assert ProductRow(p) in t.held;
    assert p in Products(items) by {
      var row :| row in t.held && row.ProductRow? && row.id == p;
      assert row in Locked.ProductRows(items);
    }
  }

  lemma WriteOffTouches(
    db0: Store, reqs: seq<Request>, rows: set<Row>, db: Store, t: Txn, product: nat, amount: int, p: nat)
    requires Evolved(db0, reqs, db) && rows <= Movers(db0, reqs) && t.req == WriteOff(product, amount)
    requires WriteOffUnder(db0, CapAt(db0, rows), t, product, amount) && Locked.Agrees(db, t) && p in Seen(t)
    ensures Touches(db0, reqs, rows, t.req, p)
  {
    CapGrows(db0, rows, Movers(db0, reqs), product);
  }

  /** Touching what an able sale relies on is a crossing. */
  lemma TouchingCrosses(db0: Store, reqs: seq<Request>, rows: set<Row>, sale: Request, other: Request, p: nat)
    requires rows <= Movers(db0, reqs) && CanSell(db0, reqs, sale)
    requires p in Products(Sales.LinesOf(db0, sale)) && EarlyCovered(db0, rows, Sales.LinesOf(db0, sale), p)
    requires Touches(db0, reqs, rows, other, p)
    ensures Crosses(db0, reqs, sale, other)
  {
    var without := Movers(db0, reqs) - Closes(other);
    forall line | line in Sales.LinesOf(db0, sale) && line.product <= p
      ensures line.quantity <= Cap(db0, without, line.product)
    {
      CapGrows(db0, rows, without, line.product);
    }
    assert CrossesAt(db0, reqs, sale, other, p);
  }

  /** Two able sales rely on different products. */
  lemma SalesDoNotMeet(db0: Store, reqs: seq<Request>, t: nat, u: nat, p: nat)
    requires Safe(db0, reqs) && t < |reqs| && u < |reqs| && t != u
    requires CanSell(db0, reqs, reqs[t]) && CanSell(db0, reqs, reqs[u])
    requires p in Products(Sales.LinesOf(db0, reqs[t]))
    ensures p !in Products(Sales.LinesOf(db0, reqs[u]))
  {
    assert !Meet(db0, reqs, reqs[t], reqs[u]);
  }

  /** What a sale saves is on its lines. */
  lemma SaleSavesItsLines(db0: Store, reqs: seq<Request>, s: System, t: nat, p: nat)
    requires WellFormed(db0) && Ceiled(db0, reqs, s) && InStep(db0, Able(db0, reqs), s) && t < |s.txns|
    requires s.txns[t].req.Complete? && s.txns[t].phase.Written? && p in s.txns[t].writes.stock
    ensures t in Able(db0, reqs) && p in Products(Sales.LinesOf(db0, s.txns[t].req))
    ensures EarlyCovered(db0, Spent(db0, s.db), Sales.LinesOf(db0, s.txns[t].req), p)
  {
    var txn := s.txns[t];
    SaverIsAble(db0, reqs, s, t);
    Sales.SameProducts(txn.phase.items, Sales.LinesOf(db0, txn.req));
    assert Current(s.db, txn, t in Able(db0, reqs));
    forall l | l in Sales.LinesOf(db0, txn.req) ensures l.quantity <= Cap(db0, Spent(db0, s.db), l.product) {
      assert l.quantity <= CapAt(db0, Spent(db0, s.db))(l.product);
    }
  }

  lemma ClashOfSale(db0: Store, reqs: seq<Request>, s: System, t: nat, u: nat, p: nat)
    requires WellFormed(db0) && Ceiled(db0, reqs, s) && InStep(db0, Able(db0, reqs), s) && Safe(db0, reqs)
    requires t < |s.txns| && u < |s.txns| && t != u && s.txns[t].req.Complete? && s.txns[t].phase.Written?
    requires s.txns[u].req.Complete? && u in Able(db0, reqs) && p in s.txns[t].writes.stock
    ensures p !in Seen(s.txns[u])
  {
    assert Requests(s)[t] == s.txns[t].req && Requests(s)[u] == s.txns[u].req;
    SaleSavesItsLines(db0, reqs, s, t, p);
    if p in Seen(s.txns[u]) {
      SeenIsCovered(db0, reqs, s, u, p);
      SalesDoNotMeet(db0, reqs, t, u, p);
    }
  }

  /** A request beside the sales that is about to change a product works on an open order or pending return of it, or
      writes it off. */
  lemma CallTouchesWhatItSaves(db0: Store, reqs: seq<Request>, s: System, t: nat, p: nat)
    requires WellFormed(db0) && Ceiled(db0, reqs, s) && InStep(db0, Able(db0, reqs), s) && t < |s.txns|
    requires !s.txns[t].req.Complete? && s.txns[t].phase.Written? && p in s.txns[t].writes.stock
    requires s.txns[t].writes.stock[p] != StockOf(s.db, p)
    ensures Touches(db0, reqs, Spent(db0, s.db), s.txns[t].req, p)
  {
    var txn, rows := s.txns[t], Spent(db0, s.db);
    assert Requests(s)[t] == txn.req && TxnUnder(db0, CapAt(db0, rows), s.db, txn);
    assert Current(s.db, txn, t in Able(db0, reqs));
    match txn.req
    case Receive(id) =>
      WritesAreSeen(s.db, txn, p);
      ReceiveTouches(db0, reqs, rows, s.db, txn, id, p);
    case Approve(id) => ApproveTouches(db0, reqs, rows, s.db, txn, id, p);
    case WriteOff(product, amount) =>
      WritesAreSeen(s.db, txn, p);
      WriteOffTouches(db0, reqs, rows, s.db, txn, product, amount, p);
    case _ =>
  }

  lemma ClashOfCall(db0: Store, reqs: seq<Request>, s: System, t: nat, u: nat, p: nat)
    requires WellFormed(db0) && Ceiled(db0, reqs, s) && InStep(db0, Able(db0, reqs), s) && Safe(db0, reqs)
    requires t < |s.txns| && u < |s.txns| && t != u && !s.txns[t].req.Complete? && s.txns[t].phase.Written?
    requires s.txns[u].req.Complete? && u in Able(db0, reqs)
    requires p in s.txns[t].writes.stock && s.txns[t].writes.stock[p] != StockOf(s.db, p)
    ensures p !in Seen(s.txns[u])
  {
    assert Requests(s)[t] == s.txns[t].req && Requests(s)[u] == s.txns[u].req;
    if p in Seen(s.txns[u]) {
      CallTouchesWhatItSaves(db0, reqs, s, t, p);
      SeenIsCovered(db0, reqs, s, u, p);
      TouchingCrosses(db0, reqs, Spent(db0, s.db), reqs[u], reqs[t], p);
    }
  }

  lemma SafeNoClash(db0: Store, reqs: seq<Request>, s: System)
    requires WellFormed(db0) && Ceiled(db0, reqs, s) && InStep(db0, Able(db0, reqs), s) && Safe(db0, reqs)
    ensures NoClash(Able(db0, reqs), s)
  {
    forall t, u | 0 <= t < |s.txns| && 0 <= u < |s.txns| && t != u
                  && s.txns[t].phase.Written? && s.txns[u].req.Complete? && u in Able(db0, reqs)
      ensures Spares(s.db, s.txns[t].writes, Seen(s.txns[u]))
    {
      forall p | p in s.txns[t].writes.stock && p in Seen(s.txns[u])
        ensures s.txns[t].writes.stock[p] == StockOf(s.db, p)
      {
        if s.txns[t].req.Complete? {
          ClashOfSale(db0, reqs, s, t, u, p);
        } else if s.txns[t].writes.stock[p] != StockOf(s.db, p) {
          ClashOfCall(db0, reqs, s, t, u, p);
        }
      }
    }
  }

  lemma {:induction false} ReachableSafe(s0: System, run: seq<Action>, s: System)
    requires Init(s0) && NamesExisting(s0.db, Requests(s0)) && Safe(s0.db, Requests(s0)) && Reaches(s0, run, s, false)
    ensures InStep(s0.db, Able(s0.db, Requests(s0)), s)
  {
    var db0, reqs := s0.db, Requests(s0);
    if run == [] {
      StartsInStep(s0, Able(db0, reqs));
    } else {
      var init, last := run[..|run| - 1], run[|run| - 1];
      var prev :| Reaches(s0, init, prev, false) && Enabled(prev, last, false) && s == Next(prev, last, false);
      ReachableSafe(s0, init, prev);
      ReachableCeiled(s0, init, prev);
      ReachableCeiled(s0, run, s);
      SafeOnlyAbleSave(db0, reqs, prev);
      SafeOnlyAbleSave(db0, reqs, s);
      SafeNoClash(db0, reqs, prev);
      StepStaysInStep(db0, Able(db0, reqs), prev, last);
    }
  }
}
