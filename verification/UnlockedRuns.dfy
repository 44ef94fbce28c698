/** Runs that reach the ceiling, and what unlocked sales can do from there. */
module UnlockedRuns {
  import opened Ledger
  import opened Endpoints
  import opened History
  import opened RowLocks
  import opened Ceilings
  import Sales = UnlockedSales
  import Mix = UnlockedMix

  /******* Serving receipts and returns first *******/

  /** The movers outside `skip` that one of the first `n` requests names. */
  function ClosedBy(s0: System, skip: set<Row>, n: nat): set<Row>
    requires n <= |s0.txns|
  {
    set row | row in Movers(s0.db, Requests(s0)) - skip && exists t :: 0 <= t < n && row in Closes(s0.txns[t].req)
  }

  predicate Serves(s0: System, skip: set<Row>, t: nat)
    requires t < |s0.txns|
  {
    var rows := Closes(s0.txns[t].req);
    rows != {} && rows <= Movers(s0.db, Requests(s0)) - skip
  }

  /** Nothing but `rows` has been received and approved. */
  ghost predicate Lifted(db0: Store, reqs: seq<Request>, rows: set<Row>, db: Store) {
    && WellFormed(db) && Evolved(db0, reqs, db) && db.sales == db0.sales && Spent(db0, db) == rows
    && (forall p: nat :: StockOf(db, p) == Cap(db0, rows, p))
    && (forall p: nat :: p < |db0.stock| ==> Surplus(db, p) == Surplus(db0, p))
  }

  /** The first `n` receipts and approvals outside `skip` are served, everything else has yet to start. */
  ghost predicate Prepared(s0: System, skip: set<Row>, n: nat, s: System)
    requires n <= |s0.txns|
  {
    && |s.txns| == |s0.txns|
    && (forall t :: 0 <= t < |s.txns| ==> s.txns[t].held == {})
    && (forall t :: 0 <= t < |s.txns| && (t >= n || !Serves(s0, skip, t)) ==> s.txns[t] == s0.txns[t])
    && Lifted(s0.db, Requests(s0), ClosedBy(s0, skip, n), s.db)
  }

  lemma ReceiptLifts(db0: Store, reqs: seq<Request>, rows: set<Row>, db: Store, id: nat, fetched: seq<Line>)
    requires WellFormed(db0) && Lifted(db0, reqs, rows, db) && Fetched(db, Receive(id), fetched)
    requires id < |db0.purchases| && !db.purchases[id].received && Receive(id) in reqs
    ensures Lifted(db0, reqs, rows + {PurchaseRow(id)}, Serve(db, Receive(id), fetched).store)
  {
    var after, lines := Serve(db, Receive(id), fetched).store, db0.purchases[id].lines;
    assert PurchaseRow(id) !in rows;
    SpentAfterReceipt(db0, reqs, db, after, id);
    forall p: nat ensures StockOf(after, p) == Cap(db0, rows + {PurchaseRow(id)}, p) {
      CapAfter(db0, rows, Receive(id), p);
      QtyPermuted(fetched, lines, p);
      if p >= |db.stock| {
        assert db0.purchases[id] in db0.purchases;
        QtyBounds(lines, p);
      }
    }
    SurplusKept(db0, db, Event(0, Receive(id), fetched, Serve(db, Receive(id), fetched).reply));
  }

  lemma SpentAfterReceipt(db0: Store, reqs: seq<Request>, db: Store, after: Store, id: nat)
    requires Evolved(db0, reqs, db) && id < |db0.purchases| && !db.purchases[id].received
    requires after.purchases == db.purchases[id := db.purchases[id].(received := true)] && after.notes == db.notes
    ensures Spent(db0, after) == Spent(db0, db) + {PurchaseRow(id)}
  {
    assert !db0.purchases[id].received;
  }

  lemma SpentAfterApproval(db0: Store, reqs: seq<Request>, db: Store, after: Store, id: nat)
    requires Evolved(db0, reqs, db) && id < |db0.notes| && !db.notes[id].approved
    requires after.notes == db.notes[id := db.notes[id].(approved := true)] && after.purchases == db.purchases
    ensures Spent(db0, after) == Spent(db0, db) + {NoteRow(id)}
  {
    assert !db0.notes[id].approved;
  }

  /** A call other than `complete` keeps stock and ledger in step. */
  lemma SurplusKept(db0: Store, db: Store, ev: Event)
    requires WellFormed(db) && |db.stock| == |db0.stock| && !ev.req.Complete?
    requires Serve(db, ev.req, ev.items).reply == ev.reply
    requires forall p: nat :: p < |db0.stock| ==> Surplus(db, p) == Surplus(db0, p)
    ensures forall p: nat :: p < |db0.stock| ==> Surplus(Serve(db, ev.req, ev.items).store, p) == Surplus(db0, p)
  {
    forall p: nat | p < |db0.stock| ensures Surplus(Serve(db, ev.req, ev.items).store, p) == Surplus(db0, p) {
      StepSurplus(db, ev, p);
    }
  }

  lemma ApprovalLifts(db0: Store, reqs: seq<Request>, rows: set<Row>, db: Store, id: nat)
    requires WellFormed(db0) && Lifted(db0, reqs, rows, db)
    requires id < |db0.notes| && !db.notes[id].approved && Approve(id) in reqs
    ensures Lifted(db0, reqs, rows + {NoteRow(id)}, Serve(db, Approve(id), []).store)
  {
    var after := Serve(db, Approve(id), []).store;
    assert NoteRow(id) !in rows;
    SpentAfterApproval(db0, reqs, db, after, id);
    assert db0.notes[id] in db0.notes && db.notes[id].(approved := true) == db0.notes[id].(approved := true);
    forall p: nat ensures StockOf(after, p) == Cap(db0, rows + {NoteRow(id)}, p) {
      CapAfter(db0, rows, Approve(id), p);
    }
    SurplusKept(db0, db, Event(0, Approve(id), [], Serve(db, Approve(id), []).reply));
  }

  lemma OneMoreClosed(s0: System, skip: set<Row>, n: nat)
    requires n < |s0.txns|
    ensures ClosedBy(s0, skip, n + 1)
         == ClosedBy(s0, skip, n) + if Serves(s0, skip, n) then Closes(s0.txns[n].req) else {}
  {
  }

  /** Serving a mover closes its row, or finds it closed already. */
  lemma ServedLifts(db0: Store, reqs: seq<Request>, rows: set<Row>, db: Store, req: Request, fetched: seq<Line>)
    requires WellFormed(db0) && Lifted(db0, reqs, rows, db) && Fetched(db, req, fetched)
    requires req in reqs && Closes(req) != {} && Closes(req) <= Movers(db0, reqs)
    ensures Lifted(db0, reqs, rows + Closes(req), Serve(db, req, fetched).store)
  {
    if Closes(req) <= rows {
      assert rows + Closes(req) == rows;
      assert Serve(db, req, fetched).store == db;
    } else {
      match req
      case Receive(id) =>
        assert !db.purchases[id].received by {
          assert PurchaseRow(id) !in Spent(db0, db);
        }
        ReceiptLifts(db0, reqs, rows, db, id, fetched);
      case Approve(id) =>
        assert !db.notes[id].approved by {
          assert NoteRow(id) !in Spent(db0, db);
        }
        ApprovalLifts(db0, reqs, rows, db, id);
    }
  }

  lemma UntouchedStart(s0: System, tid: nat)
    requires Init(s0) && tid < |s0.txns|
    ensures s0.txns[tid] == Txn(s0.txns[tid].req, Start, {}, BLANK)
  {
    assert s0.txns[tid] in s0.txns;
  }

  lemma ServesNamed(s0: System, skip: set<Row>, n: nat, run: seq<Action>, s: System)
      returns (longer: seq<Action>, s': System)
    requires Init(s0) && n < |s0.txns| && Reaches(s0, run, s, false) && Prepared(s0, skip, n, s) && Serves(s0, skip, n)
    ensures Reaches(s0, longer, s', false) && |s'.txns| == |s.txns|
    ensures s'.txns == s.txns[n := s'.txns[n]] && s'.txns[n].held == {}
    ensures Lifted(s0.db, Requests(s0), ClosedBy(s0, skip, n) + Closes(s0.txns[n].req), s'.db)
  {
    UntouchedStart(s0, n);
    var req := s0.txns[n].req;
    assert req == Requests(s0)[n];
    var cap := if req.Receive? && req.id < |s.db.purchases| then |s.db.purchases[req.id].lines| else 0;
    var fetched;
    longer, s', fetched := Mix.FinishesAlone(s0, run, s, n, cap);
    ServedLifts(s0.db, Requests(s0), ClosedBy(s0, skip, n), s.db, req, fetched);
  }

  lemma ServeOne(s0: System, skip: set<Row>, n: nat, run: seq<Action>, s: System)
      returns (longer: seq<Action>, s': System)
    requires Init(s0) && n < |s0.txns| && Reaches(s0, run, s, false) && Prepared(s0, skip, n, s)
    ensures Reaches(s0, longer, s', false) && Prepared(s0, skip, n + 1, s')
  {
    longer, s' := run, s;
    OneMoreClosed(s0, skip, n);
    if Serves(s0, skip, n) {
      longer, s' := ServesNamed(s0, skip, n, run, s);
    } else {
      assert ClosedBy(s0, skip, n) + {} == ClosedBy(s0, skip, n);
    }
  }

  lemma NothingServed(s0: System, skip: set<Row>)
    requires Init(s0)
    ensures Prepared(s0, skip, 0, s0)
  {
    assert ClosedBy(s0, skip, 0) == {} && Spent(s0.db, s0.db) == {};
    forall p: nat ensures StockOf(s0.db, p) == Cap(s0.db, {}, p) {
      NothingBroughtIn(s0.db, |s0.db.purchases|, |s0.db.notes|, p);
    }
    forall t | 0 <= t < |s0.txns| ensures s0.txns[t].held == {} {
      assert s0.txns[t] in s0.txns;
    }
  }

  lemma {:induction false} ServesUpTo(s0: System, skip: set<Row>, n: nat) returns (run: seq<Action>, s: System)
    requires Init(s0) && n <= |s0.txns|
    ensures Reaches(s0, run, s, false) && Prepared(s0, skip, n, s)
  {
    if n == 0 {
      run, s := [], s0;
      NothingServed(s0, skip);
    } else {
      run, s := ServesUpTo(s0, skip, n - 1);
      run, s := ServeOne(s0, skip, n - 1, run, s);
    }
  }

  lemma EveryMoverIsNamed(s0: System, skip: set<Row>)
    ensures ClosedBy(s0, skip, |s0.txns|) == Movers(s0.db, Requests(s0)) - skip
  {
    forall row | row in Movers(s0.db, Requests(s0)) - skip ensures row in ClosedBy(s0, skip, |s0.txns|) {
      var req := if row.PurchaseRow? then Receive(row.id) else Approve(row.id);
      assert req in Requests(s0);
      var t :| 0 <= t < |s0.txns| && Requests(s0)[t] == req;
      assert row in Closes(s0.txns[t].req);
    }
  }

  /** Everything that can be received and approved, `skip` aside, is; nothing else has started. */
  ghost predicate Ready(s0: System, skip: set<Row>, s: System) {
    && |s.txns| == |s0.txns|
    && (forall t :: 0 <= t < |s.txns| ==> s.txns[t].held == {})
    && (forall t :: 0 <= t < |s.txns| && !Serves(s0, skip, t) ==> s.txns[t] == s0.txns[t])
    && Lifted(s0.db, Requests(s0), Movers(s0.db, Requests(s0)) - skip, s.db)
  }

  /** Stock can be brought to the ceiling, or to that without the rows in `skip`. */
  lemma ServesMovers(s0: System, skip: set<Row>) returns (run: seq<Action>, s: System)
    requires Init(s0)
    ensures Reaches(s0, run, s, false) && Ready(s0, skip, s)
  {
    run, s := ServesUpTo(s0, skip, |s0.txns|);
    EveryMoverIsNamed(s0, skip);
  }

  /******* Completing an order twice *******/

  lemma SellableIsLive(s0: System, s: System, t: nat)
    requires Init(s0) && Ready(s0, {}, s) && t < |s0.txns| && CanSell(s0.db, Requests(s0), s0.txns[t].req)
    ensures Sales.Live(s.db, s0.txns[t].req) && s.txns[t] == Sales.Stage(s0.txns[t].req.id, Start, BLANK)
  {
    var id, rows := s0.txns[t].req.id, Movers(s0.db, Requests(s0));
    UntouchedStart(s0, t);
    assert rows - {} == rows;
    assert s0.db.sales[id] in s0.db.sales;
    forall line | line in s.db.sales[id].lines
      ensures line.product < |s.db.stock| && line.quantity <= s.db.stock[line.product]
    {
      assert line.quantity <= CapAt(s0.db, rows)(line.product);
      assert StockOf(s.db, line.product) == Cap(s0.db, rows, line.product);
    }
  }

  /** Two sales that are live in some state can both pass their checks there, and then both save. */
  lemma BothSellFrom(s0: System, run: seq<Action>, s: System, t: nat, u: nat)
      returns (longer: seq<Action>, s': System, first: seq<Line>, second: seq<Line>)
    requires Reaches(s0, run, s, false) && t < |s.txns| && u < |s.txns| && t != u
    requires forall v :: 0 <= v < |s.txns| ==> s.txns[v].held == {}
    requires s.txns[t].req.Complete? && s.txns[t] == Sales.Stage(s.txns[t].req.id, Start, BLANK)
    requires s.txns[u].req.Complete? && s.txns[u] == Sales.Stage(s.txns[u].req.id, Start, BLANK)
    requires Sales.Live(s.db, s.txns[t].req) && Sales.Live(s.db, s.txns[u].req)
    ensures Reaches(s0, longer, s', false) && |s'.txns| == |s.txns|
    ensures s'.txns[t] == Sales.Stage(s.txns[t].req.id, Done(Ok), BLANK)
    ensures s'.txns[u] == Sales.Stage(s.txns[u].req.id, Done(Ok), BLANK)
    ensures multiset(first) == multiset(Sales.LinesOf(s.db, s.txns[t].req))
    ensures multiset(second) == multiset(Sales.LinesOf(s.db, s.txns[u].req))
    ensures s'.db == Apply(Apply(s.db, Sales.WholeSale(s.db, s.txns[t].req.id, first)),
                           Sales.WholeSale(s.db, s.txns[u].req.id, second))
  {
    var i, j := s.txns[t].req.id, s.txns[u].req.id;
    longer, s', first := Sales.PassesCheck(s0, run, s, t, i);
    longer, s', second := Sales.PassesCheck(s0, longer, s', u, j);
    longer := Sales.SavesItsCopies(s0, longer, s', t, s.db, i, first);
    s' := Sales.Sold(s', t, s.db, i, first);
    longer := Sales.SavesItsCopies(s0, longer, s', u, s.db, j, second);
    s' := Sales.Sold(s', u, s.db, j, second);
  }

  lemma CanCompleteTwice(s0: System, id: nat) returns (run: seq<Action>, s: System)
    requires Init(s0) && Sales.NamedTwice(s0, id) && CanSell(s0.db, Requests(s0), Complete(id))
    ensures Reaches(s0, run, s, false) && Sales.CompletedTwice(s, id)
  {
    var t: nat, u: nat :| t < u < |s0.txns| && s0.txns[t].req == s0.txns[u].req == Complete(id);
    run, s := ServesMovers(s0, {});
    SellableIsLive(s0, s, t);
    SellableIsLive(s0, s, u);
    var first, second;
    run, s, first, second := BothSellFrom(s0, run, s, t, u);
  }

  lemma TwiceMeansSellable(s0: System, run: seq<Action>, s: System, id: nat)
    requires Init(s0) && NamesExisting(s0.db, Requests(s0)) && Reaches(s0, run, s, false) && Sales.CompletedTwice(s, id)
    ensures Sales.NamedTwice(s0, id) && CanSell(s0.db, Requests(s0), Complete(id))
  {
    var t: nat, u: nat :|
      && t < u < |s.txns| && s.txns[t].req == s.txns[u].req == Complete(id)
      && s.txns[t].phase == s.txns[u].phase == Done(Ok);
    Sales.ReachableRequests(s0, run, s);
    SoldWithinCeiling(s0, run, s);
  }

  /** Without locks, some run of a mix completes an order twice exactly when two requests name it, it is open, and every
      line is within the opening stock plus what the mix can receive and approve. */
  lemma TwiceIffSellable(s0: System, id: nat)
    requires Init(s0) && NamesExisting(s0.db, Requests(s0))
    ensures Sales.NamedTwice(s0, id) && CanSell(s0.db, Requests(s0), Complete(id)) <==>
            exists run: seq<Action>, s: System :: Reaches(s0, run, s, false) && Sales.CompletedTwice(s, id)
  {
    if Sales.NamedTwice(s0, id) && CanSell(s0.db, Requests(s0), Complete(id)) {
      var run, s := CanCompleteTwice(s0, id);
      assert Reaches(s0, run, s, false) && Sales.CompletedTwice(s, id);
    }
    forall run: seq<Action>, s: System | Reaches(s0, run, s, false) && Sales.CompletedTwice(s, id)
      ensures Sales.NamedTwice(s0, id) && CanSell(s0.db, Requests(s0), Complete(id))
    {
      TwiceMeansSellable(s0, run, s, id);
    }
  }

  /** Nothing in stock, one unit on order, one open sale of it, and requests to receive it and, twice, to sell it. */
  function LateReceipt(): System {
    System(
      Store([0], [true], [true], [PurchaseOrder(0, [Line(0, 1)], false)], [SalesOrder([Line(0, 1)], false)], [], []),
      [Txn(Complete(0), Start, {}, BLANK), Txn(Complete(0), Start, {}, BLANK), Txn(Receive(0), Start, {}, BLANK)],
      [])
  }

  /** The opening stock does not cover the sale, and yet, once the receipt is in, it can be completed twice. */
  lemma SoldTwiceAfterReceipt() returns (run: seq<Action>, s: System)
    ensures Init(LateReceipt()) && NonNegative(LateReceipt().db) && !Sales.Live(LateReceipt().db, Complete(0))
    ensures Reaches(LateReceipt(), run, s, false) && Sales.CompletedTwice(s, 0)
  {
    LateReceiptStarts();
    LateReceiptSells();
    run, s := CanCompleteTwice(LateReceipt(), 0);
  }

  lemma LateReceiptStarts()
    ensures Init(LateReceipt()) && NonNegative(LateReceipt().db) && !Sales.Live(LateReceipt().db, Complete(0))
    ensures Sales.NamedTwice(LateReceipt(), 0)
  {
    var s0 := LateReceipt();
    assert Sales.LinesOf(s0.db, Complete(0))[0] == Line(0, 1);
    assert s0.txns[0].req == s0.txns[1].req == Complete(0);
  }

  lemma LateReceiptSells()
    ensures CanSell(LateReceipt().db, Requests(LateReceipt()), Complete(0))
  {
    var db, reqs := LateReceipt().db, Requests(LateReceipt());
    assert reqs[2] == Receive(0);
    assert Movers(db, reqs) == {PurchaseRow(0)};
    NothingBroughtIn(db, 1, 0, 0);
    CapOfOneMore(db, {}, PurchaseRow(0), 0);
    assert {} + {PurchaseRow(0)} == {PurchaseRow(0)};
    QtyOfOne(Line(0, 1), 0);
  }
}
