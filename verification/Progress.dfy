/** Locked transactions never deadlock, and every run is finite. */
module Progress {
  import opened Sums
  import opened Ledger
  import opened Endpoints
  import opened RowLocks
  import opened Serializability

  /******* Deadlock freedom *******/

  /** The lock order: order and return rows first, then products by id. */
  function Rank(row: Row): nat {
    if row.ProductRow? then row.id + 1 else 0
  }

  /** Every transaction asks for rows in lock order. */
  lemma AsksInOrder(db: Store, t: Txn, row: Row, mine: Row)
    requires WellFormed(db) && Agrees(db, t) && !Finished(t)
    requires row in Wants(db, t, true) && mine in t.held
    ensures Rank(mine) < Rank(row) || mine == row
  {
    if t.req.Receive? && t.phase.Receiving? {
      ItemsAscend(t.phase.items, t.phase.i, mine);
    } else if t.req.Complete? && t.phase.Checking? {
      ItemsAscend(t.phase.items, |t.phase.copies|, mine);
    }
  }

  lemma ItemsAscend(items: seq<Line>, i: nat, mine: Row)
    requires InProductOrder(items) && i < |items|
    ensures mine in ProductRows(items[..i]) ==> Rank(mine) <= items[i].product + 1
  {
    if mine in ProductRows(items[..i]) {
      var line :| line in items[..i] && mine == ProductRow(line.product);
      var k :| 0 <= k < i && items[..i][k] == line;
      assert items[k].product <= items[i].product;
    }
  }

  lemma AsksInRange(db: Store, t: Txn, row: Row)
    requires WellFormed(db) && Agrees(db, t) && !Finished(t) && row in Wants(db, t, true)
    ensures Rank(row) <= |db.stock|
  {
    if t.req.Receive? && t.phase.Receiving? {
      var lines := db.purchases[t.req.id].lines;
      assert db.purchases[t.req.id] in db.purchases;
      ItemsInRange(db, lines, t.phase.items);
      assert t.phase.items[t.phase.i] in t.phase.items;
    } else if t.req.Complete? && t.phase.Checking? {
      var lines := db.sales[t.req.id].lines;
      assert db.sales[t.req.id] in db.sales;
      ItemsInRange(db, lines, t.phase.items);
      assert t.phase.items[|t.phase.copies|] in t.phase.items;
    } else if t.req.Approve? && t.phase.Opened? {
      assert db.notes[t.req.id] in db.notes;
    }
  }

  lemma OneRowAtATime(db: Store, t: Txn, row: Row)
    requires row in Wants(db, t, true)
    ensures Wants(db, t, true) == {row}
  {
  }

  /** A transaction whose row is free can step: its order lines, if it needs them, can be fetched. */
  lemma FreeToStep(s: System, tid: nat) returns (a: Action)
    requires tid < |s.txns| && !Finished(s.txns[tid]) && Agrees(s.db, s.txns[tid])
    requires Unlocked(s, tid, Wants(s.db, s.txns[tid], true))
    ensures a.Go? && Enabled(s, a, true)
  {
    var t := s.txns[tid];
    var fetched: seq<Line> := [];
    if t.req.Receive? && t.phase.Opened? {
      fetched := SomeOrdering(s.db.purchases[t.req.id].lines);
    } else if t.req.Complete? && t.phase.Opened? {
      fetched := SomeOrdering(s.db.sales[t.req.id].lines);
    }
    a := Go(tid, fetched);
  }

  /** Whoever waits, waits for someone who waits only for a higher row: following the waits ends at a free one. */
  lemma FollowTheWait(db0: Store, s: System, tid: nat, row: Row) returns (a: Action)
    requires Inv(db0, s) && tid < |s.txns| && !Finished(s.txns[tid])
    requires row in Wants(s.db, s.txns[tid], true)
    ensures a.Go? && Enabled(s, a, true)
    decreases |s.db.stock| - Rank(row)
  {
    OneRowAtATime(s.db, s.txns[tid], row);
    if Unlocked(s, tid, {row}) {
      a := FreeToStep(s, tid);
    } else {
      var u :| 0 <= u < |s.txns| && u != tid && row in s.txns[u].held;
      var holder := s.txns[u];
      assert Agrees(s.db, holder);
      if Unlocked(s, u, Wants(s.db, holder, true)) {
        a := FreeToStep(s, u);
      } else {
        var higher := WaitsHigher(db0, s, u, row);
        AsksInRange(s.db, holder, higher);
        a := FollowTheWait(db0, s, u, higher);
      }
    }
  }

  lemma WaitsHigher(db0: Store, s: System, u: nat, row: Row) returns (higher: Row)
    requires Inv(db0, s) && u < |s.txns| && !Finished(s.txns[u]) && row in s.txns[u].held
    requires !Unlocked(s, u, Wants(s.db, s.txns[u], true))
    ensures higher in Wants(s.db, s.txns[u], true) && Rank(row) < Rank(higher)
  {
    var holder := s.txns[u];
    var v :| 0 <= v < |s.txns| && v != u && !(s.txns[v].held !! Wants(s.db, holder, true));
    higher :| higher in s.txns[v].held && higher in Wants(s.db, holder, true);
    assert holder.held !! s.txns[v].held;
    AsksInOrder(s.db, holder, higher, row);
  }

  /** Deadlock freedom: while any transaction is unfinished, some transaction can take its next step. */
  lemma SomeoneCanStep(s0: System, run: seq<Action>, s: System, tid: nat) returns (a: Action)
    requires Init(s0) && Reaches(s0, run, s, true)
    requires tid < |s.txns| && !Finished(s.txns[tid])
    ensures a.Go? && Enabled(s, a, true)
  {
    ReachableInv(s0, run, s);
    var t := s.txns[tid];
    if Unlocked(s, tid, Wants(s.db, t, true)) {
      a := FreeToStep(s, tid);
    } else {
      var v :| 0 <= v < |s.txns| && v != tid && !(s.txns[v].held !! Wants(s.db, t, true));
      var row :| row in s.txns[v].held && row in Wants(s.db, t, true);
      a := FollowTheWait(s0.db, s, tid, row);
    }
  }

  /******* Termination *******/

  /** No order, present or to be created, has more than `cap` lines. */
  ghost predicate Capped(s: System, cap: nat) {
    && (forall order <- s.db.purchases :: |order.lines| <= cap)
    && (forall order <- s.db.sales :: |order.lines| <= cap)
    && (forall t <- s.txns :: t.req.CreatePurchase? || t.req.CreateSale? ==> |t.req.lines| <= cap)
  }

  /** The steps a transaction has left, at most. */
  function WorkLeft(cap: nat): Txn -> int {
    (t: Txn) =>
      match t.phase
      case Start => 2 * cap + 6
      case Opened => 2 * cap + 5
      case Receiving(items, i) => 2 * (|items| - i) + 2
      case Holding(items, i, _) => 2 * (|items| - i) + 1
      case Checking(items, copies) => 2 * |items| - |copies| + 3
      case Deducting(items, _, i) => |items| - i + 2
      case Counted(_) => 2
      case Read(_, _) => 2
      case Written(_) => 1
      case Refused(_, _) => 1
      case Done(_) => 0
      case Crashed => 0
  }

  lemma WorkIsLeft(db: Store, t: Txn, cap: nat)
    requires Agrees(db, t)
    ensures WorkLeft(cap)(t) >= 0 && (WorkLeft(cap)(t) == 0 <==> Finished(t))
  {
  }

  lemma EachStepWorks(db: Store, t: Txn, fetched: seq<Line>, cap: nat)
    requires WellFormed(db) && Agrees(db, t) && !Finished(t) && FetchOk(db, t, fetched)
    requires t.phase.Opened? ==> |fetched| <= cap || !(t.req.Receive? || t.req.Complete?)
    ensures WorkLeft(cap)(Advance(db, t, fetched)) < WorkLeft(cap)(t)
  {
    if t.phase.Written? || t.phase.Refused? {
    } else if t.req.Receive? {
      ReceiveWorks(db, t, fetched, cap);
    } else if t.req.Complete? {
      CompleteWorks(db, t, fetched, cap);
    }
  }

  lemma ReceiveWorks(db: Store, t: Txn, fetched: seq<Line>, cap: nat)
    requires t.req.Receive? && (AgreesReceive(db, t, t.req.id) || t.phase.Start?)
    requires t.phase.Opened? ==> |fetched| <= cap
    requires !t.phase.Written? && !t.phase.Refused? && !Finished(t)
    ensures WorkLeft(cap)(AdvanceReceive(db, t, t.req.id, fetched)) < WorkLeft(cap)(t)
  {
  }

  lemma CompleteWorks(db: Store, t: Txn, fetched: seq<Line>, cap: nat)
    requires t.req.Complete? && (AgreesComplete(db, t, t.req.id) || t.phase.Start?)
    requires t.phase.Opened? ==> |fetched| <= cap
    requires !t.phase.Written? && !t.phase.Refused? && !Finished(t)
    ensures WorkLeft(cap)(AdvanceComplete(db, t, t.req.id, fetched)) < WorkLeft(cap)(t)
  {
  }

  lemma FetchIsCapped(s: System, tid: nat, fetched: seq<Line>, cap: nat)
    requires Capped(s, cap) && tid < |s.txns| && FetchOk(s.db, s.txns[tid], fetched)
    ensures s.txns[tid].phase.Opened? ==> |fetched| <= cap || !(s.txns[tid].req.Receive? || s.txns[tid].req.Complete?)
  {
    var t := s.txns[tid];
    if t.phase.Opened? && t.req.Receive? {
      MembersPermuted(fetched, s.db.purchases[t.req.id].lines);
      assert s.db.purchases[t.req.id] in s.db.purchases;
    } else if t.phase.Opened? && t.req.Complete? {
      MembersPermuted(fetched, s.db.sales[t.req.id].lines);
      assert s.db.sales[t.req.id] in s.db.sales;
    }
  }

  function TotalWork(s: System, cap: nat): int {
    Sum(WorkLeft(cap), s.txns)
  }

  lemma NextMovesOne(s: System, a: Action)
    requires a.tid < |s.txns|
    ensures var s' := Next(s, a, true);
            && |s'.txns| == |s.txns|
            && s'.txns == s.txns[a.tid := s'.txns[a.tid]]
            && s'.txns[a.tid].phase == if a.Crash? then Crashed else Advance(s.db, s.txns[a.tid], a.fetched).phase
  {
  }

  lemma WorkIsInPhase(t: Txn, u: Txn, cap: nat)
    requires t.phase == u.phase
    ensures WorkLeft(cap)(t) == WorkLeft(cap)(u)
  {
  }

  lemma StepWorks(db0: Store, s: System, a: Action, cap: nat)
    requires Inv(db0, s) && Capped(s, cap) && Enabled(s, a, true)
    ensures TotalWork(Next(s, a, true), cap) < TotalWork(s, cap)
  {
    NextMovesOne(s, a);
    MoverWorks(db0, s, a, cap);
    SumUpdate(WorkLeft(cap), s.txns, a.tid, Next(s, a, true).txns[a.tid]);
  }

  /** The transaction that steps has less left to do. */
  lemma MoverWorks(db0: Store, s: System, a: Action, cap: nat)
    requires Inv(db0, s) && Capped(s, cap) && Enabled(s, a, true)
    ensures WorkLeft(cap)(Next(s, a, true).txns[a.tid]) < WorkLeft(cap)(s.txns[a.tid])
  {
    AgreesOnItsOwn(db0, s, a.tid);
    if a.Go? {
      StepperWorks(s, a, cap);
    } else {
      CrashEndsWork(s, a, cap);
    }
  }

  lemma AgreesOnItsOwn(db0: Store, s: System, tid: nat)
    requires Inv(db0, s) && tid < |s.txns|
    ensures Agrees(s.db, s.txns[tid])
  {
    assert s.txns[tid] in s.txns;
  }

  lemma CrashEndsWork(s: System, a: Action, cap: nat)
    requires a.tid < |s.txns| && a.Crash? && !Finished(s.txns[a.tid]) && Agrees(s.db, s.txns[a.tid])
    ensures WorkLeft(cap)(Next(s, a, true).txns[a.tid]) < WorkLeft(cap)(s.txns[a.tid])
  {
    NextMovesOne(s, a);
    WorkIsLeft(s.db, s.txns[a.tid], cap);
  }

  lemma StepperWorks(s: System, a: Action, cap: nat)
    requires WellFormed(s.db) && Capped(s, cap) && Enabled(s, a, true) && a.Go? && Agrees(s.db, s.txns[a.tid])
    ensures WorkLeft(cap)(Next(s, a, true).txns[a.tid]) < WorkLeft(cap)(s.txns[a.tid])
  {
    var t := s.txns[a.tid];
    NextMovesOne(s, a);
    FetchIsCapped(s, a.tid, a.fetched, cap);
    EachStepWorks(s.db, t, a.fetched, cap);
    WorkIsInPhase(Next(s, a, true).txns[a.tid], Advance(s.db, t, a.fetched), cap);
  }

  lemma StepStaysCapped(db0: Store, s: System, a: Action, cap: nat)
    requires Inv(db0, s) && Capped(s, cap) && Enabled(s, a, true)
    ensures Capped(Next(s, a, true), cap)
  {
    var t := s.txns[a.tid];
    var s' := Next(s, a, true);
    assert t in s.txns;
    assert s'.txns[a.tid].req == t.req by {
      if a.Go? {
        KeepsRequest(s.db, t, a.fetched);
      }
    }
    if a.Go? && t.phase.Written? {
      assert Agrees(s.db, t);
      CommitStaysCapped(s.db, t, cap);
    }
    StaysCapped(s, s', a.tid, cap);
  }

  lemma StaysCapped(s: System, s': System, tid: nat, cap: nat)
    requires Capped(s, cap) && tid < |s.txns| == |s'.txns|
    requires s'.txns == s.txns[tid := s'.txns[tid]] && s'.txns[tid].req == s.txns[tid].req
    requires forall order <- s'.db.purchases :: |order.lines| <= cap
    requires forall order <- s'.db.sales :: |order.lines| <= cap
    ensures Capped(s', cap)
  {
    assert s.txns[tid] in s.txns;
  }

  lemma KeepsRequest(db: Store, t: Txn, fetched: seq<Line>)
    ensures Advance(db, t, fetched).req == t.req
  {
  }

  lemma CommitStaysCapped(db: Store, t: Txn, cap: nat)
    requires Agrees(db, t) && t.phase.Written?
    requires t.req.CreatePurchase? || t.req.CreateSale? ==> |t.req.lines| <= cap
    requires forall order <- db.purchases :: |order.lines| <= cap
    requires forall order <- db.sales :: |order.lines| <= cap
    ensures forall order <- Apply(db, t.writes).purchases :: |order.lines| <= cap
    ensures forall order <- Apply(db, t.writes).sales :: |order.lines| <= cap
  {
  }

  lemma {:induction false} RunsUseUpWork(s0: System, run: seq<Action>, s: System, cap: nat)
    requires Init(s0) && Capped(s0, cap) && Reaches(s0, run, s, true)
    ensures Capped(s, cap) && |run| + TotalWork(s, cap) <= TotalWork(s0, cap)
  {
    if run != [] {
      var init, last := run[..|run| - 1], run[|run| - 1];
      var prev :| Reaches(s0, init, prev, true) && Enabled(prev, last, true) && s == Next(prev, last, true);
      RunsUseUpWork(s0, init, prev, cap);
      ReachableInv(s0, init, prev);
      StepWorks(s0.db, prev, last, cap);
      StepStaysCapped(s0.db, prev, last, cap);
    }
  }

  lemma {:induction false} WorkAtStart(txns: seq<Txn>, cap: nat)
    requires forall t <- txns :: t.phase.Start?
    ensures Sum(WorkLeft(cap), txns) == |txns| * (2 * cap + 6)
  {
    if txns != [] {
      WorkAtStart(txns[..|txns| - 1], cap);
    }
  }

  lemma RunFitsWork(s0: System, run: seq<Action>, s: System, cap: nat)
    requires Init(s0) && Capped(s0, cap) && Reaches(s0, run, s, true)
    ensures |run| <= TotalWork(s0, cap)
  {
    RunsUseUpWork(s0, run, s, cap);
    ReachableInv(s0, run, s);
    forall t | t in s.txns ensures WorkLeft(cap)(t) >= 0 {
      WorkIsLeft(s.db, t, cap);
    }
    SumBounds(WorkLeft(cap), s.txns);
  }

  /** Termination: no run, fair or not, takes more steps than this. */
  lemma RunsAreFinite(s0: System, run: seq<Action>, s: System, cap: nat)
    requires Init(s0) && Capped(s0, cap) && Reaches(s0, run, s, true)
    ensures |run| <= |s0.txns| * (2 * cap + 6)
  {
    RunFitsWork(s0, run, s, cap);
    WorkAtStart(s0.txns, cap);
  }

  /** One more step of an unfinished run. */
  lemma OneMoreStep(s0: System, run: seq<Action>, s: System, cap: nat) returns (a: Action, s': System)
    requires Init(s0) && Capped(s0, cap) && Reaches(s0, run, s, true)
    requires exists t <- s.txns :: !Finished(t)
    ensures a.Go? && Reaches(s0, run + [a], s', true)
    ensures |run| < TotalWork(s0, cap)
  {
    var tid: nat :| tid < |s.txns| && !Finished(s.txns[tid]);
    a := SomeoneCanStep(s0, run, s, tid);
    s' := Next(s, a, true);
    ReachesSnoc(s0, run, s, a, true);
    RunFitsWork(s0, run + [a], s', cap);
  }

  /** `end` is reached from the run so far by steps alone, and nobody is left unfinished. */
  ghost predicate FinishedBy(s0: System, run: seq<Action>, more: seq<Action>, end: System) {
    && Reaches(s0, run + more, end, true)
    && (forall a <- more :: a.Go?)
    && (forall t <- end.txns :: Finished(t))
  }

  lemma FinishedLater(s0: System, run: seq<Action>, a: Action, rest: seq<Action>, end: System)
    requires FinishedBy(s0, run + [a], rest, end) && a.Go?
    ensures FinishedBy(s0, run, [a] + rest, end)
  {
    assert run + [a] + rest == run + ([a] + rest);
  }

  lemma FinishedAlready(s0: System, run: seq<Action>, s: System)
    requires Reaches(s0, run, s, true) && forall t <- s.txns :: Finished(t)
    ensures FinishedBy(s0, run, [], s)
  {
    assert run + [] == run;
  }

  /** From every reachable state the unfinished transactions can all be carried to their answers, none crashing. */
  lemma {:induction false} CanAlwaysFinish(s0: System, run: seq<Action>, s: System, cap: nat)
      returns (more: seq<Action>, end: System)
    requires Init(s0) && Capped(s0, cap) && Reaches(s0, run, s, true)
    ensures FinishedBy(s0, run, more, end)
    decreases TotalWork(s0, cap) - |run|
  {
    if exists t <- s.txns :: !Finished(t) {
      var a, s' := OneMoreStep(s0, run, s, cap);
      more, end := CanAlwaysFinish(s0, run + [a], s', cap);
      FinishedLater(s0, run, a, more, end);
      more := [a] + more;
    } else {
      more, end := [], s;
      FinishedAlready(s0, run, s);
    }
  }
}
