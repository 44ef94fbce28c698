/** `complete` with INVENTORY_LOCKING_ENABLED off beside the other endpoints, which lock but cannot make it wait. */
module UnlockedMix {
  import opened Ledger
  import opened Endpoints
  import opened RowLocks
  import opened UnlockedSales
  import Progress

  /** The switch only concerns `complete`. */
  lemma SwitchDoesNotMatter(s: System, a: Action)
    requires a.tid < |s.txns| && !s.txns[a.tid].req.Complete?
    ensures Wants(s.db, s.txns[a.tid], false) == Wants(s.db, s.txns[a.tid], true)
    ensures Enabled(s, a, false) <==> Enabled(s, a, true)
    ensures Next(s, a, false) == Next(s, a, true)
  {
  }

  lemma Answers(s: System, a: Action)
    requires WellFormed(s.db) && a.Go? && Enabled(s, a, true) && Locked.Agrees(s.db, s.txns[a.tid])
    requires Advance(s.db, s.txns[a.tid], a.fetched).phase.Done?
    ensures var t := s.txns[a.tid];
            && Fetched(s.db, t.req, ItemsOf(t.phase))
            && Next(s, a, true).db == Serve(s.db, t.req, ItemsOf(t.phase)).store
            && Next(s, a, true).txns
               == s.txns[a.tid := Txn(t.req, Done(Serve(s.db, t.req, ItemsOf(t.phase)).reply), {}, BLANK)]
  {
    Locked.AnswerIsServe(s.db, s.txns[a.tid], a.fetched);
  }

  lemma Moves(s: System, a: Action, cap: nat)
    requires WellFormed(s.db) && a.Go? && Enabled(s, a, true) && Locked.Agrees(s.db, s.txns[a.tid])
    requires !Advance(s.db, s.txns[a.tid], a.fetched).phase.Done?
    requires s.txns[a.tid].phase.Opened? ==>
               |a.fetched| <= cap || !(s.txns[a.tid].req.Receive? || s.txns[a.tid].req.Complete?)
    ensures var s' := Next(s, a, true);
            && s'.db == s.db && s'.txns == s.txns[a.tid := s'.txns[a.tid]]
            && Locked.Agrees(s.db, s'.txns[a.tid]) && s'.txns[a.tid].req == s.txns[a.tid].req
            && !Finished(s'.txns[a.tid])
            && Progress.WorkLeft(cap)(s'.txns[a.tid]) < Progress.WorkLeft(cap)(s.txns[a.tid])
  {
    var t := s.txns[a.tid];
    Locked.OwnStep(s.db, t, a.fetched);
    Progress.EachStepWorks(s.db, t, a.fetched, cap);
    Progress.KeepsRequest(s.db, t, a.fetched);
    Progress.NextMovesOne(s, a);
    Progress.WorkIsInPhase(Next(s, a, true).txns[a.tid], Advance(s.db, t, a.fetched), cap);
    NeverCrashesItself(s.db, t, a.fetched);
  }

  lemma NeverCrashesItself(db: Store, t: Txn, fetched: seq<Line>)
    requires !t.phase.Crashed?
    ensures !Advance(db, t, fetched).phase.Crashed?
  {
  }

  ghost predicate Covers(db: Store, req: Request, cap: nat) {
    req.Receive? && req.id < |db.purchases| ==> |db.purchases[req.id].lines| <= cap
  }

  /** A request that is not a sale can run to its answer while nobody else holds a lock, and answers as if alone. */
  lemma {:induction false} FinishesAlone(s0: System, run: seq<Action>, s: System, tid: nat, cap: nat)
      returns (longer: seq<Action>, s': System, fetched: seq<Line>)
    requires Reaches(s0, run, s, false) && WellFormed(s.db) && NobodyElseLocks(s, tid)
    requires tid < |s.txns| && !s.txns[tid].req.Complete? && !Finished(s.txns[tid])
    requires Locked.Agrees(s.db, s.txns[tid]) && Covers(s.db, s.txns[tid].req, cap)
    ensures Reaches(s0, longer, s', false) && Fetched(s.db, s.txns[tid].req, fetched)
    ensures s'.db == Serve(s.db, s.txns[tid].req, fetched).store
    ensures s'.txns
         == s.txns[tid := Txn(s.txns[tid].req, Done(Serve(s.db, s.txns[tid].req, fetched).reply), {}, BLANK)]
    decreases Progress.WorkLeft(cap)(s.txns[tid])
  {
    var t := s.txns[tid];
    var a := NextStep(s, tid, cap);
    SwitchDoesNotMatter(s, a);
    s' := Next(s, a, true);
    ReachesSnoc(s0, run, s, a, false);
    if Advance(s.db, t, a.fetched).phase.Done? {
      Answers(s, a);
      longer, fetched := run + [a], ItemsOf(t.phase);
    } else {
      Moves(s, a, cap);
      Progress.WorkIsLeft(s.db, s'.txns[tid], cap);
      var moved := s'.txns[tid];
      longer, s', fetched := FinishesAlone(s0, run + [a], s', tid, cap);
      assert s.txns[tid := moved][tid := s'.txns[tid]] == s.txns[tid := s'.txns[tid]];
    }
  }

  lemma NextStep(s: System, tid: nat, cap: nat) returns (a: Action)
    requires tid < |s.txns| && !s.txns[tid].req.Complete? && !Finished(s.txns[tid]) && NobodyElseLocks(s, tid)
    requires Locked.Agrees(s.db, s.txns[tid]) && Covers(s.db, s.txns[tid].req, cap)
    ensures a.Go? && a.tid == tid && Enabled(s, a, true)
    ensures s.txns[tid].phase.Opened? && s.txns[tid].req.Receive? ==> |a.fetched| <= cap
  {
    var t := s.txns[tid];
    var fetched: seq<Line> := [];
    if t.req.Receive? && t.phase.Opened? {
      fetched := SomeOrdering(s.db.purchases[t.req.id].lines);
      MembersPermuted(fetched, s.db.purchases[t.req.id].lines);
    }
    a := Go(tid, fetched);
  }

  /** Between an unlocked sale's check and its saves any other request can be served, and the saves then overwrite
      whatever it did to the sale's products. */
  lemma SaleOverwrites(s0: System, t: nat, u: nat)
      returns (run: seq<Action>, s: System, items: seq<Line>, fetched: seq<Line>)
    requires Init(s0) && t < |s0.txns| && u < |s0.txns| && t != u
    requires Live(s0.db, s0.txns[t].req) && !s0.txns[u].req.Complete?
    ensures Reaches(s0, run, s, false) && |s.txns| == |s0.txns|
    ensures multiset(items) == multiset(LinesOf(s0.db, s0.txns[t].req))
    ensures Fetched(s0.db, s0.txns[u].req, fetched)
    ensures s.txns[t].phase == Done(Ok)
    ensures s.txns[u].phase == Done(Serve(s0.db, s0.txns[u].req, fetched).reply)
    ensures s.db == Apply(Serve(s0.db, s0.txns[u].req, fetched).store, WholeSale(s0.db, s0.txns[t].req.id, items))
  {
    var id, other := s0.txns[t].req.id, s0.txns[u].req;
    StartsAsStage(s0, t);
    run, s, items := PassesCheck(s0, [], s0, t, id);
    assert s0.txns[u] in s0.txns;
    NobodyLocksYet(s0, s, t, u, id);
    var cap := if other.Receive? && other.id < |s0.db.purchases| then |s0.db.purchases[other.id].lines| else 0;
    run, s, fetched := FinishesAlone(s0, run, s, u, cap);
    run := SavesItsCopies(s0, run, s, t, s0.db, id, items);
    s := Sold(s, t, s0.db, id, items);
  }

  lemma NobodyLocksYet(s0: System, s: System, t: nat, u: nat, id: nat)
    requires Init(s0) && t < |s0.txns| == |s.txns| && s.txns == s0.txns[t := s.txns[t]] && s.txns[t].held == {}
    ensures NobodyElseLocks(s, u)
  {
    forall v | 0 <= v < |s.txns| && v != u ensures s.txns[v].held == {} {
      assert s0.txns[v] in s0.txns;
    }
  }

  /** A receipt of a product between a sale's check and its saves is lost from the stock: here updates go missing
      downwards. */
  lemma ReceiptLost(s0: System, t: nat, u: nat, p: nat) returns (run: seq<Action>, s: System)
    requires Init(s0) && t < |s0.txns| && u < |s0.txns| && t != u
    requires Live(s0.db, s0.txns[t].req) && DistinctProducts(LinesOf(s0.db, s0.txns[t].req))
    requires s0.txns[u].req.Receive? && Locked.OpenPurchase(s0.db, s0.txns[u].req.id)
    requires p in Products(LinesOf(s0.db, s0.txns[t].req))
    requires p in Products(s0.db.purchases[s0.txns[u].req.id].lines)
    ensures Reaches(s0, run, s, false) && |s.txns| == |s0.txns|
    ensures s.txns[t].phase == s.txns[u].phase == Done(Ok)
    ensures |s.db.stock| == |s0.db.stock| && p < |s0.db.stock|
    ensures s.db.stock[p] == s0.db.stock[p] - (Total(s.db.ledger, Sale, p) - Total(s0.db.ledger, Sale, p))
    ensures Total(s.db.ledger, Purchase, p) > Total(s0.db.ledger, Purchase, p)
  {
    var items, fetched;
    run, s, items, fetched := SaleOverwrites(s0, t, u);
    var id, lines := s0.txns[t].req.id, LinesOf(s0.db, s0.txns[t].req);
    SellableLines(s0.db, s0.txns[t].req, items);
    SameProducts(items, lines);
    LastIsAll(items, lines, p);
    SaleLeaves(Serve(s0.db, s0.txns[u].req, fetched).store, s0.db, id, items, p);
    ReceiptPosts(s0.db, s0.txns[u].req.id, fetched, p);
    SalePostsNoPurchase(Serve(s0.db, s0.txns[u].req, fetched).store, s0.db, id, items, p);
  }

  lemma ReceiptPosts(db: Store, id: nat, fetched: seq<Line>, p: nat)
    requires WellFormed(db) && Locked.OpenPurchase(db, id) && multiset(fetched) == multiset(db.purchases[id].lines)
    requires p in Products(db.purchases[id].lines)
    ensures var after := ServeReceive(db, id, fetched).store;
            && Total(after.ledger, Sale, p) == Total(db.ledger, Sale, p)
            && Total(after.ledger, Purchase, p) > Total(db.ledger, Purchase, p)
  {
    var lines, rows := db.purchases[id].lines, Rows(fetched, Purchase, PurchaseRef(id));
    assert db.purchases[id] in db.purchases;
    var line :| line in lines && line.product == p;
    var k :| 0 <= k < |lines| && lines[k] == line;
    QtyBounds(lines, p);
    QtyPermuted(fetched, lines, p);
    RowsAmount(fetched, Purchase, PurchaseRef(id), p);
    assert Total(rows, Sale, p) == 0 && Total(rows, Purchase, p) == Qty(fetched, p);
    TotalGrows(db.ledger, rows, Sale, p);
    TotalGrows(db.ledger, rows, Purchase, p);
  }

  lemma SalePostsNoPurchase(db: Store, seen: Store, id: nat, items: seq<Line>, p: nat)
    ensures Total(Apply(db, WholeSale(seen, id, items)).ledger, Purchase, p) == Total(db.ledger, Purchase, p)
  {
    var rows := Rows(items, Sale, SaleRef(id));
    RowsAmount(items, Sale, SaleRef(id), p);
    assert Total(rows, Purchase, p) == 0;
    TotalGrows(db.ledger, rows, Purchase, p);
  }
}
