/** Unlocked sales beside any requests, those that create orders and returns included: when nothing can be lost. */
module UnlockedApart {
  import opened Ledger
  import opened Endpoints
  import opened RowLocks
  import opened Ceilings
  import opened MixInStep

  /******* What a request may come to touch *******/

  /** The lines sale number `k` may have: its own, or those of any sale the mix creates. */
  predicate MayBeSale(db0: Store, reqs: seq<Request>, k: nat, lines: seq<Line>) {
    if k < |db0.sales| then lines == db0.sales[k].lines else CreateSale(lines) in reqs
  }

  predicate MayBePurchase(db0: Store, reqs: seq<Request>, k: nat, lines: seq<Line>) {
    if k < |db0.purchases| then lines == db0.purchases[k].lines
    else exists req <- reqs :: req.CreatePurchase? && req.lines == lines
  }

  predicate MayBeReturn(db0: Store, reqs: seq<Request>, k: nat, p: nat) {
    if k < |db0.notes| then p == db0.notes[k].product
    else exists req <- reqs :: req.FileReturn? && req.product == p
  }

  /** The request may change the stock of `p`. */
  ghost predicate MayTouch(db0: Store, reqs: seq<Request>, req: Request, p: nat) {
    match req
    case Complete(id) => exists lines: seq<Line> :: MayBeSale(db0, reqs, id, lines) && p in Products(lines)
    case Receive(id) => exists lines: seq<Line> :: MayBePurchase(db0, reqs, id, lines) && p in Products(lines)
    case Approve(id) => MayBeReturn(db0, reqs, id, p)
    case WriteOff(product, _) => p == product
    case _ => false
  }

  /** No sale that may be completed repeats a product, and nothing another request may touch is on it. */
  ghost predicate Apart(db0: Store, reqs: seq<Request>) {
    && (forall t, lines: seq<Line> ::
          0 <= t < |reqs| && reqs[t].Complete? && MayBeSale(db0, reqs, reqs[t].id, lines) ==> DistinctProducts(lines))
    && (forall t, u, p: nat :: 0 <= t < |reqs| && 0 <= u < |reqs| && t != u && reqs[t].Complete? ==>
          !(MayTouch(db0, reqs, reqs[t], p) && MayTouch(db0, reqs, reqs[u], p)))
  }

  /******* Where rows come from *******/

  ghost predicate Known(db0: Store, reqs: seq<Request>, db: Store) {
    && |db0.purchases| <= |db.purchases| && |db0.sales| <= |db.sales| && |db0.notes| <= |db.notes|
    && (forall k :: 0 <= k < |db.purchases| ==> MayBePurchase(db0, reqs, k, db.purchases[k].lines))
    && (forall k :: 0 <= k < |db.sales| ==> MayBeSale(db0, reqs, k, db.sales[k].lines))
    && (forall k :: 0 <= k < |db.notes| ==> MayBeReturn(db0, reqs, k, db.notes[k].product))
  }

  /** A sale under way has its order's lines; a creator is about to add what it was asked to. */
  ghost predicate KnownTxn(db: Store, t: Txn) {
    match t.req
    case Complete(id) =>
      (match t.phase
       case Start => true
       case Opened => id < |db.sales|
       case Checking(items, copies) => id < |db.sales| && multiset(items) == multiset(db.sales[id].lines)
       case Deducting(items, _, _) => id < |db.sales| && multiset(items) == multiset(db.sales[id].lines)
       case Written(items) => id < |db.sales| && multiset(items) == multiset(db.sales[id].lines)
       case Refused(_, _) => true
       case Done(_) => true
       case Crashed => true
       case _ => false)
      && (t.phase.Written? ==> t.writes.mark == MarkCompleted(id))
    case CreateSale(lines) => t.writes.mark in {NoMark, AddSale(lines)}
    case CreatePurchase(supplier, lines) => t.writes.mark in {NoMark, AddPurchase(supplier, lines)}
    case FileReturn(_, product, _) =>
      t.writes.mark.NoMark? || (t.writes.mark.AddNote? && t.writes.mark.note.product == product)
    case Receive(id) => t.writes.mark in {NoMark, MarkReceived(id)}
    case Approve(id) => t.writes.mark in {NoMark, MarkApproved(id)}
    case WriteOff(_, _) => t.writes.mark == NoMark
  }

  ghost predicate AllKnown(db0: Store, reqs: seq<Request>, s: System) {
    Requests(s) == reqs && Known(db0, reqs, s.db) && forall t :: 0 <= t < |s.txns| ==> KnownTxn(s.db, s.txns[t])
  }

  lemma KnownStep(db: Store, t: Txn, fetched: seq<Line>)
    requires KnownTxn(db, t) && FetchOk(db, t, fetched) && !t.phase.Written? && (t.phase.Start? ==> t.writes == BLANK)
    requires t.req.Complete? && t.phase.Checking? ==> t.writes.mark == NoMark
    ensures KnownTxn(db, Moved(db, t, fetched))
  {
  }

  lemma CommitKnown(db0: Store, reqs: seq<Request>, db: Store, t: Txn)
    requires Known(db0, reqs, db) && KnownTxn(db, t) && t.phase.Written? && t.req in reqs
    ensures Known(db0, reqs, Apply(db, t.writes))
  {
  }

  lemma OtherStaysKnown(db: Store, w: Writes, u: Txn)
    requires KnownTxn(db, u)
    ensures KnownTxn(Apply(db, w), u)
  {
  }

  lemma StepKeepsKnown(db0: Store, reqs: seq<Request>, able: set<nat>, s: System, a: Action)
    requires AllKnown(db0, reqs, s) && InStep(db0, able, s) && Enabled(s, a, false)
    ensures AllKnown(db0, reqs, Next(s, a, false))
  {
    NextKeepsRequests(s, a);
    if a.Go? && s.txns[a.tid].phase.Written? {
      CommitKeepsKnown(db0, reqs, s, a);
    } else if a.Go? {
      assert Current(s.db, s.txns[a.tid], a.tid in able);
      KnownStep(s.db, s.txns[a.tid], a.fetched);
    }
  }

  lemma CommitKeepsKnown(db0: Store, reqs: seq<Request>, s: System, a: Action)
    requires AllKnown(db0, reqs, s) && Enabled(s, a, false) && a.Go? && s.txns[a.tid].phase.Written?
    ensures var s' := Next(s, a, false);
            Known(db0, reqs, s'.db) && forall u :: 0 <= u < |s'.txns| ==> KnownTxn(s'.db, s'.txns[u])
  {
    var t, s' := s.txns[a.tid], Next(s, a, false);
    assert Requests(s)[a.tid] == t.req;
    CommitKnown(db0, reqs, s.db, t);
    forall u | 0 <= u < |s'.txns| ensures KnownTxn(s'.db, s'.txns[u]) {
      if u != a.tid {
        OtherStaysKnown(s.db, t.writes, s.txns[u]);
      }
    }
  }

  /******* No clash *******/

  lemma SaleSeesItsLines(db0: Store, reqs: seq<Request>, s: System, u: nat, p: nat)
    requires AllKnown(db0, reqs, s) && u < |s.txns| && s.txns[u].req.Complete? && p in Seen(s.txns[u])
    ensures MayTouch(db0, reqs, s.txns[u].req, p)
  {
    var txn := s.txns[u];
    var lines := s.db.sales[txn.req.id].lines;
    Sales.SameProducts(txn.phase.items, lines);
    assert MayBeSale(db0, reqs, txn.req.id, lines) && p in Products(lines);
  }

  lemma CallSeesItsRows(db0: Store, reqs: seq<Request>, able: set<nat>, s: System, u: nat, p: nat)
    requires AllKnown(db0, reqs, s) && InStep(db0, able, s)
    requires u < |s.txns| && !s.txns[u].req.Complete? && p in Seen(s.txns[u])
    ensures MayTouch(db0, reqs, s.txns[u].req, p)
  {
    var txn := s.txns[u];
    assert Current(s.db, txn, u in able);
    match txn.req
    case Receive(id) => ReceiptSeesItsLines(s.db, txn, id, p);
    case Approve(id) =>
    case WriteOff(product, amount) =>
    case _ => CreatorsSeeNothing(s.db, txn);
  }

  lemma ReceiptSeesItsLines(db: Store, t: Txn, id: nat, p: nat)
    requires t.req == Receive(id) && Locked.Agrees(db, t) && p in Seen(t)
    ensures id < |db.purchases| && p in Products(db.purchases[id].lines)
  {
    var row :| row in t.held && row.ProductRow? && row.id == p;
    Sales.SameProducts(t.phase.items, db.purchases[id].lines);
    assert row in Locked.ProductRows(t.phase.items);
  }

  lemma SeesWhatItTouches(db0: Store, reqs: seq<Request>, able: set<nat>, s: System, u: nat, p: nat)
    requires AllKnown(db0, reqs, s) && InStep(db0, able, s) && u < |s.txns| && p in Seen(s.txns[u])
    ensures MayTouch(db0, reqs, s.txns[u].req, p)
  {
    if s.txns[u].req.Complete? {
      SaleSeesItsLines(db0, reqs, s, u, p);
    } else {
      CallSeesItsRows(db0, reqs, able, s, u, p);
    }
  }

  lemma WritesWhatItSees(db: Store, t: Txn, able: bool, p: nat)
    requires Current(db, t, able) && t.phase.Written? && p in t.writes.stock
    ensures p in Seen(t)
  {
    if !t.req.Complete? && !t.req.FileReturn? {
      WritesAreSeen(db, t, p);
    }
  }

  lemma ApartNoClash(db0: Store, reqs: seq<Request>, able: set<nat>, s: System)
    requires AllKnown(db0, reqs, s) && InStep(db0, able, s) && Apart(db0, reqs)
    ensures NoClash(able, s)
  {
    forall t, u | 0 <= t < |s.txns| && 0 <= u < |s.txns| && t != u
                  && s.txns[t].phase.Written? && s.txns[u].req.Complete? && u in able
      ensures Spares(s.db, s.txns[t].writes, Seen(s.txns[u]))
    {
      assert Requests(s)[t] == s.txns[t].req && Requests(s)[u] == s.txns[u].req;
      forall p | p in s.txns[t].writes.stock ensures p !in Seen(s.txns[u]) {
        if p in Seen(s.txns[u]) {
          assert Current(s.db, s.txns[t], t in able);
          WritesWhatItSees(s.db, s.txns[t], t in able, p);
          SeesWhatItTouches(db0, reqs, able, s, t, p);
          SeesWhatItTouches(db0, reqs, able, s, u, p);
        }
      }
    }
  }

  function UpTo(n: nat): (numbers: set<nat>)
    ensures forall t :: t in numbers <==> 0 <= t < n
  {
    if n == 0 then {} else UpTo(n - 1) + {n - 1}
  }

  function Everybody(s: System): set<nat> {
    UpTo(|s.txns|)
  }

  /** A sale that has fetched its lines has distinct ones. */
  lemma FetchedDistinct(db0: Store, reqs: seq<Request>, s: System, t: nat)
    requires WellFormed(s.db) && AllKnown(db0, reqs, s) && Apart(db0, reqs) && t < |s.txns| && s.txns[t].req.Complete?
    requires s.txns[t].phase.Checking? || s.txns[t].phase.Deducting? || s.txns[t].phase.Written?
    ensures DistinctProducts(s.txns[t].phase.items) && LinesFit(s.txns[t].phase.items, |s.db.stock|)
  {
    var txn := s.txns[t];
    var lines := s.db.sales[txn.req.id].lines;
    assert Requests(s)[t] == txn.req && MayBeSale(db0, reqs, reqs[t].id, lines);
    assert s.db.sales[txn.req.id] in s.db.sales;
    PositiveLines(s.db, txn.req.id, txn.phase.items);
    Sales.DistinctPermuted(txn.phase.items, lines);
  }

  lemma ApartOnlyAbleSave(db0: Store, reqs: seq<Request>, s: System)
    requires WellFormed(s.db) && AllKnown(db0, reqs, s) && Apart(db0, reqs)
    ensures OnlyAbleSave(Everybody(s), s)
    ensures forall t <- s.txns :: t.req.Complete? && t.phase.Written? ==> LinesFit(t.phase.items, |s.db.stock|)
  {
    forall t | 0 <= t < |s.txns| && s.txns[t].req.Complete? && (s.txns[t].phase.Deducting? || s.txns[t].phase.Written?)
      ensures DistinctProducts(s.txns[t].phase.items) && LinesFit(s.txns[t].phase.items, |s.db.stock|)
    {
      FetchedDistinct(db0, reqs, s, t);
    }
  }

  lemma StartsKnown(s0: System)
    requires Init(s0)
    ensures AllKnown(s0.db, Requests(s0), s0)
  {
    forall t | 0 <= t < |s0.txns| ensures KnownTxn(s0.db, s0.txns[t]) {
      assert s0.txns[t] in s0.txns;
    }
  }

  lemma {:induction false} ReachableApart(s0: System, run: seq<Action>, s: System)
    requires Init(s0) && Apart(s0.db, Requests(s0)) && Reaches(s0, run, s, false)
    ensures AllKnown(s0.db, Requests(s0), s) && InStep(s0.db, Everybody(s0), s) && Everybody(s) == Everybody(s0)
  {
    var db0, reqs := s0.db, Requests(s0);
    if run == [] {
      StartsKnown(s0);
      StartsInStep(s0, Everybody(s0));
    } else {
      var init, last := run[..|run| - 1], run[|run| - 1];
      var prev :| Reaches(s0, init, prev, false) && Enabled(prev, last, false) && s == Next(prev, last, false);
      ReachableApart(s0, init, prev);
      StepKeepsApart(s0, prev, last);
    }
  }

  lemma StepKeepsApart(s0: System, s: System, a: Action)
    requires Init(s0) && Apart(s0.db, Requests(s0)) && Enabled(s, a, false)
    requires AllKnown(s0.db, Requests(s0), s) && InStep(s0.db, Everybody(s0), s) && Everybody(s) == Everybody(s0)
    ensures AllKnown(s0.db, Requests(s0), Next(s, a, false))
    ensures InStep(s0.db, Everybody(s0), Next(s, a, false)) && Everybody(Next(s, a, false)) == Everybody(s0)
  {
    var db0, reqs, s' := s0.db, Requests(s0), Next(s, a, false);
    StepKeepsKnown(db0, reqs, Everybody(s0), s, a);
    ApartOnlyAbleSave(db0, reqs, s);
    ApartNoClash(db0, reqs, Everybody(s0), s);
    SaversStayDistinct(s0, s, a);
    StepStaysInStep(db0, Everybody(s0), s, a);
  }

  /** Whoever is about to save after a step has distinct products. */
  lemma SaversStayDistinct(s0: System, s: System, a: Action)
    requires Init(s0) && Apart(s0.db, Requests(s0)) && Enabled(s, a, false)
    requires AllKnown(s0.db, Requests(s0), s) && InStep(s0.db, Everybody(s0), s) && Everybody(s) == Everybody(s0)
    ensures OnlyAbleSave(Everybody(s0), Next(s, a, false))
  {
    var s' := Next(s, a, false);
    forall t | 0 <= t < |s'.txns| && s'.txns[t].req.Complete?
               && (s'.txns[t].phase.Deducting? || s'.txns[t].phase.Written?)
      ensures t in Everybody(s0) && DistinctProducts(s'.txns[t].phase.items)
    {
      assert t in Everybody(s);
      if t == a.tid {
        KeepsHeld(s.db, s.txns[t], a.fetched);
        SaverHadItems(s.db, s.txns[t], a.fetched);
      }
      FetchedDistinct(s0.db, Requests(s0), s, t);
    }
  }

  lemma SaverHadItems(db: Store, t: Txn, fetched: seq<Line>)
    requires t.req.Complete? && KnownTxn(db, t)
    requires Advance(db, t, fetched).phase.Deducting? || Advance(db, t, fetched).phase.Written?
    ensures t.phase.Checking? || t.phase.Deducting?
    ensures t.phase.items == Advance(db, t, fetched).phase.items
  {
  }

  /** Stock and ledger move together over every unlocked run of any requests in which no sale that may be completed
      repeats a product or touches one that another request may touch; orders and returns the mix itself creates count
      with everything they may hold. */
  lemma ApartKeeps(s0: System, run: seq<Action>, s: System)
    requires Init(s0) && Apart(s0.db, Requests(s0)) && Reaches(s0, run, s, false)
    ensures SameSurplus(s0.db, s.db)
  {
    ReachableApart(s0, run, s);
  }
}
