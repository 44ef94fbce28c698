/** Mixes of nothing but `complete`, with INVENTORY_LOCKING_ENABLED off. */
module OnlySales {
  import opened Sums
  import opened Ledger
  import opened Endpoints
  import opened History
  import opened RowLocks
  import opened UnlockedSales
  import opened Ceilings
  import Mix = MixInStep
  import Exact = UnlockedExact
  import Losses = UnlockedLosses
  import Runs = UnlockedRuns
  import LockingOff

  ghost predicate OnlyCompletes(s: System) {
    forall t <- s.txns :: t.req.Complete?
  }

  /******* The ledger only gains sales *******/

  ghost predicate SameBut(db0: Store, db: Store) {
    forall p: nat, kind: Kind :: kind != Sale ==> Total(db.ledger, kind, p) == Total(db0.ledger, kind, p)
  }

  ghost predicate PostsSales(t: Txn) {
    t.req.Complete? && forall row <- t.writes.rows :: row.kind == Sale
  }

  lemma NoneOf(rows: seq<Entry>, kind: Kind, p: nat)
    requires kind != Sale && forall row <- rows :: row.kind == Sale
    ensures Total(rows, kind, p) == 0
  {
    if rows != [] {
      NoneOf(rows[..|rows| - 1], kind, p);
    }
  }

  lemma StepPostsSales(db0: Store, s: System, a: Action)
    requires SameBut(db0, s.db) && (forall t <- s.txns :: PostsSales(t)) && Enabled(s, a, false)
    ensures SameBut(db0, Next(s, a, false).db) && forall t <- Next(s, a, false).txns :: PostsSales(t)
  {
    var t, s' := s.txns[a.tid], Next(s, a, false);
    assert PostsSales(t);
    if a.Go? && t.phase.Written? {
      forall p: nat, kind: Kind | kind != Sale ensures Total(s'.db.ledger, kind, p) == Total(db0.ledger, kind, p) {
        SumConcat(OfKind(kind, p), s.db.ledger, t.writes.rows);
        NoneOf(t.writes.rows, kind, p);
      }
    }
    assert forall u <- s'.txns :: u == s'.txns[a.tid] || u in s.txns;
  }

  lemma {:induction false} ReachablePosts(s0: System, run: seq<Action>, s: System)
    requires Init(s0) && OnlyCompletes(s0) && Reaches(s0, run, s, false)
    ensures SameBut(s0.db, s.db) && forall t <- s.txns :: PostsSales(t)
  {
    if run != [] {
      var init, last := run[..|run| - 1], run[|run| - 1];
      var prev :| Reaches(s0, init, prev, false) && Enabled(prev, last, false) && s == Next(prev, last, false);
      ReachablePosts(s0, init, prev);
      StepPostsSales(s0.db, prev, last);
    }
  }

  /** When only sales are posted, stock and ledger move together exactly when stock is opening minus what was sold. */
  lemma KeptIffSameSurplus(db0: Store, db: Store)
    requires SameBut(db0, db)
    ensures Kept(db0, db) <==> Mix.SameSurplus(db0, db)
  {
    if |db.stock| == |db0.stock| {
      forall p: nat | p < |db0.stock|
        ensures Surplus(db, p) == Surplus(db0, p) <==>
                db.stock[p] == db0.stock[p] - (Total(db.ledger, Sale, p) - Total(db0.ledger, Sale, p))
      {
        BalanceIsTotals(db0.ledger, p);
        BalanceIsTotals(db.ledger, p);
        SameOthers(db0, db, p);
      }
    }
  }

  lemma SameOthers(db0: Store, db: Store, p: nat)
    requires SameBut(db0, db)
    ensures Total(db.ledger, Purchase, p) == Total(db0.ledger, Purchase, p)
    ensures Total(db.ledger, Return, p) == Total(db0.ledger, Return, p)
    ensures Total(db.ledger, Damage, p) == Total(db0.ledger, Damage, p)
  {
  }

  /******* Nothing lifts the ceiling *******/

  lemma NothingMoves(s0: System)
    requires OnlyCompletes(s0)
    ensures Movers(s0.db, Requests(s0)) == {} && NamesExisting(s0.db, Requests(s0))
    ensures forall req <- Requests(s0) :: req.Complete?
    ensures forall p: nat :: Cap(s0.db, {}, p) == StockOf(s0.db, p)
  {
    forall req | req in Requests(s0) ensures req.Complete? {
      var t :| 0 <= t < |s0.txns| && Requests(s0)[t] == req;
      assert s0.txns[t] in s0.txns;
    }
    forall p: nat ensures Cap(s0.db, {}, p) == StockOf(s0.db, p) {
      NothingBroughtIn(s0.db, |s0.db.purchases|, |s0.db.notes|, p);
    }
  }

  lemma SellableIffLive(s0: System, req: Request)
    requires Init(s0) && OnlyCompletes(s0)
    ensures CanSell(s0.db, Requests(s0), req) <==> Live(s0.db, req)
  {
    NothingMoves(s0);
    var cap := CapAt(s0.db, {});
    if req.Complete? && req.id < |s0.db.sales| {
      assert s0.db.sales[req.id] in s0.db.sales;
      forall line | line in s0.db.sales[req.id].lines
        ensures line.quantity <= cap(line.product) <==> line.quantity <= s0.db.stock[line.product]
      {
        assert cap(line.product) == StockOf(s0.db, line.product);
      }
    }
  }

  /** Sales may be lost from the stock but never from the ledger, and stock never goes negative. */
  lemma UpdatesAreOnlyLostUpwards(s0: System, run: seq<Action>, s: System, p: nat)
    requires Init(s0) && OnlyCompletes(s0) && NonNegative(s0.db) && Reaches(s0, run, s, false)
    requires p < |s0.db.stock|
    ensures |s.db.stock| == |s0.db.stock| && 0 <= s.db.stock[p] <= s0.db.stock[p]
    ensures s.db.stock[p] >= s0.db.stock[p] - (Total(s.db.ledger, Sale, p) - Total(s0.db.ledger, Sale, p))
  {
    LockingOff.StockKeepsItsFloor(s0, run, s, false, p);
    ReachablePosts(s0, run, s);
    NothingMoves(s0);
    SoldWithinCeiling(s0, run, s);
    assert StockOf(s.db, p) <= Cap(s0.db, {}, p);
  }

  /******* Exactly when nothing is lost *******/

  /** Two live requests that share a product. */
  ghost predicate Meet(db0: Store, req: Request, other: Request) {
    Live(db0, req) && Live(db0, other) && exists p <- Products(LinesOf(db0, req)) :: p in Products(LinesOf(db0, other))
  }

  /** No live request repeats a product, and no two share one. */
  ghost predicate Apart(db0: Store, txns: seq<Txn>) {
    && (forall t :: 0 <= t < |txns| ==> !Repeats(db0, txns[t].req))
    && (forall t, u :: 0 <= t < |txns| && 0 <= u < |txns| && t != u ==> !Meet(db0, txns[t].req, txns[u].req))
  }

  lemma ApartIffSafe(s0: System)
    requires Init(s0) && OnlyCompletes(s0)
    ensures Apart(s0.db, s0.txns) <==> Exact.Safe(s0.db, Requests(s0))
  {
    var db0, reqs := s0.db, Requests(s0);
    NothingMoves(s0);
    forall req: Request ensures CanSell(db0, reqs, req) <==> Live(db0, req) {
      SellableIffLive(s0, req);
    }
    forall t, u | 0 <= t < |reqs| && 0 <= u < |reqs| ensures !Exact.Crosses(db0, reqs, reqs[t], reqs[u]) {
      assert reqs[u] in reqs;
    }
    assert forall t :: 0 <= t < |reqs| ==> reqs[t] == s0.txns[t].req;
    forall t | 0 <= t < |reqs| ensures Exact.Repeats(db0, reqs, reqs[t]) <==> Repeats(db0, s0.txns[t].req) {
    }
    forall t, u | 0 <= t < |reqs| && 0 <= u < |reqs|
      ensures Exact.Meet(db0, reqs, reqs[t], reqs[u]) <==> Meet(db0, s0.txns[t].req, s0.txns[u].req)
    {
    }
  }

  /** Without locks, sales are never lost from the stock, over any run of these requests, exactly when no live request
      repeats a product and no two live requests share one. */
  lemma SalesKeptIffApart(s0: System)
    requires Init(s0) && OnlyCompletes(s0)
    ensures Apart(s0.db, s0.txns) <==>
            forall run: seq<Action>, s: System :: Reaches(s0, run, s, false) ==> Kept(s0.db, s.db)
  {
    NothingMoves(s0);
    ApartIffSafe(s0);
    Losses.KeptIffSafe(s0);
    forall run: seq<Action>, s: System | Reaches(s0, run, s, false)
      ensures Kept(s0.db, s.db) <==> Mix.SameSurplus(s0.db, s.db)
    {
      ReachablePosts(s0, run, s);
      KeptIffSameSurplus(s0.db, s.db);
    }
  }

  /** Without locks, an order is completed twice in some run of these requests exactly when two of them name it and it
      is live. */
  lemma TwiceIffTwoLive(s0: System, id: nat)
    requires Init(s0) && OnlyCompletes(s0)
    ensures NamedTwice(s0, id) && Live(s0.db, Complete(id)) <==>
            exists run: seq<Action>, s: System :: Reaches(s0, run, s, false) && CompletedTwice(s, id)
  {
    NothingMoves(s0);
    SellableIffLive(s0, Complete(id));
    Runs.TwiceIffSellable(s0, id);
  }
}
