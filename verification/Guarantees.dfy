/** What holds in every state that any interleaving of locked transactions can reach. */
module Guarantees {
  import opened Ledger
  import opened Endpoints
  import opened History
  import opened Conservation
  import opened RowLocks
  import opened Serializability

  /** Committed stock is never negative and differs from the ledger by its opening surplus plus the logged drift. */
  lemma ReachableStock(s0: System, run: seq<Action>, s: System)
    requires Init(s0) && Reaches(s0, run, s, true) && NonNegative(s0.db)
    ensures NonNegative(s.db) && |s.db.stock| == |s0.db.stock|
    ensures forall p: nat :: p < |s0.db.stock| ==> Surplus(s.db, p) == Surplus(s0.db, p) + Drift(s.log, p)
  {
    Serializable(s0, run, s);
    StockStaysNonNegative(s0.db, s.log);
    forall p: nat | p < |s0.db.stock| ensures Surplus(s.db, p) == Surplus(s0.db, p) + Drift(s.log, p) {
      StockFollowsLedger(s0.db, s.log, p);
    }
  }

  /** Committed stock moved exactly as the ledger did if and only if no completed sale repeats a product. */
  lemma ReachableInStep(s0: System, run: seq<Action>, s: System)
    requires Init(s0) && Reaches(s0, run, s, true)
    ensures |s.db.stock| == |s0.db.stock|
    ensures DistinctSales(s.log) <==> forall p: nat :: p < |s0.db.stock| ==> Surplus(s.db, p) == Surplus(s0.db, p)
  {
    Serializable(s0, run, s);
    InStepIffDistinctSales(s0.db, s.log);
  }

  /** Ledger movement of one kind and product between two committed states. */
  function LedgerGain(before: Store, after: Store, kind: Kind, p: nat): int {
    Total(after.ledger, kind, p) - Total(before.ledger, kind, p)
  }

  /** With distinct products per completed sale, stock is opening plus purchases and returns minus sales and damage. */
  lemma ReachableBalance(s0: System, run: seq<Action>, s: System, p: nat)
    requires Init(s0) && Reaches(s0, run, s, true) && DistinctSales(s.log) && p < |s0.db.stock|
    ensures |s.db.stock| == |s0.db.stock|
    ensures s.db.stock[p] == s0.db.stock[p] + LedgerGain(s0.db, s.db, Purchase, p) + LedgerGain(s0.db, s.db, Return, p)
                             - LedgerGain(s0.db, s.db, Sale, p) - LedgerGain(s0.db, s.db, Damage, p)
  {
    ReachableInStep(s0, run, s);
    BalanceIsTotals(s0.db.ledger, p);
    BalanceIsTotals(s.db.ledger, p);
    assert Surplus(s.db, p) == Surplus(s0.db, p);
  }

  /** Every order and return is posted exactly once when closed and never before. */
  lemma ReachablePostings(s0: System, run: seq<Action>, s: System)
    requires Init(s0) && Reaches(s0, run, s, true) && PostedOnce(s0.db)
    ensures PostedOnce(s.db)
  {
    Serializable(s0, run, s);
    RunsPostOnce(s0.db, s.log);
  }

  /** No product ever comes back more than it was sold, per sale and in the ledger. */
  lemma ReachableReturns(s0: System, run: seq<Action>, s: System, p: nat)
    requires Init(s0) && Reaches(s0, run, s, true) && WithinSales(s0.db) && TotalsMatch(s0.db)
    ensures WithinSales(s.db) && TotalsMatch(s.db)
    ensures Total(s.db.ledger, Return, p) <= Total(s.db.ledger, Sale, p)
  {
    Serializable(s0, run, s);
    RunsStayWithinSales(s0.db, s.log);
    ReturnsNeverExceedSales(s0.db, s.log, p);
  }

  /** Of any number of concurrent requests to close the same order or return, at most one succeeds. */
  lemma OneWinner(s0: System, run: seq<Action>, s: System, t: nat, u: nat)
    requires Init(s0) && Reaches(s0, run, s, true)
    requires t < |s.txns| && u < |s.txns| && t != u
    requires s.txns[t].req == s.txns[u].req && Closing(s.txns[t].req)
    ensures !(s.txns[t].phase == Done(Ok) && s.txns[u].phase == Done(Ok))
  {
    if s.txns[t].phase == Done(Ok) && s.txns[u].phase == Done(Ok) {
      Serializable(s0, run, s);
      var i :| 0 <= i < |s.log| && s.log[i].tid == t && s.log[i].req == s.txns[t].req && s.log[i].reply == Ok;
      var j :| 0 <= j < |s.log| && s.log[j].tid == u && s.log[j].req == s.txns[u].req && s.log[j].reply == Ok;
      if i < j {
        RepeatsAreConflicts(s0.db, s.log, i, j);
      } else {
        RepeatsAreConflicts(s0.db, s.log, j, i);
      }
    }
  }

  /** A store without orders or returns whose ledger holds only unreferenced purchases meets all starting conditions. */
  lemma FreshStoreQualifies(db: Store)
    requires |db.active| == |db.stock| && db.purchases == [] && db.sales == [] && db.notes == []
    requires forall row <- db.ledger :: row.kind == Purchase && row.ref == NoRef
    ensures WellFormed(db) && PostedOnce(db) && WithinSales(db) && TotalsMatch(db)
  {
    forall ref: Ref ensures multiset(Posted(db.ledger, ref)) == multiset(Expected(db, ref)) {
      UnreferencedPurchases(db.ledger, ref, 0);
    }
    forall p: nat ensures Total(db.ledger, Sale, p) == 0 && Total(db.ledger, Return, p) == 0 {
      UnreferencedPurchases(db.ledger, NoRef, p);
    }
  }

  lemma {:induction false} UnreferencedPurchases(ledger: seq<Entry>, ref: Ref, p: nat)
    requires forall row <- ledger :: row.kind == Purchase && row.ref == NoRef
    ensures ref != NoRef ==> Posted(ledger, ref) == []
    ensures Total(ledger, Sale, p) == 0 && Total(ledger, Return, p) == 0
  {
    if ledger != [] {
      UnreferencedPurchases(ledger[..|ledger| - 1], ref, p);
    }
  }
}
