/** The periodic tasks: the nightly ledger reconciliation and the low-stock sweep. */
module Tasks {
  import opened Ledger
  import opened Endpoints
  import opened History

  /******* reconcile_ledger *******/

  function Get(totals: map<nat, int>, p: nat): int {
    if p in totals then totals[p] else 0
  }

  /** One pass over the ledger, grouping the signed quantities by product. */
  function GroupedTotals(ledger: seq<Entry>): map<nat, int> {
    if ledger == [] then map[]
    else
      var totals, row := GroupedTotals(ledger[..|ledger| - 1]), ledger[|ledger| - 1];
      totals[row.product := Get(totals, row.product) + Sign(row.kind) * row.quantity]
  }

  datatype Mismatch = Mismatch(product: nat, stock: int, total: int)

  /** The products among the first `n` whose stock is not their ledger total. */
  function MismatchesAmong(stock: seq<int>, totals: map<nat, int>, n: nat): (r: seq<Mismatch>)
    requires n <= |stock|
  {
    if n == 0 then []
    else
      var p := n - 1;
      MismatchesAmong(stock, totals, p) +
      if stock[p] != Get(totals, p) then [Mismatch(p, stock[p], Get(totals, p))] else []
  }

  function Reconcile(db: Store): seq<Mismatch> {
    MismatchesAmong(db.stock, GroupedTotals(db.ledger), |db.stock|)
  }

  /** The grouped total is the per-product sum; products without rows are absent and count as 0. */
  lemma {:induction false} GroupingIsExact(ledger: seq<Entry>, p: nat)
    ensures Get(GroupedTotals(ledger), p) == Balance(ledger, p)
    ensures p in GroupedTotals(ledger) <==> exists row <- ledger :: row.product == p
  {
    if ledger != [] {
      var init, last := ledger[..|ledger| - 1], ledger[|ledger| - 1];
      assert ledger == init + [last];
      GroupingIsExact(init, p);
      if row :| row in init && row.product == p {
        assert row in ledger;
      }
    }
  }

  lemma {:induction false} MismatchesAre(stock: seq<int>, totals: map<nat, int>, n: nat)
    requires n <= |stock|
    ensures forall m: Mismatch :: m in MismatchesAmong(stock, totals, n) <==>
              m.product < n && m == Mismatch(m.product, stock[m.product], Get(totals, m.product)) && m.stock != m.total
    ensures forall i, j :: 0 <= i < j < |MismatchesAmong(stock, totals, n)| ==>
              MismatchesAmong(stock, totals, n)[i].product < MismatchesAmong(stock, totals, n)[j].product
  {
    if n > 0 {
      MismatchesAre(stock, totals, n - 1);
      forall m | m in MismatchesAmong(stock, totals, n - 1) ensures m.product < n - 1 {
      }
    }
  }

  /** After any run, the reconciliation lists exactly the products whose opening surplus plus drift is not zero. */
  lemma ReconcileFindsExactly(db0: Store, log: seq<Event>, m: Mismatch)
    requires WellFormed(db0) && Faithful(db0, log)
    ensures var db := Replay(db0, log);
            m in Reconcile(db) <==>
              && m.product < |db0.stock|
              && m == Mismatch(m.product, db.stock[m.product], Balance(db.ledger, m.product))
              && Surplus(db0, m.product) + Drift(log, m.product) != 0
  {
    var db := Replay(db0, log);
    MismatchesAre(db.stock, GroupedTotals(db.ledger), |db.stock|);
    GroupingIsExact(db.ledger, m.product);
    if m.product < |db0.stock| {
      StockFollowsLedger(db0, log, m.product);
    }
  }

  ghost predicate Reconciled(db: Store) {
    forall p: nat :: p < |db.stock| ==> Surplus(db, p) == 0
  }

  /** From a reconciled start, the nightly task stays silent exactly as long as no completed sale repeats a product. */
  lemma SilentIffDistinctSales(db0: Store, log: seq<Event>)
    requires WellFormed(db0) && Faithful(db0, log) && Reconciled(db0)
    ensures Reconcile(Replay(db0, log)) == [] <==> DistinctSales(log)
  {
    var db := Replay(db0, log);
    var totals := GroupedTotals(db.ledger);
    InStepIffDistinctSales(db0, log);
    MismatchesAre(db.stock, totals, |db.stock|);
    forall p: nat ensures Get(totals, p) == Balance(db.ledger, p) {
      GroupingIsExact(db.ledger, p);
    }
    if Reconcile(db) != [] {
      var m := Reconcile(db)[0];
      assert m in Reconcile(db);
      assert Surplus(db, m.product) != 0 && Surplus(db0, m.product) == 0;
    } else {
      forall p: nat | p < |db.stock| ensures Surplus(db, p) == 0 {
        assert Mismatch(p, db.stock[p], Get(totals, p)) !in Reconcile(db);
      }
    }
  }

  /******* sweep_low_stock *******/

  datatype AlertType = OutOfStock | LowStock

  datatype Product = Product(stock: int, threshold: int, active: bool)

  datatype Alert = Alert(ntype: AlertType, product: nat)

  datatype Notification = Notification(user: nat, alert: Alert, read: bool)

  predicate IsOut(product: Product) {
    product.active && product.stock <= 0
  }

  predicate IsLow(product: Product) {
    product.active && 0 < product.stock <= product.threshold
  }

  function Alerts(products: seq<Product>, ntype: AlertType): seq<Alert> {
    if products == [] then []
    else
      var p := |products| - 1;
      Alerts(products[..p], ntype) +
      if (if ntype == OutOfStock then IsOut(products[p]) else IsLow(products[p])) then [Alert(ntype, p)] else []
  }

  /** First every product that is out, then every product that is low. */
  function Candidates(products: seq<Product>): seq<Alert> {
    Alerts(products, OutOfStock) + Alerts(products, LowStock)
  }

  /** Some unread notification already says so. */
  predicate Flagged(notifications: seq<Notification>, alert: Alert) {
    exists n <- notifications :: n.alert == alert && !n.read
  }

  function NotifyAll(admins: seq<nat>, alert: Alert): (r: seq<Notification>) {
    seq(|admins|, i requires 0 <= i < |admins| => Notification(admins[i], alert, false))
  }

  /** The notifications after sweeping the candidates in order. */
  function Swept(notifications: seq<Notification>, candidates: seq<Alert>, admins: seq<nat>): seq<Notification> {
    if candidates == [] then notifications
    else
      var before, alert := Swept(notifications, candidates[..|candidates| - 1], admins), candidates[|candidates| - 1];
      if Flagged(before, alert) then before else before + NotifyAll(admins, alert)
  }

  /** How many candidates the sweep flags. */
  function FlagCount(notifications: seq<Notification>, candidates: seq<Alert>, admins: seq<nat>): nat {
    if candidates == [] then 0
    else
      var init, alert := candidates[..|candidates| - 1], candidates[|candidates| - 1];
      FlagCount(notifications, init, admins) + if Flagged(Swept(notifications, init, admins), alert) then 0 else 1
  }

  /******* What a sweep finds and adds *******/

  lemma {:induction false} AlertsAre(products: seq<Product>, ntype: AlertType)
    ensures forall alert :: alert in Alerts(products, ntype) <==>
              && alert.ntype == ntype && alert.product < |products|
              && var product := products[alert.product];
                 product.active && if ntype == OutOfStock then product.stock <= 0
                                   else 0 < product.stock <= product.threshold
    ensures forall i, j :: 0 <= i < j < |Alerts(products, ntype)| ==>
              Alerts(products, ntype)[i].product < Alerts(products, ntype)[j].product
  {
    if products != [] {
      var p := |products| - 1;
      AlertsAre(products[..p], ntype);
      forall alert | alert in Alerts(products[..p], ntype) ensures alert.product < p {
      }
    }
  }

  predicate NoRepeats(candidates: seq<Alert>) {
    forall i, j :: 0 <= i < j < |candidates| ==> candidates[i] != candidates[j]
  }

  /** The candidates are the active products with nothing in stock, as out of stock, and those with something but no
      more than their threshold, as low on stock; each once. */
  lemma CandidatesAre(products: seq<Product>)
    ensures forall alert :: alert in Candidates(products) <==>
              && alert.product < |products| && products[alert.product].active
              && match alert.ntype
                 case OutOfStock => products[alert.product].stock <= 0
                 case LowStock => 0 < products[alert.product].stock <= products[alert.product].threshold
    ensures NoRepeats(Candidates(products))
  {
    AlertsAre(products, OutOfStock);
    AlertsAre(products, LowStock);
    var out, low := Alerts(products, OutOfStock), Alerts(products, LowStock);
    forall i, j | 0 <= i < j < |out + low| ensures (out + low)[i] != (out + low)[j] {
      if i < |out| <= j {
        assert out[i] in out && low[j - |out|] in low;
      }
    }
  }

  /** The candidates without an unread notification. */
  function Unflagged(notifications: seq<Notification>, candidates: seq<Alert>): set<Alert> {
    set alert <- candidates | !exists n <- notifications :: n.alert == alert && !n.read
  }

  lemma NotifiedOnce(admins: seq<nat>, alert: Alert, n: Notification)
    ensures multiset(NotifyAll(admins, alert))[n]
         == if n == Notification(n.user, alert, false) then multiset(admins)[n.user] else 0
  {
    if admins == [] {
    } else {
      var init, last := admins[..|admins| - 1], admins[|admins| - 1];
      NotifiedOnce(init, alert, n);
      assert admins == init + [last];
      assert NotifyAll(admins, alert) == NotifyAll(init, alert) + [Notification(last, alert, false)];
    }
  }

  lemma OneMoreCandidate(notifications: seq<Notification>, init: seq<Alert>, last: Alert)
    ensures Unflagged(notifications, init + [last])
         == Unflagged(notifications, init) + if Flagged(notifications, last) then {} else {last}
  {
  }

  /** A candidate that the sweep has not come to is flagged exactly if it was before the sweep. */
  lemma NotYetReached(notifications: seq<Notification>, before: seq<Notification>, alert: Alert)
    requires forall n: Notification :: n.alert == alert ==> multiset(before)[n] == multiset(notifications)[n]
    ensures Flagged(before, alert) <==> Flagged(notifications, alert)
  {
    if n :| n in before && n.alert == alert && !n.read {
      assert n in multiset(before) && n in multiset(notifications);
    }
    if n :| n in notifications && n.alert == alert && !n.read {
      assert n in multiset(notifications) && n in multiset(before);
    }
  }

  /** A sweep flags the candidates that had no unread notification: for each of them every recipient gets one unread
      notification, and nothing else is added. */
  lemma {:induction false} SweepAdds(notifications: seq<Notification>, candidates: seq<Alert>, admins: seq<nat>)
    requires NoRepeats(candidates)
    ensures FlagCount(notifications, candidates, admins) == |Unflagged(notifications, candidates)|
    ensures forall n :: multiset(Swept(notifications, candidates, admins))[n]
              == multiset(notifications)[n] +
                 if n.alert in Unflagged(notifications, candidates) && !n.read then multiset(admins)[n.user] else 0
  {
    if candidates != [] {
      var init, last := candidates[..|candidates| - 1], candidates[|candidates| - 1];
      var before := Swept(notifications, init, admins);
      assert candidates == init + [last];
      SweepAdds(notifications, init, admins);
      OneMoreCandidate(notifications, init, last);
      assert last !in init;
      NotYetReached(notifications, before, last);
      forall n ensures multiset(NotifyAll(admins, last))[n]
                    == if n == Notification(n.user, last, false) then multiset(admins)[n.user] else 0
      {
        NotifiedOnce(admins, last, n);
      }
    }
  }

  class Notifications {
    var rows: seq<Notification>

    /** One unread notification per recipient for every candidate that has none, and nothing else. */
    method SweepLowStock(products: seq<Product>, admins: seq<nat>) returns (candidateCount: nat, flagged: nat)
      modifies this
      ensures rows == Swept(old(rows), Candidates(products), admins)
      ensures candidateCount == |Candidates(products)|
      ensures flagged == FlagCount(old(rows), Candidates(products), admins)
      ensures flagged == |Unflagged(old(rows), Candidates(products))|
      ensures forall n :: multiset(rows)[n]
                == multiset(old(rows))[n] +
                   if n.alert in Unflagged(old(rows), Candidates(products)) && !n.read then multiset(admins)[n.user]
                   else 0
    {
      var candidates := Candidates(products);
      flagged := 0;
      for i := 0 to |candidates|
        invariant rows == Swept(old(rows), candidates[..i], admins)
        invariant flagged == FlagCount(old(rows), candidates[..i], admins)
      {
        assert candidates[..i + 1][..i] == candidates[..i];
        var alreadyFlagged := exists n <- rows :: n.alert == candidates[i] && !n.read;
        if alreadyFlagged {
          continue;
        }
        rows := rows + NotifyAll(admins, candidates[i]);
        flagged := flagged + 1;
      }
      assert candidates[..|candidates|] == candidates;
      candidateCount := |candidates|;
      CandidatesAre(products);
      SweepAdds(old(rows), candidates, admins);
    }
  }

  /******* Sweeping again *******/

  /** A sweep only appends, and with somebody to notify it leaves every candidate flagged. */
  lemma {:induction false} SweepFlags(notifications: seq<Notification>, candidates: seq<Alert>, admins: seq<nat>)
    ensures notifications <= Swept(notifications, candidates, admins)
    ensures admins != [] ==> forall alert <- candidates :: Flagged(Swept(notifications, candidates, admins), alert)
  {
    if candidates != [] {
      var init, last := candidates[..|candidates| - 1], candidates[|candidates| - 1];
      assert candidates == init + [last];
      var before, after := Swept(notifications, init, admins), Swept(notifications, candidates, admins);
      SweepFlags(notifications, init, admins);
      if admins != [] {
        forall alert | alert in candidates ensures Flagged(after, alert) {
          if alert in init {
            StaysFlagged(before, after, alert);
          } else if !Flagged(before, alert) {
            assert NotifyAll(admins, alert)[0] in after;
          }
        }
      }
    }
  }

  lemma StaysFlagged(before: seq<Notification>, after: seq<Notification>, alert: Alert)
    requires before <= after && Flagged(before, alert)
    ensures Flagged(after, alert)
  {
    var n :| n in before && n.alert == alert && !n.read;
    assert n in after;
  }

  lemma {:induction false} NobodyToNotify(notifications: seq<Notification>, candidates: seq<Alert>)
    ensures Swept(notifications, candidates, []) == notifications
  {
    if candidates != [] {
      NobodyToNotify(notifications, candidates[..|candidates| - 1]);
    }
  }

  /** Sweeping candidates that are all flagged changes nothing. */
  lemma {:induction false} NothingToFlag(notifications: seq<Notification>, candidates: seq<Alert>, admins: seq<nat>)
    requires forall alert <- candidates :: Flagged(notifications, alert)
    ensures Swept(notifications, candidates, admins) == notifications
    ensures FlagCount(notifications, candidates, admins) == 0
  {
    if candidates != [] {
      NothingToFlag(notifications, candidates[..|candidates| - 1], admins);
    }
  }

  /** A worker that died after `done` candidates and starts over ends with what one full sweep leaves. */
  lemma {:induction false} CrashThenRerun(
    notifications: seq<Notification>, candidates: seq<Alert>, admins: seq<nat>, done: nat)
    requires done <= |candidates|
    ensures Swept(Swept(notifications, candidates[..done], admins), candidates, admins)
         == Swept(notifications, candidates, admins)
  {
    if admins == [] {
      NobodyToNotify(notifications, candidates[..done]);
    } else if done == |candidates| {
      assert candidates[..done] == candidates;
      SweepFlags(notifications, candidates, admins);
      NothingToFlag(Swept(notifications, candidates, admins), candidates, admins);
    } else {
      var init := candidates[..|candidates| - 1];
      assert init[..done] == candidates[..done];
      CrashThenRerun(notifications, init, admins, done);
    }
  }

  /** A second sweep flags nothing exactly when there was somebody to notify or the first flagged nothing either. */
  lemma SecondSweepIsSilentIff(notifications: seq<Notification>, candidates: seq<Alert>, admins: seq<nat>)
    ensures FlagCount(Swept(notifications, candidates, admins), candidates, admins) == 0 <==>
            admins != [] || FlagCount(notifications, candidates, admins) == 0
  {
    if admins != [] {
      SweepFlags(notifications, candidates, admins);
      NothingToFlag(Swept(notifications, candidates, admins), candidates, admins);
    } else {
      NobodyToNotify(notifications, candidates);
    }
  }
}
