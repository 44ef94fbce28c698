/** The inventory report: four totals over the whole ledger, and what they say about the stock. */
module Reports {
  import opened Sums
  import opened Ledger
  import opened Endpoints
  import opened History

  function OfAnyProduct(kind: Kind): Entry -> int {
    (row: Entry) => if row.kind == kind then row.quantity else 0
  }

  datatype Summary = Summary(purchased: int, sold: int, returned: int, damaged: int)

  datatype InventoryReport = InventoryReport(summary: Summary, transactions: seq<Entry>)

  /** The report without a date range. */
  function Report(ledger: seq<Entry>): InventoryReport {
    InventoryReport(
      Summary(
        Sum(OfAnyProduct(Purchase), ledger),
        Sum(OfAnyProduct(Sale), ledger),
        Sum(OfAnyProduct(Return), ledger),
        Sum(OfAnyProduct(Damage), ledger)),
      ledger)
  }

  function Net(summary: Summary): int {
    summary.purchased + summary.returned - summary.sold - summary.damaged
  }

  function Itself(): int -> int {
    (x: int) => x
  }

  /** All units in stock. */
  function Units(stock: seq<int>): int {
    Sum(Itself(), stock)
  }

  /** The surplus of the first `n` products together. */
  function SurplusOfFirst(db: Store, n: nat): int
    requires n <= |db.stock|
  {
    if n == 0 then 0 else SurplusOfFirst(db, n - 1) + Surplus(db, n - 1)
  }

  /** Every ledger row is about a known product. */
  ghost predicate LedgerInRange(db: Store) {
    forall row <- db.ledger :: row.product < |db.stock|
  }

  /******* Totals per product add up to the report *******/

  function SignedBelow(n: nat): Entry -> int {
    (row: Entry) => if row.product < n then Sign(row.kind) * row.quantity else 0
  }

  lemma {:induction false} NetIsSigned(ledger: seq<Entry>, n: nat)
    requires forall row <- ledger :: row.product < n
    ensures Net(Report(ledger).summary) == Sum(SignedBelow(n), ledger)
  {
    if ledger != [] {
      NetIsSigned(ledger[..|ledger| - 1], n);
    }
  }

  lemma {:induction false} NothingBelowZero(ledger: seq<Entry>)
    ensures Sum(SignedBelow(0), ledger) == 0
  {
    if ledger != [] {
      NothingBelowZero(ledger[..|ledger| - 1]);
    }
  }

  lemma {:induction false} SurplusOfFirstIs(db: Store, n: nat)
    requires n <= |db.stock|
    ensures SurplusOfFirst(db, n) == Units(db.stock[..n]) - Sum(SignedBelow(n), db.ledger)
  {
    if n == 0 {
      NothingBelowZero(db.ledger);
    } else {
      SurplusOfFirstIs(db, n - 1);
      PrefixSnoc(db.stock, n - 1);
      SumSnoc(Itself(), db.stock[..n - 1], db.stock[n - 1]);
      SumAdd(SignedBelow(n - 1), SignedFor(n - 1), SignedBelow(n), db.ledger);
    }
  }

  lemma AllSurplus(db: Store)
    ensures SurplusOfFirst(db, |db.stock|) == Units(db.stock) - Sum(SignedBelow(|db.stock|), db.ledger)
  {
    assert db.stock[..|db.stock|] == db.stock;
    SurplusOfFirstIs(db, |db.stock|);
  }

  /** Units in stock minus the report's net movement is the surplus of all products together. */
  lemma ReportAgainstStock(db: Store)
    requires LedgerInRange(db)
    ensures Units(db.stock) - Net(Report(db.ledger).summary) == SurplusOfFirst(db, |db.stock|)
  {
    AllSurplus(db);
    NetIsSigned(db.ledger, |db.stock|);
  }

  /******* Each total on its own *******/

  /** One kind of ledger row of the first `n` products together. */
  function TotalOfFirst(ledger: seq<Entry>, kind: Kind, n: nat): int {
    if n == 0 then 0 else TotalOfFirst(ledger, kind, n - 1) + Total(ledger, kind, n - 1)
  }

  function KindBelow(kind: Kind, n: nat): Entry -> int {
    (row: Entry) => if row.kind == kind && row.product < n then row.quantity else 0
  }

  lemma {:induction false} NothingOfKindBelowZero(ledger: seq<Entry>, kind: Kind)
    ensures Sum(KindBelow(kind, 0), ledger) == 0
  {
    if ledger != [] {
      NothingOfKindBelowZero(ledger[..|ledger| - 1], kind);
    }
  }

  lemma {:induction false} TotalOfFirstIs(ledger: seq<Entry>, kind: Kind, n: nat)
    ensures TotalOfFirst(ledger, kind, n) == Sum(KindBelow(kind, n), ledger)
  {
    if n == 0 {
      NothingOfKindBelowZero(ledger, kind);
    } else {
      TotalOfFirstIs(ledger, kind, n - 1);
      SumAdd(KindBelow(kind, n - 1), OfKind(kind, n - 1), KindBelow(kind, n), ledger);
    }
  }

  lemma TotalsOfKind(ledger: seq<Entry>, kind: Kind, n: nat)
    requires forall row <- ledger :: row.product < n
    ensures Sum(OfAnyProduct(kind), ledger) == TotalOfFirst(ledger, kind, n)
  {
    TotalOfFirstIs(ledger, kind, n);
    SumSame(OfAnyProduct(kind), KindBelow(kind, n), ledger);
  }

  /** Each total of the report is that of its own kind of row, product by product, and every row is shown. */
  lemma ReportByProduct(ledger: seq<Entry>, n: nat)
    requires forall row <- ledger :: row.product < n
    ensures var report := Report(ledger);
            && report.summary.purchased == TotalOfFirst(ledger, Purchase, n)
            && report.summary.sold == TotalOfFirst(ledger, Sale, n)
            && report.summary.returned == TotalOfFirst(ledger, Return, n)
            && report.summary.damaged == TotalOfFirst(ledger, Damage, n)
            && multiset(report.transactions) == multiset(ledger)
  {
    TotalsOfKind(ledger, Purchase, n);
    TotalsOfKind(ledger, Sale, n);
    TotalsOfKind(ledger, Return, n);
    TotalsOfKind(ledger, Damage, n);
  }

  /******* Where the totals come from *******/

  function ReceivedUnits(): PurchaseOrder -> int {
    (order: PurchaseOrder) => if order.received then Sum(LineQuantity(), order.lines) else 0
  }

  function CompletedUnits(): SalesOrder -> int {
    (order: SalesOrder) => if order.completed then Sum(LineQuantity(), order.lines) else 0
  }

  function ApprovedUnits(): ReturnNote -> int {
    (note: ReturnNote) => if note.approved then note.quantity else 0
  }

  function WrittenOffUnits(): Event -> int {
    (ev: Event) => if ev.req.WriteOff? && ev.reply.Ok? then ev.req.amount else 0
  }

  lemma {:induction false} RowsOfKind(lines: seq<Line>, kind: Kind, ref: Ref, other: Kind)
    ensures Sum(OfAnyProduct(other), Rows(lines, kind, ref)) == if other == kind then Sum(LineQuantity(), lines) else 0
  {
    if lines != [] {
      var init, last := lines[..|lines| - 1], lines[|lines| - 1];
      RowsOfKind(init, kind, ref, other);
      SumSnoc(OfAnyProduct(other), Rows(init, kind, ref), Entry(last.product, last.quantity, kind, ref));
    }
  }

  /** What one kind of row may have grown by in one call. */
  ghost predicate Grows(db: Store, ev: Event, kind: Kind, more: int) {
    WellFormed(db) &&
    Sum(OfAnyProduct(kind), Serve(db, ev.req, ev.items).store.ledger) == Sum(OfAnyProduct(kind), db.ledger) + more
  }

  lemma ReceiptGrows(db: Store, ev: Event, id: nat, kind: Kind)
    requires WellFormed(db) && ev.req == Receive(id) && Fetched(db, ev.req, ev.items)
    ensures var after := Serve(db, ev.req, ev.items).store;
            var more := Sum(ReceivedUnits(), after.purchases) - Sum(ReceivedUnits(), db.purchases);
            Grows(db, ev, kind, if kind == Purchase then more else 0)
            && after.sales == db.sales && after.notes == db.notes
  {
    if Serve(db, ev.req, ev.items).reply.Ok? {
      var lines := db.purchases[id].lines;
      SumConcat(OfAnyProduct(kind), db.ledger, Rows(ev.items, Purchase, PurchaseRef(id)));
      RowsOfKind(ev.items, Purchase, PurchaseRef(id), kind);
      SumPermuted(LineQuantity(), ev.items, lines);
      SumUpdate(ReceivedUnits(), db.purchases, id, db.purchases[id].(received := true));
    }
  }

  lemma SaleGrows(db: Store, ev: Event, id: nat, kind: Kind)
    requires WellFormed(db) && ev.req == Complete(id) && Fetched(db, ev.req, ev.items)
    ensures var after := Serve(db, ev.req, ev.items).store;
            var more := Sum(CompletedUnits(), after.sales) - Sum(CompletedUnits(), db.sales);
            Grows(db, ev, kind, if kind == Sale then more else 0)
            && after.purchases == db.purchases && after.notes == db.notes
  {
    if Serve(db, ev.req, ev.items).reply.Ok? {
      var lines := db.sales[id].lines;
      SumConcat(OfAnyProduct(kind), db.ledger, Rows(ev.items, Sale, SaleRef(id)));
      RowsOfKind(ev.items, Sale, SaleRef(id), kind);
      SumPermuted(LineQuantity(), ev.items, lines);
      SumUpdate(CompletedUnits(), db.sales, id, db.sales[id].(completed := true));
    }
  }

  lemma ApprovalGrows(db: Store, ev: Event, id: nat, kind: Kind)
    requires WellFormed(db) && ev.req == Approve(id)
    ensures var after := Serve(db, ev.req, ev.items).store;
            var more := Sum(ApprovedUnits(), after.notes) - Sum(ApprovedUnits(), db.notes);
            Grows(db, ev, kind, if kind == Return then more else 0)
            && after.purchases == db.purchases && after.sales == db.sales
  {
    if Serve(db, ev.req, ev.items).reply.Ok? {
      var note := db.notes[id];
      SumSnoc(OfAnyProduct(kind), db.ledger, Entry(note.product, note.quantity, Return, ReturnRef(id)));
      SumUpdate(ApprovedUnits(), db.notes, id, note.(approved := true));
    }
  }

  lemma WriteOffGrows(db: Store, ev: Event, product: nat, amount: int, kind: Kind)
    requires WellFormed(db) && ev.req == WriteOff(product, amount) && Serve(db, ev.req, ev.items).reply == ev.reply
    ensures var after := Serve(db, ev.req, ev.items).store;
            Grows(db, ev, kind, if kind == Damage then WrittenOffUnits()(ev) else 0)
            && after.purchases == db.purchases && after.sales == db.sales && after.notes == db.notes
  {
    if ev.reply.Ok? {
      SumSnoc(OfAnyProduct(kind), db.ledger, Entry(product, amount, Damage, NoRef));
    }
  }

  lemma CreationGrowsNothing(db: Store, ev: Event)
    requires WellFormed(db) && (ev.req.CreatePurchase? || ev.req.CreateSale? || ev.req.FileReturn?)
    ensures var after := Serve(db, ev.req, ev.items).store;
            && after.ledger == db.ledger
            && Sum(ReceivedUnits(), after.purchases) == Sum(ReceivedUnits(), db.purchases)
            && Sum(CompletedUnits(), after.sales) == Sum(CompletedUnits(), db.sales)
            && Sum(ApprovedUnits(), after.notes) == Sum(ApprovedUnits(), db.notes)
  {
    var after := Serve(db, ev.req, ev.items).store;
    if after != db {
      match ev.req
      case CreatePurchase(supplier, lines) =>
        SumSnoc(ReceivedUnits(), db.purchases, PurchaseOrder(supplier, lines, false));
      case CreateSale(lines) => SumSnoc(CompletedUnits(), db.sales, SalesOrder(lines, false));
      case FileReturn(sale, product, amount) =>
        SumSnoc(ApprovedUnits(), db.notes, ReturnNote(sale, product, amount, false));
    }
  }

  /** What a store's orders and returns, and the write-offs so far, say the totals should be. */
  function Due(db: Store, writtenOff: int): Summary {
    Summary(
      Sum(ReceivedUnits(), db.purchases), Sum(CompletedUnits(), db.sales), Sum(ApprovedUnits(), db.notes), writtenOff)
  }

  function Minus(a: Summary, b: Summary): Summary {
    Summary(a.purchased - b.purchased, a.sold - b.sold, a.returned - b.returned, a.damaged - b.damaged)
  }

  function DueOf(kind: Kind, db: Store, writtenOff: int): int {
    match kind
    case Purchase => Sum(ReceivedUnits(), db.purchases)
    case Sale => Sum(CompletedUnits(), db.sales)
    case Return => Sum(ApprovedUnits(), db.notes)
    case Damage => writtenOff
  }

  lemma StepDueOf(db: Store, ev: Event, writtenOff: int, kind: Kind)
    requires WellFormed(db) && Fetched(db, ev.req, ev.items) && Serve(db, ev.req, ev.items).reply == ev.reply
    ensures var after := Serve(db, ev.req, ev.items).store;
            Sum(OfAnyProduct(kind), after.ledger) - DueOf(kind, after, writtenOff + WrittenOffUnits()(ev))
            == Sum(OfAnyProduct(kind), db.ledger) - DueOf(kind, db, writtenOff)
  {
    match ev.req
    case Receive(id) => ReceiptGrows(db, ev, id, kind);
    case Complete(id) => SaleGrows(db, ev, id, kind);
    case Approve(id) => ApprovalGrows(db, ev, id, kind);
    case WriteOff(product, amount) => WriteOffGrows(db, ev, product, amount, kind);
    case _ => CreationGrowsNothing(db, ev);
  }

  lemma StepDue(db: Store, ev: Event, writtenOff: int)
    requires WellFormed(db) && Fetched(db, ev.req, ev.items) && Serve(db, ev.req, ev.items).reply == ev.reply
    ensures var after := Serve(db, ev.req, ev.items).store;
            Minus(Report(after.ledger).summary, Due(after, writtenOff + WrittenOffUnits()(ev)))
            == Minus(Report(db.ledger).summary, Due(db, writtenOff))
  {
    StepDueOf(db, ev, writtenOff, Purchase);
    StepDueOf(db, ev, writtenOff, Sale);
    StepDueOf(db, ev, writtenOff, Return);
    StepDueOf(db, ev, writtenOff, Damage);
  }

  lemma {:induction false} RunsDue(db0: Store, log: seq<Event>)
    requires WellFormed(db0) && Faithful(db0, log)
    ensures var db := Replay(db0, log);
            Minus(Report(db.ledger).summary, Due(db, Sum(WrittenOffUnits(), log)))
            == Minus(Report(db0.ledger).summary, Due(db0, 0))
  {
    if log != [] {
      var init, last := log[..|log| - 1], log[|log| - 1];
      RunsDue(db0, init);
      StepDue(Replay(db0, init), last, Sum(WrittenOffUnits(), init));
    }
  }

  /** Over every run, purchased rises by exactly the units on the orders received, sold by those on the sales completed,
      returned by the returns approved, and damaged by the write-offs answered Ok. */
  lemma ReportFollowsOrders(db0: Store, log: seq<Event>)
    requires WellFormed(db0) && Faithful(db0, log)
    ensures var db := Replay(db0, log);
            var before, after := Report(db0.ledger).summary, Report(db.ledger).summary;
            && after.purchased - before.purchased
               == Sum(ReceivedUnits(), db.purchases) - Sum(ReceivedUnits(), db0.purchases)
            && after.sold - before.sold == Sum(CompletedUnits(), db.sales) - Sum(CompletedUnits(), db0.sales)
            && after.returned - before.returned == Sum(ApprovedUnits(), db.notes) - Sum(ApprovedUnits(), db0.notes)
            && after.damaged - before.damaged == Sum(WrittenOffUnits(), log)
  {
    RunsDue(db0, log);
  }

  /******* Over whole runs *******/

  lemma RowsInRange(lines: seq<Line>, kind: Kind, ref: Ref, n: nat)
    requires forall line <- lines :: line.product < n
    ensures forall row <- Rows(lines, kind, ref) :: row.product < n
  {
    if lines != [] {
      RowsInRange(lines[..|lines| - 1], kind, ref, n);
      assert lines[|lines| - 1] in lines;
    }
  }

  lemma FetchedInRange(lines: seq<Line>, items: seq<Line>, n: nat)
    requires LinesFit(lines, n) && multiset(items) == multiset(lines)
    ensures forall line <- items :: line.product < n
  {
    MembersPermuted(items, lines);
  }

  lemma StepInRange(db: Store, req: Request, items: seq<Line>)
    requires WellFormed(db) && Fetched(db, req, items) && LedgerInRange(db)
    ensures LedgerInRange(Serve(db, req, items).store)
  {
    match req
    case Receive(id) =>
      if Serve(db, req, items).reply.Ok? {
        assert db.purchases[id] in db.purchases;
        FetchedInRange(db.purchases[id].lines, items, |db.stock|);
        RowsInRange(items, Purchase, PurchaseRef(id), |db.stock|);
      }
    case Complete(id) =>
      if Serve(db, req, items).reply.Ok? {
        assert db.sales[id] in db.sales;
        FetchedInRange(db.sales[id].lines, items, |db.stock|);
        RowsInRange(items, Sale, SaleRef(id), |db.stock|);
      }
    case _ =>
  }

  lemma {:induction false} RunsStayInRange(db0: Store, log: seq<Event>)
    requires WellFormed(db0) && Faithful(db0, log) && LedgerInRange(db0)
    ensures LedgerInRange(Replay(db0, log))
  {
    if log != [] {
      var init, last := log[..|log| - 1], log[|log| - 1];
      RunsStayInRange(db0, init);
      StepInRange(Replay(db0, init), last.req, last.items);
    }
  }

  lemma SurplusGrows(db0: Store, log: seq<Event>, p: nat)
    requires WellFormed(db0) && Faithful(db0, log) && p < |db0.stock|
    ensures Surplus(Replay(db0, log), p) >= Surplus(db0, p)
  {
    StockFollowsLedger(db0, log, p);
    SlipsAreNonNegative(log, p);
    SumBounds(Slip(p), log);
  }

  /** Surpluses that only grow stay put together exactly when each one does. */
  lemma {:induction false} TogetherIffEach(before: Store, after: Store, n: nat)
    requires n <= |before.stock| == |after.stock|
    requires forall p: nat :: p < n ==> Surplus(after, p) >= Surplus(before, p)
    ensures SurplusOfFirst(after, n) >= SurplusOfFirst(before, n)
    ensures SurplusOfFirst(after, n) == SurplusOfFirst(before, n) <==>
            forall p: nat :: p < n ==> Surplus(after, p) == Surplus(before, p)
  {
    if n > 0 {
      TogetherIffEach(before, after, n - 1);
      assert Surplus(after, n - 1) >= Surplus(before, n - 1);
    }
  }

  /** Purchased plus returned minus sold minus damaged is what all stocks together moved by since their openings,
      exactly when no completed sale repeats a product. */
  lemma ReportBalancesIffDistinctSales(db0: Store, log: seq<Event>)
    requires WellFormed(db0) && Faithful(db0, log) && LedgerInRange(db0)
    ensures var db := Replay(db0, log);
            DistinctSales(log) <==> Net(Report(db.ledger).summary) == Units(db.stock) - SurplusOfFirst(db0, |db0.stock|)
  {
    var db := Replay(db0, log);
    RunsStayInRange(db0, log);
    ReportAgainstStock(db);
    forall p: nat | p < |db0.stock| ensures Surplus(db, p) >= Surplus(db0, p) {
      SurplusGrows(db0, log, p);
    }
    TogetherIffEach(db0, db, |db0.stock|);
    InStepIffDistinctSales(db0, log);
  }
}
