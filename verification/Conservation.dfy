/** Returns never bring back more than was sold, per sale and per product, over whole runs. */
module Conservation {
  import opened Sums
  import opened Ledger
  import opened Endpoints
  import opened History

  /** Pending plus approved returns of each product of each sale stay within the quantity sold. */
  ghost predicate WithinSales(db: Store) {
    forall k: nat, p: nat :: k < |db.sales| ==> Reserved(db.notes, k, p) <= Qty(db.sales[k].lines, p)
  }

  function SoldFor(p: nat): SalesOrder -> int {
    (order: SalesOrder) => if order.completed then Qty(order.lines, p) else 0
  }

  function ApprovedFor(p: nat): ReturnNote -> int {
    (note: ReturnNote) => if note.approved && note.product == p then note.quantity else 0
  }

  /** The ledger's sale and return totals are those of the completed sales and the approved returns. */
  ghost predicate TotalsMatch(db: Store) {
    forall p: nat ::
      && Total(db.ledger, Sale, p) == Sum(SoldFor(p), db.sales)
      && Total(db.ledger, Return, p) == Sum(ApprovedFor(p), db.notes)
  }

  /******* One call *******/

  lemma ReservedStatusFree(notes: seq<ReturnNote>, id: nat, k: nat, p: nat)
    requires id < |notes|
    ensures Reserved(notes[id := notes[id].(approved := true)], k, p) == Reserved(notes, k, p)
  {
    SumUpdate(ReservedBy(k, p), notes, id, notes[id].(approved := true));
  }

  lemma ReservedSnoc(notes: seq<ReturnNote>, note: ReturnNote, k: nat, p: nat)
    ensures Reserved(notes + [note], k, p)
         == Reserved(notes, k, p) + if note.sale == k && note.product == p then note.quantity else 0
  {
    SumSnoc(ReservedBy(k, p), notes, note);
  }

  /** No return can refer to a sale that does not exist yet. */
  lemma {:induction false} NothingReserved(notes: seq<ReturnNote>, k: nat, p: nat)
    requires forall note <- notes :: note.sale < k
    ensures Reserved(notes, k, p) == 0
  {
    if notes != [] {
      NothingReserved(notes[..|notes| - 1], k, p);
    }
  }

  lemma StepWithinSales(db: Store, req: Request, items: seq<Line>)
    requires WellFormed(db) && WithinSales(db)
    ensures WithinSales(Serve(db, req, items).store)
  {
    var after := Serve(db, req, items).store;
    forall k: nat, p: nat | k < |after.sales|
      ensures Reserved(after.notes, k, p) <= Qty(after.sales[k].lines, p)
    {
      if k < |db.sales| {
        assert Reserved(db.notes, k, p) <= Qty(db.sales[k].lines, p);
      } else {
        NothingReserved(db.notes, k, p);
        QtyBounds(after.sales[k].lines, p);
      }
      ReservedMoves(db, req, items, k, p);
    }
  }

  /** Only filing a return reserves anything, and only on its own sale and product. */
  lemma ReservedMoves(db: Store, req: Request, items: seq<Line>, k: nat, p: nat)
    requires WellFormed(db)
    ensures var outcome := Serve(db, req, items);
            Reserved(outcome.store.notes, k, p) == Reserved(db.notes, k, p)
              + if req.FileReturn? && outcome.reply.Created? && req.sale == k && req.product == p then req.amount else 0
  {
    match req
    case FileReturn(sale, product, amount) =>
      if Serve(db, req, items).reply.Created? {
        ReservedSnoc(db.notes, ReturnNote(sale, product, amount, false), k, p);
      }
    case Approve(id) =>
      if id < |db.notes| {
        ReservedStatusFree(db.notes, id, k, p);
      }
    case _ =>
  }

  /** Exactly which returns are accepted, while returns stay within sales: any non-negative quantity up to what is left
      of a product that a completed sale sold. */
  lemma FilingAcceptedIff(db: Store, sale: nat, p: nat, amount: int)
    requires WellFormed(db) && WithinSales(db)
    ensures Serve(db, FileReturn(sale, p, amount), []).reply.Created? <==>
              && sale < |db.sales| && db.sales[sale].completed
              && (exists line <- db.sales[sale].lines :: line.product == p)
              && 0 <= amount <= Qty(db.sales[sale].lines, p) - Reserved(db.notes, sale, p)
  {
    if sale < |db.sales| {
      var lines := db.sales[sale].lines;
      assert db.sales[sale] in db.sales;
      QtyBounds(lines, p);
      if line :| line in lines && line.product == p {
        var k :| 0 <= k < |lines| && lines[k] == line;
        assert Qty(lines, p) > 0;
      } else {
        assert p !in Products(lines);
      }
    }
  }

  /** In particular a return of nothing: it is accepted however much has been returned already, and reserves nothing. */
  lemma NothingCanBeReturned(db: Store, sale: nat, p: nat)
    requires WellFormed(db) && WithinSales(db) && sale < |db.sales| && db.sales[sale].completed
    requires exists line <- db.sales[sale].lines :: line.product == p
    ensures var outcome := Serve(db, FileReturn(sale, p, 0), []);
            && outcome.reply == Created(|db.notes|)
            && outcome.store == db.(notes := db.notes + [ReturnNote(sale, p, 0, false)])
            && forall k: nat, q: nat :: Reserved(outcome.store.notes, k, q) == Reserved(db.notes, k, q)
  {
    FilingAcceptedIff(db, sale, p, 0);
    assert Reserved(db.notes, sale, p) <= Qty(db.sales[sale].lines, p);
    forall k: nat, q: nat
      ensures Reserved(db.notes + [ReturnNote(sale, p, 0, false)], k, q) == Reserved(db.notes, k, q)
    {
      ReservedSnoc(db.notes, ReturnNote(sale, p, 0, false), k, q);
    }
  }

  lemma StepTotals(db: Store, req: Request, items: seq<Line>)
    requires WellFormed(db) && Fetched(db, req, items) && TotalsMatch(db)
    ensures TotalsMatch(Serve(db, req, items).store)
  {
    forall p: nat
      ensures var after := Serve(db, req, items).store;
              && Total(after.ledger, Sale, p) == Sum(SoldFor(p), after.sales)
              && Total(after.ledger, Return, p) == Sum(ApprovedFor(p), after.notes)
    {
      match req
      case CreateSale(lines) => SumSnoc(SoldFor(p), db.sales, SalesOrder(lines, false));
      case FileReturn(sale, product, amount) => FileReturnTotals(db, sale, product, amount, p);
      case Receive(id) => ReceiveTotals(db, id, items, p);
      case Complete(id) => CompleteTotals(db, id, items, p);
      case Approve(id) => ApproveTotals(db, id, p);
      case WriteOff(product, amount) => WriteOffTotals(db, product, amount, p);
      case CreatePurchase(_, _) =>
    }
  }

  lemma FileReturnTotals(db: Store, sale: nat, product: nat, amount: int, p: nat)
    requires WellFormed(db)
    ensures var after := Serve(db, FileReturn(sale, product, amount), []).store;
            && after.ledger == db.ledger && after.sales == db.sales
            && Sum(ApprovedFor(p), after.notes) == Sum(ApprovedFor(p), db.notes)
  {
    if amount >= 0 {
      SumSnoc(ApprovedFor(p), db.notes, ReturnNote(sale, product, amount, false));
    }
  }

  lemma ReceiveTotals(db: Store, id: nat, items: seq<Line>, p: nat)
    requires WellFormed(db)
    ensures var after := ServeReceive(db, id, items).store;
            && Total(after.ledger, Sale, p) == Total(db.ledger, Sale, p)
            && Total(after.ledger, Return, p) == Total(db.ledger, Return, p)
  {
    var rows := Rows(items, Purchase, PurchaseRef(id));
    RowsAmount(items, Purchase, PurchaseRef(id), p);
    assert Total(rows, Sale, p) == 0 && Total(rows, Return, p) == 0;
    SumConcat(OfKind(Sale, p), db.ledger, rows);
    SumConcat(OfKind(Return, p), db.ledger, rows);
  }

  lemma CompleteTotals(db: Store, id: nat, items: seq<Line>, p: nat)
    requires WellFormed(db) && Fetched(db, Complete(id), items)
    ensures var after := ServeComplete(db, id, items).store;
            && Total(after.ledger, Sale, p) - Total(db.ledger, Sale, p)
               == Sum(SoldFor(p), after.sales) - Sum(SoldFor(p), db.sales)
            && Total(after.ledger, Return, p) == Total(db.ledger, Return, p)
  {
    if ServeComplete(db, id, items).reply.Ok? {
      var rows := Rows(items, Sale, SaleRef(id));
      RowsAmount(items, Sale, SaleRef(id), p);
      assert Total(rows, Sale, p) == Qty(items, p) && Total(rows, Return, p) == 0;
      SumConcat(OfKind(Sale, p), db.ledger, rows);
      SumConcat(OfKind(Return, p), db.ledger, rows);
      QtyPermuted(items, db.sales[id].lines, p);
      SumUpdate(SoldFor(p), db.sales, id, db.sales[id].(completed := true));
    }
  }

  lemma ApproveTotals(db: Store, id: nat, p: nat)
    requires WellFormed(db)
    ensures var after := ServeApprove(db, id).store;
            && Total(after.ledger, Sale, p) == Total(db.ledger, Sale, p)
            && Total(after.ledger, Return, p) - Total(db.ledger, Return, p)
               == Sum(ApprovedFor(p), after.notes) - Sum(ApprovedFor(p), db.notes)
  {
    if ServeApprove(db, id).reply.Ok? {
      var note := db.notes[id];
      var row := Entry(note.product, note.quantity, Return, ReturnRef(id));
      SumSnoc(OfKind(Sale, p), db.ledger, row);
      SumSnoc(OfKind(Return, p), db.ledger, row);
      SumUpdate(ApprovedFor(p), db.notes, id, note.(approved := true));
    }
  }

  lemma WriteOffTotals(db: Store, product: nat, amount: int, p: nat)
    requires WellFormed(db)
    ensures var after := ServeWriteOff(db, product, amount).store;
            && Total(after.ledger, Sale, p) == Total(db.ledger, Sale, p)
            && Total(after.ledger, Return, p) == Total(db.ledger, Return, p)
  {
    if ServeWriteOff(db, product, amount).reply.Ok? {
      SumSnoc(OfKind(Sale, p), db.ledger, Entry(product, amount, Damage, NoRef));
      SumSnoc(OfKind(Return, p), db.ledger, Entry(product, amount, Damage, NoRef));
    }
  }

  /******* Whole runs *******/

  lemma {:induction false} RunsStayWithinSales(db0: Store, log: seq<Event>)
    requires WellFormed(db0) && Faithful(db0, log) && WithinSales(db0) && TotalsMatch(db0)
    ensures WithinSales(Replay(db0, log)) && TotalsMatch(Replay(db0, log))
  {
    if log != [] {
      var init, last := log[..|log| - 1], log[|log| - 1];
      RunsStayWithinSales(db0, init);
      StepWithinSales(Replay(db0, init), last.req, last.items);
      StepTotals(Replay(db0, init), last.req, last.items);
    }
  }

  /** Returns of product `p` filed against the first `n` sales. */
  function FiledBefore(n: nat, p: nat): ReturnNote -> int {
    (note: ReturnNote) => if note.sale < n && note.product == p then note.quantity else 0
  }

  /** Sale by sale, what is filed stays below what was sold. */
  lemma {:induction false} FiledWithinSold(db: Store, n: nat, p: nat)
    requires WellFormed(db) && WithinSales(db) && n <= |db.sales|
    ensures Sum(FiledBefore(n, p), db.notes) <= Sum(SoldFor(p), db.sales[..n])
  {
    if n == 0 {
      NothingFiled(db.notes, p);
    } else {
      FiledWithinSold(db, n - 1, p);
      PrefixSnoc(db.sales, n - 1);
      SumSnoc(SoldFor(p), db.sales[..n - 1], db.sales[n - 1]);
      SumAdd(FiledBefore(n - 1, p), ReservedBy(n - 1, p), FiledBefore(n, p), db.notes);
      if !db.sales[n - 1].completed {
        NoneAgainst(db, db.notes, n - 1, p);
      }
    }
  }

  lemma {:induction false} NothingFiled(notes: seq<ReturnNote>, p: nat)
    ensures Sum(FiledBefore(0, p), notes) == 0
  {
    if notes != [] {
      NothingFiled(notes[..|notes| - 1], p);
    }
  }

  /** An open sale has no returns. */
  lemma {:induction false} NoneAgainst(db: Store, notes: seq<ReturnNote>, k: nat, p: nat)
    requires k < |db.sales| && !db.sales[k].completed
    requires forall note <- notes :: note.sale < |db.sales| && db.sales[note.sale].completed
    ensures Reserved(notes, k, p) == 0
  {
    if notes != [] {
      NoneAgainst(db, notes[..|notes| - 1], k, p);
    }
  }

  /** In the ledger of every run, a product's returns never add up to more than its sales. */
  lemma ReturnsNeverExceedSales(db0: Store, log: seq<Event>, p: nat)
    requires WellFormed(db0) && Faithful(db0, log) && WithinSales(db0) && TotalsMatch(db0)
    ensures var ledger := Replay(db0, log).ledger; Total(ledger, Return, p) <= Total(ledger, Sale, p)
  {
    RunsStayWithinSales(db0, log);
    var db := Replay(db0, log);
    FiledWithinSold(db, |db.sales|, p);
    assert db.sales[..|db.sales|] == db.sales;
    SumMonotone(ApprovedFor(p), FiledBefore(|db.sales|, p), db.notes);
  }
}
