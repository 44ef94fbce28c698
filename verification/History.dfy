/** Runs of the endpoints one after another, and what every run keeps. */
module History {
  import opened Sums
  import opened Ledger
  import opened Endpoints

  /** One answered request: who asked, what was asked, the fetched lines, the answer. */
  datatype Event = Event(tid: nat, req: Request, items: seq<Line>, reply: Reply)

  /** The store after serving the logged requests one at a time. */
  function Replay(db0: Store, log: seq<Event>): (db: Store)
    requires WellFormed(db0)
    ensures WellFormed(db)
    ensures |db.stock| == |db0.stock|
    ensures db0.ledger <= db.ledger
  {
    if log == [] then db0
    else
      var last := log[|log| - 1];
      Serve(Replay(db0, log[..|log| - 1]), last.req, last.items).store
  }

  /** Every logged answer is the one the endpoint gives at that point, on lines the database may have returned. */
  ghost predicate Faithful(db0: Store, log: seq<Event>)
    requires WellFormed(db0)
  {
    log == [] ||
    var init, last := log[..|log| - 1], log[|log| - 1];
    && Faithful(db0, init)
    && Fetched(Replay(db0, init), last.req, last.items)
    && Serve(Replay(db0, init), last.req, last.items).reply == last.reply
  }

  lemma {:induction false} FaithfulPrefix(db0: Store, log: seq<Event>, n: nat)
    requires WellFormed(db0) && Faithful(db0, log) && n <= |log|
    ensures Faithful(db0, log[..n])
  {
    if n < |log| {
      assert log[..|log| - 1][..n] == log[..n];
      FaithfulPrefix(db0, log[..|log| - 1], n);
    } else {
      assert log[..n] == log;
    }
  }

  lemma ReplaySnoc(db0: Store, log: seq<Event>, ev: Event)
    requires WellFormed(db0)
    ensures Replay(db0, log + [ev]) == Serve(Replay(db0, log), ev.req, ev.items).store
    ensures Faithful(db0, log + [ev]) <==>
            && Faithful(db0, log)
            && Fetched(Replay(db0, log), ev.req, ev.items)
            && Serve(Replay(db0, log), ev.req, ev.items).reply == ev.reply
  {
    assert (log + [ev])[..|log|] == log;
  }

  /** A call that took effect. */
  predicate Effective(ev: Event) {
    ev.reply.Ok? || ev.reply.Created?
  }

  function WithoutRefusals(log: seq<Event>): seq<Event> {
    if log == [] then []
    else WithoutRefusals(log[..|log| - 1]) + if Effective(log[|log| - 1]) then [log[|log| - 1]] else []
  }

  lemma RefusalChangesNothing(db: Store, req: Request, items: seq<Line>)
    requires WellFormed(db)
    ensures var outcome := Serve(db, req, items); outcome.reply.Ok? || outcome.reply.Created? || outcome.store == db
  {
  }

  lemma {:induction false} OnlyRefusalsAreStruck(log: seq<Event>)
    ensures forall ev :: multiset(WithoutRefusals(log))[ev]
              == if ev.reply.Ok? || ev.reply.Created? then multiset(log)[ev] else 0
  {
    if log != [] {
      OnlyRefusalsAreStruck(log[..|log| - 1]);
      assert log == log[..|log| - 1] + [log[|log| - 1]];
    }
  }

  /** Every refused call can be struck from a history: the rest would get the same answers and end in the same store. */
  lemma {:induction false} RefusalsLeaveNoTrace(db0: Store, log: seq<Event>)
    requires WellFormed(db0) && Faithful(db0, log)
    ensures Faithful(db0, WithoutRefusals(log)) && Replay(db0, WithoutRefusals(log)) == Replay(db0, log)
    ensures forall ev :: multiset(WithoutRefusals(log))[ev]
              == if ev.reply.Ok? || ev.reply.Created? then multiset(log)[ev] else 0
  {
    OnlyRefusalsAreStruck(log);
    if log != [] {
      var init, last := log[..|log| - 1], log[|log| - 1];
      RefusalsLeaveNoTrace(db0, init);
      if Effective(last) {
        ReplaySnoc(db0, WithoutRefusals(init), last);
      } else {
        RefusalChangesNothing(Replay(db0, init), last.req, last.items);
        assert WithoutRefusals(log) == WithoutRefusals(init);
      }
    }
  }

  /** A receive raises each product by the sum of its lines and posts the lines, in whatever order they come back. */
  lemma ReceiveIgnoresOrder(db: Store, id: nat, items: seq<Line>)
    requires WellFormed(db) && Fetched(db, Receive(id), items) && id < |db.purchases| && !db.purchases[id].received
    ensures var after, lines := ServeReceive(db, id, items).store, db.purchases[id].lines;
            && after.stock == Restocked(db.stock, lines)
            && multiset(after.ledger) == multiset(db.ledger) + multiset(Rows(lines, Purchase, PurchaseRef(id)))
  {
    forall p: nat ensures Qty(items, p) == Qty(db.purchases[id].lines, p) {
      QtyPermuted(items, db.purchases[id].lines, p);
    }
    RowsPermuted(items, db.purchases[id].lines, Purchase, PurchaseRef(id));
  }

  /******* Stock against the ledger *******/

  /** What is in stock beyond the ledger: the opening balance, plus any drift since. */
  function Surplus(db: Store, p: nat): int
    requires p < |db.stock|
  {
    db.stock[p] - Balance(db.ledger, p)
  }

  /** A completed sale moves stock and ledger apart by all but the last line of each repeated product. */
  function Slip(p: nat): Event -> int {
    (ev: Event) => if ev.req.Complete? && ev.reply.Ok? then Overhang(ev.items, p) else 0
  }

  function Drift(log: seq<Event>, p: nat): int {
    Sum(Slip(p), log)
  }

  lemma SurplusAdds(before: Store, after: Store, added: seq<Entry>, p: nat)
    requires p < |before.stock| == |after.stock| && after.ledger == before.ledger + added
    ensures Surplus(after, p) == Surplus(before, p) + (after.stock[p] - before.stock[p]) - Balance(added, p)
  {
    SumConcat(SignedFor(p), before.ledger, added);
  }

  lemma RowSurplus(before: Store, after: Store, row: Entry, p: nat)
    requires p < |before.stock| && row.product < |before.stock| && after.ledger == before.ledger + [row]
    requires after.stock == before.stock[row.product := before.stock[row.product] + Sign(row.kind) * row.quantity]
    ensures Surplus(after, p) == Surplus(before, p)
  {
    SumSnoc(SignedFor(p), before.ledger, row);
  }

  lemma ReceiveSurplus(db: Store, id: nat, items: seq<Line>, p: nat)
    requires WellFormed(db) && p < |db.stock|
    ensures Surplus(ServeReceive(db, id, items).store, p) == Surplus(db, p)
  {
    RowsAmount(items, Purchase, PurchaseRef(id), p);
    if ServeReceive(db, id, items).reply.Ok? {
      SurplusAdds(db, ServeReceive(db, id, items).store, Rows(items, Purchase, PurchaseRef(id)), p);
    }
  }

  lemma CompleteSurplus(db: Store, id: nat, items: seq<Line>, p: nat)
    requires WellFormed(db) && p < |db.stock|
    ensures var after := ServeComplete(db, id, items);
            Surplus(after.store, p) == Surplus(db, p) + if after.reply.Ok? then Overhang(items, p) else 0
  {
    RowsAmount(items, Sale, SaleRef(id), p);
    if ServeComplete(db, id, items).reply.Ok? {
      SurplusAdds(db, ServeComplete(db, id, items).store, Rows(items, Sale, SaleRef(id)), p);
    }
  }

  lemma ApproveSurplus(db: Store, id: nat, p: nat)
    requires WellFormed(db) && p < |db.stock|
    ensures |ServeApprove(db, id).store.stock| == |db.stock|
    ensures Surplus(ServeApprove(db, id).store, p) == Surplus(db, p)
  {
    if ServeApprove(db, id).reply.Ok? {
      var note := db.notes[id];
      var row := Entry(note.product, note.quantity, Return, ReturnRef(id));
      RowSurplus(db, ServeApprove(db, id).store, row, p);
    }
  }

  lemma WriteOffSurplus(db: Store, product: nat, amount: int, p: nat)
    requires WellFormed(db) && p < |db.stock|
    ensures Surplus(ServeWriteOff(db, product, amount).store, p) == Surplus(db, p)
  {
    if ServeWriteOff(db, product, amount).reply.Ok? {
      RowSurplus(db, ServeWriteOff(db, product, amount).store, Entry(product, amount, Damage, NoRef), p);
    }
  }

  lemma StepSurplus(db: Store, ev: Event, p: nat)
    requires WellFormed(db) && p < |db.stock|
    requires Serve(db, ev.req, ev.items).reply == ev.reply
    ensures Surplus(Serve(db, ev.req, ev.items).store, p) == Surplus(db, p) + Slip(p)(ev)
  {
    match ev.req
    case Receive(id) => ReceiveSurplus(db, id, ev.items, p);
    case Complete(id) => CompleteSurplus(db, id, ev.items, p);
    case Approve(id) => ApproveSurplus(db, id, p);
    case WriteOff(product, amount) => WriteOffSurplus(db, product, amount, p);
    case _ =>
  }

  /** Over every run, stock minus ledger balance is what it was at the start plus the accumulated drift. */
  lemma {:induction false} StockFollowsLedger(db0: Store, log: seq<Event>, p: nat)
    requires WellFormed(db0) && Faithful(db0, log) && p < |db0.stock|
    ensures Surplus(Replay(db0, log), p) == Surplus(db0, p) + Drift(log, p)
  {
    if log != [] {
      StockFollowsLedger(db0, log[..|log| - 1], p);
      StepSurplus(Replay(db0, log[..|log| - 1]), log[|log| - 1], p);
    }
  }

  ghost predicate DistinctSales(log: seq<Event>) {
    forall ev <- log :: ev.req.Complete? && ev.reply.Ok? ==> DistinctProducts(ev.items)
  }

  lemma {:induction false} SoldLinesFit(db0: Store, log: seq<Event>, k: nat)
    requires WellFormed(db0) && Faithful(db0, log) && k < |log|
    requires log[k].req.Complete? && log[k].reply.Ok?
    ensures LinesFit(log[k].items, |db0.stock|)
  {
    ReplayAt(db0, log, k);
    var db := Replay(db0, log[..k]);
    MembersPermuted(log[k].items, db.sales[log[k].req.id].lines);
    assert db.sales[log[k].req.id] in db.sales;
  }

  /** A completed sale that repeats a product leaves that product's stock above its ledger for good. */
  lemma RepeatedSaleDrifts(db0: Store, log: seq<Event>, k: nat) returns (p: nat)
    requires WellFormed(db0) && Faithful(db0, log) && k < |log|
    requires log[k].req.Complete? && log[k].reply.Ok? && !DistinctProducts(log[k].items)
    ensures p < |db0.stock| && Drift(log, p) > 0
  {
    SoldLinesFit(db0, log, k);
    NoOverhangIffDistinct(log[k].items);
    p :| Overhang(log[k].items, p) != 0;
    QtyBounds(log[k].items, p);
    SlipsAreNonNegative(log, p);
    SumBounds(Slip(p), log);
    assert Slip(p)(log[k]) > 0;
  }

  lemma SlipsAreNonNegative(log: seq<Event>, p: nat)
    ensures forall ev <- log :: Slip(p)(ev) >= 0
  {
    forall ev | ev in log ensures Slip(p)(ev) >= 0 {
      QtyBounds(ev.items, p);
    }
  }

  /** Stock and ledger agree on every product exactly when no completed sale repeats a product. */
  lemma InStepIffDistinctSales(db0: Store, log: seq<Event>)
    requires WellFormed(db0) && Faithful(db0, log)
    ensures DistinctSales(log) <==>
            forall p: nat :: p < |db0.stock| ==> Surplus(Replay(db0, log), p) == Surplus(db0, p)
  {
    if DistinctSales(log) {
      forall p: nat | p < |db0.stock| ensures Surplus(Replay(db0, log), p) == Surplus(db0, p) {
        StockFollowsLedger(db0, log, p);
        NoDrift(db0, log, p);
      }
    } else {
      var ev :| ev in log && ev.req.Complete? && ev.reply.Ok? && !DistinctProducts(ev.items);
      var k :| 0 <= k < |log| && log[k] == ev;
      var p := RepeatedSaleDrifts(db0, log, k);
      StockFollowsLedger(db0, log, p);
    }
  }

  lemma {:induction false} NoDrift(db0: Store, log: seq<Event>, p: nat)
    requires WellFormed(db0) && Faithful(db0, log) && DistinctSales(log)
    ensures Drift(log, p) == 0
  {
    if log != [] {
      var init, last := log[..|log| - 1], log[|log| - 1];
      assert log == init + [last];
      NoDrift(db0, init, p);
      if last.req.Complete? && last.reply.Ok? {
        SoldLinesFit(db0, log, |log| - 1);
        assert last in log;
        NoOverhangIffDistinct(last.items);
      }
    }
  }

  ghost predicate NonNegative(db: Store) {
    forall p :: 0 <= p < |db.stock| ==> db.stock[p] >= 0
  }

  lemma StepNonNegative(db: Store, req: Request, items: seq<Line>)
    requires WellFormed(db) && NonNegative(db)
    ensures NonNegative(Serve(db, req, items).store)
  {
    var after := Serve(db, req, items).store;
    forall p: nat | p < |db.stock| ensures after.stock[p] >= 0 {
      QtyBounds(items, p);
      if req.Complete? && p in Products(items) && CanFulfil(db.stock, items) {
        var k := LastQtyIsALine(items, p);
        assert items[k] in items;
      }
    }
  }

  /** No run sells or writes off what is not there, repeated sale lines included. */
  lemma {:induction false} StockStaysNonNegative(db0: Store, log: seq<Event>)
    requires WellFormed(db0) && NonNegative(db0)
    ensures NonNegative(Replay(db0, log))
  {
    if log != [] {
      StockStaysNonNegative(db0, log[..|log| - 1]);
      StepNonNegative(Replay(db0, log[..|log| - 1]), log[|log| - 1].req, log[|log| - 1].items);
    }
  }

  /******* Each order and return is posted exactly once *******/

  function PurchaseRows(db: Store, k: nat): seq<Entry> {
    if k < |db.purchases| && db.purchases[k].received then Rows(db.purchases[k].lines, Purchase, PurchaseRef(k)) else []
  }

  function SaleRows(db: Store, k: nat): seq<Entry> {
    if k < |db.sales| && db.sales[k].completed then Rows(db.sales[k].lines, Sale, SaleRef(k)) else []
  }

  function ReturnRows(db: Store, k: nat): seq<Entry> {
    if k < |db.notes| && db.notes[k].approved then
      [Entry(db.notes[k].product, db.notes[k].quantity, Return, ReturnRef(k))]
    else []
  }

  /** What the ledger must hold under one reference, given the order's or return's status and lines. */
  function Expected(db: Store, ref: Ref): seq<Entry> {
    match ref
    case PurchaseRef(k) => PurchaseRows(db, k)
    case SaleRef(k) => SaleRows(db, k)
    case ReturnRef(k) => ReturnRows(db, k)
    case NoRef => Posted(db.ledger, NoRef)
  }

  /** Open orders and pending returns have no ledger row, closed ones exactly their own, once. */
  ghost predicate PostedOnce(db: Store) {
    forall ref: Ref :: multiset(Posted(db.ledger, ref)) == multiset(Expected(db, ref))
  }

  lemma ReceiveExpects(db: Store, id: nat, items: seq<Line>, ref: Ref)
    requires WellFormed(db) && id < |db.purchases| && !db.purchases[id].received && ref != NoRef
    ensures Expected(ServeReceive(db, id, items).store, ref)
         == if ref == PurchaseRef(id) then Rows(db.purchases[id].lines, Purchase, ref) else Expected(db, ref)
    ensures Expected(db, PurchaseRef(id)) == []
  {
  }

  lemma CompleteExpects(db: Store, id: nat, items: seq<Line>, ref: Ref)
    requires WellFormed(db) && id < |db.sales| && !db.sales[id].completed && CanFulfil(db.stock, items) && ref != NoRef
    ensures Expected(ServeComplete(db, id, items).store, ref)
         == if ref == SaleRef(id) then Rows(db.sales[id].lines, Sale, ref) else Expected(db, ref)
    ensures Expected(db, SaleRef(id)) == []
  {
  }

  lemma RowsPost(items: seq<Line>, lines: seq<Line>, kind: Kind, own: Ref, ref: Ref)
    requires multiset(items) == multiset(lines)
    ensures multiset(Posted(Rows(items, kind, own), ref))
         == multiset(if ref == own then Rows(lines, kind, own) else [])
  {
    RowsAmount(items, kind, own, 0);
    RowsPermuted(items, lines, kind, own);
  }

  lemma LedgerAdded(ledger: seq<Entry>, rows: seq<Entry>)
    ensures (ledger + rows)[|ledger|..] == rows
  {
  }

  lemma PostedOne(row: Entry, ref: Ref)
    ensures Posted([row], ref) == if row.ref == ref then [row] else []
  {
    assert [row][..0] == [];
  }

  ghost predicate PostsWhatIsNew(before: Store, after: Store, ref: Ref) {
    before.ledger <= after.ledger &&
    multiset(Expected(after, ref))
    == multiset(Expected(before, ref)) + multiset(Posted(after.ledger[|before.ledger|..], ref))
  }

  /** The rows of an order's lines, appended under its own reference, are what it now expects. */
  lemma PostsRows(before: Store, after: Store, items: seq<Line>, lines: seq<Line>, kind: Kind, own: Ref, ref: Ref)
    requires multiset(items) == multiset(lines)
    requires after.ledger == before.ledger + Rows(items, kind, own)
    requires if ref == own then Expected(before, ref) == [] && Expected(after, ref) == Rows(lines, kind, own)
             else Expected(after, ref) == Expected(before, ref)
    ensures PostsWhatIsNew(before, after, ref)
  {
    RowsPost(items, lines, kind, own, ref);
    LedgerAdded(before.ledger, Rows(items, kind, own));
  }

  lemma ReceivePosts(db: Store, id: nat, items: seq<Line>, ref: Ref)
    requires WellFormed(db) && Fetched(db, Receive(id), items) && ref != NoRef
    ensures PostsWhatIsNew(db, ServeReceive(db, id, items).store, ref)
  {
    if id < |db.purchases| && !db.purchases[id].received {
      ReceiveExpects(db, id, items, ref);
      PostsRows(db, ServeReceive(db, id, items).store, items, db.purchases[id].lines, Purchase, PurchaseRef(id), ref);
    } else {
      PostsNothing(db, ref);
    }
  }

  lemma CompletePosts(db: Store, id: nat, items: seq<Line>, ref: Ref)
    requires WellFormed(db) && Fetched(db, Complete(id), items) && ref != NoRef
    ensures PostsWhatIsNew(db, ServeComplete(db, id, items).store, ref)
  {
    if id < |db.sales| && !db.sales[id].completed && CanFulfil(db.stock, items) {
      CompleteExpects(db, id, items, ref);
      PostsRows(db, ServeComplete(db, id, items).store, items, db.sales[id].lines, Sale, SaleRef(id), ref);
    } else {
      PostsNothing(db, ref);
    }
  }

  lemma ApproveExpects(db: Store, id: nat, ref: Ref)
    requires WellFormed(db) && id < |db.notes| && !db.notes[id].approved && ref != NoRef
    ensures Expected(ServeApprove(db, id).store, ref)
         == if ref == ReturnRef(id) then [Entry(db.notes[id].product, db.notes[id].quantity, Return, ref)]
            else Expected(db, ref)
    ensures Expected(db, ReturnRef(id)) == []
  {
  }

  /** Appended rows under `ref` are what the orders and returns now expect in addition. */
  lemma PostsRow(before: Store, after: Store, row: Entry, ref: Ref)
    requires after.ledger == before.ledger + [row]
    requires if row.ref == ref then Expected(before, ref) == [] && Expected(after, ref) == [row]
             else Expected(after, ref) == Expected(before, ref)
    ensures PostsWhatIsNew(before, after, ref)
  {
    PostedOne(row, ref);
    LedgerAdded(before.ledger, [row]);
  }

  lemma ApprovePosts(db: Store, id: nat, ref: Ref)
    requires WellFormed(db) && ref != NoRef
    ensures PostsWhatIsNew(db, ServeApprove(db, id).store, ref)
  {
    if id < |db.notes| && !db.notes[id].approved {
      var row := Entry(db.notes[id].product, db.notes[id].quantity, Return, ReturnRef(id));
      ApproveExpects(db, id, ref);
      PostsRow(db, ServeApprove(db, id).store, row, ref);
    } else {
      PostsNothing(db, ref);
    }
  }

  lemma PostsNothing(db: Store, ref: Ref)
    ensures PostsWhatIsNew(db, db, ref)
  {
    assert db.ledger[|db.ledger|..] == [];
  }

  lemma WriteOffPosts(db: Store, product: nat, amount: int, ref: Ref)
    requires WellFormed(db) && ref != NoRef
    ensures PostsWhatIsNew(db, ServeWriteOff(db, product, amount).store, ref)
  {
    var after := ServeWriteOff(db, product, amount).store;
    if ServeWriteOff(db, product, amount).reply.Ok? {
      SameOrders(db, after, ref);
      PostsRow(db, after, Entry(product, amount, Damage, NoRef), ref);
    } else {
      PostsNothing(db, ref);
    }
  }

  lemma SameOrders(before: Store, after: Store, ref: Ref)
    requires after.purchases == before.purchases && after.sales == before.sales && after.notes == before.notes
    requires ref != NoRef
    ensures Expected(after, ref) == Expected(before, ref)
  {
  }

  /** New orders and new returns expect no ledger row yet. */
  lemma NewRowsPost(before: Store, after: Store, ref: Ref)
    requires after.ledger == before.ledger && ref != NoRef
    requires before.purchases <= after.purchases && before.sales <= after.sales && before.notes <= after.notes
    requires forall k :: |before.purchases| <= k < |after.purchases| ==> !after.purchases[k].received
    requires forall k :: |before.sales| <= k < |after.sales| ==> !after.sales[k].completed
    requires forall k :: |before.notes| <= k < |after.notes| ==> !after.notes[k].approved
    ensures PostsWhatIsNew(before, after, ref)
  {
    assert after.ledger[|before.ledger|..] == [];
    assert Expected(after, ref) == Expected(before, ref) by {
      match ref
      case PurchaseRef(k) => assert PurchaseRows(after, k) == PurchaseRows(before, k);
      case SaleRef(k) => assert SaleRows(after, k) == SaleRows(before, k);
      case ReturnRef(k) => assert ReturnRows(after, k) == ReturnRows(before, k);
    }
    assert Posted([], ref) == [];
  }

  /** One call adds to each reference exactly what that reference newly expects. */
  lemma StepPosted(db: Store, req: Request, items: seq<Line>, ref: Ref)
    requires WellFormed(db) && Fetched(db, req, items) && ref != NoRef
    ensures PostsWhatIsNew(db, Serve(db, req, items).store, ref)
  {
    match req
    case Receive(id) => ReceivePosts(db, id, items, ref);
    case Complete(id) => CompletePosts(db, id, items, ref);
    case Approve(id) => ApprovePosts(db, id, ref);
    case WriteOff(product, amount) => WriteOffPosts(db, product, amount, ref);
    case _ => NewRowsPost(db, Serve(db, req, items).store, ref);
  }

  lemma StepPostedOnce(db: Store, req: Request, items: seq<Line>)
    requires WellFormed(db) && Fetched(db, req, items) && PostedOnce(db)
    ensures PostedOnce(Serve(db, req, items).store)
  {
    var after := Serve(db, req, items).store;
    forall ref: Ref
      ensures multiset(Posted(after.ledger, ref)) == multiset(Expected(after, ref))
    {
      if ref != NoRef {
        StepPosted(db, req, items, ref);
        StaysPosted(db, after, ref);
      }
    }
  }

  lemma StaysPosted(before: Store, after: Store, ref: Ref)
    requires PostsWhatIsNew(before, after, ref)
    requires multiset(Posted(before.ledger, ref)) == multiset(Expected(before, ref))
    ensures multiset(Posted(after.ledger, ref)) == multiset(Expected(after, ref))
  {
    PostedExtends(before, after, ref);
  }

  lemma PostedExtends(before: Store, after: Store, ref: Ref)
    requires before.ledger <= after.ledger
    ensures Posted(after.ledger, ref) == Posted(before.ledger, ref) + Posted(after.ledger[|before.ledger|..], ref)
  {
    assert after.ledger == before.ledger + after.ledger[|before.ledger|..];
    PostedConcat(before.ledger, after.ledger[|before.ledger|..], ref);
  }

  lemma {:induction false} RunsPostOnce(db0: Store, log: seq<Event>)
    requires WellFormed(db0) && Faithful(db0, log) && PostedOnce(db0)
    ensures PostedOnce(Replay(db0, log))
  {
    if log != [] {
      RunsPostOnce(db0, log[..|log| - 1]);
      StepPostedOnce(Replay(db0, log[..|log| - 1]), log[|log| - 1].req, log[|log| - 1].items);
    }
  }

  /** The three requests that may take effect only once. */
  predicate Closing(req: Request) {
    req.Receive? || req.Complete? || req.Approve?
  }

  predicate Closed(db: Store, req: Request) {
    match req
    case Receive(id) => id < |db.purchases| && db.purchases[id].received
    case Complete(id) => id < |db.sales| && db.sales[id].completed
    case Approve(id) => id < |db.notes| && db.notes[id].approved
    case _ => false
  }

  lemma StepKeepsClosed(db: Store, req: Request, ev: Event)
    requires WellFormed(db) && Closed(db, req)
    ensures Closed(Serve(db, ev.req, ev.items).store, req)
  {
  }

  lemma {:induction false} StaysClosed(db0: Store, log: seq<Event>, req: Request)
    requires WellFormed(db0) && Closed(db0, req)
    ensures Closed(Replay(db0, log), req)
  {
    if log != [] {
      StaysClosed(db0, log[..|log| - 1], req);
      StepKeepsClosed(Replay(db0, log[..|log| - 1]), req, log[|log| - 1]);
    }
  }

  lemma {:induction false} ReplaySplit(db0: Store, a: seq<Event>, b: seq<Event>)
    requires WellFormed(db0)
    ensures Replay(db0, a + b) == Replay(Replay(db0, a), b)
  {
    if b == [] {
      assert a + b == a;
    } else {
      assert (a + b)[..|a + b| - 1] == a + b[..|b| - 1];
      ReplaySplit(db0, a, b[..|b| - 1]);
    }
  }

  lemma SuccessCloses(db: Store, req: Request, items: seq<Line>)
    requires WellFormed(db) && Closing(req) && Serve(db, req, items).reply == Ok
    ensures Closed(Serve(db, req, items).store, req)
  {
  }

  lemma ClosedRefuses(db: Store, req: Request, items: seq<Line>)
    requires WellFormed(db) && Closed(db, req)
    ensures Serve(db, req, items) == Outcome(Conflict, db)
  {
  }

  /** Replaying up to and including event `k` is one call on top of replaying up to it. */
  lemma ReplayAt(db0: Store, log: seq<Event>, k: nat)
    requires WellFormed(db0) && Faithful(db0, log) && k < |log|
    ensures var before := Replay(db0, log[..k]);
            && Fetched(before, log[k].req, log[k].items)
            && Serve(before, log[k].req, log[k].items) == Outcome(log[k].reply, Replay(db0, log[..k + 1]))
  {
    FaithfulPrefix(db0, log, k + 1);
    PrefixSnoc(log, k);
    ReplaySnoc(db0, log[..k], log[k]);
  }

  lemma ClosedAt(db0: Store, log: seq<Event>, i: nat)
    requires WellFormed(db0) && Faithful(db0, log)
    requires i < |log| && Closing(log[i].req) && log[i].reply == Ok
    ensures Closed(Replay(db0, log[..i + 1]), log[i].req)
  {
    ReplayAt(db0, log, i);
    SuccessCloses(Replay(db0, log[..i]), log[i].req, log[i].items);
  }

  lemma StaysClosedAfter(db0: Store, log: seq<Event>, i: nat, j: nat)
    requires WellFormed(db0) && Faithful(db0, log)
    requires i < j < |log| && Closing(log[i].req) && log[i].reply == Ok
    ensures Closed(Replay(db0, log[..j]), log[i].req)
  {
    ClosedAt(db0, log, i);
    assert log[..j] == log[..i + 1] + log[i + 1..j];
    StaysClosedBetween(db0, log[..i + 1], log[i + 1..j], log[i].req);
  }

  lemma StaysClosedBetween(db0: Store, before: seq<Event>, between: seq<Event>, req: Request)
    requires WellFormed(db0) && Closed(Replay(db0, before), req)
    ensures Closed(Replay(db0, before + between), req)
  {
    ReplaySplit(db0, before, between);
    StaysClosed(Replay(db0, before), between, req);
  }

  /** Once a receive, complete or approve has succeeded, every later one like it is a 409 that changes nothing. */
  lemma RepeatsAreConflicts(db0: Store, log: seq<Event>, i: nat, j: nat)
    requires WellFormed(db0) && Faithful(db0, log)
    requires i < j < |log| && log[i].req == log[j].req && Closing(log[i].req) && log[i].reply == Ok
    ensures log[j].reply == Conflict
    ensures Replay(db0, log[..j + 1]) == Replay(db0, log[..j])
  {
    StaysClosedAfter(db0, log, i, j);
    ReplayAt(db0, log, j);
    ClosedRefuses(Replay(db0, log[..j]), log[j].req, log[j].items);
  }
}
