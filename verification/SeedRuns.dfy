/** What the builders of the demo-data generator imitate: calls of the endpoints, one after another. */
module SeedRuns {
  import opened Ledger
  import opened Endpoints
  import opened History

  /******* Runs of the endpoints, as the builders imitate them *******/

  /** Serving `events` one at a time takes `before` to `after`, and no sale among them repeats a product. */
  ghost predicate Effect(before: Store, events: seq<Event>, after: Store) {
    WellFormed(before) && Faithful(before, events) && Replay(before, events) == after && DistinctSales(events)
  }

  /** One more call at the end of a run. */
  lemma Extend(start: Store, events: seq<Event>, db: Store, ev: Event)
    requires Effect(start, events, db)
    requires Fetched(db, ev.req, ev.items) && Serve(db, ev.req, ev.items).reply == ev.reply
    requires ev.req.Complete? ==> DistinctProducts(ev.items)
    ensures Effect(start, events + [ev], Serve(db, ev.req, ev.items).store)
  {
    ReplaySnoc(start, events, ev);
  }

  /** The store after a generated purchase order, received or not. */
  function AfterPurchase(db: Store, po: PurchaseOrder): Store {
    db.(
    stock := if po.received then Restocked(db.stock, po.lines) else db.stock,
    purchases := db.purchases + [po],
    ledger := db.ledger + if po.received then Rows(po.lines, Purchase, PurchaseRef(|db.purchases|)) else [])
  }

  lemma AnotherPurchase(start: Store, events: seq<Event>, db: Store, po: PurchaseOrder) returns (longer: seq<Event>)
    requires Effect(start, events, db) && PurchaseAccepted(db, po.supplier, po.lines)
    ensures Effect(start, longer, AfterPurchase(db, po))
  {
    var id := |db.purchases|;
    var placed := db.(purchases := db.purchases + [po.(received := false)]);
    Extend(start, events, db, Event(0, CreatePurchase(po.supplier, po.lines), [], Created(id)));
    longer := events + [Event(0, CreatePurchase(po.supplier, po.lines), [], Created(id))];
    if po.received {
      assert placed.purchases[id := po] == db.purchases + [po];
      Extend(start, longer, placed, Event(0, Receive(id), po.lines, Ok));
      longer := longer + [Event(0, Receive(id), po.lines, Ok)];
    } else {
      assert db.ledger + [] == db.ledger;
    }
  }

  /** The store after a generated sales order, completed or not. */
  function AfterSale(db: Store, so: SalesOrder): Store {
    db.(
    stock := if so.completed then Deducted(db.stock, so.lines) else db.stock,
    sales := db.sales + [so],
    ledger := db.ledger + if so.completed then Rows(so.lines, Sale, SaleRef(|db.sales|)) else [])
  }

  lemma AnotherSale(start: Store, events: seq<Event>, db: Store, so: SalesOrder) returns (longer: seq<Event>)
    requires Effect(start, events, db) && LinesAccepted(so.lines, db.active)
    requires DistinctProducts(so.lines) && CanFulfil(db.stock, so.lines)
    ensures Effect(start, longer, AfterSale(db, so))
  {
    var id := |db.sales|;
    var placed := db.(sales := db.sales + [so.(completed := false)]);
    Extend(start, events, db, Event(0, CreateSale(so.lines), [], Created(id)));
    longer := events + [Event(0, CreateSale(so.lines), [], Created(id))];
    if so.completed {
      assert placed.sales[id := so] == db.sales + [so];
      Extend(start, longer, placed, Event(0, Complete(id), so.lines, Ok));
      longer := longer + [Event(0, Complete(id), so.lines, Ok)];
    } else {
      assert db.ledger + [] == db.ledger;
    }
  }

  /** What one turn of the order loop draws. */
  datatype Order = Bought(po: PurchaseOrder) | Sold(so: SalesOrder) | Nothing

  predicate Drawable(db: Store, order: Order) {
    match order
    case Bought(po) => PurchaseAccepted(db, po.supplier, po.lines)
    case Sold(so) => LinesAccepted(so.lines, db.active) && DistinctProducts(so.lines) && CanFulfil(db.stock, so.lines)
    case Nothing => true
  }

  function AfterOrder(db: Store, order: Order): Store {
    match order
    case Bought(po) => AfterPurchase(db, po)
    case Sold(so) => AfterSale(db, so)
    case Nothing => db
  }

  lemma AnotherOrder(start: Store, events: seq<Event>, db: Store, order: Order) returns (longer: seq<Event>)
    requires Effect(start, events, db) && Drawable(db, order)
    ensures Effect(start, longer, AfterOrder(db, order))
  {
    match order
    case Bought(po) => longer := AnotherPurchase(start, events, db, po);
    case Sold(so) => longer := AnotherSale(start, events, db, so);
    case Nothing => longer := events;
  }

  /** The store after a generated return, approved or not. */
  function AfterReturn(db: Store, note: ReturnNote): Store
    requires note.product < |db.stock|
  {
    db.(
    stock := if note.approved then db.stock[note.product := db.stock[note.product] + note.quantity] else db.stock,
    notes := db.notes + [note],
    ledger := db.ledger +
      if note.approved then [Entry(note.product, note.quantity, Return, ReturnRef(|db.notes|))] else [])
  }

  predicate OnePerSale(notes: seq<ReturnNote>) {
    forall i, j :: 0 <= i < j < |notes| ==> notes[i].sale != notes[j].sale
  }

  predicate WithinALine(sales: seq<SalesOrder>, note: ReturnNote) {
    && note.sale < |sales|
    && exists line <- sales[note.sale].lines :: line.product == note.product && 1 <= note.quantity <= line.quantity
  }

  lemma {:induction false} NoneFor(notes: seq<ReturnNote>, sale: nat, p: nat)
    requires forall j :: 0 <= j < |notes| ==> notes[j].sale != sale
    ensures Reserved(notes, sale, p) == 0
  {
    if notes != [] {
      NoneFor(notes[..|notes| - 1], sale, p);
    }
  }

  /** A first return within a line of a completed sale is one the endpoint would accept. */
  lemma FirstReturnFits(db: Store, note: ReturnNote)
    requires WellFormed(db) && WithinALine(db.sales, note)
    requires forall j :: 0 <= j < |db.notes| ==> db.notes[j].sale != note.sale
    ensures note.product < |db.stock|
    ensures 0 < note.quantity <= Qty(db.sales[note.sale].lines, note.product)
    ensures Reserved(db.notes, note.sale, note.product) == 0
  {
    var lines := db.sales[note.sale].lines;
    var line :| line in lines && line.product == note.product && 1 <= note.quantity <= line.quantity;
    var k :| 0 <= k < |lines| && lines[k] == line;
    assert db.sales[note.sale] in db.sales;
    NoneFor(db.notes, note.sale, note.product);
    QtyBounds(lines, note.product);
  }

  function Filed(db: Store, note: ReturnNote): Store {
    db.(notes := db.notes + [note.(approved := false)])
  }

  function Filing(db: Store, note: ReturnNote): Event {
    Event(0, FileReturn(note.sale, note.product, note.quantity), [], Created(|db.notes|))
  }

  lemma FilesReturn(start: Store, events: seq<Event>, db: Store, note: ReturnNote)
    requires Effect(start, events, db) && WithinALine(db.sales, note) && db.sales[note.sale].completed
    requires forall j :: 0 <= j < |db.notes| ==> db.notes[j].sale != note.sale
    ensures note.product < |db.stock| && Effect(start, events + [Filing(db, note)], Filed(db, note))
  {
    FirstReturnFits(db, note);
    Extend(start, events, db, Filing(db, note));
  }

  lemma ApprovalOf(db: Store, note: ReturnNote)
    requires note.product < |db.stock| && note.approved && WellFormed(Filed(db, note))
    ensures Serve(Filed(db, note), Approve(|db.notes|), []) == Outcome(Ok, AfterReturn(db, note))
  {
    assert Filed(db, note).notes[|db.notes| := note] == db.notes + [note];
  }

  lemma ApprovesReturn(start: Store, events: seq<Event>, db: Store, note: ReturnNote)
    requires note.product < |db.stock| && note.approved
    requires Effect(start, events, Filed(db, note))
    ensures Effect(start, events + [Event(0, Approve(|db.notes|), [], Ok)], AfterReturn(db, note))
  {
    ApprovalOf(db, note);
    Extend(start, events, Filed(db, note), Event(0, Approve(|db.notes|), [], Ok));
  }

  lemma AnotherReturn(start: Store, events: seq<Event>, db: Store, note: ReturnNote) returns (longer: seq<Event>)
    requires Effect(start, events, db) && WithinALine(db.sales, note) && db.sales[note.sale].completed
    requires forall j :: 0 <= j < |db.notes| ==> db.notes[j].sale != note.sale
    ensures note.product < |db.stock| && Effect(start, longer, AfterReturn(db, note))
  {
    FilesReturn(start, events, db, note);
    longer := events + [Filing(db, note)];
    if note.approved {
      ApprovesReturn(start, longer, db, note);
      longer := longer + [Event(0, Approve(|db.notes|), [], Ok)];
    } else {
      assert AfterReturn(db, note) == Filed(db, note) by {
        assert db.ledger + [] == db.ledger;
      }
    }
  }

  predicate NotesFit(notes: seq<ReturnNote>, products: nat) {
    forall i :: 0 <= i < |notes| ==> notes[i].product < products
  }

  /** The stock after the approved ones among `notes`. */
  function Approved(stock: seq<int>, notes: seq<ReturnNote>): (r: seq<int>)
    requires NotesFit(notes, |stock|)
    ensures |r| == |stock|
  {
    if notes == [] then stock
    else
      var before, note := Approved(stock, notes[..|notes| - 1]), notes[|notes| - 1];
      if note.approved then before[note.product := before[note.product] + note.quantity] else before
  }

  /** The ledger rows of the approved ones; the first of `notes` is return number `first`. */
  function ApprovalRows(first: nat, notes: seq<ReturnNote>): seq<Entry> {
    if notes == [] then []
    else
      var last := |notes| - 1;
      var note := notes[last];
      ApprovalRows(first, notes[..last]) +
      if note.approved then [Entry(note.product, note.quantity, Return, ReturnRef(first + last))] else []
  }

  function AfterReturns(db: Store, notes: seq<ReturnNote>): Store
    requires NotesFit(notes, |db.stock|)
  {
    db.(
    stock := Approved(db.stock, notes),
    notes := db.notes + notes,
    ledger := db.ledger + ApprovalRows(|db.notes|, notes))
  }

  /** Every note is for a line of a completed sale. */
  predicate ReturnsFit(sales: seq<SalesOrder>, notes: seq<ReturnNote>) {
    forall i :: 0 <= i < |notes| ==> WithinALine(sales, notes[i]) && sales[notes[i].sale].completed
  }

  lemma ReturnsMore(sales: seq<SalesOrder>, products: nat, notes: seq<ReturnNote>, note: ReturnNote)
    requires ReturnsFit(sales, notes) && WithinALine(sales, note) && sales[note.sale].completed
    requires NotesFit(notes, products) && note.product < products
    ensures ReturnsFit(sales, notes + [note]) && NotesFit(notes + [note], products)
  {
  }

  lemma ApprovedMore(stock: seq<int>, first: nat, notes: seq<ReturnNote>, note: ReturnNote)
    requires NotesFit(notes, |stock|) && note.product < |stock|
    ensures NotesFit(notes + [note], |stock|)
    ensures var before := Approved(stock, notes);
            note.approved ==>
              && Approved(stock, notes + [note]) == before[note.product := before[note.product] + note.quantity]
              && ApprovalRows(first, notes + [note])
                 == ApprovalRows(first, notes)
                    + [Entry(note.product, note.quantity, Return, ReturnRef(first + |notes|))]
    ensures !note.approved ==>
              && Approved(stock, notes + [note]) == Approved(stock, notes)
              && ApprovalRows(first, notes + [note]) == ApprovalRows(first, notes)
  {
    assert (notes + [note])[..|notes|] == notes;
  }

  lemma OneMoreReturn(sales: seq<SalesOrder>, stock: seq<int>, first: nat, notes: seq<ReturnNote>, note: ReturnNote)
    requires NotesFit(notes, |stock|) && note.product < |stock|
    requires ReturnsFit(sales, notes) && WithinALine(sales, note) && sales[note.sale].completed
    ensures NotesFit(notes + [note], |stock|) && ReturnsFit(sales, notes + [note])
    ensures Approved(stock, notes + [note])
         == if note.approved then
              Approved(stock, notes)[note.product := Approved(stock, notes)[note.product] + note.quantity]
            else Approved(stock, notes)
    ensures ApprovalRows(first, notes + [note])
         == ApprovalRows(first, notes) +
            if note.approved then [Entry(note.product, note.quantity, Return, ReturnRef(first + |notes|))] else []
  {
    ApprovedMore(stock, first, notes, note);
    ReturnsMore(sales, |stock|, notes, note);
  }

  lemma AfterReturnsSnoc(db: Store, notes: seq<ReturnNote>)
    requires notes != [] && NotesFit(notes, |db.stock|)
    ensures NotesFit(notes[..|notes| - 1], |db.stock|)
    ensures AfterReturn(AfterReturns(db, notes[..|notes| - 1]), notes[|notes| - 1]) == AfterReturns(db, notes)
  {
    var rest, note, first := notes[..|notes| - 1], notes[|notes| - 1], |db.notes|;
    assert rest + [note] == notes;
    assert db.notes + rest + [note] == db.notes + notes;
    var row := if note.approved then [Entry(note.product, note.quantity, Return, ReturnRef(first + |rest|))] else [];
    assert ApprovalRows(first, notes) == ApprovalRows(first, rest) + row;
    assert db.ledger + ApprovalRows(first, rest) + row == db.ledger + (ApprovalRows(first, rest) + row);
  }

  /** The notes are for other sales than all returns so far. */
  predicate NewSales(before: seq<ReturnNote>, notes: seq<ReturnNote>) {
    forall i, j :: 0 <= i < |before| && 0 <= j < |notes| ==> before[i].sale != notes[j].sale
  }

  lemma {:induction false} SomeReturns(start: Store, events: seq<Event>, db: Store, notes: seq<ReturnNote>)
    returns (longer: seq<Event>)
    requires Effect(start, events, db) && NewSales(db.notes, notes)
    requires NotesFit(notes, |db.stock|) && ReturnsFit(db.sales, notes) && OnePerSale(notes)
    ensures Effect(start, longer, AfterReturns(db, notes))
  {
    longer := events;
    if notes == [] {
      assert db.ledger + [] == db.ledger && db.notes + [] == db.notes;
    } else {
      AfterReturnsSnoc(db, notes);
      longer := SomeReturns(start, events, db, notes[..|notes| - 1]);
      longer := AnotherReturn(start, longer, AfterReturns(db, notes[..|notes| - 1]), notes[|notes| - 1]);
    }
  }

  /** The store after a generated write-off. */
  function AfterDamage(db: Store, p: nat, quantity: nat): Store
    requires p < |db.stock|
  {
    db.(stock := db.stock[p := db.stock[p] - quantity], ledger := db.ledger + [Entry(p, quantity, Damage, NoRef)])
  }

  lemma AnotherDamage(start: Store, events: seq<Event>, db: Store, p: nat, quantity: nat) returns (longer: seq<Event>)
    requires Effect(start, events, db)
    requires p < |db.active| && db.active[p] && p < |db.stock| && 1 <= quantity <= db.stock[p]
    ensures Effect(start, longer, AfterDamage(db, p, quantity))
  {
    Extend(start, events, db, Event(0, WriteOff(p, quantity), [], Ok));
    longer := events + [Event(0, WriteOff(p, quantity), [], Ok)];
  }

  predicate RowsFit(rows: seq<Entry>, products: nat) {
    forall i :: 0 <= i < |rows| ==> rows[i].product < products
  }

  predicate ActiveRows(active: seq<bool>, rows: seq<Entry>) {
    forall i :: 0 <= i < |rows| ==> rows[i].product < |active| && active[rows[i].product]
  }

  function WrittenOff(stock: seq<int>, rows: seq<Entry>): (r: seq<int>)
    requires RowsFit(rows, |stock|)
    ensures |r| == |stock|
  {
    if rows == [] then stock
    else
      var before, row := WrittenOff(stock, rows[..|rows| - 1]), rows[|rows| - 1];
      before[row.product := before[row.product] - row.quantity]
  }

  /** Each row writes off one to five units, and no more than the rows before it leave. */
  predicate WriteOffs(stock: seq<int>, rows: seq<Entry>)
    requires RowsFit(rows, |stock|)
  {
    rows != [] ==>
      var n := |rows| - 1;
      && WriteOffs(stock, rows[..n])
      && rows[n].kind == Damage && rows[n].ref == NoRef
      && 1 <= rows[n].quantity <= 5
      && rows[n].quantity <= WrittenOff(stock, rows[..n])[rows[n].product]
  }

  lemma OneMoreFits(active: seq<bool>, products: nat, rows: seq<Entry>, row: Entry)
    requires RowsFit(rows, products) && ActiveRows(active, rows)
    requires row.product < products && row.product < |active| && active[row.product]
    ensures RowsFit(rows + [row], products) && ActiveRows(active, rows + [row])
  {
  }

  lemma OneMoreWriteOff(stock: seq<int>, rows: seq<Entry>, row: Entry, longer: seq<Entry>)
    requires RowsFit(rows, |stock|) && RowsFit(longer, |stock|) && longer == rows + [row]
    requires WriteOffs(stock, rows) && row.kind == Damage && row.ref == NoRef && row.product < |stock|
    requires 1 <= row.quantity <= 5 && row.quantity <= WrittenOff(stock, rows)[row.product]
    ensures WriteOffs(stock, longer)
    ensures WrittenOff(stock, longer)
         == WrittenOff(stock, rows)[row.product := WrittenOff(stock, rows)[row.product] - row.quantity]
  {
    assert longer[..|longer| - 1] == rows && longer[|longer| - 1] == row;
  }

  function AfterWriteOffs(db: Store, rows: seq<Entry>): Store
    requires RowsFit(rows, |db.stock|)
  {
    db.(stock := WrittenOff(db.stock, rows), ledger := db.ledger + rows)
  }

  lemma AfterWriteOffsSnoc(db: Store, rows: seq<Entry>)
    requires rows != [] && RowsFit(rows, |db.stock|) && WriteOffs(db.stock, rows)
    ensures var rest, row := rows[..|rows| - 1], rows[|rows| - 1];
            AfterDamage(AfterWriteOffs(db, rest), row.product, row.quantity) == AfterWriteOffs(db, rows)
  {
    var rest, row := rows[..|rows| - 1], rows[|rows| - 1];
    assert rest + [row] == rows;
    assert db.ledger + rest + [row] == db.ledger + rows;
  }

  lemma {:induction false} SomeWriteOffs(start: Store, events: seq<Event>, db: Store, rows: seq<Entry>)
    returns (longer: seq<Event>)
    requires Effect(start, events, db) && ActiveRows(db.active, rows)
    requires RowsFit(rows, |db.stock|) && WriteOffs(db.stock, rows)
    ensures Effect(start, longer, AfterWriteOffs(db, rows))
  {
    longer := events;
    if rows == [] {
      assert db.ledger + [] == db.ledger;
    } else {
      var n := |rows| - 1;
      AfterWriteOffsSnoc(db, rows);
      longer := SomeWriteOffs(start, events, db, rows[..n]);
      longer := AnotherDamage(start, longer, AfterWriteOffs(db, rows[..n]), rows[n].product, rows[n].quantity);
    }
  }

  /** The flags of rows created active. */
  function AllActive(n: nat): (active: seq<bool>)
    ensures |active| == n && forall i :: 0 <= i < n ==> active[i]
  {
    seq(n, i => true)
  }

  lemma LastSteps(start: Store, events: seq<Event>, db: Store, notes: seq<ReturnNote>, writeOffs: seq<Entry>)
    returns (longer: seq<Event>)
    requires Effect(start, events, db) && NewSales(db.notes, notes) && ActiveRows(db.active, writeOffs)
    requires NotesFit(notes, |db.stock|) && ReturnsFit(db.sales, notes) && OnePerSale(notes)
    requires RowsFit(writeOffs, |db.stock|) && WriteOffs(Approved(db.stock, notes), writeOffs)
    ensures Effect(start, longer, AfterWriteOffs(AfterReturns(db, notes), writeOffs))
  {
    longer := SomeReturns(start, events, db, notes);
    longer := SomeWriteOffs(start, longer, AfterReturns(db, notes), writeOffs);
  }
}
