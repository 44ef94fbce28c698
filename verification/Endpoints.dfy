/**
 The database rows the stock endpoints work on, and what each endpoint does to them when it runs alone.
 Products, orders and returns are numbered by their position in their table; a new row gets the next number.
 */
module Endpoints {
  import opened Sums
  import opened Ledger

  datatype PurchaseOrder = PurchaseOrder(supplier: nat, lines: seq<Line>, received: bool)
  datatype SalesOrder = SalesOrder(lines: seq<Line>, completed: bool)
  datatype ReturnNote = ReturnNote(sale: nat, product: nat, quantity: nat, approved: bool)

  /** `active` and `suppliers` hold the `is_active` flags of the products and the suppliers. */
  datatype Store = Store(
    stock: seq<int>,
    active: seq<bool>,
    suppliers: seq<bool>,
    purchases: seq<PurchaseOrder>,
    sales: seq<SalesOrder>,
    notes: seq<ReturnNote>,
    ledger: seq<Entry>)

  datatype Request =
    | CreatePurchase(supplier: nat, lines: seq<Line>)
    | CreateSale(lines: seq<Line>)
    | Receive(id: nat)
    | Complete(id: nat)
    | FileReturn(sale: nat, product: nat, amount: int)
    | Approve(id: nat)
    | WriteOff(product: nat, amount: int)

  /** Ok: 200 or 201 without a new order or return; Conflict: 409; BadRequest: 400;
      Missing: the row lookup raises DoesNotExist; Rejected: the database refuses a negative quantity. */
  datatype Reply = Ok | Created(id: nat) | Conflict | BadRequest | Missing | Rejected

  datatype Outcome = Outcome(reply: Reply, store: Store)

  /** What the serializers check about the lines of a new order. */
  predicate LinesAccepted(lines: seq<Line>, active: seq<bool>) {
    && lines != []
    && forall line <- lines :: line.product < |active| && active[line.product] && line.quantity >= 1
  }

  /** What the purchase serializer checks: a supplier that exists and is active, and the lines. */
  predicate PurchaseAccepted(db: Store, supplier: nat, lines: seq<Line>) {
    supplier < |db.suppliers| && db.suppliers[supplier] && LinesAccepted(lines, db.active)
  }

  predicate LinesFit(lines: seq<Line>, products: nat) {
    forall line <- lines :: line.product < products && line.quantity >= 1
  }

  /** Foreign keys resolve, line quantities are positive, and only completed sales have returns. */
  predicate WellFormed(db: Store) {
    && |db.active| == |db.stock|
    && (forall order <- db.purchases :: order.supplier < |db.suppliers| && LinesFit(order.lines, |db.stock|))
    && (forall order <- db.sales :: LinesFit(order.lines, |db.stock|))
    && (forall note <- db.notes ::
          note.sale < |db.sales| && db.sales[note.sale].completed && note.product < |db.stock|)
  }

  /** Every product's stock plus the sum of its lines. */
  function Restocked(stock: seq<int>, items: seq<Line>): (r: seq<int>) {
    seq(|stock|, p requires 0 <= p < |stock| => stock[p] + Qty(items, p))
  }

  /** Every product's stock minus its last line: each line is saved from its own copy of the product. */
  function Deducted(stock: seq<int>, items: seq<Line>): (r: seq<int>) {
    seq(|stock|, p requires 0 <= p < |stock| => stock[p] - LastQty(items, p))
  }

  /** Each line on its own is covered by the stock. */
  predicate CanFulfil(stock: seq<int>, items: seq<Line>) {
    forall line <- items :: line.product < |stock| && line.quantity <= stock[line.product]
  }

  function ReservedBy(sale: nat, p: nat): ReturnNote -> int {
    (note: ReturnNote) => if note.sale == sale && note.product == p then note.quantity else 0
  }

  /** Pending and approved returns of one product of one sale. */
  function Reserved(notes: seq<ReturnNote>, sale: nat, p: nat): int {
    Sum(ReservedBy(sale, p), notes)
  }

  /** The lines of an open order come back from the database complete, in some order. */
  predicate Fetched(db: Store, req: Request, items: seq<Line>) {
    match req
    case Receive(id) =>
      id < |db.purchases| && !db.purchases[id].received ==> multiset(items) == multiset(db.purchases[id].lines)
    case Complete(id) =>
      id < |db.sales| && !db.sales[id].completed ==> multiset(items) == multiset(db.sales[id].lines)
    case _ => true
  }

  function ServeReceive(db: Store, id: nat, items: seq<Line>): Outcome
    requires WellFormed(db)
  {
    if id >= |db.purchases| then Outcome(Missing, db)
    else if db.purchases[id].received then Outcome(Conflict, db)
    else Outcome(Ok, db.(
      stock := Restocked(db.stock, items),
      purchases := db.purchases[id := db.purchases[id].(received := true)],
      ledger := db.ledger + Rows(items, Purchase, PurchaseRef(id))))
  }

  function ServeComplete(db: Store, id: nat, items: seq<Line>): Outcome
    requires WellFormed(db)
  {
    if id >= |db.sales| then Outcome(Missing, db)
    else if db.sales[id].completed then Outcome(Conflict, db)
    else if !CanFulfil(db.stock, items) then Outcome(Conflict, db)
    else Outcome(Ok, db.(
      stock := Deducted(db.stock, items),
      sales := db.sales[id := db.sales[id].(completed := true)],
      ledger := db.ledger + Rows(items, Sale, SaleRef(id))))
  }

  function ServeFileReturn(db: Store, sale: nat, product: nat, amount: int): Outcome
    requires WellFormed(db)
  {
    if sale >= |db.sales| then Outcome(Missing, db)
    else if !db.sales[sale].completed then Outcome(BadRequest, db)
    else if Qty(db.sales[sale].lines, product) == 0 then Outcome(BadRequest, db)
    else if amount > Qty(db.sales[sale].lines, product) - Reserved(db.notes, sale, product) then
      Outcome(BadRequest, db)
    else if amount < 0 then Outcome(Rejected, db)
    else Outcome(Created(|db.notes|), db.(notes := db.notes + [ReturnNote(sale, product, amount, false)]))
  }

  function ServeApprove(db: Store, id: nat): Outcome
    requires WellFormed(db)
  {
    if id >= |db.notes| then Outcome(Missing, db)
    else if db.notes[id].approved then Outcome(Conflict, db)
    else
      var note := db.notes[id];
      Outcome(Ok, db.(
        stock := db.stock[note.product := db.stock[note.product] + note.quantity],
        notes := db.notes[id := note.(approved := true)],
        ledger := db.ledger + [Entry(note.product, note.quantity, Return, ReturnRef(id))]))
  }

  function ServeWriteOff(db: Store, product: nat, amount: int): Outcome
    requires WellFormed(db)
  {
    if amount < 1 then Outcome(BadRequest, db)
    else if product >= |db.active| || !db.active[product] then Outcome(BadRequest, db)
    else if db.stock[product] < amount then Outcome(Conflict, db)
    else Outcome(Ok, db.(
      stock := db.stock[product := db.stock[product] - amount],
      ledger := db.ledger + [Entry(product, amount, Damage, NoRef)]))
  }

  /** One endpoint call, run alone; `items` is the order in which the database returned the order's lines. */
  function Serve(db: Store, req: Request, items: seq<Line>): (r: Outcome)
    requires WellFormed(db)
    ensures WellFormed(r.store)
    ensures |r.store.stock| == |db.stock|
    ensures db.ledger <= r.store.ledger
  {
    match req
    case CreatePurchase(supplier, lines) =>
      if !PurchaseAccepted(db, supplier, lines) then Outcome(BadRequest, db)
      else Outcome(Created(|db.purchases|), db.(purchases := db.purchases + [PurchaseOrder(supplier, lines, false)]))
    case CreateSale(lines) =>
      if !LinesAccepted(lines, db.active) then Outcome(BadRequest, db)
      else Outcome(Created(|db.sales|), db.(sales := db.sales + [SalesOrder(lines, false)]))
    case Receive(id) => ServeReceive(db, id, items)
    case Complete(id) => ServeComplete(db, id, items)
    case FileReturn(sale, product, amount) =>
      assert sale < |db.sales| ==> Qty(db.sales[sale].lines, product) == 0 || product < |db.stock| by {
        if sale < |db.sales| {
          QtyBounds(db.sales[sale].lines, product);
          assert db.sales[sale] in db.sales;
        }
      }
      ServeFileReturn(db, sale, product, amount)
    case Approve(id) => ServeApprove(db, id)
    case WriteOff(product, amount) => ServeWriteOff(db, product, amount)
  }
}
