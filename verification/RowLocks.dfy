/**
 The endpoints as database transactions: each statement is one step, any number of transactions interleave,
 writes stay private until commit, and `select_for_update` rows stay locked until commit or rollback.
 */
module RowLocks {
  import opened Ledger
  import opened Endpoints
  import opened History

  datatype Row = PurchaseRow(id: nat) | SaleRow(id: nat) | NoteRow(id: nat) | ProductRow(id: nat)

  /** The one write a transaction makes outside product rows and the ledger. */
  datatype Mark =
    | NoMark
    | AddPurchase(supplier: nat, lines: seq<Line>)
    | AddSale(lines: seq<Line>)
    | AddNote(note: ReturnNote)
    | MarkReceived(id: nat)
    | MarkCompleted(id: nat)
    | MarkApproved(id: nat)

  /** A transaction's uncommitted writes. */
  datatype Writes = Writes(stock: map<nat, int>, rows: seq<Entry>, mark: Mark)

  const BLANK := Writes(map[], [], NoMark)

  datatype Phase =
    | Start
    | Opened                                                          // order or return row read, request still valid
    | Receiving(items: seq<Line>, i: nat)                             // the first `i` lines are saved
    | Holding(items: seq<Line>, i: nat, value: int)                   // the product of line `i` is read
    | Checking(items: seq<Line>, copies: seq<int>)                    // a product copy per checked line
    | Deducting(items: seq<Line>, copies: seq<int>, i: nat)           // the first `i` copies are saved
    | Counted(sold: int)                                              // the sold quantity is read
    | Read(product: nat, value: int)                                  // the one product is read
    | Written(items: seq<Line>)                                       // nothing left but the commit
    | Refused(items: seq<Line>, reply: Reply)                         // answer decided, nothing written
    | Done(reply: Reply)
    | Crashed

  datatype Txn = Txn(req: Request, phase: Phase, held: set<Row>, writes: Writes)

  /** The committed store, the transactions, and the answers in the order they were given. */
  datatype System = System(db: Store, txns: seq<Txn>, log: seq<Event>)

  /** A transaction takes its next step, seeing `fetched` if that step reads order lines, or rolls back. */
  datatype Action = Go(tid: nat, fetched: seq<Line>) | Crash(tid: nat)

  predicate Finished(t: Txn) {
    t.phase.Done? || t.phase.Crashed?
  }

  function StockOf(db: Store, p: nat): int {
    if p < |db.stock| then db.stock[p] else 0
  }

  /** A locking read sees the transaction's own earlier write, else the latest committed value. */
  function StockSeen(db: Store, writes: Writes, p: nat): int {
    if p in writes.stock then writes.stock[p] else StockOf(db, p)
  }

  /** The row the next step must lock. With the switch off `complete` reads without locks, and it is the UPDATE of each
      product and of the order that locks the row; everywhere else the row of an UPDATE is locked already. */
  function Wants(db: Store, t: Txn, locking: bool): set<Row> {
    match (t.req, t.phase)
    case (Receive(id), Start) => if id < |db.purchases| then {PurchaseRow(id)} else {}
    case (Receive(_), Receiving(items, i)) => if i < |items| then {ProductRow(items[i].product)} else {}
    case (Complete(id), Start) => if locking && id < |db.sales| then {SaleRow(id)} else {}
    case (Complete(_), Checking(items, copies)) =>
      if locking && |copies| < |items| then {ProductRow(items[|copies|].product)} else {}
    case (Complete(id), Deducting(items, _, i)) =>
      if locking then {} else if i < |items| then {ProductRow(items[i].product)} else {SaleRow(id)}
    case (FileReturn(sale, _, _), Start) => if sale < |db.sales| then {SaleRow(sale)} else {}
    case (Approve(id), Start) => if id < |db.notes| then {NoteRow(id)} else {}
    case (Approve(id), Opened) => if id < |db.notes| then {ProductRow(db.notes[id].product)} else {}
    case (WriteOff(product, amount), Start) =>
      if amount >= 1 && product < |db.active| && db.active[product] then {ProductRow(product)} else {}
    case _ => {}
  }

  function Save(t: Txn, line: Line, value: int, kind: Kind, ref: Ref, phase: Phase): Txn {
    t.(
    phase := phase,
    writes := t.writes.(
      stock := t.writes.stock[line.product := value],
      rows := t.writes.rows + [Entry(line.product, line.quantity, kind, ref)]))
  }

  function AdvanceReceive(db: Store, t: Txn, id: nat, fetched: seq<Line>): Txn {
    match t.phase
    case Start =>
      if id >= |db.purchases| then t.(phase := Done(Missing))
      else if db.purchases[id].received then t.(phase := Refused([], Conflict))
      else t.(phase := Opened)
    case Opened => t.(phase := Receiving(fetched, 0))
    case Receiving(items, i) =>
      if i < |items| then t.(phase := Holding(items, i, StockSeen(db, t.writes, items[i].product)))
      else t.(phase := Written(items), writes := t.writes.(mark := MarkReceived(id)))
    case Holding(items, i, value) =>
      if i < |items| then
        Save(t, items[i], value + items[i].quantity, Purchase, PurchaseRef(id), Receiving(items, i + 1))
      else t
    case _ => t
  }

  function AdvanceComplete(db: Store, t: Txn, id: nat, fetched: seq<Line>): Txn {
    match t.phase
    case Start =>
      if id >= |db.sales| then t.(phase := Done(Missing))
      else if db.sales[id].completed then t.(phase := Refused([], Conflict))
      else t.(phase := Opened)
    case Opened => t.(phase := Checking(fetched, []))
    case Checking(items, copies) =>
      if |copies| < |items| then
        var line := items[|copies|];
        var value := StockSeen(db, t.writes, line.product);
        if value < line.quantity then t.(phase := Refused(items, Conflict))
        else t.(phase := Checking(items, copies + [value]))
      else t.(phase := Deducting(items, copies, 0))
    case Deducting(items, copies, i) =>
      if i < |items| && i < |copies| then
        Save(t, items[i], copies[i] - items[i].quantity, Sale, SaleRef(id), Deducting(items, copies, i + 1))
      else t.(phase := Written(items), writes := t.writes.(mark := MarkCompleted(id)))
    case _ => t
  }

  function AdvanceFileReturn(db: Store, t: Txn, sale: nat, product: nat, amount: int): Txn {
    match t.phase
    case Start =>
      if sale >= |db.sales| then t.(phase := Done(Missing))
      else if !db.sales[sale].completed then t.(phase := Refused([], BadRequest))
      else t.(phase := Opened)
    case Opened =>
      var sold := if sale < |db.sales| then Qty(db.sales[sale].lines, product) else 0;
      if sold == 0 then t.(phase := Refused([], BadRequest)) else t.(phase := Counted(sold))
    case Counted(sold) =>
      if amount > sold - Reserved(db.notes, sale, product) then t.(phase := Refused([], BadRequest))
      else if amount < 0 then t.(phase := Refused([], Rejected))
      else t.(
        phase := Written([]),
        writes := t.writes.(mark := AddNote(ReturnNote(sale, product, amount, false))))
    case _ => t
  }

  function AdvanceApprove(db: Store, t: Txn, id: nat): Txn {
    match t.phase
    case Start =>
      if id >= |db.notes| then t.(phase := Done(Missing))
      else if db.notes[id].approved then t.(phase := Refused([], Conflict))
      else t.(phase := Opened)
    case Opened =>
      if id < |db.notes| then
        t.(phase := Read(db.notes[id].product, StockSeen(db, t.writes, db.notes[id].product)))
      else t
    case Read(product, value) =>
      if id < |db.notes| then
        var line := Line(product, db.notes[id].quantity);
        var saved := Save(t, line, value + line.quantity, Return, ReturnRef(id), Written([]));
        saved.(writes := saved.writes.(mark := MarkApproved(id)))
      else t
    case _ => t
  }

  function AdvanceWriteOff(db: Store, t: Txn, product: nat, amount: int): Txn {
    match t.phase
    case Start =>
      if amount < 1 || product >= |db.active| || !db.active[product] then t.(phase := Done(BadRequest))
      else
        var value := StockSeen(db, t.writes, product);
        if value < amount then t.(phase := Refused([], Conflict)) else t.(phase := Read(product, value))
    case Read(_, value) =>
      if amount >= 1 then Save(t, Line(product, amount), value - amount, Damage, NoRef, Written([])) else t
    case _ => t
  }

  function AdvanceCreate(db: Store, t: Txn, accepted: bool, mark: Mark): Txn {
    if t.phase.Start? then
      if !accepted then t.(phase := Done(BadRequest))
      else t.(phase := Written([]), writes := t.writes.(mark := mark))
    else t
  }

  /** The new order or return gets the next number when it is committed. */
  function CommitReply(db: Store, mark: Mark): Reply {
    match mark
    case AddPurchase(_, _) => Created(|db.purchases|)
    case AddSale(_) => Created(|db.sales|)
    case AddNote(_) => Created(|db.notes|)
    case _ => Ok
  }

  /** The next statement of a transaction, as a change of its private state. */
  function Advance(db: Store, t: Txn, fetched: seq<Line>): Txn {
    match t.phase
    case Written(_) => t.(phase := Done(CommitReply(db, t.writes.mark)))
    case Refused(_, reply) => t.(phase := Done(reply))
    case _ =>
      match t.req
      case CreatePurchase(supplier, lines) =>
        AdvanceCreate(db, t, PurchaseAccepted(db, supplier, lines), AddPurchase(supplier, lines))
      case CreateSale(lines) => AdvanceCreate(db, t, LinesAccepted(lines, db.active), AddSale(lines))
      case Receive(id) => AdvanceReceive(db, t, id, fetched)
      case Complete(id) => AdvanceComplete(db, t, id, fetched)
      case FileReturn(sale, product, amount) => AdvanceFileReturn(db, t, sale, product, amount)
      case Approve(id) => AdvanceApprove(db, t, id)
      case WriteOff(product, amount) => AdvanceWriteOff(db, t, product, amount)
  }

  function Applied(db: Store, mark: Mark): Store {
    match mark
    case NoMark => db
    case AddPurchase(supplier, lines) => db.(purchases := db.purchases + [PurchaseOrder(supplier, lines, false)])
    case AddSale(lines) => db.(sales := db.sales + [SalesOrder(lines, false)])
    case AddNote(note) => db.(notes := db.notes + [note])
    case MarkReceived(id) =>
      if id < |db.purchases| then db.(purchases := db.purchases[id := db.purchases[id].(received := true)]) else db
    case MarkCompleted(id) =>
      if id < |db.sales| then db.(sales := db.sales[id := db.sales[id].(completed := true)]) else db
    case MarkApproved(id) =>
      if id < |db.notes| then db.(notes := db.notes[id := db.notes[id].(approved := true)]) else db
  }

  function Overwritten(stock: seq<int>, writes: map<nat, int>): seq<int> {
    seq(|stock|, p requires 0 <= p < |stock| => if p in writes then writes[p] else stock[p])
  }

  /** Commit: the private writes replace the committed rows. */
  function Apply(db: Store, writes: Writes): Store {
    Applied(db, writes.mark).(stock := Overwritten(db.stock, writes.stock), ledger := db.ledger + writes.rows)
  }

  function ItemsOf(phase: Phase): seq<Line> {
    if phase.Written? || phase.Refused? then phase.items else []
  }

  /** The order lines a fetching step reads. */
  predicate FetchOk(db: Store, t: Txn, fetched: seq<Line>)
  {
    match (t.req, t.phase)
    case (Receive(id), Opened) =>
      id < |db.purchases| && multiset(fetched) == multiset(db.purchases[id].lines) && InProductOrder(fetched)
    case (Complete(id), Opened) =>
      id < |db.sales| && multiset(fetched) == multiset(db.sales[id].lines) && InProductOrder(fetched)
    case _ => true
  }

  predicate Unlocked(s: System, tid: nat, rows: set<Row>) {
    forall u :: 0 <= u < |s.txns| && u != tid ==> s.txns[u].held !! rows
  }

  predicate Enabled(s: System, a: Action, locking: bool) {
    && a.tid < |s.txns| && !Finished(s.txns[a.tid])
    && (a.Go? ==>
          && Unlocked(s, a.tid, Wants(s.db, s.txns[a.tid], locking))
          && FetchOk(s.db, s.txns[a.tid], a.fetched))
  }

  function Next(s: System, a: Action, locking: bool): System
    requires a.tid < |s.txns|
  {
    var t := s.txns[a.tid];
    if a.Crash? then
      s.(txns := s.txns[a.tid := Txn(t.req, Crashed, {}, BLANK)])
    else
      var moved := Advance(s.db, t, a.fetched);
      if moved.phase.Done? then
        System(
          if t.phase.Written? then Apply(s.db, t.writes) else s.db,
          s.txns[a.tid := Txn(t.req, moved.phase, {}, BLANK)],
          s.log + [Event(a.tid, t.req, ItemsOf(t.phase), moved.phase.reply)])
      else
        s.(txns := s.txns[a.tid := moved.(held := t.held + Wants(s.db, t, locking))])
  }

  /** Any unfinished transaction can roll back: nothing of it is left but its request, and it holds no row. */
  lemma RollsBack(s: System, tid: nat, locking: bool)
    requires tid < |s.txns| && !Finished(s.txns[tid])
    ensures Enabled(s, Crash(tid), locking)
    ensures var after := Next(s, Crash(tid), locking);
            && after.db == s.db && after.log == s.log && |after.txns| == |s.txns|
            && after.txns[tid].held == {} && Finished(after.txns[tid])
            && forall t :: 0 <= t < |s.txns| && t != tid ==> after.txns[t] == s.txns[t]
  {
  }

  /** `s` is reached from `s0` by the actions of `run`, each enabled when it is taken. */
  ghost predicate Reaches(s0: System, run: seq<Action>, s: System, locking: bool) {
    if run == [] then s == s0
    else
      var last := run[|run| - 1];
      exists prev: System ::
        Reaches(s0, run[..|run| - 1], prev, locking) && Enabled(prev, last, locking) && s == Next(prev, last, locking)
  }

  lemma ReachesSnoc(s0: System, run: seq<Action>, s: System, a: Action, locking: bool)
    requires Reaches(s0, run, s, locking) && Enabled(s, a, locking)
    ensures Reaches(s0, run + [a], Next(s, a, locking), locking)
  {
    var longer := run + [a];
    assert longer[..|longer| - 1] == run && longer[|longer| - 1] == a;
    assert Reaches(s0, longer[..|longer| - 1], s, locking);
  }

  /** Any requests against any well-formed store, none of them started. */
  ghost predicate Init(s: System) {
    && WellFormed(s.db) && s.log == []
    && forall t <- s.txns :: t.phase.Start? && t.held == {} && t.writes == BLANK
  }

  lemma AnyRequestsCanStart(db: Store, reqs: seq<Request>)
    requires WellFormed(db)
    ensures Init(System(db, seq(|reqs|, t requires 0 <= t < |reqs| => Txn(reqs[t], Start, {}, BLANK)), []))
  {
  }
}
