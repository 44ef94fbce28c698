/** Any interleaving of locked transactions is a serial run of the endpoints, in the order of their answers. */
module Serializability {
  import opened Sums
  import opened Ledger
  import opened Endpoints
  import opened History
  import opened RowLocks

  /******* What a transaction has done so far, in terms of the committed store *******/

  predicate OpenPurchase(db: Store, id: nat) {
    id < |db.purchases| && !db.purchases[id].received
  }

  predicate OpenSale(db: Store, id: nat) {
    id < |db.sales| && !db.sales[id].completed
  }

  function ProductRows(items: seq<Line>): set<Row> {
    set line <- items :: ProductRow(line.product)
  }

  /** The private writes of a receive that has saved `items`. */
  function ReceiveWrites(db: Store, id: nat, items: seq<Line>): Writes {
    Writes(
      map p | p in Products(items) :: StockOf(db, p) + Qty(items, p),
      Rows(items, Purchase, PurchaseRef(id)),
      NoMark)
  }

  /** The private writes of a complete that has saved `items`, each from its own copy. */
  function CompleteWrites(db: Store, id: nat, items: seq<Line>): Writes {
    Writes(map p | p in Products(items) :: StockOf(db, p) - LastQty(items, p), Rows(items, Sale, SaleRef(id)), NoMark)
  }

  ghost predicate AgreesReceive(db: Store, t: Txn, id: nat) {
    match t.phase
    case Opened => OpenPurchase(db, id) && t.held == {PurchaseRow(id)} && t.writes == BLANK
    case Receiving(items, i) =>
      && OpenPurchase(db, id) && OrderedBy(items, db.purchases[id].lines) && i <= |items|
      && t.held == {PurchaseRow(id)} + ProductRows(items[..i])
      && t.writes == ReceiveWrites(db, id, items[..i])
    case Holding(items, i, value) =>
      && OpenPurchase(db, id) && OrderedBy(items, db.purchases[id].lines) && i < |items|
      && t.held == {PurchaseRow(id)} + ProductRows(items[..i + 1])
      && t.writes == ReceiveWrites(db, id, items[..i])
      && value == StockOf(db, items[i].product) + Qty(items[..i], items[i].product)
    case Written(items) =>
      && OpenPurchase(db, id) && OrderedBy(items, db.purchases[id].lines)
      && t.held == {PurchaseRow(id)} + ProductRows(items)
      && t.writes == ReceiveWrites(db, id, items).(mark := MarkReceived(id))
    case Refused(items, reply) =>
      id < |db.purchases| && db.purchases[id].received && t.held == {PurchaseRow(id)} && reply == Conflict
    case _ => false
  }

  ghost predicate CopiesOk(db: Store, items: seq<Line>, copies: seq<int>) {
    && |copies| <= |items|
    && forall k :: 0 <= k < |copies| ==> items[k].quantity <= copies[k] == StockOf(db, items[k].product)
  }

  /** The line at `k` asks for more than there is, and its product is locked. */
  ghost predicate ShortAt(db: Store, t: Txn, items: seq<Line>, k: nat) {
    k < |items| && ProductRow(items[k].product) in t.held && StockOf(db, items[k].product) < items[k].quantity
  }

  ghost predicate AgreesComplete(db: Store, t: Txn, id: nat) {
    match t.phase
    case Opened => OpenSale(db, id) && t.held == {SaleRow(id)} && t.writes == BLANK
    case Checking(items, copies) =>
      && OpenSale(db, id) && OrderedBy(items, db.sales[id].lines) && CopiesOk(db, items, copies)
      && t.held == {SaleRow(id)} + ProductRows(items[..|copies|])
      && t.writes == BLANK
    case Deducting(items, copies, i) =>
      && OpenSale(db, id) && OrderedBy(items, db.sales[id].lines) && CopiesOk(db, items, copies)
      && i <= |items| == |copies|
      && t.held == {SaleRow(id)} + ProductRows(items)
      && t.writes == CompleteWrites(db, id, items[..i])
    case Written(items) =>
      && OpenSale(db, id) && OrderedBy(items, db.sales[id].lines) && CanFulfil(db.stock, items)
      && t.held == {SaleRow(id)} + ProductRows(items)
      && t.writes == CompleteWrites(db, id, items).(mark := MarkCompleted(id))
    case Refused(items, reply) =>
      && reply == Conflict && id < |db.sales| && SaleRow(id) in t.held
      && (db.sales[id].completed || (OrderedBy(items, db.sales[id].lines) && exists k: nat :: ShortAt(db, t, items, k)))
    case _ => false
  }

  ghost predicate AgreesFileReturn(db: Store, t: Txn, sale: nat, product: nat, amount: int) {
    && sale < |db.sales| && t.held == {SaleRow(sale)}
    && var sold := Qty(db.sales[sale].lines, product);
       match t.phase
       case Opened => db.sales[sale].completed && t.writes == BLANK
       case Counted(n) => db.sales[sale].completed && n == sold && n != 0 && t.writes == BLANK
       case Written(items) =>
         && db.sales[sale].completed && sold != 0 && items == []
         && 0 <= amount <= sold - Reserved(db.notes, sale, product)
         && t.writes == BLANK.(mark := AddNote(ReturnNote(sale, product, amount, false)))
       case Refused(items, reply) =>
         if !db.sales[sale].completed || sold == 0 || amount > sold - Reserved(db.notes, sale, product)
         then reply == BadRequest
         else reply == Rejected && amount < 0
       case _ => false
  }

  ghost predicate AgreesApprove(db: Store, t: Txn, id: nat) {
    && id < |db.notes| && NoteRow(id) in t.held
    && var note := db.notes[id];
       match t.phase
       case Opened => !note.approved && t.held == {NoteRow(id)} && t.writes == BLANK
       case Read(p, value) =>
         && !note.approved && p == note.product && value == StockOf(db, p)
         && t.held == {NoteRow(id), ProductRow(p)} && t.writes == BLANK
       case Written(items) =>
         && !note.approved && items == [] && t.held == {NoteRow(id), ProductRow(note.product)}
         && t.writes == Writes(
            map[note.product := StockOf(db, note.product) + note.quantity],
            [Entry(note.product, note.quantity, Return, ReturnRef(id))],
            MarkApproved(id))
       case Refused(items, reply) => note.approved && reply == Conflict
       case _ => false
  }

  ghost predicate AgreesWriteOff(db: Store, t: Txn, product: nat, amount: int) {
    && amount >= 1 && product < |db.active| && db.active[product] && t.held == {ProductRow(product)}
    && match t.phase
       case Read(p, value) => p == product && amount <= value == StockOf(db, p) && t.writes == BLANK
       case Written(items) =>
         && items == [] && amount <= StockOf(db, product)
         && t.writes == Writes(
            map[product := StockOf(db, product) - amount], [Entry(product, amount, Damage, NoRef)], NoMark)
       case Refused(items, reply) => StockOf(db, product) < amount && reply == Conflict
       case _ => false
  }

  ghost predicate AgreesCreate(db: Store, t: Txn, accepted: bool, mark: Mark) {
    t.phase == Written([]) && accepted && t.held == {} && t.writes == BLANK.(mark := mark)
  }

  ghost predicate Agrees(db: Store, t: Txn) {
    if t.phase.Start? || Finished(t) then t.held == {} && t.writes == BLANK
    else
      match t.req
      case CreatePurchase(supplier, lines) =>
        AgreesCreate(db, t, PurchaseAccepted(db, supplier, lines), AddPurchase(supplier, lines))
      case CreateSale(lines) => AgreesCreate(db, t, LinesAccepted(lines, db.active), AddSale(lines))
      case Receive(id) => AgreesReceive(db, t, id)
      case Complete(id) => AgreesComplete(db, t, id)
      case FileReturn(sale, product, amount) => AgreesFileReturn(db, t, sale, product, amount)
      case Approve(id) => AgreesApprove(db, t, id)
      case WriteOff(product, amount) => AgreesWriteOff(db, t, product, amount)
  }

  /******* Answers are those of the endpoint run alone on the committed store *******/

  lemma ItemsInRange(db: Store, lines: seq<Line>, items: seq<Line>)
    requires LinesFit(lines, |db.stock|) && multiset(items) == multiset(lines)
    ensures forall line <- items :: line.product < |db.stock|
  {
    MembersPermuted(items, lines);
  }

  lemma CommitReceive(db: Store, t: Txn, id: nat)
    requires WellFormed(db) && AgreesReceive(db, t, id) && t.phase.Written?
    ensures Fetched(db, Receive(id), t.phase.items)
    ensures ServeReceive(db, id, t.phase.items) == Outcome(Ok, Apply(db, t.writes))
  {
    var items := t.phase.items;
    forall p: nat | p < |db.stock| && p !in Products(items) ensures Qty(items, p) == 0 {
      QtyBounds(items, p);
    }
    assert Overwritten(db.stock, t.writes.stock) == Restocked(db.stock, items);
  }

  lemma CommitComplete(db: Store, t: Txn, id: nat)
    requires WellFormed(db) && AgreesComplete(db, t, id) && t.phase.Written?
    ensures Fetched(db, Complete(id), t.phase.items)
    ensures ServeComplete(db, id, t.phase.items) == Outcome(Ok, Apply(db, t.writes))
  {
    var items := t.phase.items;
    forall p: nat | p < |db.stock| && p !in Products(items) ensures LastQty(items, p) == 0 {
      QtyBounds(items, p);
    }
    assert Overwritten(db.stock, t.writes.stock) == Deducted(db.stock, items);
  }

  lemma CommitFileReturn(db: Store, t: Txn, sale: nat, product: nat, amount: int)
    requires WellFormed(db) && AgreesFileReturn(db, t, sale, product, amount) && t.phase.Written?
    ensures ServeFileReturn(db, sale, product, amount) == Outcome(Created(|db.notes|), Apply(db, t.writes))
  {
    assert Overwritten(db.stock, t.writes.stock) == db.stock;
  }

  lemma CommitApprove(db: Store, t: Txn, id: nat)
    requires WellFormed(db) && AgreesApprove(db, t, id) && t.phase.Written?
    ensures ServeApprove(db, id) == Outcome(Ok, Apply(db, t.writes))
  {
    var note := db.notes[id];
    assert note in db.notes;
    assert Overwritten(db.stock, t.writes.stock) == db.stock[note.product := db.stock[note.product] + note.quantity];
  }

  lemma CommitWriteOff(db: Store, t: Txn, product: nat, amount: int)
    requires WellFormed(db) && AgreesWriteOff(db, t, product, amount) && t.phase.Written?
    ensures ServeWriteOff(db, product, amount) == Outcome(Ok, Apply(db, t.writes))
  {
    assert Overwritten(db.stock, t.writes.stock) == db.stock[product := db.stock[product] - amount];
    assert Applied(db, t.writes.mark) == db;
  }

  lemma CommitCreate(db: Store, t: Txn)
    requires t.req.CreatePurchase? || t.req.CreateSale?
    requires WellFormed(db) && Agrees(db, t) && t.phase.Written?
    ensures Serve(db, t.req, []) == Outcome(CommitReply(db, t.writes.mark), Apply(db, t.writes))
  {
    assert Overwritten(db.stock, map[]) == db.stock;
  }

  /** Committing a finished transaction is one atomic call on the store it commits to. */
  lemma CommitIsServe(db: Store, t: Txn)
    requires WellFormed(db) && Agrees(db, t) && t.phase.Written?
    ensures Fetched(db, t.req, t.phase.items)
    ensures Serve(db, t.req, t.phase.items) == Outcome(CommitReply(db, t.writes.mark), Apply(db, t.writes))
  {
    match t.req
    case CreatePurchase(_, _) => CommitCreate(db, t);
    case CreateSale(_) => CommitCreate(db, t);
    case Receive(id) => CommitReceive(db, t, id);
    case Complete(id) => CommitComplete(db, t, id);
    case FileReturn(sale, product, amount) => CommitFileReturn(db, t, sale, product, amount);
    case Approve(id) => CommitApprove(db, t, id);
    case WriteOff(product, amount) => CommitWriteOff(db, t, product, amount);
  }

  lemma RefuseComplete(db: Store, t: Txn, id: nat)
    requires WellFormed(db) && AgreesComplete(db, t, id) && t.phase.Refused?
    ensures Fetched(db, Complete(id), t.phase.items)
    ensures ServeComplete(db, id, t.phase.items) == Outcome(t.phase.reply, db)
  {
    var items := t.phase.items;
    if !db.sales[id].completed {
      var k: nat :| ShortAt(db, t, items, k);
      assert items[k] in items;
      assert db.sales[id] in db.sales;
      ItemsInRange(db, db.sales[id].lines, items);
    }
  }

  /** A refusal decided under locks is still the right answer when it is given. */
  lemma RefusalIsServe(db: Store, t: Txn)
    requires WellFormed(db) && Agrees(db, t) && t.phase.Refused?
    ensures Fetched(db, t.req, t.phase.items)
    ensures Serve(db, t.req, t.phase.items) == Outcome(t.phase.reply, db)
  {
    match t.req
    case Complete(id) => RefuseComplete(db, t, id);
    case _ =>
  }

  /** A first step that already answers gives the endpoint's answer. */
  lemma ExitIsServe(db: Store, t: Txn, fetched: seq<Line>)
    requires WellFormed(db) && t.phase.Start? && Advance(db, t, fetched).phase.Done?
    ensures Fetched(db, t.req, [])
    ensures Serve(db, t.req, []) == Outcome(Advance(db, t, fetched).phase.reply, db)
  {
  }

  /******* A transaction's own steps *******/

  function Moved(db: Store, t: Txn, fetched: seq<Line>): Txn {
    Advance(db, t, fetched).(held := t.held + Wants(db, t, true))
  }

  lemma ProductRowsSnoc(items: seq<Line>, i: nat)
    requires i < |items|
    ensures ProductRows(items[..i + 1]) == ProductRows(items[..i]) + {ProductRow(items[i].product)}
    ensures Products(items[..i + 1]) == Products(items[..i]) + {items[i].product}
  {
    PrefixSnoc(items, i);
  }

  lemma ReceiveStockMore(db: Store, id: nat, done: seq<Line>, line: Line)
    ensures var p := line.product;
            ReceiveWrites(db, id, done + [line]).stock
            == ReceiveWrites(db, id, done).stock[p := StockOf(db, p) + Qty(done, p) + line.quantity]
  {
    var p, was, grown := line.product, ReceiveWrites(db, id, done).stock, ReceiveWrites(db, id, done + [line]).stock;
    var saved := was[p := StockOf(db, p) + Qty(done, p) + line.quantity];
    assert grown.Keys == saved.Keys by {
      assert Products(done + [line]) == Products(done) + {p};
    }
    forall q | q in grown.Keys ensures grown[q] == saved[q] {
      SumSnoc(OfProduct(q), done, line);
    }
  }

  lemma ReceiveStockGrows(db: Store, id: nat, items: seq<Line>, i: nat)
    requires i < |items|
    ensures var p := items[i].product;
            ReceiveWrites(db, id, items[..i + 1]).stock
            == ReceiveWrites(db, id, items[..i]).stock[p := StockOf(db, p) + Qty(items[..i], p) + items[i].quantity]
  {
    PrefixSnoc(items, i);
    ReceiveStockMore(db, id, items[..i], items[i]);
  }

  lemma ReceiveWritesGrow(db: Store, t: Txn, id: nat, items: seq<Line>, i: nat, value: int)
    requires i < |items| && t.writes == ReceiveWrites(db, id, items[..i])
    requires value == StockOf(db, items[i].product) + Qty(items[..i], items[i].product)
    ensures Save(t, items[i], value + items[i].quantity, Purchase, PurchaseRef(id), Receiving(items, i + 1))
         == t.(phase := Receiving(items, i + 1), writes := ReceiveWrites(db, id, items[..i + 1]))
  {
    ReceiveStockGrows(db, id, items, i);
    RowsSnoc(items, i, Purchase, PurchaseRef(id));
  }

  lemma ReceiveInUse(db: Store, t: Txn, id: nat, items: seq<Line>, i: nat, value: int)
    requires AgreesReceive(db, t, id) && t.phase == Holding(items, i, value)
    ensures i < |items| && t.writes == ReceiveWrites(db, id, items[..i])
    ensures value == StockOf(db, items[i].product) + Qty(items[..i], items[i].product)
  {
  }

  lemma ReceiveGoesOn(db: Store, t: Txn, id: nat, items: seq<Line>, i: nat, value: int, u: Txn)
    requires AgreesReceive(db, t, id) && t.phase == Holding(items, i, value)
    requires u == t.(phase := Receiving(items, i + 1), writes := ReceiveWrites(db, id, items[..i + 1]))
    ensures AgreesReceive(db, u, id)
  {
  }

  lemma ReceiveAdds(db: Store, t: Txn, id: nat, items: seq<Line>, i: nat, value: int, u: Txn)
    requires AgreesReceive(db, t, id) && t.phase == Holding(items, i, value) && i < |items|
    requires u == Save(t, items[i], value + items[i].quantity, Purchase, PurchaseRef(id), Receiving(items, i + 1))
    ensures u == t.(phase := Receiving(items, i + 1), writes := ReceiveWrites(db, id, items[..i + 1]))
  {
    ReceiveInUse(db, t, id, items, i, value);
    ReceiveWritesGrow(db, t, id, items, i, value);
  }

  lemma ReceiveFetches(db: Store, t: Txn, id: nat, items: seq<Line>)
    requires OpenPurchase(db, id) && OrderedBy(items, db.purchases[id].lines)
    requires t.held == {PurchaseRow(id)} && t.writes == BLANK && t.phase == Receiving(items, 0)
    ensures AgreesReceive(db, t, id)
  {
    assert items[..0] == [];
  }

  lemma ReceiveReads(db: Store, t: Txn, id: nat, items: seq<Line>, i: nat)
    requires AgreesReceive(db, t, id) && t.phase == Receiving(items, i) && i < |items|
    ensures var p := items[i].product;
            AgreesReceive(db,
              t.(phase := Holding(items, i, StockSeen(db, t.writes, p)), held := t.held + {ProductRow(p)}), id)
  {
    ProductRowsSnoc(items, i);
    QtyBounds(items[..i], items[i].product);
  }

  lemma ReceiveCloses(db: Store, t: Txn, id: nat, items: seq<Line>)
    requires AgreesReceive(db, t, id) && t.phase == Receiving(items, |items|)
    ensures AgreesReceive(db, t.(phase := Written(items), writes := t.writes.(mark := MarkReceived(id))), id)
  {
    assert items[..|items|] == items;
  }

  function ReceiveMoved(db: Store, t: Txn, id: nat, fetched: seq<Line>): Txn {
    AdvanceReceive(db, t, id, fetched).(held := t.held + Wants(db, t, true))
  }

  lemma ReceiveMovedSaves(db: Store, t: Txn, id: nat, fetched: seq<Line>, items: seq<Line>, i: nat, value: int)
    requires t.req == Receive(id) && t.phase == Holding(items, i, value) && i < |items|
    ensures ReceiveMoved(db, t, id, fetched)
         == Save(t, items[i], value + items[i].quantity, Purchase, PurchaseRef(id), Receiving(items, i + 1))
  {
    assert t.held + {} == t.held;
  }

  lemma ReceiveSaveStep(db: Store, t: Txn, id: nat, fetched: seq<Line>)
    requires AgreesReceive(db, t, id) && t.req == Receive(id) && t.phase.Holding?
    ensures AgreesReceive(db, ReceiveMoved(db, t, id, fetched), id)
  {
    var items, i, value, u := t.phase.items, t.phase.i, t.phase.value, ReceiveMoved(db, t, id, fetched);
    ReceiveInUse(db, t, id, items, i, value);
    ReceiveMovedSaves(db, t, id, fetched, items, i, value);
    ReceiveAdds(db, t, id, items, i, value, u);
    ReceiveGoesOn(db, t, id, items, i, value, u);
  }

  lemma ReceiveLoopStep(db: Store, t: Txn, id: nat, fetched: seq<Line>)
    requires AgreesReceive(db, t, id) && t.req == Receive(id) && t.phase.Receiving?
    ensures AgreesReceive(db, ReceiveMoved(db, t, id, fetched), id)
  {
    var items, i := t.phase.items, t.phase.i;
    if i < |items| {
      ReceiveReads(db, t, id, items, i);
    } else {
      ReceiveCloses(db, t, id, items);
      assert t.held + {} == t.held;
      assert ReceiveMoved(db, t, id, fetched)
          == t.(phase := Written(items), writes := t.writes.(mark := MarkReceived(id)));
    }
  }

  lemma ReceiveStep(db: Store, t: Txn, id: nat, fetched: seq<Line>)
    requires AgreesReceive(db, t, id) && t.req == Receive(id) && !Finished(t) && FetchOk(db, t, fetched)
    requires !t.phase.Written? && !t.phase.Refused?
    ensures AgreesReceive(db, ReceiveMoved(db, t, id, fetched), id)
  {
    if t.phase.Opened? {
      assert ReceiveMoved(db, t, id, fetched).held == t.held;
      ReceiveFetches(db, ReceiveMoved(db, t, id, fetched), id, fetched);
    } else if t.phase.Receiving? {
      ReceiveLoopStep(db, t, id, fetched);
    } else {
      ReceiveSaveStep(db, t, id, fetched);
    }
  }

  lemma CompleteStockGrows(db: Store, id: nat, items: seq<Line>, i: nat)
    requires i < |items|
    ensures var p := items[i].product;
            CompleteWrites(db, id, items[..i + 1]).stock
            == CompleteWrites(db, id, items[..i]).stock[p := StockOf(db, p) - items[i].quantity]
  {
    ProductRowsSnoc(items, i);
    assert items[..i + 1][..i] == items[..i];
  }

  lemma CompleteWritesGrow(db: Store, t: Txn, id: nat, items: seq<Line>, i: nat, value: int, phase: Phase)
    requires i < |items| && t.writes == CompleteWrites(db, id, items[..i]) && value == StockOf(db, items[i].product)
    ensures Save(t, items[i], value - items[i].quantity, Sale, SaleRef(id), phase)
         == t.(phase := phase, writes := CompleteWrites(db, id, items[..i + 1]))
  {
    CompleteStockGrows(db, id, items, i);
    RowsSnoc(items, i, Sale, SaleRef(id));
  }

  lemma CompleteGoesOn(db: Store, t: Txn, id: nat, items: seq<Line>, copies: seq<int>, i: nat, u: Txn)
    requires AgreesComplete(db, t, id) && t.phase == Deducting(items, copies, i) && i < |items|
    requires u == t.(phase := Deducting(items, copies, i + 1), writes := CompleteWrites(db, id, items[..i + 1]))
    ensures AgreesComplete(db, u, id)
  {
  }

  lemma CopyInUse(db: Store, t: Txn, id: nat, items: seq<Line>, copies: seq<int>, i: nat)
    requires AgreesComplete(db, t, id) && t.phase == Deducting(items, copies, i) && i < |items|
    ensures copies[i] == StockOf(db, items[i].product) && t.writes == CompleteWrites(db, id, items[..i])
  {
  }

  lemma CompleteCloses(db: Store, t: Txn, id: nat, items: seq<Line>, copies: seq<int>)
    requires WellFormed(db) && AgreesComplete(db, t, id) && t.phase == Deducting(items, copies, |items|)
    ensures AgreesComplete(db, t.(phase := Written(items), writes := t.writes.(mark := MarkCompleted(id))), id)
  {
    assert items[..|items|] == items;
    assert db.sales[id] in db.sales;
    ItemsInRange(db, db.sales[id].lines, items);
    forall line | line in items ensures line.quantity <= StockOf(db, line.product) {
      var k :| 0 <= k < |items| && items[k] == line;
    }
  }

  lemma CompleteFetches(db: Store, t: Txn, id: nat, items: seq<Line>)
    requires OpenSale(db, id) && OrderedBy(items, db.sales[id].lines)
    requires t.held == {SaleRow(id)} && t.writes == BLANK && t.phase == Checking(items, [])
    ensures AgreesComplete(db, t, id)
  {
    assert items[..0] == [];
  }

  function CompleteMoved(db: Store, t: Txn, id: nat, fetched: seq<Line>): Txn {
    AdvanceComplete(db, t, id, fetched).(held := t.held + Wants(db, t, true))
  }

  lemma CompleteMovedSaves(db: Store, t: Txn, id: nat, fetched: seq<Line>, items: seq<Line>, copies: seq<int>, i: nat)
    requires t.req == Complete(id) && t.phase == Deducting(items, copies, i) && i < |items| == |copies|
    ensures CompleteMoved(db, t, id, fetched)
         == Save(t, items[i], copies[i] - items[i].quantity, Sale, SaleRef(id), Deducting(items, copies, i + 1))
  {
    assert t.held + {} == t.held;
  }

  lemma CompleteMovedCloses(db: Store, t: Txn, id: nat, fetched: seq<Line>, items: seq<Line>, copies: seq<int>)
    requires t.req == Complete(id) && t.phase == Deducting(items, copies, |items|)
    ensures CompleteMoved(db, t, id, fetched)
         == t.(phase := Written(items), writes := t.writes.(mark := MarkCompleted(id)))
  {
    assert t.held + {} == t.held;
  }

  lemma CompleteDeducts(db: Store, t: Txn, id: nat, items: seq<Line>, copies: seq<int>, i: nat, u: Txn)
    requires AgreesComplete(db, t, id) && t.phase == Deducting(items, copies, i) && i < |items|
    requires u == Save(t, items[i], copies[i] - items[i].quantity, Sale, SaleRef(id), Deducting(items, copies, i + 1))
    ensures u == t.(phase := Deducting(items, copies, i + 1), writes := CompleteWrites(db, id, items[..i + 1]))
  {
    CopyInUse(db, t, id, items, copies, i);
    CompleteWritesGrow(db, t, id, items, i, copies[i], Deducting(items, copies, i + 1));
  }

  lemma CompleteSaveStep(db: Store, t: Txn, id: nat, fetched: seq<Line>)
    requires WellFormed(db) && AgreesComplete(db, t, id) && t.req == Complete(id) && t.phase.Deducting?
    ensures AgreesComplete(db, CompleteMoved(db, t, id, fetched), id)
  {
    var items, copies, i, u := t.phase.items, t.phase.copies, t.phase.i, CompleteMoved(db, t, id, fetched);
    if i < |items| {
      CompleteMovedSaves(db, t, id, fetched, items, copies, i);
      CompleteDeducts(db, t, id, items, copies, i, u);
      CompleteGoesOn(db, t, id, items, copies, i, u);
    } else {
      CompleteMovedCloses(db, t, id, fetched, items, copies);
      CompleteCloses(db, t, id, items, copies);
    }
  }

  lemma CheckDone(db: Store, t: Txn, id: nat, fetched: seq<Line>)
    requires AgreesComplete(db, t, id) && t.req == Complete(id)
    requires t.phase.Checking? && |t.phase.copies| == |t.phase.items|
    ensures AgreesComplete(db, CompleteMoved(db, t, id, fetched), id)
  {
    var items := t.phase.items;
    assert items[..|items|] == items;
    assert items[..0] == [];
    assert t.held + {} == t.held;
  }

  lemma CheckStep(db: Store, t: Txn, id: nat, fetched: seq<Line>)
    requires AgreesComplete(db, t, id) && t.req == Complete(id)
    requires t.phase.Checking? && |t.phase.copies| < |t.phase.items|
    ensures AgreesComplete(db, CompleteMoved(db, t, id, fetched), id)
  {
    var items, copies := t.phase.items, t.phase.copies;
    ProductRowsSnoc(items, |copies|);
    var moved := CompleteMoved(db, t, id, fetched);
    if moved.phase.Refused? {
      assert ShortAt(db, moved, items, |copies|);
    }
  }

  lemma CompleteStep(db: Store, t: Txn, id: nat, fetched: seq<Line>)
    requires WellFormed(db)
    requires AgreesComplete(db, t, id) && t.req == Complete(id) && !Finished(t) && FetchOk(db, t, fetched)
    requires !t.phase.Written? && !t.phase.Refused?
    ensures AgreesComplete(db, CompleteMoved(db, t, id, fetched), id)
  {
    if t.phase.Opened? {
      assert CompleteMoved(db, t, id, fetched).held == t.held;
      CompleteFetches(db, CompleteMoved(db, t, id, fetched), id, fetched);
    } else if t.phase.Deducting? {
      CompleteSaveStep(db, t, id, fetched);
    } else if |t.phase.copies| < |t.phase.items| {
      CheckStep(db, t, id, fetched);
    } else {
      CheckDone(db, t, id, fetched);
    }
  }

  lemma FirstStep(db: Store, t: Txn, fetched: seq<Line>)
    requires WellFormed(db) && Agrees(db, t) && t.phase.Start?
    requires !Advance(db, t, fetched).phase.Done?
    ensures Agrees(db, Moved(db, t, fetched))
  {
  }

  lemma OtherStep(db: Store, t: Txn, fetched: seq<Line>)
    requires WellFormed(db) && Agrees(db, t) && !Finished(t) && !t.phase.Start?
    requires !t.req.Receive? && !t.req.Complete?
    requires !t.phase.Written? && !t.phase.Refused?
    ensures Agrees(db, Moved(db, t, fetched))
  {
    assert t.held + {} == t.held;
    match t.req
    case FileReturn(sale, product, amount) => FileReturnStep(db, t, sale, product, amount);
    case Approve(id) => ApproveStep(db, t, id);
    case WriteOff(product, amount) => WriteOffStep(db, t, product, amount);
    case _ =>
  }

  lemma FileReturnStep(db: Store, t: Txn, sale: nat, product: nat, amount: int)
    requires AgreesFileReturn(db, t, sale, product, amount) && !t.phase.Written? && !t.phase.Refused?
    ensures AgreesFileReturn(db, AdvanceFileReturn(db, t, sale, product, amount), sale, product, amount)
  {
  }

  lemma ApproveStep(db: Store, t: Txn, id: nat)
    requires AgreesApprove(db, t, id) && t.req == Approve(id) && !t.phase.Written? && !t.phase.Refused?
    ensures AgreesApprove(db, AdvanceApprove(db, t, id).(held := t.held + Wants(db, t, true)), id)
  {
    assert t.held + {} == t.held;
  }

  lemma WriteOffStep(db: Store, t: Txn, product: nat, amount: int)
    requires AgreesWriteOff(db, t, product, amount) && t.phase.Read?
    ensures AgreesWriteOff(db, AdvanceWriteOff(db, t, product, amount), product, amount)
  {
  }

  lemma OwnStep(db: Store, t: Txn, fetched: seq<Line>)
    requires WellFormed(db) && Agrees(db, t) && !Finished(t) && FetchOk(db, t, fetched)
    requires !Advance(db, t, fetched).phase.Done?
    ensures Agrees(db, Moved(db, t, fetched))
  {
    if t.phase.Start? {
      FirstStep(db, t, fetched);
    } else if t.req.Receive? {
      ReceiveStep(db, t, t.req.id, fetched);
    } else if t.req.Complete? {
      CompleteStep(db, t, t.req.id, fetched);
    } else {
      OtherStep(db, t, fetched);
    }
  }

  /******* Other transactions' commits *******/

  /** `after` extends `before` and leaves the rows in `rows` as they are. */
  ghost predicate SameOn(before: Store, after: Store, rows: set<Row>) {
    && |after.stock| == |before.stock| && after.active == before.active && after.suppliers == before.suppliers
    && |before.purchases| <= |after.purchases| && |before.sales| <= |after.sales| && |before.notes| <= |after.notes|
    && (forall k :: 0 <= k < |before.purchases| ==> after.purchases[k].lines == before.purchases[k].lines)
    && (forall k :: 0 <= k < |before.sales| ==> after.sales[k].lines == before.sales[k].lines)
    && (forall k :: 0 <= k < |before.notes| ==> after.notes[k].(approved := true) == before.notes[k].(approved := true))
    && (forall k: nat | PurchaseRow(k) in rows :: k < |before.purchases| ==> after.purchases[k] == before.purchases[k])
    && (forall k: nat | SaleRow(k) in rows :: k < |before.sales| ==> after.sales[k] == before.sales[k])
    && (forall k: nat | NoteRow(k) in rows :: k < |before.notes| ==> after.notes[k] == before.notes[k])
    && (forall k: nat | ProductRow(k) in rows :: StockOf(after, k) == StockOf(before, k))
    && (forall k: nat, p: nat | SaleRow(k) in rows :: Reserved(after.notes, k, p) == Reserved(before.notes, k, p))
  }

  lemma ReceiveFrame(before: Store, after: Store, t: Txn, id: nat)
    requires AgreesReceive(before, t, id) && SameOn(before, after, t.held)
    ensures AgreesReceive(after, t, id)
  {
    assert PurchaseRow(id) in t.held;
    match t.phase
    case Receiving(items, i) => ReceiveWritesFrame(before, after, id, items[..i], t.held);
    case Holding(items, i, value) =>
      ProductRowsSnoc(items, i);
      ReceiveWritesFrame(before, after, id, items[..i], t.held);
    case Written(items) => ReceiveWritesFrame(before, after, id, items, t.held);
    case _ =>
  }

  lemma ReceiveWritesFrame(before: Store, after: Store, id: nat, items: seq<Line>, rows: set<Row>)
    requires ProductRows(items) <= rows && SameOn(before, after, rows)
    ensures ReceiveWrites(after, id, items) == ReceiveWrites(before, id, items)
  {
    forall p | p in Products(items) ensures StockOf(after, p) == StockOf(before, p) {
      assert ProductRow(p) in ProductRows(items);
    }
  }

  lemma CompleteFrame(before: Store, after: Store, t: Txn, id: nat)
    requires AgreesComplete(before, t, id) && SameOn(before, after, t.held)
    ensures AgreesComplete(after, t, id)
  {
    assert SaleRow(id) in t.held;
    match t.phase
    case Checking(items, copies) => CopiesFrame(before, after, items, copies, t.held);
    case Deducting(items, copies, i) =>
      assert items[..|items|] == items;
      CopiesFrame(before, after, items, copies, t.held);
      CompleteWritesFrame(before, after, id, items[..i], t.held);
    case Written(items) =>
      CompleteWritesFrame(before, after, id, items, t.held);
      forall line | line in items ensures StockOf(after, line.product) == StockOf(before, line.product) {
        assert ProductRow(line.product) in ProductRows(items);
      }
    case Refused(items, reply) =>
      if !before.sales[id].completed {
        var k: nat :| ShortAt(before, t, items, k);
        assert ShortAt(after, t, items, k);
      }
    case _ =>
  }

  lemma CopiesFrame(before: Store, after: Store, items: seq<Line>, copies: seq<int>, rows: set<Row>)
    requires CopiesOk(before, items, copies) && SameOn(before, after, rows)
    requires ProductRows(items[..|copies|]) <= rows
    ensures CopiesOk(after, items, copies)
  {
    forall k | 0 <= k < |copies| ensures StockOf(after, items[k].product) == StockOf(before, items[k].product) {
      assert items[..|copies|][k] == items[k];
      assert ProductRow(items[k].product) in ProductRows(items[..|copies|]);
    }
  }

  lemma CompleteWritesFrame(before: Store, after: Store, id: nat, items: seq<Line>, rows: set<Row>)
    requires ProductRows(items) <= rows && SameOn(before, after, rows)
    ensures CompleteWrites(after, id, items) == CompleteWrites(before, id, items)
  {
    forall p | p in Products(items) ensures StockOf(after, p) == StockOf(before, p) {
      assert ProductRow(p) in ProductRows(items);
    }
  }

  /** What a transaction has done stays right while others change only rows it has not locked. */
  lemma Frame(before: Store, after: Store, t: Txn)
    requires Agrees(before, t) && SameOn(before, after, t.held)
    ensures Agrees(after, t)
  {
    match t.req
    case Receive(id) =>
      if !t.phase.Start? && !Finished(t) {
        ReceiveFrame(before, after, t, id);
      }
    case Complete(id) =>
      if !t.phase.Start? && !Finished(t) {
        CompleteFrame(before, after, t, id);
      }
    case _ =>
  }

  /** The rows a commit may change. */
  ghost predicate Within(db: Store, w: Writes, held: set<Row>) {
    && (forall p <- w.stock :: ProductRow(p) in held)
    && match w.mark
       case AddNote(note) => SaleRow(note.sale) in held
       case MarkReceived(id) => PurchaseRow(id) in held
       case MarkCompleted(id) => SaleRow(id) in held
       case MarkApproved(id) => NoteRow(id) in held
       case _ => true
  }

  lemma WritesWithinLocks(db: Store, t: Txn)
    requires Agrees(db, t) && t.phase.Written?
    ensures Within(db, t.writes, t.held)
  {
    if t.req.Receive? || t.req.Complete? {
      forall p | p in t.writes.stock ensures ProductRow(p) in t.held {
        var line :| line in t.phase.items && line.product == p;
        assert ProductRow(line.product) in ProductRows(t.phase.items);
      }
    }
  }

  lemma ReservedFrame(db: Store, w: Writes, k: nat, p: nat)
    requires w.mark.AddNote? ==> w.mark.note.sale != k
    ensures Reserved(Apply(db, w).notes, k, p) == Reserved(db.notes, k, p)
  {
    match w.mark
    case AddNote(note) => SumSnoc(ReservedBy(k, p), db.notes, note);
    case MarkApproved(id) =>
      if id < |db.notes| {
        SumUpdate(ReservedBy(k, p), db.notes, id, db.notes[id].(approved := true));
      }
    case _ =>
  }

  /** A commit changes nothing that somebody else has locked. */
  lemma CommitFrame(db: Store, w: Writes, held: set<Row>, rows: set<Row>)
    requires Within(db, w, held) && held !! rows
    ensures SameOn(db, Apply(db, w), rows)
  {
    forall k: nat, p: nat | SaleRow(k) in rows
      ensures Reserved(Apply(db, w).notes, k, p) == Reserved(db.notes, k, p)
    {
      ReservedFrame(db, w, k, p);
    }
  }

  /******* The invariant *******/

  /** A transaction has its one answer in the log exactly when it is done. */
  ghost predicate Answered(log: seq<Event>, tid: nat, t: Txn) {
    if t.phase.Done? then
      && (exists k :: 0 <= k < |log| && log[k].tid == tid && log[k].req == t.req && log[k].reply == t.phase.reply)
      && (forall j, k :: 0 <= j < k < |log| && log[k].tid == tid ==> log[j].tid != tid)
    else forall k :: 0 <= k < |log| ==> log[k].tid != tid
  }

  ghost predicate Exclusive(s: System) {
    forall t, u :: 0 <= t < u < |s.txns| ==> s.txns[t].held !! s.txns[u].held
  }

  ghost predicate Inv(db0: Store, s: System) {
    && WellFormed(db0) && WellFormed(s.db)
    && Faithful(db0, s.log) && s.db == Replay(db0, s.log)
    && (forall t <- s.txns :: Agrees(s.db, t))
    && Exclusive(s)
    && (forall t :: 0 <= t < |s.txns| ==> Answered(s.log, t, s.txns[t]))
    && (forall k :: 0 <= k < |s.log| ==> s.log[k].tid < |s.txns|)
  }

  lemma AnsweredSnoc(log: seq<Event>, ev: Event, tid: nat, t: Txn)
    requires Answered(log, tid, t) && ev.tid != tid
    ensures Answered(log + [ev], tid, t)
  {
    if t.phase.Done? {
      var k :| 0 <= k < |log| && log[k].tid == tid && log[k].req == t.req && log[k].reply == t.phase.reply;
      assert (log + [ev])[k] == log[k];
    }
  }

  lemma AnsweredNow(log: seq<Event>, ev: Event, t: Txn)
    requires forall k :: 0 <= k < |log| ==> log[k].tid != ev.tid
    requires t.phase == Done(ev.reply) && t.req == ev.req
    ensures Answered(log + [ev], ev.tid, t)
  {
    assert (log + [ev])[|log|] == ev;
  }

  /** An answering step: the store moves as the endpoint says, everybody else stays right. */
  lemma AnswerStep(db0: Store, s: System, a: Action)
    requires Inv(db0, s) && Enabled(s, a, true) && a.Go?
    requires Advance(s.db, s.txns[a.tid], a.fetched).phase.Done?
    ensures Inv(db0, Next(s, a, true))
  {
    var t := s.txns[a.tid];
    var s' := Next(s, a, true);
    var ev := s'.log[|s.log|];
    assert s'.log == s.log + [ev];
    AnswerIsServe(s.db, t, a.fetched);
    ReplaySnoc(db0, s.log, ev);
    AnswerFrame(db0, s, a);
    forall u | 0 <= u < |s'.txns| ensures Answered(s'.log, u, s'.txns[u]) {
      if u == a.tid {
        AnsweredNow(s.log, ev, s'.txns[u]);
      } else {
        AnsweredSnoc(s.log, ev, u, s.txns[u]);
      }
    }
  }

  lemma AnswerIsServe(db: Store, t: Txn, fetched: seq<Line>)
    requires WellFormed(db) && Agrees(db, t) && !Finished(t)
    requires Advance(db, t, fetched).phase.Done?
    ensures Fetched(db, t.req, ItemsOf(t.phase))
    ensures Serve(db, t.req, ItemsOf(t.phase))
         == Outcome(Advance(db, t, fetched).phase.reply, if t.phase.Written? then Apply(db, t.writes) else db)
  {
    if t.phase.Written? {
      CommitIsServe(db, t);
    } else if t.phase.Refused? {
      RefusalIsServe(db, t);
    } else {
      AnswersAtStart(db, t, fetched);
      ExitIsServe(db, t, fetched);
    }
  }

  lemma AnswersAtStart(db: Store, t: Txn, fetched: seq<Line>)
    requires Agrees(db, t) && !Finished(t) && !t.phase.Written? && !t.phase.Refused?
    requires Advance(db, t, fetched).phase.Done?
    ensures t.phase.Start?
  {
  }

  lemma AnswerFrame(db0: Store, s: System, a: Action)
    requires Inv(db0, s) && Enabled(s, a, true) && a.Go?
    requires Advance(s.db, s.txns[a.tid], a.fetched).phase.Done?
    ensures var s' := Next(s, a, true); Exclusive(s') && forall u <- s'.txns :: Agrees(s'.db, u)
  {
    var t := s.txns[a.tid];
    var s' := Next(s, a, true);
    forall u | 0 <= u < |s'.txns| ensures Agrees(s'.db, s'.txns[u]) {
      if u != a.tid && t.phase.Written? {
        WritesWithinLocks(s.db, t);
        CommitFrame(s.db, t.writes, t.held, s.txns[u].held);
        Frame(s.db, s'.db, s.txns[u]);
      }
    }
  }

  lemma QuietStep(db0: Store, s: System, a: Action)
    requires Inv(db0, s) && Enabled(s, a, true)
    requires a.Go? ==> !Advance(s.db, s.txns[a.tid], a.fetched).phase.Done?
    ensures Inv(db0, Next(s, a, true))
  {
    var t := s.txns[a.tid];
    var s' := Next(s, a, true);
    if a.Go? {
      OwnStep(s.db, t, a.fetched);
      assert s'.txns[a.tid] == Moved(s.db, t, a.fetched);
    }
    QuietExclusive(s, a);
  }

  /** A step that does not answer locks only rows nobody else holds. */
  lemma QuietExclusive(s: System, a: Action)
    requires Exclusive(s) && Enabled(s, a, true)
    requires a.Go? ==> !Advance(s.db, s.txns[a.tid], a.fetched).phase.Done?
    ensures Exclusive(Next(s, a, true))
  {
    var s' := Next(s, a, true);
    forall u, v | 0 <= u < v < |s'.txns| ensures s'.txns[u].held !! s'.txns[v].held {
      assert s.txns[u].held !! s.txns[v].held;
    }
  }

  lemma StepKeepsInv(db0: Store, s: System, a: Action)
    requires Inv(db0, s) && Enabled(s, a, true)
    ensures Inv(db0, Next(s, a, true))
  {
    if a.Go? && Advance(s.db, s.txns[a.tid], a.fetched).phase.Done? {
      AnswerStep(db0, s, a);
    } else {
      QuietStep(db0, s, a);
    }
  }

  lemma {:induction false} ReachableInv(s0: System, run: seq<Action>, s: System)
    requires Init(s0) && Reaches(s0, run, s, true)
    ensures Inv(s0.db, s)
  {
    if run != [] {
      var init, last := run[..|run| - 1], run[|run| - 1];
      var prev :| Reaches(s0, init, prev, true) && Enabled(prev, last, true) && s == Next(prev, last, true);
      ReachableInv(s0, init, prev);
      StepKeepsInv(s0.db, prev, last);
    }
  }

  /** Serializability: the committed store, and every answer, is that of serving the answered requests one at
      a time in the order of the log; each done transaction is there once, crashed and unfinished ones never. */
  lemma Serializable(s0: System, run: seq<Action>, s: System)
    requires Init(s0) && Reaches(s0, run, s, true)
    ensures Faithful(s0.db, s.log) && s.db == Replay(s0.db, s.log)
    ensures forall t :: 0 <= t < |s.txns| ==> Answered(s.log, t, s.txns[t])
    ensures forall k :: 0 <= k < |s.log| ==> s.log[k].tid < |s.txns|
  {
    ReachableInv(s0, run, s);
  }
}
