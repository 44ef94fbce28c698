/** How high stock can get, locked or not: the opening stock plus the receipts and returns the requests can bring in. */
module Ceilings {
  import opened Sums
  import opened Ledger
  import opened Endpoints
  import opened RowLocks
  import Locked = Serializability

  function Requests(s: System): (reqs: seq<Request>)
    ensures |reqs| == |s.txns|
  {
    seq(|s.txns|, t requires 0 <= t < |s.txns| => s.txns[t].req)
  }

  /******* What purchases and returns bring in *******/

  function ReceiptOf(db: Store, rows: set<Row>, k: nat, p: nat): int {
    if k < |db.purchases| && PurchaseRow(k) in rows then Qty(db.purchases[k].lines, p) else 0
  }

  function ReturnOf(db: Store, rows: set<Row>, k: nat, p: nat): int {
    if k < |db.notes| && NoteRow(k) in rows && db.notes[k].product == p then db.notes[k].quantity else 0
  }

  /** Product `p` on the first `n` purchases and the first `m` returns that are among `rows`. */
  function BroughtIn(db: Store, rows: set<Row>, n: nat, m: nat, p: nat): int {
    if n > 0 then BroughtIn(db, rows, n - 1, m, p) + ReceiptOf(db, rows, n - 1, p)
    else if m > 0 then BroughtIn(db, rows, n, m - 1, p) + ReturnOf(db, rows, m - 1, p)
    else 0
  }

  /** The stock of `p` once the orders and returns in `rows` are received and approved and nothing is taken out. */
  function Cap(db: Store, rows: set<Row>, p: nat): int {
    StockOf(db, p) + BroughtIn(db, rows, |db.purchases|, |db.notes|, p)
  }

  lemma {:induction false} MoreRowsBringMore(db: Store, rows: set<Row>, more: set<Row>, n: nat, m: nat, p: nat)
    requires rows <= more
    ensures BroughtIn(db, rows, n, m, p) <= BroughtIn(db, more, n, m, p)
  {
    if n > 0 {
      MoreRowsBringMore(db, rows, more, n - 1, m, p);
      if n - 1 < |db.purchases| {
        QtyBounds(db.purchases[n - 1].lines, p);
      }
    } else if m > 0 {
      MoreRowsBringMore(db, rows, more, n, m - 1, p);
    }
  }

  lemma CapGrows(db: Store, rows: set<Row>, more: set<Row>, p: nat)
    requires rows <= more
    ensures Cap(db, rows, p) <= Cap(db, more, p)
  {
    MoreRowsBringMore(db, rows, more, |db.purchases|, |db.notes|, p);
  }

  /** What one row brings in. */
  function GainOf(db: Store, row: Row, p: nat): int {
    match row
    case PurchaseRow(k) => ReceiptOf(db, {row}, k, p)
    case NoteRow(k) => ReturnOf(db, {row}, k, p)
    case _ => 0
  }

  lemma {:induction false} OneRowMore(db: Store, rows: set<Row>, row: Row, n: nat, m: nat, p: nat)
    requires row !in rows
    ensures BroughtIn(db, rows + {row}, n, m, p)
         == BroughtIn(db, rows, n, m, p)
            + if (row.PurchaseRow? && row.id < n) || (row.NoteRow? && row.id < m) then GainOf(db, row, p) else 0
  {
    if n > 0 {
      OneRowMore(db, rows, row, n - 1, m, p);
    } else if m > 0 {
      OneRowMore(db, rows, row, n, m - 1, p);
    }
  }

  lemma CapOfOneMore(db: Store, rows: set<Row>, row: Row, p: nat)
    requires row !in rows
    ensures Cap(db, rows + {row}, p) == Cap(db, rows, p) + GainOf(db, row, p)
  {
    OneRowMore(db, rows, row, |db.purchases|, |db.notes|, p);
  }

  lemma {:induction false} NothingBroughtIn(db: Store, n: nat, m: nat, p: nat)
    ensures BroughtIn(db, {}, n, m, p) == 0
  {
    if n > 0 {
      NothingBroughtIn(db, n - 1, m, p);
    } else if m > 0 {
      NothingBroughtIn(db, n, m - 1, p);
    }
  }

  /** Open orders and pending returns that some request names. */
  function Movers(db: Store, reqs: seq<Request>): set<Row> {
    (set k | 0 <= k < |db.purchases| && !db.purchases[k].received && Receive(k) in reqs :: PurchaseRow(k)) +
    (set k | 0 <= k < |db.notes| && !db.notes[k].approved && Approve(k) in reqs :: NoteRow(k))
  }

  /** Those received or approved since `db0`. */
  function Spent(db0: Store, db: Store): set<Row> {
    (set k | 0 <= k < |db0.purchases| && k < |db.purchases| && !db0.purchases[k].received && db.purchases[k].received
       :: PurchaseRow(k)) +
    (set k | 0 <= k < |db0.notes| && k < |db.notes| && !db0.notes[k].approved && db.notes[k].approved :: NoteRow(k))
  }

  /******* Requests that name existing rows *******/

  /** The row a request names exists, or no request of the mix creates such rows. */
  ghost predicate NamesExisting(db: Store, reqs: seq<Request>) {
    && (forall k: nat :: Receive(k) in reqs && k >= |db.purchases| ==> forall req <- reqs :: !req.CreatePurchase?)
    && (forall k: nat :: Complete(k) in reqs && k >= |db.sales| ==> forall req <- reqs :: !req.CreateSale?)
    && (forall k: nat :: Approve(k) in reqs && k >= |db.notes| ==> forall req <- reqs :: !req.FileReturn?)
  }

  /** `db` has come from `db0`: rows are only added, and only by requests that create them, and statuses only close. */
  ghost predicate Evolved(db0: Store, reqs: seq<Request>, db: Store) {
    && |db.stock| == |db0.stock| && db.active == db0.active
    && |db0.purchases| <= |db.purchases| && |db0.sales| <= |db.sales| && |db0.notes| <= |db.notes|
    && ((forall req <- reqs :: !req.CreatePurchase?) ==> |db.purchases| == |db0.purchases|)
    && ((forall req <- reqs :: !req.CreateSale?) ==> |db.sales| == |db0.sales|)
    && ((forall req <- reqs :: !req.FileReturn?) ==> |db.notes| == |db0.notes|)
    && (forall k :: 0 <= k < |db0.purchases| ==> db.purchases[k].lines == db0.purchases[k].lines)
    && (forall k :: 0 <= k < |db0.sales| ==> db.sales[k].lines == db0.sales[k].lines)
    && (forall k :: 0 <= k < |db0.notes| ==> db.notes[k].(approved := true) == db0.notes[k].(approved := true))
    && (forall k :: 0 <= k < |db0.purchases| && db0.purchases[k].received ==> db.purchases[k].received)
    && (forall k :: 0 <= k < |db0.sales| && db0.sales[k].completed ==> db.sales[k].completed)
    && (forall k :: 0 <= k < |db0.notes| && db0.notes[k].approved ==> db.notes[k].approved)
  }

  /******* What a transaction can have read and written, below a ceiling `cap` *******/

  ghost predicate Under(cap: nat -> int, db: Store) {
    forall p: nat :: StockOf(db, p) <= cap(p)
  }

  /** Writes that are below the ceiling but for what the transaction itself has received. */
  ghost predicate WritesUnder(cap: nat -> int, w: Writes, items: seq<Line>) {
    forall p <- w.stock :: w.stock[p] <= cap(p) + Qty(items, p)
  }

  ghost predicate ReceiveUnder(db0: Store, cap: nat -> int, db: Store, t: Txn, id: nat) {
    match t.phase
    case Start => t.writes == BLANK
    case Opened => HoldsPurchase(db0, db, t, id) && t.writes == BLANK
    case Receiving(items, i) =>
      && HoldsPurchase(db0, db, t, id) && multiset(items) == multiset(db0.purchases[id].lines) && i <= |items|
      && WritesUnder(cap, t.writes, items[..i]) && t.writes.mark == NoMark
    case Holding(items, i, value) =>
      && HoldsPurchase(db0, db, t, id) && multiset(items) == multiset(db0.purchases[id].lines) && i < |items|
      && value <= cap(items[i].product) + Qty(items[..i], items[i].product)
      && WritesUnder(cap, t.writes, items[..i]) && t.writes.mark == NoMark
    case Written(items) =>
      && HoldsPurchase(db0, db, t, id) && multiset(items) == multiset(db0.purchases[id].lines)
      && WritesUnder(cap, t.writes, items) && t.writes.mark == MarkReceived(id)
    case Refused(_, reply) => !reply.Ok?
    case Done(_) => true
    case Crashed => true
    case _ => false
  }

  ghost predicate HoldsPurchase(db0: Store, db: Store, t: Txn, id: nat) {
    id < |db0.purchases| && id < |db.purchases| && !db.purchases[id].received && PurchaseRow(id) in t.held
  }

  /** An open sale and its lines in product order, each covered by what was read for it. */
  ghost predicate ChecksUnder(db0: Store, cap: nat -> int, id: nat, items: seq<Line>, copies: seq<int>) {
    && id < |db0.sales| && !db0.sales[id].completed && Ledger.OrderedBy(items, db0.sales[id].lines)
    && |copies| <= |items|
    && forall k :: 0 <= k < |copies| ==> items[k].quantity <= copies[k] <= cap(items[k].product)
  }

  /** Every line is covered by the ceiling. */
  predicate Covers(cap: nat -> int, lines: seq<Line>) {
    forall line <- lines :: line.quantity <= cap(line.product)
  }

  ghost predicate CompleteUnder(db0: Store, cap: nat -> int, t: Txn, id: nat) {
    match t.phase
    case Start => t.writes == BLANK
    case Opened => id < |db0.sales| && !db0.sales[id].completed && t.writes == BLANK
    case Checking(items, copies) => ChecksUnder(db0, cap, id, items, copies) && t.writes == BLANK
    case Deducting(items, copies, i) =>
      && ChecksUnder(db0, cap, id, items, copies) && i <= |items| == |copies|
      && WritesUnder(cap, t.writes, []) && t.writes.mark == NoMark
    case Written(items) =>
      && ChecksUnder(db0, cap, id, items, []) && Covers(cap, items)
      && WritesUnder(cap, t.writes, []) && t.writes.mark == MarkCompleted(id)
    case Refused(_, reply) => !reply.Ok?
    case Done(reply) => reply.Ok? ==>
      id < |db0.sales| && !db0.sales[id].completed && Covers(cap, db0.sales[id].lines)
    case Crashed => true
    case _ => false
  }

  ghost predicate HoldsNote(db0: Store, db: Store, t: Txn, id: nat) {
    id < |db0.notes| && id < |db.notes| && !db.notes[id].approved && NoteRow(id) in t.held
  }

  ghost predicate ApproveUnder(db0: Store, cap: nat -> int, db: Store, t: Txn, id: nat) {
    match t.phase
    case Start => t.writes == BLANK
    case Opened => HoldsNote(db0, db, t, id) && t.writes == BLANK
    case Read(p, value) =>
      HoldsNote(db0, db, t, id) && p == db0.notes[id].product && value <= cap(p) && t.writes == BLANK
    case Written(_) =>
      && HoldsNote(db0, db, t, id) && t.writes.mark == MarkApproved(id)
      && WritesUnder(cap, t.writes, [Line(db0.notes[id].product, db0.notes[id].quantity)])
    case Refused(_, reply) => !reply.Ok?
    case Done(_) => true
    case Crashed => true
    case _ => false
  }

  /** A write-off of an active product that the ceiling covers. */
  predicate Removable(db0: Store, cap: nat -> int, p: nat, amount: int) {
    p < |db0.active| && db0.active[p] && 1 <= amount <= cap(p)
  }

  ghost predicate WriteOffUnder(db0: Store, cap: nat -> int, t: Txn, product: nat, amount: int) {
    match t.phase
    case Start => t.writes == BLANK
    case Read(p, value) =>
      p == product && amount <= value <= cap(p) && Removable(db0, cap, product, amount) && t.writes == BLANK
    case Written(_) =>
      Removable(db0, cap, product, amount) && WritesUnder(cap, t.writes, []) && t.writes.mark == NoMark
    case Refused(_, reply) => !reply.Ok?
    case Done(_) => true
    case Crashed => true
    case _ => false
  }

  /** New orders and filed returns change no stock. */
  ghost predicate ChangesNoStock(t: Txn) {
    && t.writes.stock == map[]
    && match t.writes.mark
       case NoMark => true
       case AddPurchase(_, _) => t.req.CreatePurchase?
       case AddSale(_) => t.req.CreateSale?
       case AddNote(_) => t.req.FileReturn?
       case _ => false
  }

  ghost predicate TxnUnder(db0: Store, cap: nat -> int, db: Store, t: Txn) {
    match t.req
    case Receive(id) => ReceiveUnder(db0, cap, db, t, id)
    case Complete(id) => CompleteUnder(db0, cap, t, id)
    case Approve(id) => ApproveUnder(db0, cap, db, t, id)
    case WriteOff(product, amount) => WriteOffUnder(db0, cap, t, product, amount)
    case _ => ChangesNoStock(t)
  }

  /******* Own steps *******/

  lemma SeenUnder(cap: nat -> int, db: Store, w: Writes, items: seq<Line>, p: nat)
    requires Under(cap, db) && WritesUnder(cap, w, items)
    ensures StockSeen(db, w, p) <= cap(p) + Qty(items, p)
  {
    QtyBounds(items, p);
  }

  lemma ReceiveReads(db0: Store, reqs: seq<Request>, cap: nat -> int, db: Store, t: Txn, id: nat, fetched: seq<Line>)
    requires Evolved(db0, reqs, db) && Under(cap, db) && ReceiveUnder(db0, cap, db, t, id)
    requires t.req == Receive(id) && t.phase.Receiving?
    ensures ReceiveUnder(db0, cap, db, AdvanceReceive(db, t, id, fetched), id)
  {
    var items, i := t.phase.items, t.phase.i;
    if i < |items| {
      SeenUnder(cap, db, t.writes, items[..i], items[i].product);
    } else {
      assert items[..i] == items;
    }
  }

  lemma ReceiveSaves(db0: Store, cap: nat -> int, db: Store, t: Txn, id: nat, fetched: seq<Line>)
    requires ReceiveUnder(db0, cap, db, t, id) && t.req == Receive(id) && t.phase.Holding?
    ensures ReceiveUnder(db0, cap, db, AdvanceReceive(db, t, id, fetched), id)
  {
    var items, i, value := t.phase.items, t.phase.i, t.phase.value;
    var saved := AdvanceReceive(db, t, id, fetched).writes;
    PrefixSnoc(items, i);
    forall p | p in saved.stock ensures saved.stock[p] <= cap(p) + Qty(items[..i + 1], p) {
      SumSnoc(OfProduct(p), items[..i], items[i]);
    }
  }

  lemma ReceiveStep(db0: Store, reqs: seq<Request>, cap: nat -> int, db: Store, t: Txn, id: nat, fetched: seq<Line>)
    requires Evolved(db0, reqs, db) && NamesExisting(db0, reqs) && Receive(id) in reqs
    requires Under(cap, db) && ReceiveUnder(db0, cap, db, t, id) && FetchOk(db, t, fetched)
    requires t.req == Receive(id) && !t.phase.Written? && !t.phase.Refused? && !t.phase.Start?
    ensures ReceiveUnder(db0, cap, db, AdvanceReceive(db, t, id, fetched), id)
  {
    match t.phase
    case Receiving(_, _) => ReceiveReads(db0, reqs, cap, db, t, id, fetched);
    case Holding(_, _, _) => ReceiveSaves(db0, cap, db, t, id, fetched);
    case _ =>
  }

  lemma CompleteChecks(db0: Store, cap: nat -> int, db: Store, t: Txn, id: nat, fetched: seq<Line>)
    requires Under(cap, db) && CompleteUnder(db0, cap, t, id) && t.req == Complete(id) && t.phase.Checking?
    ensures CompleteUnder(db0, cap, AdvanceComplete(db, t, id, fetched), id)
  {
  }

  lemma CompleteSaves(db0: Store, cap: nat -> int, db: Store, t: Txn, id: nat, fetched: seq<Line>)
    requires CompleteUnder(db0, cap, t, id) && t.req == Complete(id) && t.phase.Deducting?
    ensures CompleteUnder(db0, cap, AdvanceComplete(db, t, id, fetched), id)
  {
    var items, copies, i := t.phase.items, t.phase.copies, t.phase.i;
    if i == |items| {
      forall line | line in items ensures line.quantity <= cap(line.product) {
        var k :| 0 <= k < |items| && items[k] == line;
        assert items[k].quantity <= copies[k] <= cap(items[k].product);
      }
    }
  }

  lemma CompleteStep(db0: Store, reqs: seq<Request>, cap: nat -> int, db: Store, t: Txn, id: nat, fetched: seq<Line>)
    requires Evolved(db0, reqs, db) && NamesExisting(db0, reqs) && Complete(id) in reqs
    requires Under(cap, db) && CompleteUnder(db0, cap, t, id) && FetchOk(db, t, fetched)
    requires t.req == Complete(id) && !t.phase.Written? && !t.phase.Refused?
    ensures CompleteUnder(db0, cap, AdvanceComplete(db, t, id, fetched), id)
  {
    match t.phase
    case Checking(_, _) => CompleteChecks(db0, cap, db, t, id, fetched);
    case Deducting(_, _, _) => CompleteSaves(db0, cap, db, t, id, fetched);
    case _ =>
  }

  lemma ApproveStep(db0: Store, reqs: seq<Request>, cap: nat -> int, db: Store, t: Txn, id: nat)
    requires Evolved(db0, reqs, db) && NamesExisting(db0, reqs) && Approve(id) in reqs
    requires Under(cap, db) && ApproveUnder(db0, cap, db, t, id)
    requires t.req == Approve(id) && !t.phase.Written? && !t.phase.Refused? && !t.phase.Start?
    ensures ApproveUnder(db0, cap, db, AdvanceApprove(db, t, id), id)
  {
    if t.phase.Read? {
      var line := Line(db0.notes[id].product, db0.notes[id].quantity);
      assert Qty([line], line.product) == line.quantity by {
        SumSnoc(OfProduct(line.product), [], line);
        assert [] + [line] == [line];
      }
    }
  }

  lemma WriteOffStep(db0: Store, reqs: seq<Request>, cap: nat -> int, db: Store, t: Txn, product: nat, amount: int)
    requires Evolved(db0, reqs, db) && Under(cap, db) && WriteOffUnder(db0, cap, t, product, amount)
    requires t.req == WriteOff(product, amount) && !t.phase.Written? && !t.phase.Refused?
    ensures WriteOffUnder(db0, cap, AdvanceWriteOff(db, t, product, amount), product, amount)
  {
  }

  /** The first step of a receive or an approve locks the order or return. */
  lemma OpenStep(db0: Store, reqs: seq<Request>, cap: nat -> int, db: Store, t: Txn, fetched: seq<Line>)
    requires Evolved(db0, reqs, db) && NamesExisting(db0, reqs) && t.req in reqs
    requires t.phase.Start? && TxnUnder(db0, cap, db, t) && (t.req.Receive? || t.req.Approve?)
    ensures TxnUnder(db0, cap, db, Moved(db, t, fetched))
  {
  }

  function Moved(db: Store, t: Txn, fetched: seq<Line>): Txn {
    Advance(db, t, fetched).(held := t.held + Wants(db, t, false))
  }

  lemma MoreLocks(db0: Store, cap: nat -> int, db: Store, t: Txn, held: set<Row>)
    requires TxnUnder(db0, cap, db, t) && t.held <= held
    ensures TxnUnder(db0, cap, db, t.(held := held))
  {
  }

  lemma KeepsHeld(db: Store, t: Txn, fetched: seq<Line>)
    ensures Advance(db, t, fetched).held == t.held && Advance(db, t, fetched).req == t.req
  {
  }

  lemma InnerStep(db0: Store, reqs: seq<Request>, cap: nat -> int, db: Store, t: Txn, fetched: seq<Line>)
    requires Evolved(db0, reqs, db) && NamesExisting(db0, reqs) && t.req in reqs
    requires Under(cap, db) && TxnUnder(db0, cap, db, t) && FetchOk(db, t, fetched)
    requires !t.phase.Written? && !t.phase.Refused? && !(t.phase.Start? && (t.req.Receive? || t.req.Approve?))
    ensures TxnUnder(db0, cap, db, Advance(db, t, fetched))
  {
    var u := Advance(db, t, fetched);
    KeepsHeld(db, t, fetched);
    match t.req
    case Receive(id) =>
      assert u == AdvanceReceive(db, t, id, fetched);
      ReceiveStep(db0, reqs, cap, db, t, id, fetched);
    case Complete(id) =>
      assert u == AdvanceComplete(db, t, id, fetched);
      CompleteStep(db0, reqs, cap, db, t, id, fetched);
    case Approve(id) =>
      assert u == AdvanceApprove(db, t, id);
      ApproveStep(db0, reqs, cap, db, t, id);
    case WriteOff(product, amount) =>
      assert u == AdvanceWriteOff(db, t, product, amount);
      WriteOffStep(db0, reqs, cap, db, t, product, amount);
    case _ => CreatorStep(db, t, fetched);
  }

  lemma CreatorStep(db: Store, t: Txn, fetched: seq<Line>)
    requires ChangesNoStock(t) && (t.req.CreatePurchase? || t.req.CreateSale? || t.req.FileReturn?)
    ensures ChangesNoStock(Advance(db, t, fetched))
  {
  }

  lemma OwnStep(db0: Store, reqs: seq<Request>, cap: nat -> int, db: Store, t: Txn, fetched: seq<Line>)
    requires Evolved(db0, reqs, db) && NamesExisting(db0, reqs) && t.req in reqs
    requires Under(cap, db) && TxnUnder(db0, cap, db, t) && FetchOk(db, t, fetched)
    requires !t.phase.Written? && !t.phase.Refused?
    ensures TxnUnder(db0, cap, db, Moved(db, t, fetched))
  {
    if t.phase.Start? && (t.req.Receive? || t.req.Approve?) {
      OpenStep(db0, reqs, cap, db, t, fetched);
    } else {
      InnerStep(db0, reqs, cap, db, t, fetched);
      KeepsHeld(db, t, fetched);
      MoreLocks(db0, cap, db, Advance(db, t, fetched), t.held + Wants(db, t, false));
    }
  }

  /******* Commits *******/

  function CapAt(db0: Store, rows: set<Row>): nat -> int {
    (p: nat) => Cap(db0, rows, p)
  }

  /** The order or return a request closes. */
  function Closes(req: Request): set<Row> {
    match req
    case Receive(id) => {PurchaseRow(id)}
    case Approve(id) => {NoteRow(id)}
    case _ => {}
  }

  ghost predicate ReadyToCommit(db0: Store, reqs: seq<Request>, cap: nat -> int, db: Store, t: Txn) {
    Evolved(db0, reqs, db) && t.req in reqs && TxnUnder(db0, cap, db, t) && t.phase.Written?
  }

  lemma CommitEvolves(db0: Store, reqs: seq<Request>, cap: nat -> int, db: Store, t: Txn)
    requires ReadyToCommit(db0, reqs, cap, db, t)
    ensures Evolved(db0, reqs, Apply(db, t.writes))
  {
  }

  lemma ReceiveSpends(db0: Store, reqs: seq<Request>, db: Store, w: Writes, id: nat)
    requires Evolved(db0, reqs, db) && w.mark == MarkReceived(id)
    requires id < |db0.purchases| && !db.purchases[id].received
    ensures Spent(db0, Apply(db, w)) == Spent(db0, db) + {PurchaseRow(id)}
  {
    assert !db0.purchases[id].received;
  }

  lemma ApproveSpends(db0: Store, reqs: seq<Request>, db: Store, w: Writes, id: nat)
    requires Evolved(db0, reqs, db) && w.mark == MarkApproved(id)
    requires id < |db0.notes| && !db.notes[id].approved
    ensures Spent(db0, Apply(db, w)) == Spent(db0, db) + {NoteRow(id)}
  {
    assert !db0.notes[id].approved;
  }

  lemma OthersSpendNothing(db0: Store, reqs: seq<Request>, db: Store, w: Writes)
    requires Evolved(db0, reqs, db) && !w.mark.MarkReceived? && !w.mark.MarkApproved?
    ensures Spent(db0, Apply(db, w)) == Spent(db0, db)
  {
  }

  lemma CommitSpends(db0: Store, reqs: seq<Request>, cap: nat -> int, db: Store, t: Txn)
    requires ReadyToCommit(db0, reqs, cap, db, t)
    ensures Spent(db0, Apply(db, t.writes)) == Spent(db0, db) + Closes(t.req)
    ensures Closes(t.req) !! Spent(db0, db) && Closes(t.req) <= Movers(db0, reqs)
  {
    match t.req
    case Receive(id) => ReceiveSpends(db0, reqs, db, t.writes, id);
    case Approve(id) => ApproveSpends(db0, reqs, db, t.writes, id);
    case _ =>
      OthersSpendNothing(db0, reqs, db, t.writes);
      assert Spent(db0, db) + {} == Spent(db0, db);
  }

  lemma CapAfter(db0: Store, rows: set<Row>, req: Request, p: nat)
    requires Closes(req) !! rows
    requires req.Receive? ==> req.id < |db0.purchases|
    requires req.Approve? ==> req.id < |db0.notes|
    ensures Cap(db0, rows + Closes(req), p)
         == Cap(db0, rows, p) + match req
              case Receive(id) => Qty(db0.purchases[id].lines, p)
              case Approve(id) => if db0.notes[id].product == p then db0.notes[id].quantity else 0
              case _ => 0
  {
    match req
    case Receive(id) => CapOfOneMore(db0, rows, PurchaseRow(id), p);
    case Approve(id) => CapOfOneMore(db0, rows, NoteRow(id), p);
    case _ => assert rows + {} == rows;
  }

  lemma QtyOfOne(line: Line, p: nat)
    ensures Qty([line], p) == if line.product == p then line.quantity else 0
  {
    SumSnoc(OfProduct(p), [], line);
    assert [] + [line] == [line];
  }

  /** What the committed writes may exceed the old ceiling by is what the new one exceeds it by. */
  lemma WritesWithinRise(db0: Store, reqs: seq<Request>, rows: set<Row>, db: Store, t: Txn, p: nat)
    requires ReadyToCommit(db0, reqs, CapAt(db0, rows), db, t) && Closes(t.req) !! rows && p in t.writes.stock
    ensures t.writes.stock[p] <= Cap(db0, rows + Closes(t.req), p)
  {
    assert Qty([], p) == 0;
    CapAfter(db0, rows, t.req, p);
    match t.req
    case Receive(id) => QtyPermuted(t.phase.items, db0.purchases[id].lines, p);
    case Approve(id) => QtyOfOne(Line(db0.notes[id].product, db0.notes[id].quantity), p);
    case _ =>
  }

  lemma CommitStaysUnder(db0: Store, reqs: seq<Request>, rows: set<Row>, db: Store, t: Txn)
    requires ReadyToCommit(db0, reqs, CapAt(db0, rows), db, t) && Under(CapAt(db0, rows), db)
    requires Closes(t.req) !! rows
    ensures Under(CapAt(db0, rows + Closes(t.req)), Apply(db, t.writes))
  {
    var cap, after := CapAt(db0, rows + Closes(t.req)), Apply(db, t.writes);
    forall p: nat ensures StockOf(after, p) <= cap(p) {
      CapGrows(db0, rows, rows + Closes(t.req), p);
      assert StockOf(db, p) <= CapAt(db0, rows)(p);
      if p in t.writes.stock {
        WritesWithinRise(db0, reqs, rows, db, t, p);
      }
    }
  }

  /** A commit leaves the orders and returns that others hold as they are. */
  lemma CommitKeepsHeldRows(db0: Store, reqs: seq<Request>, cap: nat -> int, db: Store, t: Txn, held: set<Row>)
    requires ReadyToCommit(db0, reqs, cap, db, t) && t.held !! held
    ensures var after := Apply(db, t.writes);
            && (forall k: nat | PurchaseRow(k) in held :: k < |db.purchases| ==> after.purchases[k] == db.purchases[k])
            && (forall k: nat | NoteRow(k) in held :: k < |db.notes| ==> after.notes[k] == db.notes[k])
  {
  }

  lemma OtherStaysUnder(db0: Store, cap: nat -> int, higher: nat -> int, db: Store, after: Store, u: Txn)
    requires TxnUnder(db0, cap, db, u) && forall p: nat :: cap(p) <= higher(p)
    requires |db.purchases| <= |after.purchases| && |db.notes| <= |after.notes|
    requires forall k: nat | PurchaseRow(k) in u.held :: k < |db.purchases| ==> after.purchases[k] == db.purchases[k]
    requires forall k: nat | NoteRow(k) in u.held :: k < |db.notes| ==> after.notes[k] == db.notes[k]
    ensures TxnUnder(db0, higher, after, u)
  {
  }

  /******* Every run *******/

  /** Everything is below the ceiling over `rows`. */
  ghost predicate CeiledAt(db0: Store, reqs: seq<Request>, rows: set<Row>, s: System) {
    && Evolved(db0, reqs, s.db) && NamesExisting(db0, reqs) && Requests(s) == reqs
    && Locked.Exclusive(s) && rows <= Movers(db0, reqs) && Under(CapAt(db0, rows), s.db)
    && forall t :: 0 <= t < |s.txns| ==> TxnUnder(db0, CapAt(db0, rows), s.db, s.txns[t])
  }

  ghost predicate Ceiled(db0: Store, reqs: seq<Request>, s: System) {
    CeiledAt(db0, reqs, Spent(db0, s.db), s)
  }

  lemma NextKeepsExclusive(s: System, a: Action)
    requires Locked.Exclusive(s) && Enabled(s, a, false)
    ensures Locked.Exclusive(Next(s, a, false))
  {
    var s' := Next(s, a, false);
    if a.Go? {
      KeepsHeld(s.db, s.txns[a.tid], a.fetched);
    }
    forall u, v | 0 <= u < v < |s'.txns| ensures s'.txns[u].held !! s'.txns[v].held {
      assert s.txns[u].held !! s.txns[v].held;
    }
  }

  lemma NextKeepsRequests(s: System, a: Action)
    requires a.tid < |s.txns|
    ensures Requests(Next(s, a, false)) == Requests(s)
  {
    if a.Go? {
      KeepsHeld(s.db, s.txns[a.tid], a.fetched);
    }
  }

  /** A crash, or an answer other than a commit. */
  lemma EndsUnder(db0: Store, cap: nat -> int, db: Store, t: Txn, reply: Reply)
    requires TxnUnder(db0, cap, db, t)
    ensures TxnUnder(db0, cap, db, Txn(t.req, Crashed, {}, BLANK))
    ensures !reply.Ok? ==> TxnUnder(db0, cap, db, Txn(t.req, Done(reply), {}, BLANK))
  {
  }

  lemma MoverStaysUnder(db0: Store, reqs: seq<Request>, cap: nat -> int, s: System, a: Action)
    requires Evolved(db0, reqs, s.db) && NamesExisting(db0, reqs) && Under(cap, s.db) && Enabled(s, a, false)
    requires s.txns[a.tid].req in reqs && TxnUnder(db0, cap, s.db, s.txns[a.tid])
    requires a.Go? ==> !s.txns[a.tid].phase.Written?
    ensures TxnUnder(db0, cap, s.db, Next(s, a, false).txns[a.tid])
  {
    if a.Go? {
      StepperStaysUnder(db0, reqs, cap, s, a);
    } else {
      EndsUnder(db0, cap, s.db, s.txns[a.tid], Conflict);
    }
  }

  lemma StepperStaysUnder(db0: Store, reqs: seq<Request>, cap: nat -> int, s: System, a: Action)
    requires Evolved(db0, reqs, s.db) && NamesExisting(db0, reqs) && Under(cap, s.db) && Enabled(s, a, false)
    requires s.txns[a.tid].req in reqs && TxnUnder(db0, cap, s.db, s.txns[a.tid])
    requires a.Go? && !s.txns[a.tid].phase.Written?
    ensures TxnUnder(db0, cap, s.db, Next(s, a, false).txns[a.tid])
  {
    var t := s.txns[a.tid];
    KeepsHeld(s.db, t, a.fetched);
    if !t.phase.Refused? {
      OwnStep(db0, reqs, cap, s.db, t, a.fetched);
    }
  }

  lemma WriterIsDone(db0: Store, cap: nat -> int, higher: nat -> int, db: Store, after: Store, t: Txn)
    requires TxnUnder(db0, cap, db, t) && t.phase.Written? && forall p: nat :: cap(p) <= higher(p)
    ensures TxnUnder(db0, higher, after, Txn(t.req, Done(CommitReply(db, t.writes.mark)), {}, BLANK))
  {
    if t.req.Complete? {
      MembersPermuted(t.phase.items, db0.sales[t.req.id].lines);
    }
  }

  lemma AllStayUnder(db0: Store, reqs: seq<Request>, cap: nat -> int, higher: nat -> int, s: System, a: Action)
    requires Locked.Exclusive(s) && Enabled(s, a, false) && a.Go?
    requires ReadyToCommit(db0, reqs, cap, s.db, s.txns[a.tid]) && forall p: nat :: cap(p) <= higher(p)
    requires forall t :: 0 <= t < |s.txns| ==> TxnUnder(db0, cap, s.db, s.txns[t])
    ensures var s' := Next(s, a, false);
            forall u :: 0 <= u < |s'.txns| ==> TxnUnder(db0, higher, s'.db, s'.txns[u])
  {
    var t, s' := s.txns[a.tid], Next(s, a, false);
    forall u | 0 <= u < |s'.txns| ensures TxnUnder(db0, higher, s'.db, s'.txns[u]) {
      if u == a.tid {
        WriterIsDone(db0, cap, higher, s.db, s'.db, t);
      } else {
        CommitKeepsHeldRows(db0, reqs, cap, s.db, t, s.txns[u].held);
        OtherStaysUnder(db0, cap, higher, s.db, s'.db, s.txns[u]);
      }
    }
  }

  lemma CapsRise(db0: Store, rows: set<Row>, more: set<Row>)
    requires rows <= more
    ensures forall p: nat :: CapAt(db0, rows)(p) <= CapAt(db0, more)(p)
  {
    forall p: nat ensures CapAt(db0, rows)(p) <= CapAt(db0, more)(p) {
      CapGrows(db0, rows, more, p);
    }
  }

  lemma CommitRaisesCeiling(db0: Store, reqs: seq<Request>, rows: set<Row>, s: System, a: Action)
    requires CeiledAt(db0, reqs, rows, s) && Enabled(s, a, false) && a.Go? && s.txns[a.tid].phase.Written?
    requires Closes(s.txns[a.tid].req) !! rows && Closes(s.txns[a.tid].req) <= Movers(db0, reqs)
    ensures CeiledAt(db0, reqs, rows + Closes(s.txns[a.tid].req), Next(s, a, false))
  {
    var t, cap := s.txns[a.tid], CapAt(db0, rows);
    assert t.req == Requests(s)[a.tid];
    CommitEvolves(db0, reqs, cap, s.db, t);
    CommitStaysUnder(db0, reqs, rows, s.db, t);
    NextKeepsExclusive(s, a);
    NextKeepsRequests(s, a);
    CapsRise(db0, rows, rows + Closes(t.req));
    AllStayUnder(db0, reqs, cap, CapAt(db0, rows + Closes(t.req)), s, a);
  }

  lemma CommitKeepsCeiled(db0: Store, reqs: seq<Request>, s: System, a: Action)
    requires Ceiled(db0, reqs, s) && Enabled(s, a, false) && a.Go? && s.txns[a.tid].phase.Written?
    ensures Ceiled(db0, reqs, Next(s, a, false))
  {
    assert s.txns[a.tid].req == Requests(s)[a.tid];
    CommitSpends(db0, reqs, CapAt(db0, Spent(db0, s.db)), s.db, s.txns[a.tid]);
    CommitRaisesCeiling(db0, reqs, Spent(db0, s.db), s, a);
  }

  lemma StepKeepsCeiled(db0: Store, reqs: seq<Request>, s: System, a: Action)
    requires Ceiled(db0, reqs, s) && Enabled(s, a, false)
    ensures Ceiled(db0, reqs, Next(s, a, false))
  {
    if a.Go? && s.txns[a.tid].phase.Written? {
      CommitKeepsCeiled(db0, reqs, s, a);
    } else {
      assert s.txns[a.tid].req == Requests(s)[a.tid];
      MoverStaysUnder(db0, reqs, CapAt(db0, Spent(db0, s.db)), s, a);
      NextKeepsExclusive(s, a);
      NextKeepsRequests(s, a);
    }
  }

  lemma StartsCeiled(s0: System)
    requires Init(s0) && NamesExisting(s0.db, Requests(s0))
    ensures Ceiled(s0.db, Requests(s0), s0)
  {
    assert Spent(s0.db, s0.db) == {};
    forall p: nat ensures StockOf(s0.db, p) <= Cap(s0.db, {}, p) {
      NothingBroughtIn(s0.db, |s0.db.purchases|, |s0.db.notes|, p);
    }
    forall t | 0 <= t < |s0.txns| ensures TxnUnder(s0.db, CapAt(s0.db, {}), s0.db, s0.txns[t]) {
      assert s0.txns[t] in s0.txns;
    }
  }

  /** No run lifts a product above its ceiling, and what every transaction has read and written stays below it. */
  lemma {:induction false} ReachableCeiled(s0: System, run: seq<Action>, s: System)
    requires Init(s0) && NamesExisting(s0.db, Requests(s0)) && Reaches(s0, run, s, false)
    ensures Ceiled(s0.db, Requests(s0), s)
  {
    if run == [] {
      StartsCeiled(s0);
    } else {
      var init, last := run[..|run| - 1], run[|run| - 1];
      var prev :| Reaches(s0, init, prev, false) && Enabled(prev, last, false) && s == Next(prev, last, false);
      ReachableCeiled(s0, init, prev);
      StepKeepsCeiled(s0.db, Requests(s0), prev, last);
    }
  }

  /******* What can be sold *******/

  /** A sale that some run of the mix can complete: open, and every line within the ceiling of its product. */
  ghost predicate CanSell(db0: Store, reqs: seq<Request>, req: Request) {
    && req.Complete? && req.id < |db0.sales| && !db0.sales[req.id].completed
    && Covers(CapAt(db0, Movers(db0, reqs)), db0.sales[req.id].lines)
  }

  lemma CoversMore(cap: nat -> int, higher: nat -> int, lines: seq<Line>)
    requires Covers(cap, lines) && forall p: nat :: cap(p) <= higher(p)
    ensures Covers(higher, lines)
  {
  }

  /** Without locks too, stock stays within the ceiling, and only sales within it are ever completed. */
  lemma SoldWithinCeiling(s0: System, run: seq<Action>, s: System)
    requires Init(s0) && NamesExisting(s0.db, Requests(s0)) && Reaches(s0, run, s, false)
    ensures forall p: nat :: StockOf(s.db, p) <= Cap(s0.db, Movers(s0.db, Requests(s0)), p)
    ensures forall t :: 0 <= t < |s.txns| && s.txns[t].req.Complete? && s.txns[t].phase == Done(Ok) ==>
              CanSell(s0.db, Requests(s0), s.txns[t].req)
  {
    var db0, reqs := s0.db, Requests(s0);
    ReachableCeiled(s0, run, s);
    var cap, higher := CapAt(db0, Spent(db0, s.db)), CapAt(db0, Movers(db0, reqs));
    CapsRise(db0, Spent(db0, s.db), Movers(db0, reqs));
    forall t | 0 <= t < |s.txns| && s.txns[t].req.Complete? && s.txns[t].phase == Done(Ok)
      ensures CanSell(db0, reqs, s.txns[t].req)
    {
      assert TxnUnder(db0, cap, s.db, s.txns[t]);
      CoversMore(cap, higher, db0.sales[s.txns[t].req.id].lines);
    }
    forall p: nat ensures StockOf(s.db, p) <= Cap(db0, Movers(db0, reqs), p) {
      assert StockOf(s.db, p) <= cap(p) <= higher(p);
    }
  }
}
