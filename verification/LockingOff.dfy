/**
 The endpoints with INVENTORY_LOCKING_ENABLED on or off: what holds of the stock either way. With the switch off
 `complete` locks nothing, and what the other endpoints lock does not protect against it.
 */
module LockingOff {
  import opened Sums
  import opened Ledger
  import opened Endpoints
  import opened History
  import opened RowLocks

  /** Units that sales and write-offs take out. */
  function DrawnFor(p: nat): Entry -> int {
    (row: Entry) => if row.product == p && (row.kind == Sale || row.kind == Damage) then row.quantity else 0
  }

  function Drawn(ledger: seq<Entry>, p: nat): int {
    Sum(DrawnFor(p), ledger)
  }

  lemma DrawnIsNonNegative(ledger: seq<Entry>, p: nat)
    ensures Drawn(ledger, p) >= 0
  {
    SumBounds(DrawnFor(p), ledger);
  }

  lemma DrawnIsTotals(ledger: seq<Entry>, p: nat)
    ensures Drawn(ledger, p) == Total(ledger, Sale, p) + Total(ledger, Damage, p)
  {
    SumAdd(OfKind(Sale, p), OfKind(Damage, p), DrawnFor(p), ledger);
  }

  /** The opening stock minus everything the ledger says was taken out since. */
  function Floor(db0: Store, db: Store, p: nat): int {
    StockOf(db0, p) - (Drawn(db.ledger, p) - Drawn(db0.ledger, p))
  }

  /** A value read for product `p`: not negative, and not below the floor less what the reader has itself taken out. */
  ghost predicate Above(db0: Store, db: Store, writes: Writes, p: nat, value: int) {
    value >= 0 && value >= Floor(db0, db, p) - Drawn(writes.rows, p)
  }

  ghost predicate WritesAbove(db0: Store, db: Store, writes: Writes) {
    forall p <- writes.stock :: Above(db0, db, writes, p, writes.stock[p])
  }

  /** Copies read at different times, locked or not: each was enough for its line and above the floor. */
  ghost predicate CopiesAbove(db0: Store, db: Store, items: seq<Line>, copies: seq<int>) {
    && |copies| <= |items|
    && forall k :: 0 <= k < |copies| ==>
         items[k].quantity <= copies[k] && copies[k] >= Floor(db0, db, items[k].product)
  }

  ghost predicate Bounded(db0: Store, db: Store, t: Txn) {
    && WritesAbove(db0, db, t.writes)
    && match t.phase
       case Start => t.writes == BLANK
       case Opened => t.writes == BLANK
       case Holding(items, i, value) => i < |items| ==> Above(db0, db, t.writes, items[i].product, value)
       case Checking(items, copies) => CopiesAbove(db0, db, items, copies) && t.writes == BLANK
       case Deducting(items, copies, _) => CopiesAbove(db0, db, items, copies)
       case Counted(_) => t.writes == BLANK
       case Read(p, value) =>
         && Above(db0, db, t.writes, p, value) && t.writes == BLANK
         && (t.req.WriteOff? ==> p == t.req.product && t.req.amount <= value)
       case _ => true
  }

  ghost predicate StockAbove(db0: Store, db: Store) {
    forall p: nat :: StockOf(db, p) >= 0 && StockOf(db, p) >= Floor(db0, db, p)
  }

  ghost predicate Inv(db0: Store, s: System) {
    && |s.db.stock| == |db0.stock| && StockAbove(db0, s.db)
    && forall t <- s.txns :: Bounded(db0, s.db, t)
  }

  /******* Own steps *******/

  lemma SeenAbove(db0: Store, db: Store, writes: Writes, p: nat)
    requires StockAbove(db0, db) && WritesAbove(db0, db, writes)
    ensures Above(db0, db, writes, p, StockSeen(db, writes, p))
  {
    DrawnIsNonNegative(writes.rows, p);
  }

  /** Saving keeps the writes above when the new value is above together with the new row. */
  lemma SavesAbove(db0: Store, db: Store, t: Txn, line: Line, value: int, kind: Kind, ref: Ref, phase: Phase)
    requires WritesAbove(db0, db, t.writes) && value >= 0
    requires var row := Entry(line.product, line.quantity, kind, ref);
             value >= Floor(db0, db, line.product) - Drawn(t.writes.rows, line.product) - DrawnFor(line.product)(row)
    ensures WritesAbove(db0, db, Save(t, line, value, kind, ref, phase).writes)
  {
    var row := Entry(line.product, line.quantity, kind, ref);
    var saved := Save(t, line, value, kind, ref, phase).writes;
    forall p | p in saved.stock ensures Above(db0, db, saved, p, saved.stock[p]) {
      SumSnoc(DrawnFor(p), t.writes.rows, row);
    }
  }

  lemma ReceiveStep(db0: Store, db: Store, t: Txn, id: nat, fetched: seq<Line>)
    requires StockAbove(db0, db) && Bounded(db0, db, t) && t.req == Receive(id)
    ensures Bounded(db0, db, AdvanceReceive(db, t, id, fetched))
  {
    match t.phase
    case Receiving(items, i) =>
      if i < |items| {
        SeenAbove(db0, db, t.writes, items[i].product);
      }
    case Holding(items, i, value) =>
      if i < |items| {
        var value' := value + items[i].quantity;
        SavesAbove(db0, db, t, items[i], value', Purchase, PurchaseRef(id), Receiving(items, i + 1));
      }
    case _ =>
  }

  lemma CompleteStep(db0: Store, db: Store, t: Txn, id: nat, fetched: seq<Line>)
    requires StockAbove(db0, db) && Bounded(db0, db, t) && t.req == Complete(id)
    ensures Bounded(db0, db, AdvanceComplete(db, t, id, fetched))
  {
    match t.phase
    case Checking(items, copies) =>
      if |copies| < |items| {
        SeenAbove(db0, db, t.writes, items[|copies|].product);
      }
    case Deducting(items, copies, i) =>
      if i < |items| && i < |copies| {
        var value' := copies[i] - items[i].quantity;
        DrawnIsNonNegative(t.writes.rows, items[i].product);
        SavesAbove(db0, db, t, items[i], value', Sale, SaleRef(id), Deducting(items, copies, i + 1));
      }
    case _ =>
  }

  lemma ApproveStep(db0: Store, db: Store, t: Txn, id: nat)
    requires StockAbove(db0, db) && Bounded(db0, db, t) && t.req == Approve(id)
    ensures Bounded(db0, db, AdvanceApprove(db, t, id))
  {
    match t.phase
    case Opened =>
      if id < |db.notes| {
        SeenAbove(db0, db, t.writes, db.notes[id].product);
      }
    case Read(p, value) =>
      if id < |db.notes| {
        var line := Line(p, db.notes[id].quantity);
        SavesAbove(db0, db, t, line, value + line.quantity, Return, ReturnRef(id), Written([]));
      }
    case _ =>
  }

  lemma WriteOffStep(db0: Store, db: Store, t: Txn, product: nat, amount: int)
    requires StockAbove(db0, db) && Bounded(db0, db, t) && t.req == WriteOff(product, amount)
    ensures Bounded(db0, db, AdvanceWriteOff(db, t, product, amount))
  {
    match t.phase
    case Start => SeenAbove(db0, db, t.writes, product);
    case Read(p, value) =>
      if amount >= 1 {
        SavesAbove(db0, db, t, Line(product, amount), value - amount, Damage, NoRef, Written([]));
      }
    case _ =>
  }

  lemma OwnStep(db0: Store, db: Store, t: Txn, fetched: seq<Line>)
    requires StockAbove(db0, db) && Bounded(db0, db, t)
    ensures Bounded(db0, db, Advance(db, t, fetched))
  {
    if !t.phase.Written? && !t.phase.Refused? {
      match t.req
      case Receive(id) => ReceiveStep(db0, db, t, id, fetched);
      case Complete(id) => CompleteStep(db0, db, t, id, fetched);
      case Approve(id) => ApproveStep(db0, db, t, id);
      case WriteOff(product, amount) => WriteOffStep(db0, db, t, product, amount);
      case _ =>
    }
  }

  /******* Commits *******/

  lemma FloorDrops(db0: Store, db: Store, writes: Writes, p: nat)
    ensures Floor(db0, Apply(db, writes), p) == Floor(db0, db, p) - Drawn(writes.rows, p)
    ensures Floor(db0, Apply(db, writes), p) <= Floor(db0, db, p)
  {
    SumConcat(DrawnFor(p), db.ledger, writes.rows);
    DrawnIsNonNegative(writes.rows, p);
  }

  lemma CommitKeepsStock(db0: Store, db: Store, writes: Writes)
    requires StockAbove(db0, db) && WritesAbove(db0, db, writes)
    ensures StockAbove(db0, Apply(db, writes))
  {
    var after := Apply(db, writes);
    forall p: nat ensures StockOf(after, p) >= 0 && StockOf(after, p) >= Floor(db0, after, p) {
      FloorDrops(db0, db, writes, p);
    }
  }

  lemma CommitKeepsOther(db0: Store, db: Store, writes: Writes, u: Txn)
    requires Bounded(db0, db, u)
    ensures Bounded(db0, Apply(db, writes), u)
  {
    forall p: nat ensures Floor(db0, Apply(db, writes), p) <= Floor(db0, db, p) {
      FloorDrops(db0, db, writes, p);
    }
  }

  lemma LocksDoNotMatter(db0: Store, db: Store, t: Txn, held: set<Row>)
    requires Bounded(db0, db, t)
    ensures Bounded(db0, db, t.(held := held))
  {
  }

  lemma MoverStaysBounded(db0: Store, s: System, a: Action, locking: bool)
    requires Inv(db0, s) && Enabled(s, a, locking)
    ensures Bounded(db0, s.db, Next(s, a, locking).txns[a.tid])
  {
    var t := s.txns[a.tid];
    assert Bounded(db0, s.db, t);
    if a.Go? {
      OwnStep(db0, s.db, t, a.fetched);
      LocksDoNotMatter(db0, s.db, Advance(s.db, t, a.fetched), t.held + Wants(s.db, t, locking));
    }
  }

  lemma StepKeepsInv(db0: Store, s: System, a: Action, locking: bool)
    requires Inv(db0, s) && Enabled(s, a, locking)
    ensures Inv(db0, Next(s, a, locking))
  {
    var t := s.txns[a.tid];
    var s' := Next(s, a, locking);
    MoverStaysBounded(db0, s, a, locking);
    assert Bounded(db0, s.db, t);
    if a.Go? && t.phase.Written? {
      CommitKeepsStock(db0, s.db, t.writes);
      forall u | u in s'.txns ensures Bounded(db0, s'.db, u) {
        CommitKeepsOther(db0, s.db, t.writes, u);
      }
    } else {
      assert forall u <- s'.txns :: u == s'.txns[a.tid] || u in s.txns;
    }
  }

  lemma {:induction false} ReachableInv(s0: System, run: seq<Action>, s: System, locking: bool)
    requires Init(s0) && NonNegative(s0.db) && Reaches(s0, run, s, locking)
    ensures Inv(s0.db, s)
  {
    if run != [] {
      var init, last := run[..|run| - 1], run[|run| - 1];
      var prev :| Reaches(s0, init, prev, locking) && Enabled(prev, last, locking) && s == Next(prev, last, locking);
      ReachableInv(s0, init, prev, locking);
      StepKeepsInv(s0.db, prev, last, locking);
    }
  }

  /** Locked or not, under any mix of requests, stock is never negative and never below the opening stock minus what
      the ledger says was sold and written off. */
  lemma StockKeepsItsFloor(s0: System, run: seq<Action>, s: System, locking: bool, p: nat)
    requires Init(s0) && NonNegative(s0.db) && Reaches(s0, run, s, locking) && p < |s0.db.stock|
    ensures |s.db.stock| == |s0.db.stock| && s.db.stock[p] >= 0
    ensures s.db.stock[p] >= s0.db.stock[p] - (Total(s.db.ledger, Sale, p) - Total(s0.db.ledger, Sale, p))
                                            - (Total(s.db.ledger, Damage, p) - Total(s0.db.ledger, Damage, p))
  {
    ReachableInv(s0, run, s, locking);
    assert StockOf(s.db, p) >= Floor(s0.db, s.db, p);
    DrawnIsTotals(s.db.ledger, p);
    DrawnIsTotals(s0.db.ledger, p);
  }
}
