/** Unlocked sales beside other requests: while nobody commits what another has read, stock and ledger stay in step. */
module MixInStep {
  import opened Ledger
  import opened Endpoints
  import opened History
  import opened RowLocks
  import opened Ceilings
  import Sales = UnlockedSales

  /******* What a transaction has read and written, in terms of the committed store *******/

  ghost predicate CopiesAre(db: Store, items: seq<Line>, copies: seq<int>) {
    |copies| <= |items| && forall k :: 0 <= k < |copies| ==> copies[k] == StockOf(db, items[k].product)
  }

  /** A sale; only one that may still `succeed` needs its copies to be current. */
  ghost predicate SaleCurrent(db: Store, t: Txn, id: nat, succeeds: bool) {
    && match t.phase
       case Start => t.held == {} && t.writes == BLANK
       case Opened => t.held == {} && t.writes == BLANK
       case Checking(items, copies) =>
         t.held == {} && t.writes == BLANK && |copies| <= |items| && (succeeds ==> CopiesAre(db, items, copies))
       case Deducting(items, copies, i) =>
         && succeeds && CopiesAre(db, items, copies) && i <= |items| == |copies|
         && t.held == Locked.ProductRows(items[..i]) && t.writes == Locked.CompleteWrites(db, id, items[..i])
       case Written(items) =>
         && succeeds && t.held == Locked.ProductRows(items) + {SaleRow(id)}
         && t.writes == Locked.CompleteWrites(db, id, items).(mark := MarkCompleted(id))
       case _ => true
  }

  ghost predicate SoldOf(db: Store, sale: nat, product: nat) {
    sale < |db.sales| && db.sales[sale].completed && Qty(db.sales[sale].lines, product) != 0
  }

  ghost predicate ReturnCurrent(db: Store, t: Txn, sale: nat, product: nat) {
    && t.writes.stock == map[] && t.writes.rows == []
    && match t.phase
       case Start => t.held == {} && t.writes == BLANK
       case Opened =>
         sale < |db.sales| && db.sales[sale].completed && t.held == {SaleRow(sale)} && t.writes == BLANK
       case Counted(_) => SoldOf(db, sale, product) && t.held == {SaleRow(sale)} && t.writes == BLANK
       case Written(_) =>
         && SoldOf(db, sale, product) && t.held == {SaleRow(sale)} && t.writes.mark.AddNote?
         && t.writes.mark.note.sale == sale && t.writes.mark.note.product == product
       case _ => t.phase.Refused? || Finished(t)
  }

  ghost predicate Current(db: Store, t: Txn, succeeds: bool) {
    if t.phase.Refused? || Finished(t) then true
    else
      match t.req
      case Complete(id) => SaleCurrent(db, t, id, succeeds)
      case FileReturn(sale, product, _) => ReturnCurrent(db, t, sale, product)
      case _ => Locked.Agrees(db, t)
  }

  /** Stock and ledger have moved together. */
  ghost predicate SameSurplus(db: Store, after: Store) {
    && |after.stock| == |db.stock|
    && forall p: nat :: p < |db.stock| ==> Surplus(after, p) == Surplus(db, p)
  }

  /** `able` are the sales that may succeed. */
  ghost predicate InStep(db0: Store, able: set<nat>, s: System) {
    && WellFormed(s.db) && Locked.Exclusive(s)
    && SameSurplus(db0, s.db)
    && forall t :: 0 <= t < |s.txns| ==> Current(s.db, s.txns[t], t in able)
  }

  /** The products a transaction relies on. */
  function Seen(t: Txn): set<nat> {
    if t.phase.Refused? || Finished(t) then {}
    else if t.req.Complete? then
      match t.phase
      case Checking(items, copies) => if |copies| <= |items| then Products(items[..|copies|]) else {}
      case Deducting(items, _, _) => Products(items)
      case Written(items) => Products(items)
      case _ => {}
    else set row <- t.held | row.ProductRow? :: row.id
  }

  /** Only able sales save anything, and none of them repeats a product. */
  ghost predicate OnlyAbleSave(able: set<nat>, s: System) {
    forall t :: 0 <= t < |s.txns| && s.txns[t].req.Complete?
                && (s.txns[t].phase.Deducting? || s.txns[t].phase.Written?) ==>
      t in able && DistinctProducts(s.txns[t].phase.items)
  }

  /** The commit leaves the stock of `products` as it is. */
  ghost predicate Spares(db: Store, w: Writes, products: set<nat>) {
    forall p <- w.stock :: p in products ==> w.stock[p] == StockOf(db, p)
  }

  /** Nobody is about to change a product that an able sale relies on. */
  ghost predicate NoClash(able: set<nat>, s: System) {
    forall t, u :: 0 <= t < |s.txns| && 0 <= u < |s.txns| && t != u
                   && s.txns[t].phase.Written? && s.txns[u].req.Complete? && u in able ==>
      Spares(s.db, s.txns[t].writes, Seen(s.txns[u]))
  }

  /******* Own steps *******/

  lemma SaleChecks(db: Store, t: Txn, id: nat, succeeds: bool, fetched: seq<Line>)
    requires SaleCurrent(db, t, id, succeeds) && t.req == Complete(id) && t.phase.Checking?
    requires |t.phase.copies| == |t.phase.items| ==> succeeds
    ensures Current(db, Moved(db, t, fetched), succeeds)
  {
    var items := t.phase.items;
    assert t.held + {} == t.held;
    assert items[..0] == [] && Locked.ProductRows([]) == {};
  }

  lemma SaleSaves(db: Store, t: Txn, id: nat, succeeds: bool, fetched: seq<Line>)
    requires SaleCurrent(db, t, id, succeeds) && t.req == Complete(id) && t.phase.Deducting?
    ensures Current(db, Moved(db, t, fetched), succeeds)
  {
    if t.phase.i < |t.phase.items| {
      SaleSavesOne(db, t, id, fetched, t.phase.items, t.phase.copies, t.phase.i);
    } else {
      assert t.phase.items[..t.phase.i] == t.phase.items;
    }
  }

  lemma SaleSavesOne(
    db: Store, t: Txn, id: nat, fetched: seq<Line>, items: seq<Line>, copies: seq<int>, i: nat)
    requires t.req == Complete(id) && t.phase == Deducting(items, copies, i) && i < |items| == |copies|
    requires copies[i] == StockOf(db, items[i].product)
    requires t.held == Locked.ProductRows(items[..i]) && t.writes == Locked.CompleteWrites(db, id, items[..i])
    ensures Moved(db, t, fetched)
         == Txn(t.req, Deducting(items, copies, i + 1), Locked.ProductRows(items[..i + 1]),
                Locked.CompleteWrites(db, id, items[..i + 1]))
  {
    Sales.DeductIsSave(db, t, fetched, items, copies, i);
    Locked.CompleteWritesGrow(db, t, id, items, i, copies[i], Deducting(items, copies, i + 1));
    Locked.ProductRowsSnoc(items, i);
  }

  lemma SaleSteps(db: Store, t: Txn, id: nat, succeeds: bool, fetched: seq<Line>)
    requires SaleCurrent(db, t, id, succeeds) && t.req == Complete(id)
    requires !t.phase.Written? && !t.phase.Refused? && !Finished(t)
    requires Advance(db, t, fetched).phase.Deducting? ==> succeeds
    ensures Current(db, Moved(db, t, fetched), succeeds)
  {
    assert t.held + {} == t.held;
    match t.phase
    case Checking(_, _) => SaleChecks(db, t, id, succeeds, fetched);
    case Deducting(_, _, _) => SaleSaves(db, t, id, succeeds, fetched);
    case _ =>
  }

  lemma ReturnSteps(db: Store, t: Txn, sale: nat, product: nat, amount: int, fetched: seq<Line>)
    requires ReturnCurrent(db, t, sale, product) && t.req == FileReturn(sale, product, amount)
    requires !t.phase.Written? && !t.phase.Refused? && !Finished(t)
    ensures Current(db, Moved(db, t, fetched), false)
  {
    assert t.held + {} == t.held && {} + {SaleRow(sale)} == {SaleRow(sale)};
  }

  lemma OwnStep(db: Store, t: Txn, succeeds: bool, fetched: seq<Line>)
    requires WellFormed(db) && Current(db, t, succeeds) && FetchOk(db, t, fetched)
    requires !t.phase.Written? && !t.phase.Refused? && !Finished(t)
    requires t.req.Complete? && Advance(db, t, fetched).phase.Deducting? ==> succeeds
    ensures Current(db, Moved(db, t, fetched), succeeds)
  {
    match t.req
    case Complete(id) => SaleSteps(db, t, id, succeeds, fetched);
    case FileReturn(sale, product, amount) => ReturnSteps(db, t, sale, product, amount, fetched);
    case _ =>
      KeepsHeld(db, t, fetched);
      if !Advance(db, t, fetched).phase.Done? {
        Locked.OwnStep(db, t, fetched);
      }
  }

  /******* Commits: the store *******/

  lemma SaleSurplus(db: Store, id: nat, items: seq<Line>, p: nat)
    requires DistinctProducts(items) && (forall line <- items :: line.quantity > 0) && p < |db.stock|
    ensures var w := Locked.CompleteWrites(db, id, items).(mark := MarkCompleted(id));
            |Apply(db, w).stock| == |db.stock| && Surplus(Apply(db, w), p) == Surplus(db, p)
  {
    var w := Locked.CompleteWrites(db, id, items).(mark := MarkCompleted(id));
    Sales.LastIsAll(items, items, p);
    RowsAmount(items, Sale, SaleRef(id), p);
    QtyBounds(items, p);
    SurplusAdds(db, Apply(db, w), w.rows, p);
  }

  lemma SaleWellFormed(db: Store, w: Writes, id: nat)
    requires WellFormed(db) && w.mark == MarkCompleted(id)
    ensures WellFormed(Apply(db, w))
  {
    var after := Apply(db, w);
    forall order | order in after.sales ensures LinesFit(order.lines, |after.stock|) {
      var k :| 0 <= k < |after.sales| && after.sales[k] == order;
      assert db.sales[k] in db.sales;
    }
  }

  lemma ReturnFiled(db: Store, t: Txn, sale: nat, product: nat)
    requires WellFormed(db) && ReturnCurrent(db, t, sale, product) && t.phase.Written?
    ensures var after := Apply(db, t.writes);
            && WellFormed(after) && after.stock == db.stock && after.ledger == db.ledger
  {
    var after := Apply(db, t.writes);
    assert Overwritten(db.stock, map[]) == db.stock;
    assert db.sales[sale] in db.sales;
    QtyBounds(db.sales[sale].lines, product);
    assert exists line <- db.sales[sale].lines :: line.product == product;
  }

  lemma CallSurplus(db: Store, t: Txn, p: nat)
    requires WellFormed(db) && Locked.Agrees(db, t) && t.phase.Written? && !t.req.Complete? && p < |db.stock|
    ensures WellFormed(Apply(db, t.writes)) && |Apply(db, t.writes).stock| == |db.stock|
    ensures Surplus(Apply(db, t.writes), p) == Surplus(db, p)
  {
    Locked.CommitIsServe(db, t);
    StepSurplus(db, Event(0, t.req, t.phase.items, CommitReply(db, t.writes.mark)), p);
  }

  lemma PositiveLines(db: Store, id: nat, items: seq<Line>)
    requires WellFormed(db) && id < |db.sales| && multiset(items) == multiset(db.sales[id].lines)
    ensures LinesFit(items, |db.stock|)
  {
    assert db.sales[id] in db.sales;
    MembersPermuted(items, db.sales[id].lines);
  }

  lemma SaleKeepsSurplus(db: Store, t: Txn, id: nat, succeeds: bool)
    requires WellFormed(db) && t.req == Complete(id) && SaleCurrent(db, t, id, succeeds) && t.phase.Written?
    requires DistinctProducts(t.phase.items) && LinesFit(t.phase.items, |db.stock|)
    ensures WellFormed(Apply(db, t.writes)) && SameSurplus(db, Apply(db, t.writes))
  {
    SaleWellFormed(db, t.writes, id);
    forall p: nat | p < |db.stock| ensures Surplus(Apply(db, t.writes), p) == Surplus(db, p) {
      SaleSurplus(db, id, t.phase.items, p);
    }
  }

  lemma ReturnKeepsSurplus(db: Store, t: Txn, sale: nat, product: nat)
    requires WellFormed(db) && ReturnCurrent(db, t, sale, product) && t.phase.Written?
    ensures WellFormed(Apply(db, t.writes)) && SameSurplus(db, Apply(db, t.writes))
  {
    ReturnFiled(db, t, sale, product);
  }

  lemma CallKeepsSurplus(db: Store, t: Txn)
    requires WellFormed(db) && Locked.Agrees(db, t) && t.phase.Written? && !t.req.Complete?
    ensures WellFormed(Apply(db, t.writes)) && SameSurplus(db, Apply(db, t.writes))
  {
    CommitWellFormed(db, t);
    forall p: nat | p < |db.stock| ensures Surplus(Apply(db, t.writes), p) == Surplus(db, p) {
      CallSurplus(db, t, p);
    }
  }

  /** The committed store is well formed, and stock and ledger have moved together. */
  lemma CommitKeepsSurplus(db: Store, t: Txn, succeeds: bool)
    requires WellFormed(db) && Current(db, t, succeeds) && t.phase.Written?
    requires t.req.Complete? ==> DistinctProducts(t.phase.items) && LinesFit(t.phase.items, |db.stock|)
    ensures WellFormed(Apply(db, t.writes)) && SameSurplus(db, Apply(db, t.writes))
  {
    match t.req
    case Complete(id) => SaleKeepsSurplus(db, t, id, succeeds);
    case FileReturn(sale, product, _) => ReturnKeepsSurplus(db, t, sale, product);
    case _ => CallKeepsSurplus(db, t);
  }

  lemma CommitWellFormed(db: Store, t: Txn)
    requires WellFormed(db) && Locked.Agrees(db, t) && t.phase.Written?
    ensures WellFormed(Apply(db, t.writes))
  {
    Locked.CommitIsServe(db, t);
  }

  /******* Commits: everybody else *******/

  lemma CopiesStay(db: Store, after: Store, items: seq<Line>, copies: seq<int>)
    requires CopiesAre(db, items, copies)
    requires forall p <- Products(items[..|copies|]) :: StockOf(after, p) == StockOf(db, p)
    ensures CopiesAre(after, items, copies)
  {
    forall k | 0 <= k < |copies| ensures copies[k] == StockOf(after, items[k].product) {
      assert items[..|copies|][k] == items[k];
    }
  }

  lemma WritesStay(db: Store, after: Store, id: nat, items: seq<Line>)
    requires forall p <- Products(items) :: StockOf(after, p) == StockOf(db, p)
    ensures Locked.CompleteWrites(after, id, items) == Locked.CompleteWrites(db, id, items)
  {
  }

  lemma SaleStaysCurrent(db: Store, after: Store, u: Txn, id: nat, succeeds: bool)
    requires SaleCurrent(db, u, id, succeeds) && u.req == Complete(id) && !u.phase.Refused? && !Finished(u)
    requires succeeds ==> forall p <- Seen(u) :: StockOf(after, p) == StockOf(db, p)
    ensures SaleCurrent(after, u, id, succeeds)
  {
    match u.phase
    case Checking(items, copies) =>
      if succeeds {
        CopiesStay(db, after, items, copies);
      }
    case Deducting(items, copies, i) =>
      assert items[..|copies|] == items;
      CopiesStay(db, after, items, copies);
      assert forall p <- Products(items[..i]) :: p in Products(items);
      WritesStay(db, after, id, items[..i]);
    case Written(items) => WritesStay(db, after, id, items);
    case _ =>
  }

  /** Sales only gain statuses and new rows. */
  ghost predicate SalesGrow(db: Store, after: Store) {
    && |db.sales| <= |after.sales|
    && forall k :: 0 <= k < |db.sales| ==>
         after.sales[k].lines == db.sales[k].lines && (db.sales[k].completed ==> after.sales[k].completed)
  }

  lemma ReturnStaysCurrent(db: Store, after: Store, u: Txn, sale: nat, product: nat)
    requires ReturnCurrent(db, u, sale, product) && SalesGrow(db, after)
    ensures ReturnCurrent(after, u, sale, product)
  {
  }

  lemma CommitGrowsSales(db: Store, w: Writes)
    ensures SalesGrow(db, Apply(db, w))
  {
  }

  /** A sale's commit changes nothing that a request beside it holds. */
  lemma SaleLeavesRows(db: Store, w: Writes, id: nat, rows: set<Row>)
    requires w.mark == MarkCompleted(id)
    requires forall k: nat :: ProductRow(k) in rows ==> k !in w.stock
    requires forall k: nat :: SaleRow(k) !in rows
    ensures Locked.SameOn(db, Apply(db, w), rows)
  {
  }

  lemma NoSaleHeld(db: Store, u: Txn)
    requires Locked.Agrees(db, u) && !u.req.Complete? && !u.req.FileReturn? && !u.phase.Refused?
    ensures forall k: nat :: SaleRow(k) !in u.held
  {
  }

  /** An UPDATE has locked every product a sale saves. */
  lemma SavedIsLocked(db: Store, t: Txn, id: nat, able: bool)
    requires SaleCurrent(db, t, id, able) && t.phase.Written?
    ensures forall k: nat :: k in t.writes.stock ==> ProductRow(k) in t.held
  {
  }

  lemma SaleLeavesCall(db: Store, t: Txn, u: Txn, id: nat, able: bool)
    requires t.req == Complete(id) && SaleCurrent(db, t, id, able) && t.phase.Written? && t.held !! u.held
    requires !u.phase.Refused? && !Finished(u) && !u.req.Complete? && !u.req.FileReturn? && Locked.Agrees(db, u)
    ensures Locked.SameOn(db, Apply(db, t.writes), u.held)
  {
    NoSaleHeld(db, u);
    SavedIsLocked(db, t, id, able);
    SaleLeavesRows(db, t.writes, id, u.held);
  }

  lemma CallLeavesCall(db: Store, t: Txn, rows: set<Row>)
    requires Locked.Agrees(db, t) && t.phase.Written? && t.held !! rows
    ensures Locked.SameOn(db, Apply(db, t.writes), rows)
  {
    Locked.WritesWithinLocks(db, t);
    Locked.CommitFrame(db, t.writes, t.held, rows);
  }

  lemma ReturnLeavesCall(db: Store, t: Txn, sale: nat, product: nat, rows: set<Row>)
    requires ReturnCurrent(db, t, sale, product) && t.phase.Written? && t.held !! rows
    ensures Locked.SameOn(db, Apply(db, t.writes), rows)
  {
    Locked.CommitFrame(db, t.writes, t.held, rows);
  }

  /** What a request beside the sales has read stays true. */
  lemma CallStaysCurrent(db: Store, t: Txn, u: Txn, able: bool)
    requires Current(db, t, able) && t.phase.Written? && t.held !! u.held
    requires !u.phase.Refused? && !Finished(u) && !u.req.Complete? && !u.req.FileReturn? && Locked.Agrees(db, u)
    ensures Locked.Agrees(Apply(db, t.writes), u)
  {
    match t.req {
      case Complete(id) => SaleLeavesCall(db, t, u, id, able);
      case FileReturn(sale, product, _) => ReturnLeavesCall(db, t, sale, product, u.held);
      case _ => CallLeavesCall(db, t, u.held);
    }
    Locked.Frame(db, Apply(db, t.writes), u);
  }

  lemma OtherStaysCurrent(db: Store, t: Txn, ableT: bool, u: Txn, ableU: bool)
    requires WellFormed(db) && Current(db, t, ableT) && t.phase.Written? && t.held !! u.held
    requires Current(db, u, ableU)
    requires u.req.Complete? && ableU ==> Spares(db, t.writes, Seen(u))
    ensures Current(Apply(db, t.writes), u, ableU)
  {
    if !u.phase.Refused? && !Finished(u) {
      match u.req
      case Complete(id) => SaleStaysCurrent(db, Apply(db, t.writes), u, id, ableU);
      case FileReturn(sale, product, _) =>
        CommitGrowsSales(db, t.writes);
        ReturnStaysCurrent(db, Apply(db, t.writes), u, sale, product);
      case _ => CallStaysCurrent(db, t, u, ableT);
    }
  }

  lemma CreatorsSeeNothing(db: Store, t: Txn)
    requires Current(db, t, false) && (t.req.CreatePurchase? || t.req.CreateSale? || t.req.FileReturn?)
    ensures Seen(t) == {}
  {
    if !t.phase.Refused? && !Finished(t) {
      assert forall row <- t.held :: !row.ProductRow?;
    }
  }

  /** What a request beside the sales writes is what it has locked. */
  lemma WritesAreSeen(db: Store, t: Txn, p: nat)
    requires Locked.Agrees(db, t) && t.phase.Written? && !t.req.Complete? && p in t.writes.stock
    ensures p in Seen(t)
  {
    Locked.WritesWithinLocks(db, t);
  }

  /******* Every step *******/

  lemma OthersStayCurrent(db0: Store, able: set<nat>, s: System, a: Action)
    requires InStep(db0, able, s) && NoClash(able, s) && Enabled(s, a, false) && a.Go? && s.txns[a.tid].phase.Written?
    ensures var s' := Next(s, a, false);
            forall u :: 0 <= u < |s'.txns| ==> Current(s'.db, s'.txns[u], u in able)
  {
    var t, s' := s.txns[a.tid], Next(s, a, false);
    forall u | 0 <= u < |s'.txns| ensures Current(s'.db, s'.txns[u], u in able) {
      if u != a.tid {
        OtherStaysCurrent(s.db, t, a.tid in able, s.txns[u], u in able);
      }
    }
  }

  lemma CommitStaysInStep(db0: Store, able: set<nat>, s: System, a: Action)
    requires InStep(db0, able, s) && OnlyAbleSave(able, s) && NoClash(able, s)
    requires Enabled(s, a, false) && a.Go? && s.txns[a.tid].phase.Written?
    requires s.txns[a.tid].req.Complete? ==> LinesFit(s.txns[a.tid].phase.items, |s.db.stock|)
    ensures InStep(db0, able, Next(s, a, false))
  {
    CommitKeepsSurplus(s.db, s.txns[a.tid], a.tid in able);
    NextKeepsExclusive(s, a);
    OthersStayCurrent(db0, able, s, a);
  }

  lemma QuietStaysInStep(db0: Store, able: set<nat>, s: System, a: Action)
    requires InStep(db0, able, s) && Enabled(s, a, false) && OnlyAbleSave(able, Next(s, a, false))
    requires a.Go? ==> !s.txns[a.tid].phase.Written?
    ensures InStep(db0, able, Next(s, a, false))
  {
    var t, s' := s.txns[a.tid], Next(s, a, false);
    NextKeepsExclusive(s, a);
    if a.Go? && !t.phase.Refused? {
      KeepsHeld(s.db, t, a.fetched);
      MoverStaysCurrent(db0, able, s, a);
    }
  }

  lemma MoverStaysCurrent(db0: Store, able: set<nat>, s: System, a: Action)
    requires InStep(db0, able, s) && Enabled(s, a, false) && OnlyAbleSave(able, Next(s, a, false))
    requires a.Go? && !s.txns[a.tid].phase.Written? && !s.txns[a.tid].phase.Refused?
    ensures Current(s.db, Next(s, a, false).txns[a.tid], a.tid in able)
  {
    var t, s' := s.txns[a.tid], Next(s, a, false);
    KeepsHeld(s.db, t, a.fetched);
    OwnStep(s.db, t, a.tid in able, a.fetched);
  }

  /** One step, when only able sales save and nobody is about to commit what another relies on. */
  lemma StepStaysInStep(db0: Store, able: set<nat>, s: System, a: Action)
    requires InStep(db0, able, s) && Enabled(s, a, false)
    requires OnlyAbleSave(able, s) && OnlyAbleSave(able, Next(s, a, false)) && NoClash(able, s)
    requires forall t <- s.txns :: t.req.Complete? && t.phase.Written? ==> LinesFit(t.phase.items, |s.db.stock|)
    ensures InStep(db0, able, Next(s, a, false))
  {
    if a.Go? && s.txns[a.tid].phase.Written? {
      CommitStaysInStep(db0, able, s, a);
    } else {
      QuietStaysInStep(db0, able, s, a);
    }
  }

  lemma StartsInStep(s0: System, able: set<nat>)
    requires Init(s0)
    ensures InStep(s0.db, able, s0)
  {
    forall t | 0 <= t < |s0.txns| ensures Current(s0.db, s0.txns[t], t in able) {
      assert s0.txns[t] in s0.txns;
    }
    forall t, u | 0 <= t < u < |s0.txns| ensures s0.txns[t].held !! s0.txns[u].held {
      assert s0.txns[t] in s0.txns;
    }
  }
}
