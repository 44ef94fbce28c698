/** The version-counter cache, one request at a time: the cached endpoint answers what the plain view would. */
module VersionCache {
  import opened Ledger
  import opened Endpoints

  /** The requesting user, the role and the query string: all a cached page is keyed by besides version and endpoint. */
  datatype Caller = Caller(user: nat, role: string, params: string)

  datatype Page<Body> = Page(status: int, data: Body)

  datatype Key = VersionKey(ns: string) | PageKey(ns: string, version: int, endpoint: string, caller: Caller)

  datatype Value<Body> = Number(n: int) | Stored(page: Page<Body>)

  datatype Option<T> = None | Some(value: T)

  /** What the plain view answers from the ledger; `generated_at` is not part of it. */
  type View<!Body> = (seq<Entry>, Caller) -> Page<Body>

  const NAMESPACE := "inventory"
  const ENDPOINT := "InventoryReportView"

  predicate Cacheable<Body>(page: Page<Body>) {
    200 <= page.status < 300
  }

  function VersionIn<Body>(entries: map<Key, Value<Body>>, ns: string, default: int): int {
    if VersionKey(ns) in entries && entries[VersionKey(ns)].Number? then entries[VersionKey(ns)].n else default
  }

  /** The page of one endpoint for one caller that is stored under the current version. */
  function Kept<Body>(entries: map<Key, Value<Body>>, endpoint: string, caller: Caller): Option<Page<Body>> {
    var key := PageKey(NAMESPACE, VersionIn(entries, NAMESPACE, 1), endpoint, caller);
    if key in entries && entries[key].Stored? then Some(entries[key].page) else None
  }

  /** The shared key-value store. */
  class Cache<Body> {
    var entries: map<Key, Value<Body>>

    /** Version keys hold numbers, page keys hold cacheable pages. */
    ghost predicate Typed()
      reads this
    {
      forall key <- entries :: match key
        case VersionKey(_) => entries[key].Number?
        case PageKey(_, _, _, _) => entries[key].Stored? && Cacheable(entries[key].page)
    }

    constructor ()
      ensures Typed() && entries == map[]
    {
      entries := map[];
    }

    /** Even a read writes: a missing key is set to 1. */
    method GetVersion(ns: string) returns (version: int)
      requires Typed()
      modifies this
      ensures Typed()
      ensures version == old(VersionIn(entries, ns, 1))
      ensures entries == old(entries)[VersionKey(ns) := Number(version)]
    {
      var key := VersionKey(ns);
      if key !in entries {
        entries := entries[key := Number(1)];
        return 1;
      }
      version := entries[key].n;
      assert entries == entries[key := Number(version)];
    }

    /** `incr`, or 2 when there is nothing to increment. */
    method BumpVersion(ns: string)
      requires Typed()
      modifies this
      ensures Typed()
      ensures entries == old(entries)[VersionKey(ns) := Number(old(VersionIn(entries, ns, 1)) + 1)]
    {
      var key := VersionKey(ns);
      if key in entries {
        entries := entries[key := Number(entries[key].n + 1)];
      } else {
        entries := entries[key := Number(2)];
      }
    }

    /** Pages expire at any time; the version key has no timeout. */
    method Expire(key: Key)
      requires Typed() && key.PageKey?
      modifies this
      ensures Typed() && entries == old(entries) - {key}
    {
      entries := entries - {key};
    }
  }

  /** A single-request-at-a-time site: the store behind the stock endpoints, the cache in front of the reports, and
      the plain inventory view. */
  class Site<Body> {
    const view: View<Body>
    const cache: Cache<Body>
    var db: Store

    /** Pages under the current version are current; nothing is stored under a later version or without a key. */
    ghost predicate Coherent()
      reads this, cache
    {
      && cache.Typed() && WellFormed(db)
      && forall key <- cache.entries :: key.PageKey? && key.ns == NAMESPACE ==>
           && VersionKey(NAMESPACE) in cache.entries
           && key.version <= cache.entries[VersionKey(NAMESPACE)].n
           && (key.version == cache.entries[VersionKey(NAMESPACE)].n && key.endpoint == ENDPOINT ==>
                 cache.entries[key].page == view(db.ledger, key.caller))
    }

    constructor (view: View<Body>, db: Store)
      requires WellFormed(db)
      ensures Coherent() && fresh(cache)
      ensures this.view == view && this.db == db && cache.entries == map[]
    {
      this.view, this.db := view, db;
      cache := new Cache();
    }

    /** An endpoint call: what it commits, and on a successful stock mutation the on-commit bump. */
    method Call(req: Request, items: seq<Line>) returns (reply: Reply)
      requires Coherent()
      modifies this, cache
      ensures Coherent() && Outcome(reply, db) == Serve(old(db), req, items)
      ensures VersionIn(cache.entries, NAMESPACE, 1)
           == old(VersionIn(cache.entries, NAMESPACE, 1)) + if reply.Ok? then 1 else 0
      ensures forall endpoint, caller ::
                Kept(cache.entries, endpoint, caller) ==
                (if reply.Ok? then None else old(Kept(cache.entries, endpoint, caller)))
    {
      var outcome := Serve(db, req, items);
      if outcome.reply.Ok? {
        cache.BumpVersion(NAMESPACE);
      } else {
        OnlyOkPosts(db, req, items);
      }
      db, reply := outcome.store, outcome.reply;
    }

    /** The decorated inventory report: hit or miss, the caller gets what the plain view says now. */
    method Read(caller: Caller) returns (page: Page<Body>, hit: bool)
      requires Coherent()
      modifies cache
      ensures Coherent()
      ensures page == view(db.ledger, caller)
      ensures Looked(old(cache.entries), ENDPOINT, caller, view(db.ledger, caller), page, hit, cache.entries)
    {
      page, hit := Cached(ENDPOINT, caller, view(db.ledger, caller));
    }

    /** Another decorated view of the same namespace; `plain` is whatever it would compute. */
    method ReadOther(endpoint: string, caller: Caller, plain: Page<Body>) returns (page: Page<Body>, hit: bool)
      requires Coherent() && endpoint != ENDPOINT
      modifies cache
      ensures Coherent()
      ensures Looked(old(cache.entries), endpoint, caller, plain, page, hit, cache.entries)
    {
      page, hit := Cached(endpoint, caller, plain);
    }

    /** `cached_response` around a view that would answer `plain`: a hit exactly when a page for this endpoint and
        caller is there under the current version, and after a miss the page is there if its status is 2xx. */
    method Cached(endpoint: string, caller: Caller, plain: Page<Body>) returns (page: Page<Body>, hit: bool)
      requires Coherent()
      requires endpoint == ENDPOINT ==> plain == view(db.ledger, caller)
      modifies cache
      ensures Coherent()
      ensures endpoint == ENDPOINT ==> page == plain
      ensures Looked(old(cache.entries), endpoint, caller, plain, page, hit, cache.entries)
    {
      var version := cache.GetVersion(NAMESPACE);
      var key := PageKey(NAMESPACE, version, endpoint, caller);
      if key in cache.entries {
        return cache.entries[key].page, true;
      }
      page, hit := plain, false;
      if Cacheable(page) {
        cache.entries := cache.entries[key := Stored(page)];
      }
    }

    method Expire(key: Key)
      requires Coherent() && key.PageKey?
      modifies cache
      ensures Coherent()
      ensures VersionIn(cache.entries, NAMESPACE, 1) == old(VersionIn(cache.entries, NAMESPACE, 1))
      ensures forall endpoint, caller :: Kept(cache.entries, endpoint, caller) ==
                if key == PageKey(NAMESPACE, VersionIn(cache.entries, NAMESPACE, 1), endpoint, caller) then None
                else old(Kept(cache.entries, endpoint, caller))
    {
      cache.Expire(key);
    }

    /** Any history of endpoint calls, reads, reads of other reports and expiries, one after another: each is answered
        as the history before it demands, and the report always is what the plain view says at that moment. */
    method Run(history: seq<Op<Body>>) returns (answers: seq<Answer<Body>>)
      requires Coherent()
      requires forall op <- history :: Legal(op)
      modifies this, cache
      ensures Coherent() && db == StoreAt(old(db), history, |history|)
      ensures |answers| == |history|
      ensures forall i :: 0 <= i < |history| ==> answers[i] == AnswerAt(view, old(db), old(cache.entries), history, i)
      ensures forall i :: 0 <= i < |history| && history[i].Read? ==>
                answers[i].Shown? && answers[i].page == view(StoreAt(old(db), history, i).ledger, history[i].caller)
      ensures VersionIn(cache.entries, NAMESPACE, 1)
           == VersionAt(old(db), old(cache.entries), history, |history|)
    {
      answers := [];
      for i := 0 to |history|
        invariant Coherent() && Tracks(view, old(db), old(cache.entries), history, i, db, cache.entries)
        invariant |answers| == i
        invariant forall j :: 0 <= j < i ==> answers[j] == AnswerAt(view, old(db), old(cache.entries), history, j)
        invariant forall j :: 0 <= j < i && history[j].Read? ==>
                    answers[j].Shown? && answers[j].page == view(StoreAt(old(db), history, j).ledger, history[j].caller)
      {
        assert Legal(history[i]);
        var answer := Step(old(db), old(cache.entries), history, i);
        answers := answers + [answer];
      }
    }

    /** Operation `n` of a history that started with `db0` and `entries0`. */
    method Step(ghost db0: Store, ghost entries0: map<Key, Value<Body>>, history: seq<Op<Body>>, n: nat)
      returns (answer: Answer<Body>)
      requires Coherent() && n < |history| && Legal(history[n])
      requires Tracks(view, db0, entries0, history, n, db, cache.entries)
      modifies this, cache
      ensures Coherent() && Tracks(view, db0, entries0, history, n + 1, db, cache.entries)
      ensures answer == AnswerAt(view, db0, entries0, history, n)
      ensures history[n].Read? ==> answer.Shown? && answer.page == view(old(db).ledger, history[n].caller)
    {
      ghost var entries := cache.entries;
      match history[n]
      case Call(req, items) =>
        var reply := Call(req, items);
        TracksCall(view, db0, entries0, history, n, entries, db, cache.entries);
        answer := Replied(reply);
      case Read(caller) =>
        var page, hit := Read(caller);
        TracksLookup(view, db0, entries0, history, n, db, entries, ENDPOINT, caller, page, hit, cache.entries);
        answer := Shown(page, hit);
      case Other(endpoint, caller, plain) =>
        var page, hit := ReadOther(endpoint, caller, plain);
        TracksLookup(view, db0, entries0, history, n, db, entries, endpoint, caller, page, hit, cache.entries);
        answer := Shown(page, hit);
      case Expiry(key) =>
        Expire(key);
        TracksExpiry(view, db0, entries0, history, n, db, entries, cache.entries);
        answer := Expired;
    }
  }

  /** What a lookup answers and leaves in the cache. */
  ghost predicate Looked<Body>(
    before: map<Key, Value<Body>>, endpoint: string, caller: Caller, plain: Page<Body>,
    page: Page<Body>, hit: bool, after: map<Key, Value<Body>>)
  {
    && VersionIn(after, NAMESPACE, 1) == VersionIn(before, NAMESPACE, 1)
    && (hit <==> Kept(before, endpoint, caller).Some?)
    && page == (if hit then Kept(before, endpoint, caller).value else plain)
    && (!hit && 200 <= plain.status < 300 ==> Kept(after, endpoint, caller) == Some(plain))
    && (!hit && !(200 <= plain.status < 300) ==> Kept(after, endpoint, caller) == None)
    && (forall e, c :: hit || (e, c) != (endpoint, caller) ==> Kept(after, e, c) == Kept(before, e, c))
  }

  /******* Histories *******/

  datatype Op<Body> =
    | Call(req: Request, items: seq<Line>)
    | Read(caller: Caller)
    | Other(endpoint: string, caller: Caller, plain: Page<Body>)
    | Expiry(key: Key)

  /** Only page keys expire, and other reports have other endpoint names. */
  predicate Legal<Body>(op: Op<Body>) {
    match op
    case Other(endpoint, _, _) => endpoint != ENDPOINT
    case Expiry(key) => key.PageKey?
    case _ => true
  }

  datatype Answer<Body> = Replied(reply: Reply) | Shown(page: Page<Body>, hit: bool) | Expired

  /** The database when operation `n` comes. */
  function StoreAt<Body>(db: Store, history: seq<Op<Body>>, n: nat): (before: Store)
    requires WellFormed(db) && n <= |history|
    ensures WellFormed(before)
  {
    if n == 0 then db
    else
      var before, op := StoreAt(db, history, n - 1), history[n - 1];
      if op.Call? then Serve(before, op.req, op.items).store else before
  }

  /** Operation `n` is a stock mutation that succeeds. */
  predicate Bumps<Body>(db: Store, history: seq<Op<Body>>, n: nat)
    requires WellFormed(db) && n < |history|
  {
    history[n].Call? && Serve(StoreAt(db, history, n), history[n].req, history[n].items).reply.Ok?
  }

  /** The counter when operation `n` comes: one more for every success before. */
  function VersionAt<Body>(db: Store, entries: map<Key, Value<Body>>, history: seq<Op<Body>>, n: nat): int
    requires WellFormed(db) && n <= |history|
  {
    if n == 0 then VersionIn(entries, NAMESPACE, 1)
    else VersionAt(db, entries, history, n - 1) + if Bumps(db, history, n - 1) then 1 else 0
  }

  predicate Asks<Body>(op: Op<Body>, endpoint: string, caller: Caller) {
    match op
    case Read(c) => endpoint == ENDPOINT && caller == c
    case Other(e, c, _) => endpoint == e && caller == c
    case _ => false
  }

  /** What the view itself answers to operation `n`. */
  function PlainAt<Body>(view: View<Body>, db: Store, history: seq<Op<Body>>, n: nat): Page<Body>
    requires WellFormed(db) && n < |history| && (history[n].Read? || history[n].Other?)
  {
    if history[n].Read? then view(StoreAt(db, history, n).ledger, history[n].caller) else history[n].plain
  }

  /** Operation `n` makes the cache forget the page: it moves stock, or the page's key expires. */
  predicate Forgets<Body>(
    db: Store, entries: map<Key, Value<Body>>, history: seq<Op<Body>>, n: nat, endpoint: string, caller: Caller)
    requires WellFormed(db) && n < |history|
  {
    || Bumps(db, history, n)
    || history[n] == Expiry(PageKey(NAMESPACE, VersionAt(db, entries, history, n), endpoint, caller))
  }

  /** The page held for the endpoint and caller when operation `n` comes. */
  function Remembered<Body>(
    view: View<Body>, db: Store, entries: map<Key, Value<Body>>, history: seq<Op<Body>>, n: nat,
    endpoint: string, caller: Caller): Option<Page<Body>>
    requires WellFormed(db) && n <= |history|
  {
    if n == 0 then Kept(entries, endpoint, caller)
    else
      var before := Remembered(view, db, entries, history, n - 1, endpoint, caller);
      if Forgets(db, entries, history, n - 1, endpoint, caller) then None
      else if before.None? && Asks(history[n - 1], endpoint, caller) then
        var plain := PlainAt(view, db, history, n - 1);
        if Cacheable(plain) then Some(plain) else None
      else before
  }

  function Lookup<Body>(held: Option<Page<Body>>, plain: Page<Body>): Answer<Body> {
    if held.Some? then Shown(held.value, true) else Shown(plain, false)
  }

  function AnswerAt<Body>(
    view: View<Body>, db: Store, entries: map<Key, Value<Body>>, history: seq<Op<Body>>, n: nat): Answer<Body>
    requires WellFormed(db) && n < |history|
  {
    match history[n]
    case Call(req, items) => Replied(Serve(StoreAt(db, history, n), req, items).reply)
    case Expiry(_) => Expired
    case Read(caller) =>
      Lookup(Remembered(view, db, entries, history, n, ENDPOINT, caller), PlainAt(view, db, history, n))
    case Other(endpoint, caller, plain) =>
      Lookup(Remembered(view, db, entries, history, n, endpoint, caller), plain)
  }

  /** Database and cache are what the history before operation `n` demands. */
  ghost predicate Tracks<Body>(
    view: View<Body>, db0: Store, entries0: map<Key, Value<Body>>, history: seq<Op<Body>>, n: nat,
    db: Store, entries: map<Key, Value<Body>>)
  {
    && WellFormed(db0) && n <= |history|
    && db == StoreAt(db0, history, n) && VersionIn(entries, NAMESPACE, 1) == VersionAt(db0, entries0, history, n)
    && forall endpoint, caller ::
         Kept(entries, endpoint, caller) == Remembered(view, db0, entries0, history, n, endpoint, caller)
  }

  lemma TracksCall<Body>(
    view: View<Body>, db0: Store, entries0: map<Key, Value<Body>>, history: seq<Op<Body>>, n: nat,
    entries: map<Key, Value<Body>>, db: Store, after: map<Key, Value<Body>>)
    requires WellFormed(db0) && n < |history| && history[n].Call?
    requires Tracks(view, db0, entries0, history, n, StoreAt(db0, history, n), entries)
    requires db == StoreAt(db0, history, n + 1)
    requires VersionIn(after, NAMESPACE, 1)
          == VersionIn(entries, NAMESPACE, 1) + if Bumps(db0, history, n) then 1 else 0
    requires forall endpoint, caller ::
               Kept(after, endpoint, caller) == if Bumps(db0, history, n) then None else Kept(entries, endpoint, caller)
    ensures Tracks(view, db0, entries0, history, n + 1, db, after)
  {
  }

  lemma TracksLookup<Body>(
    view: View<Body>, db0: Store, entries0: map<Key, Value<Body>>, history: seq<Op<Body>>, n: nat,
    db: Store, entries: map<Key, Value<Body>>,
    endpoint: string, caller: Caller, page: Page<Body>, hit: bool, after: map<Key, Value<Body>>)
    requires Tracks(view, db0, entries0, history, n, db, entries) && n < |history|
    requires (history[n].Read? || history[n].Other?) && Asks(history[n], endpoint, caller)
    requires Looked(entries, endpoint, caller, PlainAt(view, db0, history, n), page, hit, after)
    ensures Tracks(view, db0, entries0, history, n + 1, db, after)
    ensures Shown(page, hit) == AnswerAt(view, db0, entries0, history, n)
  {
    forall e, c ensures Kept(after, e, c) == Remembered(view, db0, entries0, history, n + 1, e, c) {
      assert Kept(entries, e, c) == Remembered(view, db0, entries0, history, n, e, c);
    }
  }

  lemma TracksExpiry<Body>(
    view: View<Body>, db0: Store, entries0: map<Key, Value<Body>>, history: seq<Op<Body>>, n: nat,
    db: Store, entries: map<Key, Value<Body>>, after: map<Key, Value<Body>>)
    requires Tracks(view, db0, entries0, history, n, db, entries) && n < |history| && history[n].Expiry?
    requires VersionIn(after, NAMESPACE, 1) == VersionIn(entries, NAMESPACE, 1)
    requires forall endpoint, caller :: Kept(after, endpoint, caller) ==
               if history[n].key == PageKey(NAMESPACE, VersionIn(entries, NAMESPACE, 1), endpoint, caller) then None
               else Kept(entries, endpoint, caller)
    ensures Tracks(view, db0, entries0, history, n + 1, db, after)
  {
    forall e, c ensures Kept(after, e, c) == Remembered(view, db0, entries0, history, n + 1, e, c) {
      assert Kept(entries, e, c) == Remembered(view, db0, entries0, history, n, e, c);
    }
  }

  /** Nothing from operation `from` up to operation `n` makes the cache forget the page. */
  ghost predicate Undisturbed<Body>(
    db: Store, entries: map<Key, Value<Body>>, history: seq<Op<Body>>, from: nat, n: nat,
    endpoint: string, caller: Caller)
    requires WellFormed(db) && n <= |history|
  {
    forall k: nat :: from <= k < n ==> !Forgets(db, entries, history, k, endpoint, caller)
  }

  /** Operation `j` read the same report for the same caller, was answered 2xx, and nothing was forgotten since. */
  ghost predicate Supplies<Body>(
    view: View<Body>, db: Store, entries: map<Key, Value<Body>>, history: seq<Op<Body>>, j: nat, n: nat,
    endpoint: string, caller: Caller)
    requires WellFormed(db) && j < n <= |history|
  {
    && Asks(history[j], endpoint, caller)
    && 200 <= AnswerAt(view, db, entries, history, j).page.status < 300
    && Undisturbed(db, entries, history, j + 1, n, endpoint, caller)
  }

  /** One more operation: what it forgets or supplies itself, and otherwise nothing new. */
  lemma SuppliedMore<Body>(
    view: View<Body>, db: Store, entries: map<Key, Value<Body>>, history: seq<Op<Body>>, n: nat,
    endpoint: string, caller: Caller)
    requires WellFormed(db) && n < |history|
    ensures var forgets := Forgets(db, entries, history, n, endpoint, caller);
            && (Undisturbed(db, entries, history, 0, n + 1, endpoint, caller) <==>
                  Undisturbed(db, entries, history, 0, n, endpoint, caller) && !forgets)
            && (forall j: nat :: j < n ==>
                  (Supplies(view, db, entries, history, j, n + 1, endpoint, caller) <==>
                     Supplies(view, db, entries, history, j, n, endpoint, caller) && !forgets))
            && (Supplies(view, db, entries, history, n, n + 1, endpoint, caller) <==>
                  && Asks(history[n], endpoint, caller)
                  && 200 <= AnswerAt(view, db, entries, history, n).page.status < 300)
  {
  }

  /** A page that an earlier read supplied, or that was there from the start and stayed, is held. */
  lemma {:induction false} SuppliedIsHeld<Body>(
    view: View<Body>, db: Store, entries: map<Key, Value<Body>>, history: seq<Op<Body>>, n: nat,
    endpoint: string, caller: Caller)
    requires WellFormed(db) && n <= |history|
    ensures var held := Remembered(view, db, entries, history, n, endpoint, caller);
            var first := Kept(entries, endpoint, caller);
            && (first.Some? && Undisturbed(db, entries, history, 0, n, endpoint, caller) ==> held == first)
            && (forall j: nat :: j < n && Supplies(view, db, entries, history, j, n, endpoint, caller) ==>
                  held == Some(AnswerAt(view, db, entries, history, j).page))
  {
    if n > 0 {
      SuppliedIsHeld(view, db, entries, history, n - 1, endpoint, caller);
      SuppliedMore(view, db, entries, history, n - 1, endpoint, caller);
    }
  }

  /** Nothing else is held. */
  lemma {:induction false} HeldIsSupplied<Body>(
    view: View<Body>, db: Store, entries: map<Key, Value<Body>>, history: seq<Op<Body>>, n: nat,
    endpoint: string, caller: Caller)
    requires WellFormed(db) && n <= |history|
    requires Remembered(view, db, entries, history, n, endpoint, caller).Some?
    ensures || (exists j: nat :: j < n && Supplies(view, db, entries, history, j, n, endpoint, caller))
            || (Kept(entries, endpoint, caller).Some? && Undisturbed(db, entries, history, 0, n, endpoint, caller))
  {
    if n > 0 {
      SuppliedMore(view, db, entries, history, n - 1, endpoint, caller);
      if Remembered(view, db, entries, history, n - 1, endpoint, caller).Some? {
        HeldIsSupplied(view, db, entries, history, n - 1, endpoint, caller);
      } else {
        assert Supplies(view, db, entries, history, n - 1, n, endpoint, caller);
      }
    }
  }

  /** A read hits exactly when an earlier read of the same endpoint and caller was answered 2xx since the last
      successful mutation and the last expiry of its key, or the page was there from the start and neither came. It then
      gets that very page, and otherwise what the view answers now. */
  lemma ReadHitsIff<Body>(
    view: View<Body>, db: Store, entries: map<Key, Value<Body>>, history: seq<Op<Body>>, n: nat,
    endpoint: string, caller: Caller)
    requires WellFormed(db) && n < |history| && Asks(history[n], endpoint, caller)
    ensures var answer := AnswerAt(view, db, entries, history, n);
            var first := Kept(entries, endpoint, caller);
            && (answer.hit <==>
                  || (exists j: nat :: j < n && Supplies(view, db, entries, history, j, n, endpoint, caller))
                  || (first.Some? && Undisturbed(db, entries, history, 0, n, endpoint, caller)))
            && (forall j: nat :: j < n && Supplies(view, db, entries, history, j, n, endpoint, caller) ==>
                  answer.page == AnswerAt(view, db, entries, history, j).page)
            && (first.Some? && Undisturbed(db, entries, history, 0, n, endpoint, caller) ==> answer.page == first.value)
            && (!answer.hit ==> answer.page == if history[n].Read? then view(StoreAt(db, history, n).ledger, caller)
                                               else history[n].plain)
  {
    SuppliedIsHeld(view, db, entries, history, n, endpoint, caller);
    if Remembered(view, db, entries, history, n, endpoint, caller).Some? {
      HeldIsSupplied(view, db, entries, history, n, endpoint, caller);
    }
  }

  /******* Which calls bump *******/

  predicate MovesStock(req: Request) {
    req.Receive? || req.Complete? || req.Approve? || req.WriteOff?
  }

  /** A call bumps exactly when it is one of the four stock mutations and it changed something. */
  lemma OkIffStockMoved(db: Store, req: Request, items: seq<Line>)
    requires WellFormed(db)
    ensures Serve(db, req, items).reply.Ok? <==> MovesStock(req) && Serve(db, req, items).store != db
  {
    if Serve(db, req, items).reply.Ok? {
      match req
      case Receive(id) => assert Serve(db, req, items).store.purchases[id] != db.purchases[id];
      case Complete(id) => assert Serve(db, req, items).store.sales[id] != db.sales[id];
      case Approve(id) => assert Serve(db, req, items).store.notes[id] != db.notes[id];
      case WriteOff(_, _) => assert |Serve(db, req, items).store.ledger| != |db.ledger|;
    }
  }

  /** A call that does not bump leaves the ledger, and with it every cached report, as it was. */
  lemma OnlyOkPosts(db: Store, req: Request, items: seq<Line>)
    requires WellFormed(db) && !Serve(db, req, items).reply.Ok?
    ensures Serve(db, req, items).store.ledger == db.ledger
  {
  }
}
