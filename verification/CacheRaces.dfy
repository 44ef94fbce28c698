/** The same cache under concurrency: readers, commits, on-commit hooks and expiries interleave step by step. */
module CacheRaces {
  import opened Ledger
  import opened VersionCache

  /** A stored page and the number of commits its view had seen. */
  datatype Entered<Body> = Entered(page: Page<Body>, upto: nat)

  /** A reader's progress; `seen` is how many hooks had run when it read the version. */
  datatype Stage<Body> =
    | Idle
    | NoKey(seen: nat)                                  // found no version key, about to set 1
    | Versioned(version: int, seen: nat)
    | Missed(version: int, seen: nat)
    | Viewed(version: int, seen: nat, page: Page<Body>, upto: nat)
    | Served(page: Page<Body>, seen: nat, hit: bool)

  datatype Reader<Body> = Reader(caller: Caller, stage: Stage<Body>)

  /** `commits` are the ledger rows of each committed mutation, `hooks` the commits whose bump has run, in order;
      `waiting` commits have yet to start their hook, `midway` ones found no key and are about to set 2. */
  datatype State<Body> = State(
    base: seq<Entry>,
    commits: seq<seq<Entry>>,
    hooks: seq<nat>,
    waiting: set<nat>,
    midway: set<nat>,
    version: Option<int>,
    pages: map<(int, Caller), Entered<Body>>,
    readers: seq<Reader<Body>>)

  datatype Action =
    | Commit(rows: seq<Entry>)
    | Hook(k: nat)
    | HookSet(k: nat)
    | ReadVersion(r: nat)
    | SetVersion(r: nat)
    | LookUp(r: nat)
    | RunView(r: nat)
    | StorePage(r: nat)
    | Expire(version: int, caller: Caller)

  function Flat(batches: seq<seq<Entry>>): seq<Entry> {
    if batches == [] then [] else Flat(batches[..|batches| - 1]) + batches[|batches| - 1]
  }

  lemma FlatSnoc(batches: seq<seq<Entry>>, batch: seq<Entry>)
    ensures Flat(batches + [batch]) == Flat(batches) + batch
  {
    assert (batches + [batch])[..|batches|] == batches;
  }

  /** The ledger after the first `n` commits. */
  function Snapshot<Body>(s: State<Body>, n: nat): seq<Entry>
    requires n <= |s.commits|
  {
    s.base + Flat(s.commits[..n])
  }

  predicate AtStage<Body>(s: State<Body>, a: Action) {
    match a
    case ReadVersion(r) => r < |s.readers| && s.readers[r].stage.Idle?
    case SetVersion(r) => r < |s.readers| && s.readers[r].stage.NoKey?
    case LookUp(r) => r < |s.readers| && s.readers[r].stage.Versioned?
    case RunView(r) => r < |s.readers| && s.readers[r].stage.Missed?
    case StorePage(r) => r < |s.readers| && s.readers[r].stage.Viewed?
    case Commit(_) => true
    case Hook(k) => k in s.waiting
    case HookSet(k) => k in s.midway
    case Expire(_, _) => true
  }

  function Move<Body>(s: State<Body>, r: nat, stage: Stage<Body>): State<Body>
    requires r < |s.readers|
  {
    s.(readers := s.readers[r := s.readers[r].(stage := stage)])
  }

  function Next<Body>(view: View<Body>, s: State<Body>, a: Action): State<Body>
    requires AtStage(s, a)
  {
    match a
    case Commit(rows) => s.(commits := s.commits + [rows], waiting := s.waiting + {|s.commits|})
    case Hook(k) =>
      if s.version.Some? then
        s.(version := Some(s.version.value + 1), hooks := s.hooks + [k], waiting := s.waiting - {k})
      else s.(waiting := s.waiting - {k}, midway := s.midway + {k})
    case HookSet(k) => s.(version := Some(2), hooks := s.hooks + [k], midway := s.midway - {k})
    case ReadVersion(r) =>
      Move(s, r, if s.version.Some? then Versioned(s.version.value, |s.hooks|) else NoKey(|s.hooks|))
    case SetVersion(r) => Move(s, r, Versioned(1, s.readers[r].stage.seen)).(version := Some(1))
    case LookUp(r) =>
      var stage := s.readers[r].stage;
      var key := (stage.version, s.readers[r].caller);
      Move(s, r,
        if key in s.pages then Served(s.pages[key].page, stage.seen, true) else Missed(stage.version, stage.seen))
    case RunView(r) =>
      var stage := s.readers[r].stage;
      var page := view(Snapshot(s, |s.commits|), s.readers[r].caller);
      Move(s, r, Viewed(stage.version, stage.seen, page, |s.commits|))
    case StorePage(r) =>
      var stage := s.readers[r].stage;
      var key := (stage.version, s.readers[r].caller);
      var served := Move(s, r, Served(stage.page, stage.seen, false));
      if Cacheable(stage.page) then served.(pages := served.pages[key := Entered(stage.page, stage.upto)]) else served
    case Expire(version, caller) => s.(pages := s.pages - {(version, caller)})
  }

  /** A page that is 2xx is there for the next look-up under its version and for its caller, until it expires. */
  lemma StoredThenFound<Body>(view: View<Body>, s: State<Body>, r: nat, q: nat)
    requires AtStage(s, StorePage(r)) && AtStage(s, LookUp(q)) && s.readers[q].caller == s.readers[r].caller
    requires s.readers[q].stage.version == s.readers[r].stage.version && 200 <= s.readers[r].stage.page.status < 300
    ensures var stored := Next(view, s, StorePage(r));
            var expired := Next(view, stored, Expire(s.readers[r].stage.version, s.readers[r].caller));
            && Next(view, stored, LookUp(q)).readers[q].stage
               == Served(s.readers[r].stage.page, s.readers[q].stage.seen, true)
            && Next(view, expired, LookUp(q)).readers[q].stage.Missed?
  {
  }

  ghost predicate Reaches<Body(!new)>(view: View<Body>, s0: State<Body>, run: seq<Action>, s: State<Body>) {
    if run == [] then s == s0
    else
      var init, last := run[..|run| - 1], run[|run| - 1];
      exists prev: State<Body> :: Reaches(view, s0, init, prev) && AtStage(prev, last) && s == Next(view, prev, last)
  }

  lemma ReachesSnoc<Body(!new)>(view: View<Body>, s0: State<Body>, run: seq<Action>, s: State<Body>, a: Action)
    requires Reaches(view, s0, run, s) && AtStage(s, a)
    ensures Reaches(view, s0, run + [a], Next(view, s, a))
  {
    var longer := run + [a];
    assert longer[..|longer| - 1] == run && longer[|longer| - 1] == a;
    assert Reaches(view, s0, longer[..|longer| - 1], s);
  }

  lemma {:induction false} BaseStays<Body(!new)>(view: View<Body>, s0: State<Body>, run: seq<Action>, s: State<Body>)
    requires Reaches(view, s0, run, s)
    ensures s.base == s0.base
  {
    if run != [] {
      var init, last := run[..|run| - 1], run[|run| - 1];
      var prev: State<Body> :| Reaches(view, s0, init, prev) && AtStage(prev, last) && s == Next(view, prev, last);
      BaseStays(view, s0, init, prev);
    }
  }

  /** Nothing committed yet, nobody under way. With a version key, pages may be left from before: any under earlier
      versions, current ones under its version, none under later ones. Without a key nothing is stored. */
  ghost predicate Init<Body>(view: View<Body>, s: State<Body>) {
    && s.commits == [] && s.hooks == [] && s.waiting == {} && s.midway == {}
    && (forall reader <- s.readers :: reader.stage.Idle?)
    && match s.version
       case None => s.pages == map[]
       case Some(version) =>
         forall key <- s.pages ::
           && key.0 <= version
           && (key.0 == version ==> s.pages[key] == Entered(view(s.base, key.1), 0))
  }

  /** Any ledger, readers and version can be there at the start, and without a key nothing need be stored. */
  lemma AnyoneCanStart<Body>(view: View<Body>, base: seq<Entry>, version: Option<int>, callers: seq<Caller>)
    ensures Init(view, State(base, [], [], {}, {}, version, map[],
                             seq(|callers|, r requires 0 <= r < |callers| => Reader(callers[r], Idle))))
  {
  }

  /** `page` is the view of a ledger that contains every commit whose hook is among the first `seen`. */
  ghost predicate FreshAt<Body>(
    view: View<Body>, s: State<Body>, caller: Caller, page: Page<Body>, seen: nat, upto: nat)
  {
    && upto <= |s.commits| && seen <= |s.hooks|
    && page == view(Snapshot(s, upto), caller)
    && forall j :: 0 <= j < seen ==> s.hooks[j] < upto
  }

  ghost predicate Fresh<Body>(view: View<Body>, s: State<Body>, caller: Caller, page: Page<Body>, seen: nat) {
    exists upto: nat :: FreshAt(view, s, caller, page, seen, upto)
  }

  /** Every answer contains every commit whose hook had run when its reader read the version. */
  ghost predicate AllFresh<Body>(view: View<Body>, s: State<Body>) {
    forall reader <- s.readers :: reader.stage.Served? ==>
      Fresh(view, s, reader.caller, reader.stage.page, reader.stage.seen)
  }

  /******* With the key initialised *******/

  ghost predicate ReaderOk<Body>(view: View<Body>, start: int, s: State<Body>, reader: Reader<Body>) {
    match reader.stage
    case Idle => true
    case NoKey(_) => false
    case Versioned(version, seen) => version == start + seen && seen <= |s.hooks|
    case Missed(version, seen) => version == start + seen && seen <= |s.hooks|
    case Viewed(version, seen, page, upto) =>
      version == start + seen && FreshAt(view, s, reader.caller, page, seen, upto)
    case Served(page, seen, _) => Fresh(view, s, reader.caller, page, seen)
  }

  /** Every commit's hook has run once or is still waiting. */
  ghost predicate HooksOnce<Body>(s: State<Body>) {
    && (forall k :: k in s.waiting || k in s.hooks <==> 0 <= k < |s.commits|)
    && (forall k <- s.waiting :: k !in s.hooks)
    && (forall i, j :: 0 <= i < j < |s.hooks| ==> s.hooks[i] != s.hooks[j])
  }

  /** The counter is its start plus the hooks that have run. */
  ghost predicate Counted<Body>(start: int, s: State<Body>) {
    && s.version == Some(start + |s.hooks|) && s.midway == {}
    && |s.hooks| + |s.waiting| == |s.commits| && HooksOnce(s)
  }

  /** A page under the starting version or a later one is fresh as of that version's bump. */
  ghost predicate PageOk<Body>(view: View<Body>, start: int, s: State<Body>, key: (int, Caller))
    requires key in s.pages
  {
    start <= key.0 ==> FreshAt(view, s, key.1, s.pages[key].page, key.0 - start, s.pages[key].upto)
  }

  ghost predicate PagesOk<Body>(view: View<Body>, start: int, s: State<Body>) {
    forall key <- s.pages :: PageOk(view, start, s, key)
  }

  ghost predicate Inv<Body>(view: View<Body>, start: int, s: State<Body>) {
    && Counted(start, s) && PagesOk(view, start, s)
    && forall reader <- s.readers :: ReaderOk(view, start, s, reader)
  }

  /** The ledger and the hooks only grow, so what was fresh at a snapshot stays so. */
  lemma FreshStays<Body>(
    view: View<Body>, s: State<Body>, s': State<Body>, caller: Caller, page: Page<Body>, seen: nat, upto: nat)
    requires FreshAt(view, s, caller, page, seen, upto)
    requires s'.base == s.base && s.commits <= s'.commits && s.hooks <= s'.hooks
    ensures FreshAt(view, s', caller, page, seen, upto)
  {
    assert s'.commits[..upto] == s.commits[..upto];
  }

  lemma ReaderStays<Body>(view: View<Body>, start: int, s: State<Body>, s': State<Body>, reader: Reader<Body>)
    requires ReaderOk(view, start, s, reader)
    requires s'.base == s.base && s.commits <= s'.commits && s.hooks <= s'.hooks
    ensures ReaderOk(view, start, s', reader)
  {
    match reader.stage
    case Viewed(version, seen, page, upto) => FreshStays(view, s, s', reader.caller, page, seen, upto);
    case Served(page, seen, _) =>
      var upto: nat :| FreshAt(view, s, reader.caller, page, seen, upto);
      FreshStays(view, s, s', reader.caller, page, seen, upto);
    case _ =>
  }

  lemma CommitsCounted<Body>(view: View<Body>, start: int, s: State<Body>, a: Action)
    requires Counted(start, s) && AtStage(s, a) && (a.Commit? || a.Hook?)
    ensures Counted(start, Next(view, s, a))
  {
    if a.Hook? {
      HookCounted(view, start, s, a.k);
    } else {
      assert |s.commits| !in s.waiting && |s.commits| !in s.hooks;
    }
  }

  lemma HookCounted<Body>(view: View<Body>, start: int, s: State<Body>, k: nat)
    requires Counted(start, s) && k in s.waiting
    ensures Counted(start, Next(view, s, Hook(k)))
  {
    var s' := Next(view, s, Hook(k));
    assert s'.waiting + {k} == s.waiting;
    forall j ensures j in s'.hooks <==> j in s.hooks || j == k {
      assert s'.hooks[|s.hooks|] == k;
    }
  }

  lemma PageStays<Body>(view: View<Body>, start: int, s: State<Body>, s': State<Body>, key: (int, Caller))
    requires key in s.pages && key in s'.pages && s'.pages[key] == s.pages[key] && PageOk(view, start, s, key)
    requires s'.base == s.base && s.commits <= s'.commits && s.hooks <= s'.hooks
    ensures PageOk(view, start, s', key)
  {
    if start <= key.0 {
      FreshStays(view, s, s', key.1, s.pages[key].page, key.0 - start, s.pages[key].upto);
    }
  }

  /** Commits and hooks. */
  lemma WriterStep<Body>(view: View<Body>, start: int, s: State<Body>, a: Action)
    requires Inv(view, start, s) && AtStage(s, a) && (a.Commit? || a.Hook?)
    ensures Inv(view, start, Next(view, s, a))
  {
    var s' := Next(view, s, a);
    CommitsCounted(view, start, s, a);
    forall reader | reader in s'.readers ensures ReaderOk(view, start, s', reader) {
      ReaderStays(view, start, s, s', reader);
    }
    forall key | key in s'.pages ensures PageOk(view, start, s', key) {
      PageStays(view, start, s, s', key);
    }
  }

  /** The reader's own step. */
  lemma OwnReader<Body>(view: View<Body>, start: int, s: State<Body>, a: Action, r: nat)
    requires Inv(view, start, s) && AtStage(s, a)
    requires a == ReadVersion(r) || a == LookUp(r) || a == RunView(r) || a == StorePage(r)
    ensures ReaderOk(view, start, Next(view, s, a), Next(view, s, a).readers[r])
  {
    var s' := Next(view, s, a);
    var reader := s.readers[r];
    assert reader in s.readers;
    assert ReaderOk(view, start, s, reader);
    match a
    case LookUp(_) =>
      var key := (reader.stage.version, reader.caller);
      if key in s.pages {
        assert PageOk(view, start, s, key);
        assert FreshAt(view, s', reader.caller, s.pages[key].page, reader.stage.seen, s.pages[key].upto);
      }
    case RunView(_) =>
      forall j | 0 <= j < reader.stage.seen ensures s.hooks[j] < |s.commits| {
        assert s.hooks[j] in s.hooks;
      }
    case StorePage(_) =>
      assert FreshAt(view, s', reader.caller, reader.stage.page, reader.stage.seen, reader.stage.upto);
    case _ =>
  }

  lemma ReaderKeepsPages<Body>(view: View<Body>, start: int, s: State<Body>, a: Action, r: nat)
    requires Inv(view, start, s) && AtStage(s, a)
    requires a == ReadVersion(r) || a == LookUp(r) || a == RunView(r) || a == StorePage(r)
    ensures PagesOk(view, start, Next(view, s, a))
  {
    var s' := Next(view, s, a);
    assert s.readers[r] in s.readers;
    assert ReaderOk(view, start, s, s.readers[r]);
    forall key | key in s'.pages ensures PageOk(view, start, s', key) {
      if key in s.pages && s'.pages[key] == s.pages[key] {
        PageStays(view, start, s, s', key);
      }
    }
  }

  lemma ReaderStep<Body>(view: View<Body>, start: int, s: State<Body>, a: Action, r: nat)
    requires Inv(view, start, s) && AtStage(s, a)
    requires a == ReadVersion(r) || a == LookUp(r) || a == RunView(r) || a == StorePage(r)
    ensures Inv(view, start, Next(view, s, a))
  {
    var s' := Next(view, s, a);
    OwnReader(view, start, s, a, r);
    ReaderKeepsPages(view, start, s, a, r);
    forall other | other in s'.readers ensures ReaderOk(view, start, s', other) {
      if other != s'.readers[r] {
        ReaderStays(view, start, s, s', other);
      }
    }
  }

  lemma ExpireStep<Body>(view: View<Body>, start: int, s: State<Body>, version: int, caller: Caller)
    requires Inv(view, start, s)
    ensures Inv(view, start, Next(view, s, Expire(version, caller)))
  {
    var s' := Next(view, s, Expire(version, caller));
    forall reader | reader in s'.readers ensures ReaderOk(view, start, s', reader) {
      ReaderStays(view, start, s, s', reader);
    }
    forall key | key in s'.pages ensures PageOk(view, start, s', key) {
      PageStays(view, start, s, s', key);
    }
  }

  /** No reader and no hook finds the key missing. */
  lemma KeyIsNeverMissing<Body>(view: View<Body>, start: int, s: State<Body>, a: Action)
    requires Inv(view, start, s) && AtStage(s, a)
    ensures !a.SetVersion? && !a.HookSet?
  {
    forall r: nat | r < |s.readers| ensures !s.readers[r].stage.NoKey? {
      var reader := s.readers[r];
      assert reader in s.readers;
      assert ReaderOk(view, start, s, reader);
    }
  }

  lemma StepKeepsInv<Body>(view: View<Body>, start: int, s: State<Body>, a: Action)
    requires Inv(view, start, s) && AtStage(s, a)
    ensures Inv(view, start, Next(view, s, a))
  {
    KeyIsNeverMissing(view, start, s, a);
    match a
    case Commit(_) => WriterStep(view, start, s, a);
    case Hook(_) => WriterStep(view, start, s, a);
    case ReadVersion(r) => ReaderStep(view, start, s, a, r);
    case LookUp(r) => ReaderStep(view, start, s, a, r);
    case RunView(r) => ReaderStep(view, start, s, a, r);
    case StorePage(r) => ReaderStep(view, start, s, a, r);
    case Expire(version, caller) => ExpireStep(view, start, s, version, caller);
    case _ =>
  }

  lemma {:induction false} ReachableInv<Body(!new)>(view: View<Body>, s0: State<Body>, run: seq<Action>, s: State<Body>)
    requires Init(view, s0) && s0.version.Some? && Reaches(view, s0, run, s)
    ensures s.base == s0.base && Inv(view, s0.version.value, s)
  {
    if run != [] {
      var init, last := run[..|run| - 1], run[|run| - 1];
      var prev: State<Body> :| Reaches(view, s0, init, prev) && AtStage(prev, last) && s == Next(view, prev, last);
      ReachableInv(view, s0, init, prev);
      StepKeepsInv(view, s0.version.value, prev, last);
    } else {
      assert Snapshot(s0, 0) == s0.base;
      forall key | key in s0.pages ensures PageOk(view, s0.version.value, s0, key) {
      }
    }
  }

  /** With the key initialised, no race serves an answer that misses a commit whose bump the reader came after,
      and the counter counts exactly the hooks that have run, one for each commit whose hook is not waiting. */
  lemma InitialisedIsFresh<Body(!new)>(view: View<Body>, s0: State<Body>, run: seq<Action>, s: State<Body>)
    requires Init(view, s0) && s0.version.Some? && Reaches(view, s0, run, s)
    ensures AllFresh(view, s)
    ensures s.version == Some(s0.version.value + |s.hooks|) && |s.hooks| + |s.waiting| == |s.commits| && HooksOnce(s)
  {
    ReachableInv(view, s0, run, s);
    AnswersAreFresh(view, s0.version.value, s);
  }

  /** The counter is its start plus the commits whose hook is not waiting. */
  lemma InvCounts<Body>(view: View<Body>, start: int, s: State<Body>)
    requires Inv(view, start, s)
    ensures s.version == Some(start + |s.commits| - |s.waiting|)
  {
  }

  lemma ReachableCounts<Body(!new)>(view: View<Body>, s0: State<Body>, run: seq<Action>, s: State<Body>)
    requires Init(view, s0) && s0.version.Some? && Reaches(view, s0, run, s)
    ensures s.version == Some(s0.version.value + |s.commits| - |s.waiting|)
  {
    ReachableInv(view, s0, run, s);
    InvCounts(view, s0.version.value, s);
  }

  lemma AnswersAreFresh<Body>(view: View<Body>, start: int, s: State<Body>)
    requires Inv(view, start, s)
    ensures AllFresh(view, s)
  {
    forall reader | reader in s.readers && reader.stage.Served?
      ensures Fresh(view, s, reader.caller, reader.stage.page, reader.stage.seen)
    {
      assert ReaderOk(view, start, s, reader);
    }
  }

  /******* Without it, when nobody shares a cache entry *******/

  ghost predicate DifferentCallers<Body>(s: State<Body>) {
    forall r, q :: 0 <= r < q < |s.readers| ==> s.readers[r].caller != s.readers[q].caller
  }

  /** What a reader knows when it can only ever meet its own page. */
  ghost predicate ReaderAlone<Body>(view: View<Body>, s: State<Body>, reader: Reader<Body>) {
    && (reader.stage.Served? || forall key <- s.pages :: key.1 != reader.caller)
    && match reader.stage
       case Idle => true
       case NoKey(seen) => seen <= |s.hooks|
       case Versioned(_, seen) => seen <= |s.hooks|
       case Missed(_, seen) => seen <= |s.hooks|
       case Viewed(_, seen, page, upto) => FreshAt(view, s, reader.caller, page, seen, upto)
       case Served(page, seen, _) => Fresh(view, s, reader.caller, page, seen)
  }

  ghost predicate InvAlone<Body>(view: View<Body>, s: State<Body>) {
    && DifferentCallers(s)
    && (forall k <- s.waiting :: k < |s.commits|) && (forall k <- s.midway :: k < |s.commits|)
    && (forall k <- s.hooks :: k < |s.commits|)
    && forall r :: 0 <= r < |s.readers| ==> ReaderAlone(view, s, s.readers[r])
  }

  lemma AloneStays<Body>(view: View<Body>, s: State<Body>, s': State<Body>, reader: Reader<Body>)
    requires ReaderAlone(view, s, reader)
    requires s'.base == s.base && s.commits <= s'.commits && s.hooks <= s'.hooks
    requires forall key <- s'.pages :: key in s.pages || key.1 != reader.caller
    ensures ReaderAlone(view, s', reader)
  {
    match reader.stage
    case Viewed(_, seen, page, upto) => FreshStays(view, s, s', reader.caller, page, seen, upto);
    case Served(page, seen, _) =>
      var upto: nat :| FreshAt(view, s, reader.caller, page, seen, upto);
      FreshStays(view, s, s', reader.caller, page, seen, upto);
    case _ =>
  }

  /** The reader that steps: it never hits, and its view runs on everything committed. */
  lemma AloneMoves<Body>(view: View<Body>, s: State<Body>, a: Action, r: nat)
    requires InvAlone(view, s) && AtStage(s, a)
    requires a in {ReadVersion(r), SetVersion(r), LookUp(r), RunView(r), StorePage(r)}
    ensures ReaderAlone(view, Next(view, s, a), Next(view, s, a).readers[r])
  {
    var s', reader := Next(view, s, a), s.readers[r];
    assert ReaderAlone(view, s, reader);
    match a
    case RunView(_) =>
      forall j | 0 <= j < reader.stage.seen ensures s.hooks[j] < |s.commits| {
        assert s.hooks[j] in s.hooks;
      }
    case StorePage(_) =>
      FreshStays(view, s, s', reader.caller, reader.stage.page, reader.stage.seen, reader.stage.upto);
    case _ =>
  }

  lemma ReaderKeepsAlone<Body>(view: View<Body>, s: State<Body>, a: Action, r: nat)
    requires InvAlone(view, s) && AtStage(s, a)
    requires a in {ReadVersion(r), SetVersion(r), LookUp(r), RunView(r), StorePage(r)}
    ensures InvAlone(view, Next(view, s, a))
  {
    var s' := Next(view, s, a);
    AloneMoves(view, s, a, r);
    forall q | 0 <= q < |s'.readers| ensures ReaderAlone(view, s', s'.readers[q]) {
      if q != r {
        assert s.readers[q].caller != s.readers[r].caller;
        AloneStays(view, s, s', s.readers[q]);
      }
    }
  }

  lemma OthersKeepAlone<Body>(view: View<Body>, s: State<Body>, a: Action)
    requires InvAlone(view, s) && AtStage(s, a) && (a.Commit? || a.Hook? || a.HookSet? || a.Expire?)
    ensures InvAlone(view, Next(view, s, a))
  {
    var s' := Next(view, s, a);
    forall q | 0 <= q < |s'.readers| ensures ReaderAlone(view, s', s'.readers[q]) {
      AloneStays(view, s, s', s.readers[q]);
    }
  }

  lemma {:induction false} AloneReachable<Body(!new)>(
    view: View<Body>, s0: State<Body>, run: seq<Action>, s: State<Body>)
    requires Init(view, s0) && s0.version.None? && DifferentCallers(s0) && Reaches(view, s0, run, s)
    ensures InvAlone(view, s)
  {
    if run != [] {
      var init, last := run[..|run| - 1], run[|run| - 1];
      var prev: State<Body> :| Reaches(view, s0, init, prev) && AtStage(prev, last) && s == Next(view, prev, last);
      AloneReachable(view, s0, init, prev);
      match last
      case ReadVersion(r) => ReaderKeepsAlone(view, prev, last, r);
      case SetVersion(r) => ReaderKeepsAlone(view, prev, last, r);
      case LookUp(r) => ReaderKeepsAlone(view, prev, last, r);
      case RunView(r) => ReaderKeepsAlone(view, prev, last, r);
      case StorePage(r) => ReaderKeepsAlone(view, prev, last, r);
      case _ => OthersKeepAlone(view, prev, last);
    }
  }

  /** Without the key, readers that differ in user, role or query are never served each other's pages: all is fresh. */
  lemma DifferentCallersAreFresh<Body(!new)>(view: View<Body>, s0: State<Body>, run: seq<Action>, s: State<Body>)
    requires Init(view, s0) && s0.version.None? && DifferentCallers(s0) && Reaches(view, s0, run, s)
    ensures AllFresh(view, s)
  {
    AloneReachable(view, s0, run, s);
    forall reader | reader in s.readers && reader.stage.Served?
      ensures Fresh(view, s, reader.caller, reader.stage.page, reader.stage.seen)
    {
      assert ReaderAlone(view, s, reader);
    }
  }
}
