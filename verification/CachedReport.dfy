/** The cached inventory report over the stock protocol: what a hit shows, and when that can be trusted. */
module CachedReport {
  import opened Ledger
  import opened Endpoints
  import opened History
  import opened Reports
  import opened VersionCache
  import opened CacheRaces

  /** The plain inventory report as a view: the same ledger for every caller, always 200. */
  function ReportView(): View<InventoryReport> {
    (ledger: seq<Entry>, caller: Caller) => Page(200, Report(ledger))
  }

  type ReportState = State<InventoryReport>

  /** The ledger row of a write-off of one unit. */
  const LOST := [Entry(0, 1, Damage, NoRef)]

  /******* Without the version key, a late read *******/

  /** A reader has found no version key; another one has then set it to 1 and stored the report of an empty run. */
  function StoredUnderOne(s0: ReportState): ReportState
    requires |s0.readers| >= 3
  {
    var page := Page(200, Report(s0.base));
    s0.(
    version := Some(1),
    pages := map[(1, s0.readers[1].caller) := Entered(page, 0)],
    readers := s0.readers[0 := s0.readers[0].(stage := NoKey(0))][1 := s0.readers[1].(stage := Served(page, 0, false))])
  }

  /** Then something is written off and its hook runs, and only now the first reader sets the version to 1. */
  function BumpUndone(s0: ReportState): ReportState
    requires |s0.readers| >= 3
  {
    var s := StoredUnderOne(s0);
    s.(
    commits := [LOST],
    hooks := [0],
    readers := s.readers[0 := s.readers[0].(stage := Versioned(1, 0))])
  }

  lemma FirstReaderFindsNoKey(s0: ReportState)
    requires Init(ReportView(), s0) && s0.version == None && |s0.readers| >= 3
    ensures AtStage(s0, ReadVersion(0))
    ensures Next(ReportView(), s0, ReadVersion(0)) == s0.(readers := s0.readers[0 := s0.readers[0].(stage := NoKey(0))])
  {
  }

  lemma SecondReaderStores(s0: ReportState) returns (run: seq<Action>)
    requires Init(ReportView(), s0) && s0.version == None && |s0.readers| >= 3
    ensures Reaches(ReportView(), s0, run, StoredUnderOne(s0))
  {
    var view := ReportView();
    FirstReaderFindsNoKey(s0);
    var s := Next(view, s0, ReadVersion(0));
    run := [ReadVersion(0)];
    ReachesSnoc(view, s0, [], s0, ReadVersion(0));
    assert [] + [ReadVersion(0)] == run;
    var caller := s0.readers[1].caller;
    assert s.readers[1] == s0.readers[1];
    run, s := ReadsAndStores(s0, run, s, 1);
    assert s == StoredUnderOne(s0);
  }

  /** A reader that finds no key, alone until it has stored its page. */
  lemma ReadsAndStores(s0: ReportState, run: seq<Action>, s: ReportState, r: nat)
      returns (longer: seq<Action>, s': ReportState)
    requires Reaches(ReportView(), s0, run, s)
    requires r < |s.readers| && s.readers[r].stage.Idle? && s.version == None && s.pages == map[]
    requires s.commits == [] && s.hooks == []
    ensures Reaches(ReportView(), s0, longer, s')
    ensures var page := Page(200, Report(s.base));
            s' == s.(
              version := Some(1),
              pages := map[(1, s.readers[r].caller) := Entered(page, 0)],
              readers := s.readers[r := s.readers[r].(stage := Served(page, 0, false))])
  {
    var view := ReportView();
    longer, s' := FollowReader(s0, run, s, r, ReadVersion(r), NoKey(0));
    longer, s' := FollowReader(s0, longer, s', r, SetVersion(r), Versioned(1, 0));
    longer, s' := FollowReader(s0, longer, s', r, LookUp(r), Missed(1, 0));
    assert s.base + [] == s.base && Snapshot(s', 0) == s.base;
    longer, s' := ViewsAndStores(s0, longer, s', r, 1, 0);
  }

  /** A reader that has missed runs its view and stores the page, alone. */
  lemma ViewsAndStores(s0: ReportState, run: seq<Action>, s: ReportState, r: nat, version: int, seen: nat)
      returns (longer: seq<Action>, s': ReportState)
    requires Reaches(ReportView(), s0, run, s)
    requires r < |s.readers| && s.readers[r].stage == Missed(version, seen)
    ensures Reaches(ReportView(), s0, longer, s')
    ensures var page := Page(200, Report(Snapshot(s, |s.commits|)));
            s' == s.(
              pages := s.pages[(version, s.readers[r].caller) := Entered(page, |s.commits|)],
              readers := s.readers[r := s.readers[r].(stage := Served(page, seen, false))])
  {
    var page := Page(200, Report(Snapshot(s, |s.commits|)));
    longer, s' := FollowReader(s0, run, s, r, RunView(r), Viewed(version, seen, page, |s.commits|));
    longer, s' := FollowReader(s0, longer, s', r, StorePage(r), Served(page, seen, false));
  }

  /** One step of one reader. */
  lemma FollowReader(
    s0: ReportState, run: seq<Action>, s: ReportState, r: nat, a: Action, stage: Stage<InventoryReport>)
      returns (longer: seq<Action>, s': ReportState)
    requires Reaches(ReportView(), s0, run, s) && AtStage(s, a) && r < |s.readers|
    requires Next(ReportView(), s, a).readers == s.readers[r := s.readers[r].(stage := stage)]
    ensures Reaches(ReportView(), s0, longer, s') && s' == Next(ReportView(), s, a)
    ensures s'.readers == s.readers[r := s.readers[r].(stage := stage)]
  {
    ReachesSnoc(ReportView(), s0, run, s, a);
    longer, s' := run + [a], Next(ReportView(), s, a);
  }

  lemma HookRunsThenSetUndoesIt(s0: ReportState) returns (run: seq<Action>)
    requires Init(ReportView(), s0) && s0.version == None && |s0.readers| >= 3
    ensures Reaches(ReportView(), s0, run, BumpUndone(s0))
  {
    var view := ReportView();
    run := SecondReaderStores(s0);
    var s := StoredUnderOne(s0);
    ReachesSnoc(view, s0, run, s, Commit(LOST));
    var s1 := Next(view, s, Commit(LOST));
    ReachesSnoc(view, s0, run + [Commit(LOST)], s1, Hook(0));
    var s2 := Next(view, s1, Hook(0));
    ReachesSnoc(view, s0, run + [Commit(LOST)] + [Hook(0)], s2, SetVersion(0));
    run := run + [Commit(LOST)] + [Hook(0)] + [SetVersion(0)];
    assert Next(view, s2, SetVersion(0)) == BumpUndone(s0);
  }

  /** A later reader then hits the old page, although the write-off was committed and bumped before it began. */
  lemma StaleHit(s0: ReportState) returns (run: seq<Action>, s: ReportState)
    requires Init(ReportView(), s0) && s0.version == None
    requires |s0.readers| >= 3 && s0.readers[1].caller == s0.readers[2].caller
    ensures Reaches(ReportView(), s0, run, s) && !AllFresh(ReportView(), s)
  {
    var page := Page(200, Report(s0.base));
    run := HookRunsThenSetUndoesIt(s0);
    run, s := FollowReader(s0, run, BumpUndone(s0), 2, ReadVersion(2), Versioned(1, 1));
    run, s := FollowReader(s0, run, s, 2, LookUp(2), Served(page, 1, true));
    assert s.base == s0.base && s.commits == [LOST] && s.hooks == [0];
    assert s.readers[2].stage == Served(page, 1, true);
    assert !Fresh(ReportView(), s, s.readers[2].caller, page, 1) by {
      NoSnapshotFits(s, s.readers[2].caller);
    }
    assert s.readers[2] in s.readers;
  }

  lemma NoSnapshotFits(s: ReportState, caller: Caller)
    requires |s.commits| == 1 && |s.commits[0]| == 1 && s.hooks == [0]
    ensures !Fresh(ReportView(), s, caller, Page(200, Report(s.base)), 1)
  {
    forall upto: nat
      ensures !FreshAt(ReportView(), s, caller, Page(200, Report(s.base)), 1, upto)
    {
      if upto == 1 {
        assert s.commits[..1] == s.commits && s.commits[..0] == [];
        FlatSnoc([], s.commits[0]);
        assert [] + [s.commits[0]] == s.commits;
        assert |Snapshot(s, 1)| == |s.base| + 1;
        assert Report(Snapshot(s, 1)).transactions != Report(s.base).transactions;
      } else if upto == 0 {
        assert s.hooks[0] == 0;
      }
    }
  }

  /******* Without the version key, two readers and no late read *******/

  /** Two write-offs committed while there was no key; one hook has set the counter to 2, the other is about to. */
  function FirstHookDone(s0: ReportState): ReportState {
    s0.(commits := [LOST, LOST], hooks := [0], midway := {1}, version := Some(2))
  }

  lemma TwoHooksFindNoKey(s0: ReportState) returns (run: seq<Action>)
    requires Init(ReportView(), s0) && s0.version == None
    ensures Reaches(ReportView(), s0, run, FirstHookDone(s0))
  {
    var s;
    run, s := FollowWriter(s0, [], s0, Commit(LOST));
    run, s := FollowWriter(s0, run, s, Commit(LOST));
    assert s == s0.(commits := [LOST, LOST], waiting := {0, 1});
    run, s := FollowWriter(s0, run, s, Hook(0));
    run, s := FollowWriter(s0, run, s, Hook(1));
    assert s == s0.(commits := [LOST, LOST], waiting := {}, midway := {0, 1});
    run, s := FollowWriter(s0, run, s, HookSet(0));
    assert {0, 1} - {0} == {1};
    assert s == FirstHookDone(s0);
  }

  lemma FollowWriter(s0: ReportState, run: seq<Action>, s: ReportState, a: Action)
      returns (longer: seq<Action>, s': ReportState)
    requires Reaches(ReportView(), s0, run, s) && AtStage(s, a)
    ensures Reaches(ReportView(), s0, longer, s') && s' == Next(ReportView(), s, a)
  {
    ReachesSnoc(ReportView(), s0, run, s, a);
    longer, s' := run + [a], Next(ReportView(), s, a);
  }

  /** The report of both write-offs, read and stored under version 2. */
  function BothShown(s0: ReportState): Page<InventoryReport> {
    Page(200, Report(s0.base + LOST + LOST))
  }

  function StoredUnderTwo(s0: ReportState, r: nat): ReportState
    requires r < |s0.readers|
  {
    FirstHookDone(s0).(
    pages := map[(2, s0.readers[r].caller) := Entered(BothShown(s0), 2)],
    readers := s0.readers[r := s0.readers[r].(stage := Served(BothShown(s0), 1, false))])
  }

  lemma ShowsBoth(s: ReportState)
    requires s.commits == [LOST, LOST]
    ensures Snapshot(s, 2) == s.base + LOST + LOST
  {
    assert s.commits[..2] == [LOST] + [LOST];
    FlatSnoc([LOST], LOST);
    FlatSnoc([], LOST);
    assert [] + [LOST] == [LOST];
    assert Flat([LOST]) == LOST;
    Regroup(s.base, LOST, LOST);
  }

  lemma ReaderStoresUnderTwo(s0: ReportState, r: nat) returns (run: seq<Action>)
    requires Init(ReportView(), s0) && s0.version == None && r < |s0.readers|
    ensures Reaches(ReportView(), s0, run, StoredUnderTwo(s0, r))
  {
    run := TwoHooksFindNoKey(s0);
    var s := FirstHookDone(s0);
    assert s0.readers[r] in s0.readers;
    run, s := FollowReader(s0, run, s, r, ReadVersion(r), Versioned(2, 1));
    run, s := FollowReader(s0, run, s, r, LookUp(r), Missed(2, 1));
    ShowsBoth(s);
    run, s := ViewsAndStores(s0, run, s, r, 2, 1);
    assert s == StoredUnderTwo(s0, r);
  }

  /** A third write-off is bumped to version 3, and the late set of the second puts version 2 back. */
  function SecondHookDone(s0: ReportState, r: nat): ReportState
    requires r < |s0.readers|
  {
    StoredUnderTwo(s0, r).(commits := [LOST, LOST, LOST], hooks := [0, 2, 1], midway := {})
  }

  lemma LateSetUndoesBump(s0: ReportState, r: nat) returns (run: seq<Action>)
    requires Init(ReportView(), s0) && s0.version == None && r < |s0.readers|
    ensures Reaches(ReportView(), s0, run, SecondHookDone(s0, r))
  {
    run := ReaderStoresUnderTwo(s0, r);
    var s := StoredUnderTwo(s0, r);
    run, s := FollowWriter(s0, run, s, Commit(LOST));
    assert s.waiting == {2};
    run, s := FollowWriter(s0, run, s, Hook(2));
    assert s.waiting == {} && s.version == Some(3);
    run, s := FollowWriter(s0, run, s, HookSet(1));
    assert s == SecondHookDone(s0, r);
  }

  lemma ThirdMissing(s: ReportState, caller: Caller)
    requires s.commits == [LOST, LOST, LOST] && s.hooks == [0, 2, 1]
    ensures !Fresh(ReportView(), s, caller, Page(200, Report(s.base + LOST + LOST)), 3)
  {
    forall upto: nat
      ensures !FreshAt(ReportView(), s, caller, Page(200, Report(s.base + LOST + LOST)), 3, upto)
    {
      if upto == 3 {
        assert s.commits[..3] == [LOST, LOST] + [LOST];
        FlatSnoc([LOST, LOST], LOST);
        ShowsBoth(s.(commits := [LOST, LOST]));
        assert [LOST, LOST][..2] == [LOST, LOST];
        assert |Snapshot(s, 3)| == |s.base + LOST + LOST| + 1;
        assert Report(Snapshot(s, 3)).transactions != Report(s.base + LOST + LOST).transactions;
      } else {
        assert s.hooks[1] == 2;
      }
    }
  }

  /** Two readers with the same user, role and query are enough: the second hits the page of before the third write-off,
      whose bump ran before it read the version. Here the late set is that of `bump_version` itself. */
  lemma StaleHitOfTwo(s0: ReportState, r: nat, q: nat) returns (run: seq<Action>, s: ReportState)
    requires Init(ReportView(), s0) && s0.version == None
    requires r < |s0.readers| && q < |s0.readers| && r != q && s0.readers[r].caller == s0.readers[q].caller
    ensures Reaches(ReportView(), s0, run, s) && !AllFresh(ReportView(), s) && s.commits == [LOST, LOST, LOST]
  {
    run := LateSetUndoesBump(s0, r);
    assert s0.readers[q] in s0.readers;
    run, s := FollowReader(s0, run, SecondHookDone(s0, r), q, ReadVersion(q), Versioned(2, 3));
    run, s := FollowReader(s0, run, s, q, LookUp(q), Served(BothShown(s0), 3, true));
    ThirdMissing(s, s.readers[q].caller);
    assert s.readers[q] in s.readers;
  }

  /** With the key, or with different callers, every answer is fresh. */
  lemma TrustedRuns(s0: ReportState, run: seq<Action>, s: ReportState)
    requires Init(ReportView(), s0) && (s0.version.Some? || DifferentCallers(s0)) && Reaches(ReportView(), s0, run, s)
    ensures AllFresh(ReportView(), s)
  {
    if s0.version.Some? {
      InitialisedIsFresh(ReportView(), s0, run, s);
    } else {
      DifferentCallersAreFresh(ReportView(), s0, run, s);
    }
  }

  /** Answers can be trusted over every run exactly when the version key exists at the start or no two readers share
      user, role and query. */
  lemma TrustedIffInitialisedOrDifferent(s0: ReportState)
    requires Init(ReportView(), s0)
    ensures s0.version.Some? || DifferentCallers(s0) <==>
            forall run: seq<Action>, s: ReportState :: Reaches(ReportView(), s0, run, s) ==> AllFresh(ReportView(), s)
  {
    if s0.version.Some? || DifferentCallers(s0) {
      forall run: seq<Action>, s: ReportState | Reaches(ReportView(), s0, run, s) ensures AllFresh(ReportView(), s) {
        TrustedRuns(s0, run, s);
      }
    } else {
      var r: nat, q: nat :| r < q < |s0.readers| && s0.readers[r].caller == s0.readers[q].caller;
      var run, s := StaleHitOfTwo(s0, r, q);
      assert Reaches(ReportView(), s0, run, s) && !AllFresh(ReportView(), s);
    }
  }

  /******* Over the stock protocol *******/

  /** The ledger rows added by each successful stock mutation, in commit order. */
  function Batches(db0: Store, log: seq<Event>): seq<seq<Entry>>
    requires WellFormed(db0)
  {
    if log == [] then []
    else
      var init := log[..|log| - 1];
      Batches(db0, init) +
      if log[|log| - 1].reply.Ok? then [Replay(db0, log).ledger[|Replay(db0, init).ledger|..]] else []
  }

  /** What the last event of a log added to the ledger. */
  function LastRows(db0: Store, log: seq<Event>): seq<Entry>
    requires WellFormed(db0) && log != []
  {
    Replay(db0, log).ledger[|Replay(db0, log[..|log| - 1]).ledger|..]
  }

  lemma LastRowsAre(db0: Store, log: seq<Event>)
    requires WellFormed(db0) && Faithful(db0, log) && log != []
    ensures Replay(db0, log).ledger == Replay(db0, log[..|log| - 1]).ledger + LastRows(db0, log)
    ensures !log[|log| - 1].reply.Ok? ==> LastRows(db0, log) == []
  {
    var before, last := Replay(db0, log[..|log| - 1]), log[|log| - 1];
    if !last.reply.Ok? {
      OnlyOkPosts(before, last.req, last.items);
    }
  }

  lemma BatchesSnoc(db0: Store, log: seq<Event>)
    requires WellFormed(db0) && log != []
    ensures Flat(Batches(db0, log))
         == Flat(Batches(db0, log[..|log| - 1])) + if log[|log| - 1].reply.Ok? then LastRows(db0, log) else []
  {
    FlatSnoc(Batches(db0, log[..|log| - 1]), LastRows(db0, log));
    assert Batches(db0, log[..|log| - 1]) + [] == Batches(db0, log[..|log| - 1]);
  }

  lemma Regroup(ledger: seq<Entry>, flat: seq<Entry>, rows: seq<Entry>)
    ensures ledger + flat + rows == ledger + (flat + rows)
  {
  }

  lemma {:induction false} LedgerIsBatches(db0: Store, log: seq<Event>)
    requires WellFormed(db0) && Faithful(db0, log)
    ensures Replay(db0, log).ledger == db0.ledger + Flat(Batches(db0, log))
  {
    if log == [] {
      assert Flat(Batches(db0, log)) == [];
    } else {
      var init, rows := log[..|log| - 1], LastRows(db0, log);
      LedgerIsBatches(db0, init);
      LastRowsAre(db0, log);
      BatchesSnoc(db0, log);
      Regroup(db0.ledger, Flat(Batches(db0, init)), rows);
      assert Flat(Batches(db0, log)) == Flat(Batches(db0, init)) + rows;
    }
  }

  /** The first `n` mutations are those of some prefix of the log. */
  lemma {:induction false} PrefixWithBatches(db0: Store, log: seq<Event>, n: nat) returns (m: nat)
    requires WellFormed(db0) && n <= |Batches(db0, log)|
    ensures m <= |log| && Batches(db0, log[..m]) == Batches(db0, log)[..n]
  {
    if n == |Batches(db0, log)| {
      m := |log|;
      assert log[..m] == log;
    } else {
      var init := log[..|log| - 1];
      m := PrefixWithBatches(db0, init, n);
      assert init[..m] == log[..m];
      assert Batches(db0, log)[..n] == Batches(db0, init)[..n];
    }
  }

  /** When the mutations behind the cache are those of a serial run of the endpoints, every fresh answer it gives is
      the report of the store after a prefix of that run, with every mutation bumped before the reader came. */
  lemma HitShowsASerialState(db0: Store, log: seq<Event>, s0: ReportState, run: seq<Action>, s: ReportState, r: nat)
      returns (m: nat)
    requires WellFormed(db0) && Faithful(db0, log)
    requires Reaches(ReportView(), s0, run, s) && s0.base == db0.ledger && s.commits == Batches(db0, log)
    requires AllFresh(ReportView(), s)
    requires r < |s.readers| && s.readers[r].stage.Served?
    ensures m <= |log| && s.readers[r].stage.page == Page(200, Report(Replay(db0, log[..m]).ledger))
    ensures s.readers[r].stage.seen <= |s.hooks|
    ensures forall j :: 0 <= j < s.readers[r].stage.seen ==> s.hooks[j] < |Batches(db0, log[..m])|
  {
    BaseStays(ReportView(), s0, run, s);
    var reader := s.readers[r];
    assert reader in s.readers;
    var upto: nat :| FreshAt(ReportView(), s, reader.caller, reader.stage.page, reader.stage.seen, upto);
    m := PrefixWithBatches(db0, log, upto);
    FaithfulPrefix(db0, log, m);
    LedgerIsBatches(db0, log[..m]);
  }
}
