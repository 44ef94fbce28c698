/** Database and cache together: locked transactions, their on-commit hooks and the readers of the cached inventory
    report, all interleaving. */
module WholeSite {
  import opened Ledger
  import opened Endpoints
  import opened History
  import opened Reports
  import opened VersionCache
  import opened CachedReport
  import RowLocks
  import Serializability

  datatype Site = Site(database: RowLocks.System, cache: ReportState)

  /** A database step, or a step of a hook, a reader or an expiry. */
  datatype Move = Db(action: RowLocks.Action) | Web(step: CacheRaces.Action)

  /** The ledger rows of a step that commits a successful stock mutation, at most one batch. */
  function Mutation(s: RowLocks.System, a: RowLocks.Action): seq<seq<Entry>>
    requires a.tid < |s.txns|
  {
    var t := s.txns[a.tid];
    if a.Go? && t.phase.Written? && RowLocks.CommitReply(s.db, t.writes.mark).Ok? then [t.writes.rows] else []
  }

  predicate Possible(s: Site, m: Move) {
    match m
    case Db(a) => RowLocks.Enabled(s.database, a, true)
    case Web(c) => !c.Commit? && CacheRaces.AtStage(s.cache, c)
  }

  /** A committed mutation is at once visible to views, and its hook is due from then on. */
  function Next(s: Site, m: Move): Site
    requires Possible(s, m)
  {
    match m
    case Db(a) =>
      var batch := Mutation(s.database, a);
      Site(
        RowLocks.Next(s.database, a, true),
        if batch == [] then s.cache else CacheRaces.Next(ReportView(), s.cache, CacheRaces.Commit(batch[0])))
    case Web(c) => s.(cache := CacheRaces.Next(ReportView(), s.cache, c))
  }

  ghost predicate Reaches(s0: Site, run: seq<Move>, s: Site) {
    if run == [] then s == s0
    else
      var init, last := run[..|run| - 1], run[|run| - 1];
      exists prev: Site :: Reaches(s0, init, prev) && Possible(prev, last) && s == Next(prev, last)
  }

  /** Any store, any requests, any readers, with or without a version key. */
  ghost predicate Init(s: Site) {
    && RowLocks.Init(s.database) && CacheRaces.Init(ReportView(), s.cache)
    && s.cache.base == s.database.db.ledger
  }

  /** The cache has seen the commits of the database's log, and both got where they are on their own steps. */
  ghost predicate Together(s0: Site, s: Site, dbRun: seq<RowLocks.Action>, webRun: seq<CacheRaces.Action>) {
    && RowLocks.Reaches(s0.database, dbRun, s.database, true)
    && CacheRaces.Reaches(ReportView(), s0.cache, webRun, s.cache)
    && WellFormed(s0.database.db)
    && s.cache.commits == Batches(s0.database.db, s.database.log)
  }

  /** An answer that is not a commit is never Ok. */
  lemma OnlyCommitsAreOk(db: Store, t: RowLocks.Txn, fetched: seq<Line>)
    requires WellFormed(db) && Serializability.Agrees(db, t) && !RowLocks.Finished(t) && !t.phase.Written?
    requires RowLocks.Advance(db, t, fetched).phase.Done?
    ensures !RowLocks.Advance(db, t, fetched).phase.reply.Ok?
  {
    Serializability.AnswerIsServe(db, t, fetched);
    OkIffStockMoved(db, t.req, RowLocks.ItemsOf(t.phase));
  }

  /** What a database step adds to the log's batches is what it tells the cache. */
  lemma LogGrows(db0: Store, s: RowLocks.System, a: RowLocks.Action)
    requires Serializability.Inv(db0, s) && RowLocks.Enabled(s, a, true)
    ensures Batches(db0, RowLocks.Next(s, a, true).log) == Batches(db0, s.log) + Mutation(s, a)
  {
    var t := s.txns[a.tid];
    assert Serializability.Agrees(s.db, t);
    if a.Go? && RowLocks.Advance(s.db, t, a.fetched).phase.Done? {
      var ev := RowLocks.Next(s, a, true).log[|s.log|];
      AnswerInLog(s, a);
      Serializability.AnswerIsServe(s.db, t, a.fetched);
      if t.phase.Written? {
        ReplaySnoc(db0, s.log, ev);
        CommitAppends(s.db, t.writes);
      } else {
        OnlyCommitsAreOk(s.db, t, a.fetched);
      }
      BatchOfEvent(db0, s.log, ev);
    }
  }

  lemma AnswerInLog(s: RowLocks.System, a: RowLocks.Action)
    requires a.tid < |s.txns| && a.Go? && RowLocks.Advance(s.db, s.txns[a.tid], a.fetched).phase.Done?
    ensures var t := s.txns[a.tid];
            RowLocks.Next(s, a, true).log
            == s.log
               + [Event(a.tid, t.req, RowLocks.ItemsOf(t.phase), RowLocks.Advance(s.db, t, a.fetched).phase.reply)]
  {
  }

  lemma CommitAppends(db: Store, writes: RowLocks.Writes)
    ensures RowLocks.Apply(db, writes).ledger[|db.ledger|..] == writes.rows
  {
  }

  lemma BatchOfEvent(db0: Store, log: seq<Event>, ev: Event)
    requires WellFormed(db0)
    ensures Replay(db0, log).ledger <= Replay(db0, log + [ev]).ledger
    ensures Batches(db0, log + [ev])
         == Batches(db0, log)
            + if ev.reply.Ok? then [Replay(db0, log + [ev]).ledger[|Replay(db0, log).ledger|..]] else []
  {
    assert (log + [ev])[..|log|] == log;
  }

  lemma DbStepTogether(
    s0: Site, s: Site, dbRun: seq<RowLocks.Action>, webRun: seq<CacheRaces.Action>, a: RowLocks.Action)
      returns (webRun': seq<CacheRaces.Action>)
    requires Init(s0) && Together(s0, s, dbRun, webRun) && RowLocks.Enabled(s.database, a, true)
    ensures Together(s0, Next(s, Db(a)), dbRun + [a], webRun')
  {
    Serializability.ReachableInv(s0.database, dbRun, s.database);
    LogGrows(s0.database.db, s.database, a);
    RowLocks.ReachesSnoc(s0.database, dbRun, s.database, a, true);
    var batch := Mutation(s.database, a);
    webRun' := webRun;
    if batch != [] {
      CacheRaces.ReachesSnoc(ReportView(), s0.cache, webRun, s.cache, CacheRaces.Commit(batch[0]));
      webRun' := webRun + [CacheRaces.Commit(batch[0])];
    }
  }

  lemma KeepsCommits(s: ReportState, c: CacheRaces.Action)
    requires CacheRaces.AtStage(s, c) && !c.Commit?
    ensures CacheRaces.Next(ReportView(), s, c).commits == s.commits
  {
  }

  lemma {:induction false} EachOnItsOwn(s0: Site, run: seq<Move>, s: Site)
      returns (dbRun: seq<RowLocks.Action>, webRun: seq<CacheRaces.Action>)
    requires Init(s0) && Reaches(s0, run, s)
    ensures Together(s0, s, dbRun, webRun)
  {
    if run == [] {
      dbRun, webRun := [], [];
    } else {
      var init, last := run[..|run| - 1], run[|run| - 1];
      var prev: Site :| Reaches(s0, init, prev) && Possible(prev, last) && s == Next(prev, last);
      dbRun, webRun := EachOnItsOwn(s0, init, prev);
      match last
      case Db(a) =>
        webRun := DbStepTogether(s0, prev, dbRun, webRun, a);
        dbRun := dbRun + [a];
      case Web(c) =>
        KeepsCommits(prev.cache, c);
        CacheRaces.ReachesSnoc(ReportView(), s0.cache, webRun, prev.cache, c);
        webRun := webRun + [c];
    }
  }

  /** In every state of the whole site the store and all answers are those of the serial run of the log, and every
      report a reader got, hit or miss, is the report after the first `m` events of that run; the mutations among them
      include all whose bump had run when the reader read the version. It takes the version key to exist at the start,
      or all readers to differ in user, role or query. */
  lemma ReportsAreSerial(s0: Site, run: seq<Move>, s: Site, r: nat) returns (m: nat)
    requires Init(s0) && Reaches(s0, run, s) && (s0.cache.version.Some? || CacheRaces.DifferentCallers(s0.cache))
    requires r < |s.cache.readers| && s.cache.readers[r].stage.Served?
    ensures var db0, log, stage := s0.database.db, s.database.log, s.cache.readers[r].stage;
            && Faithful(db0, log) && s.database.db == Replay(db0, log)
            && m <= |log| && stage.page == Page(200, Report(Replay(db0, log[..m]).ledger))
            && stage.seen <= |s.cache.hooks|
            && forall j :: 0 <= j < stage.seen ==> s.cache.hooks[j] < |Batches(db0, log[..m])|
  {
    var dbRun, webRun := EachOnItsOwn(s0, run, s);
    Serializability.Serializable(s0.database, dbRun, s.database);
    TrustedRuns(s0.cache, webRun, s.cache);
    m := HitShowsASerialState(s0.database.db, s.database.log, s0.cache, webRun, s.cache, r);
  }

  /** With the version key present, the counter has risen once for every committed mutation whose hook is not still
      due, and for nothing else. */
  lemma CounterCountsMutations(s0: Site, run: seq<Move>, s: Site)
    requires Init(s0) && Reaches(s0, run, s) && s0.cache.version.Some?
    ensures WellFormed(s0.database.db)
    ensures s.cache.commits == Batches(s0.database.db, s.database.log)
    ensures s.cache.version == Some(s0.cache.version.value + |s.cache.commits| - |s.cache.waiting|)
  {
    var dbRun, webRun := EachOnItsOwn(s0, run, s);
    CacheCounts(s0.cache, webRun, s.cache);
  }

  lemma CacheCounts(c0: ReportState, run: seq<CacheRaces.Action>, c: ReportState)
    requires CacheRaces.Init(ReportView(), c0) && c0.version.Some? && CacheRaces.Reaches(ReportView(), c0, run, c)
    ensures c.version == Some(c0.version.value + |c.commits| - |c.waiting|)
  {
    CacheRaces.ReachableCounts(ReportView(), c0, run, c);
  }

  /******* Trust *******/

  function WriteOffs(n: nat): (txns: seq<RowLocks.Txn>)
    ensures |txns| == n
  {
    seq(n, i => RowLocks.Txn(WriteOff(0, 1), RowLocks.Start, {}, RowLocks.BLANK))
  }

  /** A product with `n` units and `n` requests to write off one, over the ledger behind `cache`. */
  function SiteOf(cache: ReportState, n: nat): Site {
    Site(
      RowLocks.System(Store([n], [true], [], [], [], [], cache.base), WriteOffs(n), []),
      cache)
  }

  /** `k` of the write-offs are done, the others have yet to start. */
  ghost predicate LostSoFar(s: Site, n: nat, k: nat) {
    && k <= n && |s.database.txns| == n
    && |s.database.db.stock| == 1 && s.database.db.stock[0] == n - k && s.database.db.active == [true]
    && (forall t :: 0 <= t < n ==> s.database.txns[t].held == {})
    && (forall t :: k <= t < n ==> s.database.txns[t] == WriteOffs(n)[t])
  }

  lemma ReachesSnoc(s0: Site, run: seq<Move>, s: Site, m: Move)
    requires Reaches(s0, run, s) && Possible(s, m)
    ensures Reaches(s0, run + [m], Next(s, m))
  {
    var longer := run + [m];
    assert longer[..|longer| - 1] == run && longer[|longer| - 1] == m;
    assert Reaches(s0, longer[..|longer| - 1], s);
  }

  lemma Moves(s0: Site, run: seq<Move>, s: Site, m: Move) returns (longer: seq<Move>)
    requires Reaches(s0, run, s) && Possible(s, m)
    ensures Reaches(s0, longer, Next(s, m))
  {
    ReachesSnoc(s0, run, s, m);
    longer := run + [m];
  }

  function Lost(held: set<RowLocks.Row>, phase: RowLocks.Phase, writes: RowLocks.Writes): RowLocks.Txn {
    RowLocks.Txn(WriteOff(0, 1), phase, held, writes)
  }

  function WithTxn(s: Site, k: nat, t: RowLocks.Txn): Site
    requires k < |s.database.txns|
  {
    s.(database := s.database.(txns := s.database.txns[k := t]))
  }

  /** The write-off has read the product and locked it. */
  function Reading(s: Site, n: nat, k: nat): Site
    requires k < |s.database.txns|
  {
    WithTxn(s, k, Lost({RowLocks.ProductRow(0)}, RowLocks.Read(0, n - k), RowLocks.BLANK))
  }

  /** It is about to commit. */
  function AboutToLose(s: Site, n: nat, k: nat): Site
    requires k < |s.database.txns|
  {
    var writes := RowLocks.Writes(map[0 := n - k - 1], LOST, RowLocks.NoMark);
    WithTxn(s, k, Lost({RowLocks.ProductRow(0)}, RowLocks.Written([]), writes))
  }

  lemma WriteOffReads(s: Site, n: nat, k: nat)
    requires LostSoFar(s, n, k) && k < n
    ensures Possible(s, Db(RowLocks.Go(k, []))) && Next(s, Db(RowLocks.Go(k, []))) == Reading(s, n, k)
  {
    assert {} + {RowLocks.ProductRow(0)} == {RowLocks.ProductRow(0)};
  }

  lemma SavesAfterRead(db: Store, n: nat, k: nat)
    requires k < n
    ensures var t := Lost({RowLocks.ProductRow(0)}, RowLocks.Read(0, n - k), RowLocks.BLANK);
            && RowLocks.Wants(db, t, true) == {}
            && RowLocks.Advance(db, t, [])
               == Lost({RowLocks.ProductRow(0)}, RowLocks.Written([]),
                       RowLocks.Writes(map[0 := n - k - 1], LOST, RowLocks.NoMark))
  {
    assert [] + LOST == LOST;
  }

  lemma WriteOffSaves(s: Site, n: nat, k: nat)
    requires k < |s.database.txns| && k < n
    ensures Possible(Reading(s, n, k), Db(RowLocks.Go(k, [])))
    ensures Next(Reading(s, n, k), Db(RowLocks.Go(k, []))) == AboutToLose(s, n, k)
  {
    SavesAfterRead(s.database.db, n, k);
    assert {RowLocks.ProductRow(0)} + {} == {RowLocks.ProductRow(0)};
  }

  lemma WriteOffCommits(s: Site, k: nat, held: set<RowLocks.Row>, writes: RowLocks.Writes)
    requires k < |s.database.txns| && s.database.txns[k] == Lost(held, RowLocks.Written([]), writes)
    requires writes.rows == LOST && writes.mark == RowLocks.NoMark
    ensures Possible(s, Db(RowLocks.Go(k, [])))
    ensures var s' := Next(s, Db(RowLocks.Go(k, [])));
            && s'.database.db == RowLocks.Apply(s.database.db, writes)
            && s'.database.txns == s.database.txns[k := Lost({}, RowLocks.Done(Ok), RowLocks.BLANK)]
            && s'.cache == CacheRaces.Next(ReportView(), s.cache, CacheRaces.Commit(LOST))
  {
  }

  lemma ReadsAndSaves(s0: Site, run: seq<Move>, s: Site, n: nat, k: nat) returns (longer: seq<Move>)
    requires Reaches(s0, run, s) && LostSoFar(s, n, k) && k < n
    ensures Reaches(s0, longer, AboutToLose(s, n, k))
  {
    WriteOffReads(s, n, k);
    longer := Moves(s0, run, s, Db(RowLocks.Go(k, [])));
    WriteOffSaves(s, n, k);
    longer := Moves(s0, longer, Reading(s, n, k), Db(RowLocks.Go(k, [])));
  }

  /** A write-off, served alone, is a commit of its row to the cache. */
  lemma LosesOne(s0: Site, run: seq<Move>, s: Site, n: nat, k: nat) returns (longer: seq<Move>, s': Site)
    requires Reaches(s0, run, s) && LostSoFar(s, n, k) && k < n
    ensures Reaches(s0, longer, s') && LostSoFar(s', n, k + 1)
    ensures s'.cache == CacheRaces.Next(ReportView(), s.cache, CacheRaces.Commit(LOST))
  {
    var last := AboutToLose(s, n, k);
    longer := ReadsAndSaves(s0, run, s, n, k);
    WriteOffCommits(last, k, {RowLocks.ProductRow(0)}, last.database.txns[k].writes);
    longer := Moves(s0, longer, last, Db(RowLocks.Go(k, [])));
    s' := Next(last, Db(RowLocks.Go(k, [])));
    LostOneMore(s, s', n, k);
  }

  lemma LostOneMore(s: Site, s': Site, n: nat, k: nat)
    requires LostSoFar(s, n, k) && k < n
    requires s'.database.db
          == RowLocks.Apply(s.database.db, RowLocks.Writes(map[0 := n - k - 1], LOST, RowLocks.NoMark))
    requires s'.database.txns == s.database.txns[k := Lost({}, RowLocks.Done(Ok), RowLocks.BLANK)]
    ensures LostSoFar(s', n, k + 1)
  {
  }

  /** Any run of the cache whose commits are write-offs of one unit is part of a run of a whole site. */
  lemma {:induction false} Lifts(c0: ReportState, run: seq<CacheRaces.Action>, c: ReportState, n: nat)
      returns (longer: seq<Move>, s: Site)
    requires CacheRaces.Init(ReportView(), c0) && CacheRaces.Reaches(ReportView(), c0, run, c)
    requires |c.commits| <= n && forall k :: 0 <= k < |c.commits| ==> c.commits[k] == LOST
    ensures Reaches(SiteOf(c0, n), longer, s) && s.cache == c && LostSoFar(s, n, |c.commits|)
  {
    if run == [] {
      longer, s := [], SiteOf(c0, n);
    } else {
      var init, last := run[..|run| - 1], run[|run| - 1];
      var prev: ReportState :|
        && CacheRaces.Reaches(ReportView(), c0, init, prev) && CacheRaces.AtStage(prev, last)
        && c == CacheRaces.Next(ReportView(), prev, last);
      CommitsGrow(prev, last);
      longer, s := Lifts(c0, init, prev, n);
      if last.Commit? {
        longer, s := LosesOne(SiteOf(c0, n), longer, s, n, |prev.commits|);
      } else {
        longer := Moves(SiteOf(c0, n), longer, s, Web(last));
        s := Next(s, Web(last));
      }
    }
  }

  lemma CommitsGrow(c: ReportState, a: CacheRaces.Action)
    requires CacheRaces.AtStage(c, a)
    ensures CacheRaces.Next(ReportView(), c, a).commits == c.commits + if a.Commit? then [a.rows] else []
  {
  }

  lemma SiteStarts(c0: ReportState, n: nat)
    requires CacheRaces.Init(ReportView(), c0)
    ensures Init(SiteOf(c0, n))
  {
  }

  ghost predicate TrustedOver(c0: ReportState) {
    forall s0: Site, run: seq<Move>, s: Site :: Init(s0) && s0.cache == c0 && Reaches(s0, run, s) ==>
      CacheRaces.AllFresh(ReportView(), s.cache)
  }

  /** Whatever the database and the requests, every report of the whole site contains all mutations bumped before its
      reader came, exactly when the version key exists at the start or no two readers share user, role and query. */
  lemma SiteTrustedIff(c0: ReportState)
    requires CacheRaces.Init(ReportView(), c0)
    ensures c0.version.Some? || CacheRaces.DifferentCallers(c0) <==> TrustedOver(c0)
  {
    if c0.version.Some? || CacheRaces.DifferentCallers(c0) {
      forall s0: Site, run: seq<Move>, s: Site | Init(s0) && s0.cache == c0 && Reaches(s0, run, s)
        ensures CacheRaces.AllFresh(ReportView(), s.cache)
      {
        var dbRun, webRun := EachOnItsOwn(s0, run, s);
        TrustedRuns(c0, webRun, s.cache);
      }
    } else {
      var run, s := StaleSite(c0);
      assert Init(SiteOf(c0, 3)) && SiteOf(c0, 3).cache == c0;
    }
  }

  /** Three write-offs and two readers with one user, role and query. */
  lemma StaleSite(c0: ReportState) returns (run: seq<Move>, s: Site)
    requires CacheRaces.Init(ReportView(), c0) && c0.version.None? && !CacheRaces.DifferentCallers(c0)
    ensures Init(SiteOf(c0, 3)) && Reaches(SiteOf(c0, 3), run, s) && !CacheRaces.AllFresh(ReportView(), s.cache)
  {
    var r: nat, q: nat :| r < q < |c0.readers| && c0.readers[r].caller == c0.readers[q].caller;
    var webRun, c := StaleHitOfTwo(c0, r, q);
    SiteStarts(c0, 3);
    run, s := Lifts(c0, webRun, c, 3);
  }
}
