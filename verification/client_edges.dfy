// Short runs in which the client does not keep what one would expect of it.
module ClientEdges {
  import opened TileCells
  import opened JobQueue
  import opened ClientQueue
  import opened ClientProtocol
  import opened ClientRuns
  import opened ClientCountsProof
  import opened ClientDrain

  // ---- Shutdown ----

  const AT := TileCoord(0, 0, 0)

  function TheJob(): Job {
    Job(0, EnsureTiles, "u", 0, AT, false, [AT], true, true, true)
  }

  function TheCells(st: CellState): Cells { Fresh([AT]).(state := [st]) }

  ghost function Shot(g: Guarded, st: CellState, pc: Worker, ops: seq<Op>, x: Loc, closed: nat): State {
    State(g, map[0 := TheCells(st)], [pc], [ops], [TheJob()], [x], [closed])
  }

  lemma ShutdownRequest(c: Config)
    ensures Step(c, Init(1, 1), RequestCells("u", [AT]))
         == Shot(Guarded([TheJob()], false, 0, 0, 1, []), Pending, Idle, [], Queued, 0)
  {
    var s0, j := Init(1, 1), TheJob();
    assert NewJob(s0, EnsureTiles, "u").(hasCells := true, at := AT, tileBatch := [AT], exempt := true) == j;
    var s1 := Step(c, s0, RequestCells("u", [AT]));
    assert Enqueued([], j, false) == [j];
    assert ClosedBy([], []) == [] && MovedLoc([], [], Dropped) == [];
    assert s1.loc == [Queued] && s1.closed == [0] && s1.g.queue == [j];
    assert Fresh([AT]) == TheCells(Pending);
    assert s1.cells == map[0 := TheCells(Pending)];
  }

  lemma ShutdownTakes(c: Config)
    ensures Claim([TheJob()], false, 0, 1, c.remote, c.arch) == Claimed([TheJob()], false, [])
  {
    var q := [TheJob()];
    assert FirstFrom(q, FreshTest(1), 0) == 0;
    assert FirstFrom(q, IsTile(), 0) == 0;
    assert Prefer(q) == q;
  }

  lemma ShutdownClaim(c: Config)
    ensures var s1 := Shot(Guarded([TheJob()], false, 0, 0, 1, []), Pending, Idle, [], Queued, 0);
      Step(c, s1, ClaimStep(0))
        == Shot(Guarded([], false, 1, 0, 1, [BatchRef(0, "u")]), Pending, Started(TheJob()), [], AtWorker(0), 0)
  {
    var j := TheJob();
    var s1 := Shot(Guarded([j], false, 0, 0, 1, []), Pending, Idle, [], Queued, 0);
    ShutdownTakes(c);
    OneJobCounts(j);
    assert HasId([j], 0);
    var s2 := Step(c, s1, ClaimStep(0));
    assert s2.loc == [AtWorker(0)];
    assert s2.workers == [Started(j)];
    assert s2.g == Guarded([], false, 1, 0, 1, [BatchRef(0, "u")]);
  }

  lemma ShutdownCancel(c: Config)
    ensures var g := Guarded([], false, 1, 0, 1, [BatchRef(0, "u")]);
      var s2 := Shot(g, Pending, Started(TheJob()), [], AtWorker(0), 0);
      var s3 := Step(c, s2, CancelUri(0, "u"));
      && s3 == Shot(g, Pending, Started(TheJob()), [Mark(0, [], true)], AtWorker(0), 0)
      && Step(c, s3, HostStep(0)) == Shot(g, CancelRequested, Started(TheJob()), [], AtWorker(0), 0)
  {
    var g := Guarded([], false, 1, 0, 1, [BatchRef(0, "u")]);
    var s2 := Shot(g, Pending, Started(TheJob()), [], AtWorker(0), 0);
    var s3 := Step(c, s2, CancelUri(0, "u"));
    assert RunningFor([], "u") == [] && Select([], UriTest("u")) == [] && Reject([], UriTest("u")) == [];
    assert RunningFor(g.running, "u") == [0];
    assert DropAll([]) + MarkAll([0], [], true) == [Mark(0, [], true)];
    assert s3.hosts == [[Mark(0, [], true)]];
    assert s3.loc == [AtWorker(0)];
    var s4 := Step(c, s3, HostStep(0));
    var mark := [Mark(0, [], true)];
    assert mark[1..] == [] && mark[1..] + mark[1..] == [];
    assert s4.hosts == [[]];
    assert MarkRunning(TheCells(Pending), []).state == [CancelRequested];
    assert s4.cells == map[0 := TheCells(CancelRequested)];
  }

  lemma ShutdownStop(c: Config)
    ensures var g := Guarded([], false, 1, 0, 1, [BatchRef(0, "u")]);
      var done := Guarded([], true, 0, 0, 1, []);
      var s5 := Step(c, Shot(g, CancelRequested, Started(TheJob()), [], AtWorker(0), 0), Shutdown(0));
      && s5 == Shot(g.(stop := true), CancelRequested, Started(TheJob()), [], AtWorker(0), 0)
      && Step(c, s5, WorkerStep(0, Throw))
           == Shot(done, CancelRequested, Unwinding([DropJob(TheJob())]), [], AtWorker(0), 0)
  {
    var g := Guarded([], false, 1, 0, 1, [BatchRef(0, "u")]);
    var s5 := Step(c, Shot(g, CancelRequested, Started(TheJob()), [], AtWorker(0), 0), Shutdown(0));
    var none: seq<Job>, rest: seq<Op> := [], [];
    assert Select(none, AnyTest()) == none && Reject(none, AnyTest()) == none && DropAll(none) + rest == rest;
    assert s5.hosts == [[]] && s5.loc == [AtWorker(0)];
    assert WithoutBatch([], 0) == [];
  }

  lemma ShutdownDrop(c: Config)
    ensures var done := Guarded([], true, 0, 0, 1, []);
      var s6 := Shot(done, CancelRequested, Unwinding([DropJob(TheJob())]), [], AtWorker(0), 0);
      Step(c, s6, WorkerStep(0, Throw))
        == Shot(done, CancelRequested, Unwinding([Retire(TheJob())]), [], AtWorker(0), 1)
  {
    var j := TheJob();
    var s6 := Shot(Guarded([], true, 0, 0, 1, []), CancelRequested, Unwinding([DropJob(j)]), [], AtWorker(0), 0);
    var s7 := Step(c, s6, WorkerStep(0, Throw));
    assert Reached(TheCells(CancelRequested), [], 0) == [] && Reached(TheCells(CancelRequested), [], 1) == [];
    assert Closings([], 0) == 0 && Closings([j], 0) == 1;
    assert s7.closed == [1];
    var drop := [DropJob(j)];
    assert Replies(0, []) + [Retire(j)] == [Retire(j)] && [Retire(j)] + drop[1..] == [Retire(j)];
    assert s7.workers == [Unwinding([Retire(j)])];
  }

  lemma ShutdownEnd(c: Config)
    ensures var done := Guarded([], true, 0, 0, 1, []);
      var s7 := Shot(done, CancelRequested, Unwinding([Retire(TheJob())]), [], AtWorker(0), 1);
      Step(c, s7, WorkerStep(0, Throw)) == Shot(done, CancelRequested, Unwinding([]), [], Aborted, 1)
  {
    var s7 := Shot(Guarded([], true, 0, 0, 1, []), CancelRequested, Unwinding([Retire(TheJob())]), [], AtWorker(0), 1);
    var s8 := Step(c, s7, WorkerStep(0, Throw));
    assert HasId([TheJob()], 0);
    assert s8.loc == [Aborted];
    var rest, none: seq<Op> := [Retire(TheJob())][1..], [];
    assert rest == none && none + rest == none;
    assert s8.workers == [Unwinding([])];
  }

  // A request, its claim, a cancellation that only gets to mark the cell, then shutdown.
  function EdgeLabels(): seq<Label> {
    [RequestCells("u", [AT]), ClaimStep(0), CancelUri(0, "u"), HostStep(0), Shutdown(0),
     WorkerStep(0, Throw), WorkerStep(0, Throw), WorkerStep(0, Throw)]
  }

  ghost function EdgeState(k: nat): State {
    var r := Guarded([], false, 1, 0, 1, [BatchRef(0, "u")]);
    var e := Guarded([], true, 0, 0, 1, []);
    if k == 0 then Init(1, 1)
    else if k == 1 then Shot(Guarded([TheJob()], false, 0, 0, 1, []), Pending, Idle, [], Queued, 0)
    else if k == 2 then Shot(r, Pending, Started(TheJob()), [], AtWorker(0), 0)
    else if k == 3 then Shot(r, Pending, Started(TheJob()), [Mark(0, [], true)], AtWorker(0), 0)
    else if k == 4 then Shot(r, CancelRequested, Started(TheJob()), [], AtWorker(0), 0)
    else if k == 5 then Shot(r.(stop := true), CancelRequested, Started(TheJob()), [], AtWorker(0), 0)
    else if k == 6 then Shot(e, CancelRequested, Unwinding([DropJob(TheJob())]), [], AtWorker(0), 0)
    else if k == 7 then Shot(e, CancelRequested, Unwinding([Retire(TheJob())]), [], AtWorker(0), 1)
    else Shot(e, CancelRequested, Unwinding([]), [], Aborted, 1)
  }

  lemma EdgeStep(c: Config, k: nat)
    requires k < 8
    ensures AllShaped(EdgeState(k).cells) && Enabled(EdgeState(k), EdgeLabels()[k])
    ensures Step(c, EdgeState(k), EdgeLabels()[k]) == EdgeState(k + 1)
  {
    if k == 0 {
      ShutdownRequest(c);
    } else if k == 1 {
      ShutdownClaim(c);
    } else if k < 4 {
      ShutdownCancel(c);
    } else if k < 6 {
      ShutdownStop(c);
    } else if k == 6 {
      ShutdownDrop(c);
    } else {
      ShutdownEnd(c);
    }
  }

  /** The state is the k-th of that run. */
  ghost predicate AtEdge(s: State, k: nat) { s == EdgeState(k) }

  lemma EdgeNext(c: Config, s: State, k: nat)
    requires k < 8 && AtEdge(s, k)
    ensures AllShaped(s.cells) && Enabled(s, EdgeLabels()[k]) && AtEdge(Step(c, s, EdgeLabels()[k]), k + 1)
  {
    EdgeStep(c, k);
  }

  lemma {:induction false} EdgeRun(c: Config, k: nat)
    requires k <= 8
    ensures AtEdge(Run(c, Init(1, 1), EdgeLabels()[..k]), k)
  {
    if k == 0 {
      assert EdgeLabels()[..0] == [];
    } else {
      EdgeRun(c, k - 1);
      EdgeNext(c, Run(c, Init(1, 1), EdgeLabels()[..k - 1]), k - 1);
      RunNext(c, Init(1, 1), EdgeLabels(), k - 1);
    }
  }

  lemma RunNext(c: Config, s: State, schedule: seq<Label>, k: nat)
    requires k < |schedule|
    requires var t := Run(c, s, schedule[..k]); AllShaped(t.cells) && Enabled(t, schedule[k])
    ensures Run(c, s, schedule[..k + 1]) == Step(c, Run(c, s, schedule[..k]), schedule[k])
  {
    assert schedule[..k + 1][..k] == schedule[..k];
  }

  /** The shutdown exception happens: a cell marked between the claim and the worker's check of
      the stop flag is never answered. */
  lemma ShutdownLosesAReply(c: Config)
    ensures var s := After(c, 1, 1, EdgeLabels());
      && 0 in s.cells && s.loc == [Aborted] && s.cells[0].log == [[]] && s.cells[0].state == [CancelRequested]
      && s.hosts == [[]] && s.workers == [Unwinding([])]
  {
    EdgeRun(c, 8);
    assert EdgeLabels()[..8] == EdgeLabels();
  }

  /** The stop flag matters for drain: a worker that sees it counts its job out first, so drain
      may return while that worker still holds the job and has not closed its activity. */
  lemma ShutdownEscapesDrain(c: Config)
    ensures var s := After(c, 1, 1, EdgeLabels()[..6]);
      && s.g.queue == [] && s.g.inflight == 0 && TotalHeld(s.workers) == 0 && s.g.stop && s.hosts == [[]]
      && s.workers == [Unwinding([DropJob(TheJob())])] && s.loc == [AtWorker(0)] && s.closed == [0]
  {
    EdgeRun(c, 6);
  }

  // ---- Jobs without a uri ----

  lemma RunMore(c: Config, s: State, schedule: seq<Label>, l: Label)
    requires var t := Run(c, s, schedule); AllShaped(t.cells) && Enabled(t, l)
    ensures Run(c, s, schedule + [l]) == Step(c, Run(c, s, schedule), l)
  {
    assert (schedule + [l])[..|schedule|] == schedule;
  }

  lemma TwoSteps(c: Config, a: Label, b: Label)
    requires var s := Init(1, 0); Enabled(s, a) && AllShaped(Step(c, s, a).cells) && Enabled(Step(c, s, a), b)
    ensures After(c, 1, 0, [a, b]) == Step(c, Step(c, Init(1, 0), a), b)
  {
    RunMore(c, Init(1, 0), [], a);
    RunMore(c, Init(1, 0), [a], b);
    assert [] + [a] == [a] && [a] + [b] == [a, b];
  }

  /** A client with one idle worker and one queued job without a uri. */
  ghost predicate OneNameless(s: State, j: Job) {
    && s.g == Guarded([j], false, 0, 0, 1, []) && s.cells == map[] && s.workers == [Idle]
    && j.uri == "" && j.epoch == 1 && !j.hasCells && !Interactive(j)
  }

  lemma NamelessClaim(c: Config, s: State, j: Job)
    requires OneNameless(s, j)
    ensures var t := ClaimBy(c, s, 0);
      t.g == Guarded([], false, 0, if FocusFull(j) then 1 else 0, 1, []) && t.workers == [Started(j)]
  {
    var q := [j];
    assert FirstFrom(q, FreshTest(1), 0) == 0 && FirstFrom(q, IsTile(), 1) == 1 && FirstFrom(q, IsProbe(), 1) == 1;
    assert Preferred(q) == 0 && Prefer(q) == q;
    assert Claim(q, false, 0, 1, c.remote, c.arch) == Claimed([j], false, []);
    OneJobCounts(j);
  }

  lemma NamelessRun(c: Config, l: Label)
    requires l == RequestSize("") || l == RequestPyramid("")
    ensures var s := After(c, 1, 0, [l, ClaimStep(0)]);
      && |s.workers| == 1 && s.workers[0].Started? && s.workers[0].job.uri == ""
      && FocusFull(s.workers[0].job) == l.RequestPyramid?
      && s.g == Guarded([], false, 0, if l.RequestPyramid? then 1 else 0, 1, [])
  {
    var s0 := Init(1, 0);
    var s1 := Step(c, s0, l);
    var job := if l.RequestSize? then NewJob(s0, ProbeSize, "") else NewJob(s0, EnsureTiles, "").(pyramid := true);
    var j := job.(epoch := 1);
    assert s1.g.queue == [j];
    assert OneNameless(s1, j);
    NamelessClaim(c, s1, j);
    TwoSteps(c, l, ClaimStep(0));
  }

  /** Claiming a job without a uri leaves queue and counter empty, so drain returns while a
      worker holds the job. */
  lemma EmptyUriEscapesDrain(c: Config)
    ensures var s := After(c, 1, 0, [RequestSize(""), ClaimStep(0)]);
      s.g.queue == [] && s.g.inflight == 0 && TotalHeld(s.workers) == 1
  {
    NamelessRun(c, RequestSize(""));
    var s := After(c, 1, 0, [RequestSize(""), ClaimStep(0)]);
    assert s.workers[..0] == [];
  }

  /** A pyramid without a uri is counted when claimed and never counted out: whatever happens
      after these three steps, no worker holds a pyramid and none ever claims one. */
  lemma EmptyUriPyramidLeaks(c: Config, more: seq<Label>)
    ensures var s := After(c, 1, 0, [RequestPyramid(""), ClaimStep(0), WorkerStep(0, Throw)] + more);
      && s.g.focus == FOCUS_FULL_MAX_CONCURRENT && TotalFocus(s.workers) == 0
      && var r := NextClaim(c, s); r.Claimed? ==> r.jobs != [] && !FocusFull(r.jobs[0])
  {
    var schedule := [RequestPyramid(""), ClaimStep(0), WorkerStep(0, Throw)] + more;
    assert schedule[..2] == [RequestPyramid(""), ClaimStep(0)];
    NamelessRun(c, RequestPyramid(""));
    LeakIsForever(c, 1, 0, schedule, 2);
  }

  lemma ThreeSteps(c: Config, s: State, a: Label, b: Label, d: Label)
    requires Enabled(s, a) && AllShaped(s.cells)
    requires AllShaped(Step(c, s, a).cells) && Enabled(Step(c, s, a), b)
    requires var t := Step(c, Step(c, s, a), b); AllShaped(t.cells) && Enabled(t, d)
    ensures Run(c, s, [a, b, d]) == Step(c, Step(c, Step(c, s, a), b), d)
  {
    RunMore(c, s, [], a);
    RunMore(c, s, [a], b);
    RunMore(c, s, [a, b], d);
    assert [] + [a] == [a] && [a] + [b] == [a, b] && [a, b] + [d] == [a, b, d];
  }

  /** A worker of a stopping client leaves for good with a job without a uri: its activity is
      never closed. */
  lemma AbandonLosesAClosing(c: Config)
    ensures var s := After(c, 1, 1, [Shutdown(0), RequestSize(""), ClaimStep(0)]);
      s.workers == [Exited] && s.loc == [Aborted] && s.closed == [0] && |s.jobs| == 1 && s.jobs[0].ledger
  {
    var s1 := Step(c, Init(1, 1), Shutdown(0));
    StopNothing(c);
    StoppedRequest(c, s1);
    var s2 := Step(c, s1, RequestSize(""));
    AbandonOne(c, s2, s2.jobs[0]);
    ThreeSteps(c, Init(1, 1), Shutdown(0), RequestSize(""), ClaimStep(0));
  }

  lemma StoppedRequest(c: Config, s: State)
    requires s.g == Guarded([], true, 0, 0, 1, []) && s.cells == map[] && s.workers == [Idle]
    requires s.jobs == [] && s.loc == [] && s.closed == []
    ensures var t := Step(c, s, RequestSize("")); var j := NewJob(s, ProbeSize, "").(epoch := 1);
      && t.g == Guarded([j], true, 0, 0, 1, []) && t.cells == map[] && t.workers == [Idle]
      && t.jobs == [j] && t.loc == [Queued] && t.closed == [0]
  {
    var j := NewJob(s, ProbeSize, "").(epoch := 1);
    assert Enqueued([], j, true) == [j];
  }

  lemma StopNothing(c: Config)
    ensures var s := Step(c, Init(1, 1), Shutdown(0));
      && s.g == Guarded([], true, 0, 0, 1, []) && s.cells == map[] && s.workers == [Idle]
      && s.jobs == [] && s.loc == [] && s.closed == []
  {
    assert Select([], AnyTest()) == [] && Reject([], AnyTest()) == [];
  }

  lemma AbandonOne(c: Config, s: State, j: Job)
    requires s.g == Guarded([j], true, 0, 0, 1, []) && s.workers == [Idle] && s.loc == [Queued] && s.closed == [0]
    requires j.id == 0 && j.kind == ProbeSize && j.uri == "" && j.epoch == 1 && !j.hasCells
    ensures var t := ClaimBy(c, s, 0);
      t.workers == [Exited] && t.loc == [Aborted] && t.closed == [0] && t.jobs == s.jobs
  {
    var q := [j];
    assert FirstFrom(q, FreshTest(1), 0) == 0 && FirstFrom(q, IsTile(), 1) == 1 && FirstFrom(q, IsProbe(), 0) == 0;
    assert Prefer(q) == q;
    assert Claim(q, true, 0, 1, c.remote, c.arch) == Abandoned(j, []);
    assert HasId([j], 0);
  }

  // ---- Repeated releases ----

  function SizeJob(id: nat, uri: string): Job {
    Job(id, ProbeSize, uri, 1, TileCoord(0, 0, 0), false, [], false, false, true)
  }

  /** Two requests for one member of an archive and one for another. */
  function Sizes(u: string, v: string): seq<Job> { [SizeJob(0, u), SizeJob(1, u), SizeJob(2, v)] }

  function RepeatLabels(u: string, v: string): seq<Label> {
    [BulkSize(u), BulkSize(u), BulkSize(v), ClaimStep(0),
     WorkerStep(0, Pick(0)), WorkerStep(0, Pick(0)), WorkerStep(0, Again(0))]
  }

  ghost predicate Looks(s: State, queue: seq<Job>, jobs: nat, inflight: int, pc: Worker) {
    && s.g == Guarded(queue, false, inflight, 0, 1, []) && s.cells == map[] && s.workers == [pc] && |s.jobs| == jobs
  }

  ghost predicate RepeatAt(s: State, u: string, v: string, k: nat) {
    var js := Sizes(u, v);
    if k <= 3 then Looks(s, js[..k], k, 0, Idle)
    else if k == 4 then Looks(s, [], 3, 3, Batch(js, []))
    else if k == 5 then Looks(s, [], 3, 2, Batch(js[1..], js[..1]))
    else if k == 6 then Looks(s, [], 3, 1, Batch(js[2..], js[..2]))
    else Looks(s, [], 3, 0, Batch(js[2..], js[..2]))
  }

  predicate OneArchive(c: Config, u: string, v: string) {
    && !c.remote && u != "" && v != "" && c.arch(u).Some? && c.arch(v).Some?
    && c.arch(u).value.path == c.arch(v).value.path && c.arch(u).value.member != "" && c.arch(v).value.member != ""
  }

  lemma SizesClaim(c: Config, u: string, v: string)
    requires OneArchive(c, u, v)
    ensures Claim(Sizes(u, v), false, 0, 1, c.remote, c.arch) == Claimed(Sizes(u, v), true, [])
    ensures CountNamed(Sizes(u, v)) == 3 && CountFocus(Sizes(u, v)) == 0
  {
    var q := Sizes(u, v);
    assert FirstFrom(q, FreshTest(1), 0) == 0 && FirstFrom(q, IsTile(), 3) == 3 && FirstFrom(q, IsTile(), 2) == 3;
    assert FirstFrom(q, IsTile(), 1) == 3 && FirstFrom(q, IsProbe(), 0) == 0;
    assert Prefer(q) == q;
    var a, b, t := q[1], q[2], JoinTest(q[0], c.arch);
    assert q[1..] == [a, b] && [a, b][..1] == [a] && [a][..0] == [];
    assert Select([a], t) == [a] && Reject([a], t) == [];
    assert Select([a, b], t) == [a] + [b] && Reject([a, b], t) == [];
    assert [q[0]] + [a, b] == q;
    CountAllNamed(q);
    CountNoFocus(q);
  }

  lemma RepeatQueue(c: Config, s: State, u: string, v: string, k: nat)
    requires k < 3 && RepeatAt(s, u, v, k)
    ensures RepeatAt(Step(c, s, RepeatLabels(u, v)[k]), u, v, k + 1)
  {
    var js := Sizes(u, v);
    assert js[..k] + [js[k]] == js[..k + 1];
  }

  lemma RepeatClaim(c: Config, s: State, u: string, v: string)
    requires OneArchive(c, u, v) && RepeatAt(s, u, v, 3)
    ensures RepeatAt(ClaimBy(c, s, 0), u, v, 4)
  {
    var js := Sizes(u, v);
    assert js[..3] == js;
    SizesClaim(c, u, v);
  }

  lemma RepeatPick(c: Config, s: State, u: string, v: string, k: nat)
    requires 4 <= k < 6 && RepeatAt(s, u, v, k)
    ensures RepeatAt(WorkerAct(s, 0, Pick(0)), u, v, k + 1)
  {
    var js := Sizes(u, v);
    assert WithoutIndex(js[k - 4..], 0) == js[k - 3..];
    assert js[..k - 4] + [js[k - 4]] == js[..k - 3] && js[k - 4..][0] == js[k - 4];
  }

  lemma RepeatAgain(s: State, u: string, v: string)
    requires RepeatAt(s, u, v, 6)
    ensures RepeatAt(WorkerAct(s, 0, Again(0)), u, v, 7)
  {
  }

  lemma RepeatStep(c: Config, s: State, u: string, v: string, k: nat)
    requires OneArchive(c, u, v) && k < 7 && RepeatAt(s, u, v, k)
    ensures AllShaped(s.cells) && Enabled(s, RepeatLabels(u, v)[k])
    ensures RepeatAt(Step(c, s, RepeatLabels(u, v)[k]), u, v, k + 1)
  {
    if k < 3 {
      RepeatQueue(c, s, u, v, k);
    } else if k == 3 {
      RepeatClaim(c, s, u, v);
    } else if k < 6 {
      RepeatPick(c, s, u, v, k);
    } else {
      RepeatAgain(s, u, v);
    }
  }

  lemma {:induction false} RepeatRun(c: Config, u: string, v: string, k: nat)
    requires OneArchive(c, u, v) && k <= 7
    ensures RepeatAt(After(c, 1, 0, RepeatLabels(u, v)[..k]), u, v, k)
  {
    if k == 0 {
      assert RepeatLabels(u, v)[..0] == [];
    } else {
      RepeatRun(c, u, v, k - 1);
      RepeatStep(c, After(c, 1, 0, RepeatLabels(u, v)[..k - 1]), u, v, k - 1);
      RunNext(c, Init(1, 0), RepeatLabels(u, v), k - 1);
    }
  }

  /** A member that was requested twice, in an archive that holds it twice: the second entry
      releases a job again, and drain returns while a worker still holds another one. */
  lemma RepeatEscapesDrain(c: Config, u: string, v: string)
    requires OneArchive(c, u, v)
    ensures var s := After(c, 1, 0, RepeatLabels(u, v));
      s.g.queue == [] && s.g.inflight == 0 && TotalHeld(s.workers) == 1
  {
    RepeatRun(c, u, v, 7);
    assert RepeatLabels(u, v)[..7] == RepeatLabels(u, v);
    var s := After(c, 1, 0, RepeatLabels(u, v));
    assert s.workers[..0] == [];
  }
}
