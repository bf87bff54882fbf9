// The counters, the activity ledger and drain over whole runs: what holds in every run, and
// exactly which steps break the rest.
module ClientDrain {
  import opened RunInduction
  import opened JobQueue
  import opened ClientQueue
  import opened ClientProtocol
  import opened ClientJobsProof
  import opened ClientCellsProof
  import opened ClientStepsProof
  import opened ClientRuns
  import opened ClientCountsProof
  import opened ClientLedgerProof
  import opened ClientTheorems

  // ---- The jobs in flight ----

  ghost predicate ProperAt(c: Config, workers: nat, hosts: nat, schedule: seq<Label>, n: nat)
    requires n < |schedule|
  {
    var s := Prefix(c, workers, hosts, schedule, n);
    Enabled(s, schedule[n]) ==> Proper(c, s, schedule[n])
  }

  ghost predicate ProperRun(c: Config, workers: nat, hosts: nat, schedule: seq<Label>) {
    forall n: nat :: n < |schedule| ==> ProperAt(c, workers, hosts, schedule, n)
  }

  lemma StartHolds(c: Config, workers: nat, hosts: nat, schedule: seq<Label>)
    ensures Prefix(c, workers, hosts, schedule, 0) == Init(workers, hosts)
    ensures InflightOk(Init(workers, hosts)) && Gap(Init(workers, hosts)) == 0
  {
    assert schedule[..0] == [];
    IdleCounts(Init(workers, hosts).workers);
  }

  lemma InflightStepIff(c: Config, workers: nat, hosts: nat, schedule: seq<Label>, n: nat)
    requires n < |schedule| && InflightOk(Prefix(c, workers, hosts, schedule, n))
    ensures Exactly(Prefix(c, workers, hosts, schedule, n + 1)) <==> ProperAt(c, workers, hosts, schedule, n)
    ensures ProperAt(c, workers, hosts, schedule, n) ==> InflightOk(Prefix(c, workers, hosts, schedule, n + 1))
  {
    NextPrefix(c, workers, hosts, schedule, n);
    var s := Prefix(c, workers, hosts, schedule, n);
    if Enabled(s, schedule[n]) {
      StepInflightIff(c, s, schedule[n]);
    }
  }

  ghost predicate OkAt(c: Config, workers: nat, hosts: nat, schedule: seq<Label>, n: nat)
    requires n <= |schedule|
  {
    InflightOk(Prefix(c, workers, hosts, schedule, n))
  }

  ghost predicate ExactlyAt(c: Config, workers: nat, hosts: nat, schedule: seq<Label>, n: nat)
    requires n <= |schedule|
  {
    Exactly(Prefix(c, workers, hosts, schedule, n))
  }

  lemma ProperMeansExact(c: Config, workers: nat, hosts: nat, schedule: seq<Label>)
    requires ProperRun(c, workers, hosts, schedule)
    ensures InflightOk(After(c, workers, hosts, schedule))
  {
    var ok := (k: nat) => k <= |schedule| && OkAt(c, workers, hosts, schedule, k);
    var fine := (k: nat) => k < |schedule| && ProperAt(c, workers, hosts, schedule, k);
    StartHolds(c, workers, hosts, schedule);
    forall k: nat | k < |schedule| && ok(k) && fine(k) ensures ok(k + 1) {
      InflightStepIff(c, workers, hosts, schedule, k);
    }
    FineKeeps(ok, fine, |schedule|);
    assert schedule[..|schedule|] == schedule;
  }

  /** Throughout a run inflight is the number of jobs that workers hold, if and only if no claim
      takes a job without a uri to work on and no job is released again while any is counted. */
  lemma InflightExactIff(c: Config, workers: nat, hosts: nat, schedule: seq<Label>)
    ensures (forall n: nat :: n <= |schedule| ==> ExactlyAt(c, workers, hosts, schedule, n))
       <==> ProperRun(c, workers, hosts, schedule)
  {
    var ok := (k: nat) => k <= |schedule| && OkAt(c, workers, hosts, schedule, k);
    var fine := (k: nat) => k < |schedule| && ProperAt(c, workers, hosts, schedule, k);
    var seen := (k: nat) => k <= |schedule| && ExactlyAt(c, workers, hosts, schedule, k);
    StartHolds(c, workers, hosts, schedule);
    forall k: nat | k < |schedule| && ok(k)
      ensures (seen(k + 1) ==> fine(k)) && (fine(k) ==> ok(k + 1))
    {
      InflightStepIff(c, workers, hosts, schedule, k);
    }
    Stepwise(ok, fine, seen, |schedule|);
    assert forall k: nat :: k <= |schedule| ==> seen(k) == ExactlyAt(c, workers, hosts, schedule, k);
    assert forall k: nat :: k < |schedule| ==> fine(k) == ProperAt(c, workers, hosts, schedule, k);
  }

  // ---- The pyramids in flight ----

  ghost predicate LeaksAt(c: Config, workers: nat, hosts: nat, schedule: seq<Label>, n: nat)
    requires n < |schedule|
  {
    var s := Prefix(c, workers, hosts, schedule, n);
    Enabled(s, schedule[n]) && Leaks(c, s, schedule[n])
  }

  ghost function LeakCount(c: Config, workers: nat, hosts: nat, schedule: seq<Label>, n: nat): nat
    requires n <= |schedule|
  {
    CountOf((k: nat) => k < |schedule| && LeaksAt(c, workers, hosts, schedule, k), n)
  }

  lemma {:induction false} FocusUpTo(c: Config, workers: nat, hosts: nat, schedule: seq<Label>, n: nat)
    requires n <= |schedule|
    ensures Gap(Prefix(c, workers, hosts, schedule, n)) == LeakCount(c, workers, hosts, schedule, n)
    ensures Prefix(c, workers, hosts, schedule, n).g.focus <= FOCUS_FULL_MAX_CONCURRENT
  {
    StartHolds(c, workers, hosts, schedule);
    if n > 0 {
      FocusUpTo(c, workers, hosts, schedule, n - 1);
      NextPrefix(c, workers, hosts, schedule, n - 1);
      var s := Prefix(c, workers, hosts, schedule, n - 1);
      if Enabled(s, schedule[n - 1]) {
        StepGap(c, s, schedule[n - 1]);
      }
    }
  }

  /** In every run focus is the number of held pyramids and of those that leaked their slot, and
      never exceeds the cap. */
  lemma FocusIsHeldPlusLeaked(c: Config, workers: nat, hosts: nat, schedule: seq<Label>)
    ensures var s := After(c, workers, hosts, schedule);
      && s.g.focus == TotalFocus(s.workers) + LeakCount(c, workers, hosts, schedule, |schedule|)
      && s.g.focus <= FOCUS_FULL_MAX_CONCURRENT
  {
    FocusUpTo(c, workers, hosts, schedule, |schedule|);
    assert schedule[..|schedule|] == schedule;
  }

  /** So after a run focus is exact if and only if no pyramid without a uri was ever given up. */
  lemma FocusExactIff(c: Config, workers: nat, hosts: nat, schedule: seq<Label>)
    ensures var s := After(c, workers, hosts, schedule);
      s.g.focus == TotalFocus(s.workers)
      <==> forall n: nat :: n < |schedule| ==> !LeaksAt(c, workers, hosts, schedule, n)
  {
    var leaks := (k: nat) => k < |schedule| && LeaksAt(c, workers, hosts, schedule, k);
    FocusIsHeldPlusLeaked(c, workers, hosts, schedule);
    NoneCounted(leaks, |schedule|);
    assert forall k: nat :: k < |schedule| ==> leaks(k) == LeaksAt(c, workers, hosts, schedule, k);
  }

  /** Once a slot has leaked no worker holds a pyramid any more, and none ever claims one. */
  lemma LeakIsForever(c: Config, workers: nat, hosts: nat, schedule: seq<Label>, n: nat)
    requires n < |schedule| && LeaksAt(c, workers, hosts, schedule, n)
    ensures var s := After(c, workers, hosts, schedule);
      && s.g.focus == FOCUS_FULL_MAX_CONCURRENT && TotalFocus(s.workers) == 0
      && var r := NextClaim(c, s); r.Claimed? ==> r.jobs != [] && !FocusFull(r.jobs[0])
  {
    FocusIsHeldPlusLeaked(c, workers, hosts, schedule);
    FocusExactIff(c, workers, hosts, schedule);
    FullSlotBlocks(c, After(c, workers, hosts, schedule));
  }

  lemma FullSlotBlocks(c: Config, s: State)
    requires s.g.focus == FOCUS_FULL_MAX_CONCURRENT
    ensures var r := NextClaim(c, s); r.Claimed? ==> r.jobs != [] && !FocusFull(r.jobs[0])
  {
    var r := NextClaim(c, s);
    if r.Claimed? && FocusFull(r.jobs[0]) {
      ClaimedPyramidIsAlone(s.g.queue, s.g.stop, s.g.focus, s.g.epoch, c.remote, c.arch);
    }
  }

  // ---- Activities ----

  ghost predicate AbandonsAt(c: Config, workers: nat, hosts: nat, schedule: seq<Label>, n: nat)
    requires n < |schedule|
  {
    var s := Prefix(c, workers, hosts, schedule, n);
    Enabled(s, schedule[n]) && Abandons(c, s, schedule[n])
  }

  ghost predicate LedgerAt(c: Config, workers: nat, hosts: nat, schedule: seq<Label>, n: nat)
    requires n <= |schedule|
  {
    var s := Prefix(c, workers, hosts, schedule, n);
    |s.jobs| == |s.loc| == |s.closed| && LedgerOk(s)
  }

  ghost predicate ClosedAt(c: Config, workers: nat, hosts: nat, schedule: seq<Label>, n: nat)
    requires n <= |schedule|
  {
    var s := Prefix(c, workers, hosts, schedule, n);
    |s.jobs| == |s.loc| == |s.closed| && AllClosed(s)
  }

  lemma LedgerStep(c: Config, workers: nat, hosts: nat, schedule: seq<Label>, n: nat)
    requires n < |schedule| && LedgerAt(c, workers, hosts, schedule, n)
    ensures !AbandonsAt(c, workers, hosts, schedule, n) ==> LedgerAt(c, workers, hosts, schedule, n + 1)
    ensures AbandonsAt(c, workers, hosts, schedule, n) ==> !ClosedAt(c, workers, hosts, schedule, n + 1)
  {
    NextPrefix(c, workers, hosts, schedule, n);
    var s := Prefix(c, workers, hosts, schedule, n);
    if AbandonsAt(c, workers, hosts, schedule, n) {
      AbandonUnclosed(c, s, schedule[n].w);
    } else if Enabled(s, schedule[n]) {
      StepLedger(c, s, schedule[n]);
    }
  }

  lemma LedgerMeansClosed(c: Config, workers: nat, hosts: nat, schedule: seq<Label>, n: nat)
    requires n <= |schedule| && LedgerAt(c, workers, hosts, schedule, n)
    ensures ClosedAt(c, workers, hosts, schedule, n)
  {
  }

  lemma LedgerStart(c: Config, workers: nat, hosts: nat, schedule: seq<Label>)
    ensures LedgerAt(c, workers, hosts, schedule, 0)
  {
    StartHolds(c, workers, hosts, schedule);
  }

  /** Throughout a run no activity is closed twice and each job that left had its own closed, if
      and only if no worker of a stopping client claims a job without a uri. */
  lemma ActivityClosedIff(c: Config, workers: nat, hosts: nat, schedule: seq<Label>)
    ensures (forall n: nat :: n <= |schedule| ==> ClosedAt(c, workers, hosts, schedule, n))
       <==> (forall n: nat :: n < |schedule| ==> !AbandonsAt(c, workers, hosts, schedule, n))
  {
    var ok := (k: nat) => k <= |schedule| && LedgerAt(c, workers, hosts, schedule, k);
    var fine := (k: nat) => k < |schedule| && !AbandonsAt(c, workers, hosts, schedule, k);
    var seen := (k: nat) => k <= |schedule| && ClosedAt(c, workers, hosts, schedule, k);
    LedgerStart(c, workers, hosts, schedule);
    forall k: nat | k < |schedule| && ok(k)
      ensures (seen(k + 1) ==> fine(k)) && (fine(k) ==> ok(k + 1))
    {
      LedgerStep(c, workers, hosts, schedule, k);
    }
    forall k: nat | k <= |schedule| && ok(k) ensures seen(k) {
      LedgerMeansClosed(c, workers, hosts, schedule, k);
    }
    Stepwise(ok, fine, seen, |schedule|);
    assert forall k: nat :: k <= |schedule| ==> seen(k) == ClosedAt(c, workers, hosts, schedule, k);
    assert forall k: nat :: k < |schedule| ==> fine(k) == !AbandonsAt(c, workers, hosts, schedule, k);
  }

  // ---- Orderly schedules ----

  /** A request whose uri is not empty. The two kinds that check the uri themselves may have any. */
  predicate NamedLabel(l: Label) {
    match l
    case RequestTile(uri, _) => uri != ""
    case RequestPyramid(uri) => uri != ""
    case RequestPixels(uri) => uri != ""
    case RequestSize(uri) => uri != ""
    case BulkSize(uri) => uri != ""
    case _ => true
  }

  /** No request without a uri, and no repeated release. */
  predicate Orderly(l: Label) { NamedLabel(l) && !(l.WorkerStep? && l.choice.Again?) }

  lemma EnqueueTitled(s: State, j: Job, front: bool)
    requires AllTitled(s.g.queue) && j.uri != ""
    ensures AllTitled(EnqueueJob(s, j, front).g.queue)
  {
    RejectMembers(s.g.queue, SupersededBy(Stamp(j, s.g.epoch)));
  }

  lemma RequestTitled(c: Config, s: State, l: Label)
    requires AllTitled(s.g.queue) && NamedLabel(l) && AllShaped(s.cells)
    requires IsRequest(l)
    ensures AllTitled(Step(c, s, l).g.queue)
  {
    match l
    case RequestTile(uri, at) => EnqueueTitled(s, NewJob(s, EnsureTiles, uri).(at := at), true);
    case RequestPyramid(uri) => EnqueueTitled(s, NewJob(s, EnsureTiles, uri).(pyramid := true), false);
    case RequestPixels(uri) => EnqueueTitled(s, NewJob(s, EnsurePixels, uri), false);
    case RequestSize(uri) => EnqueueTitled(s, NewJob(s, ProbeSize, uri), true);
    case RequestLqip(_) =>
    case BulkSize(_) =>
    case RequestCells(uri, coords) =>
      if uri != "" && coords != [] {
        var j := NewJob(s, EnsureTiles, uri).(hasCells := true, at := coords[0], tileBatch := coords, exempt := true);
        EnqueueTitled(s, j, false);
      }
  }

  lemma CancelTitled(c: Config, s: State, l: Label)
    requires AllTitled(s.g.queue) && Enabled(s, l) && AllShaped(s.cells)
    requires IsCancel(l)
    ensures AllTitled(Step(c, s, l).g.queue)
  {
    var q := s.g.queue;
    match l
    case BumpEpoch(h) => RejectMembers(q, StaleTest(NextEpoch(s.g.epoch)));
    case CancelPending(h) => RejectMembers(q, AnyTest());
    case CancelUri(h, uri) => RejectMembers(q, UriTest(uri));
    case CancelCells(h, uri, want) => RejectMembers(q, LegacyReached(uri, want));
    case Shutdown(h) => RejectMembers(q, AnyTest());
  }

  lemma ClaimTitled(c: Config, s: State, w: nat)
    requires AllTitled(s.g.queue) && w < |s.workers|
    ensures AllTitled(ClaimBy(c, s, w).g.queue) && AllTitled(Taken(NextClaim(c, s)))
  {
    var r := NextClaim(c, s);
    NextClaimConserves(c, s);
    forall j | j in Taken(r) || j in Left(r) ensures j in s.g.queue {
      OccMember(Taken(r), j);
      OccMember(Left(r), j);
      OccMember(s.g.queue, j);
    }
    ClaimedSingle(c, s);
    TakenQueue(s, w, r);
  }

  lemma StepTitled(c: Config, s: State, l: Label)
    requires Inv(s) && AllTitled(s.g.queue) && Enabled(s, l) && AllShaped(s.cells) && NamedLabel(l)
    ensures AllTitled(Step(c, s, l).g.queue)
  {
    if l.HostStep? {
      OpKeepsKeys(s, s.hosts[l.h][0], AtHost(l.h));
      RejectMembers(s.g.queue, FullyReplied(s.cells));
    } else if l.ClaimStep? {
      ClaimTitled(c, s, l.w);
    } else if l.WorkerStep? {
      WorkerKeepsQueue(s, l.w, l.choice);
    } else if IsCancel(l) {
      CancelTitled(c, s, l);
    } else {
      RequestTitled(c, s, l);
    }
  }

  lemma OrderlyStep(c: Config, s: State, l: Label)
    requires Inv(s) && AllTitled(s.g.queue) && Titled(s) && Enabled(s, l) && Orderly(l)
    ensures Proper(c, s, l) && !Leaks(c, s, l) && !Abandons(c, s, l)
  {
    ClaimSound(c, s);
    if l.ClaimStep? {
      ClaimTitled(c, s, l.w);
    } else if l.WorkerStep? {
      assert AllTitled(Unreleased(s.workers[l.w]));
    }
  }

  ghost predicate FineAt(c: Config, workers: nat, hosts: nat, schedule: seq<Label>, n: nat)
    requires n < |schedule|
  {
    && ProperAt(c, workers, hosts, schedule, n) && !LeaksAt(c, workers, hosts, schedule, n)
    && !AbandonsAt(c, workers, hosts, schedule, n)
  }

  ghost predicate TitledAt(c: Config, workers: nat, hosts: nat, schedule: seq<Label>, n: nat)
    requires n <= |schedule|
  {
    var s := Prefix(c, workers, hosts, schedule, n);
    AllTitled(s.g.queue) && InflightOk(s)
  }

  lemma OrderlyNext(c: Config, workers: nat, hosts: nat, schedule: seq<Label>, n: nat)
    requires n < |schedule| && Orderly(schedule[n]) && TitledAt(c, workers, hosts, schedule, n)
    ensures FineAt(c, workers, hosts, schedule, n) && TitledAt(c, workers, hosts, schedule, n + 1)
  {
    NextPrefix(c, workers, hosts, schedule, n);
    var s := Prefix(c, workers, hosts, schedule, n);
    if Enabled(s, schedule[n]) {
      OrderlyStep(c, s, schedule[n]);
      StepTitled(c, s, schedule[n]);
    }
    InflightStepIff(c, workers, hosts, schedule, n);
  }

  lemma TitledStart(c: Config, workers: nat, hosts: nat, schedule: seq<Label>)
    ensures TitledAt(c, workers, hosts, schedule, 0)
  {
    StartHolds(c, workers, hosts, schedule);
  }

  /** Orderly schedules never leave the exact path. */
  lemma OrderlyIsFine(c: Config, workers: nat, hosts: nat, schedule: seq<Label>)
    requires forall k :: 0 <= k < |schedule| ==> Orderly(schedule[k])
    ensures forall n: nat :: n < |schedule| ==> FineAt(c, workers, hosts, schedule, n)
  {
    var ok := (k: nat) => k <= |schedule| && TitledAt(c, workers, hosts, schedule, k);
    TitledStart(c, workers, hosts, schedule);
    forall k: nat | k < |schedule| && ok(k) ensures ok(k + 1) {
      OrderlyNext(c, workers, hosts, schedule, k);
    }
    forall n: nat | n < |schedule| ensures FineAt(c, workers, hosts, schedule, n) {
      Always(ok, n);
      OrderlyNext(c, workers, hosts, schedule, n);
    }
  }

  lemma OrderlyRun(c: Config, workers: nat, hosts: nat, schedule: seq<Label>)
    requires forall k :: 0 <= k < |schedule| ==> Orderly(schedule[k])
    ensures ProperRun(c, workers, hosts, schedule)
    ensures forall n: nat :: n < |schedule| ==> !LeaksAt(c, workers, hosts, schedule, n)
    ensures forall n: nat :: n < |schedule| ==> !AbandonsAt(c, workers, hosts, schedule, n)
  {
    OrderlyIsFine(c, workers, hosts, schedule);
    forall n: nat | n < |schedule|
      ensures ProperAt(c, workers, hosts, schedule, n) && !LeaksAt(c, workers, hosts, schedule, n)
      ensures !AbandonsAt(c, workers, hosts, schedule, n)
    {
      assert FineAt(c, workers, hosts, schedule, n);
    }
  }

  /** Without empty uris and repeated releases both counters are exact after every run. */
  lemma CountersAreExact(c: Config, workers: nat, hosts: nat, schedule: seq<Label>)
    requires forall k :: 0 <= k < |schedule| ==> Orderly(schedule[k])
    ensures var s := After(c, workers, hosts, schedule);
      && s.g.inflight == TotalHeld(s.workers)
      && s.g.focus == TotalFocus(s.workers) <= FOCUS_FULL_MAX_CONCURRENT
  {
    OrderlyRun(c, workers, hosts, schedule);
    ProperMeansExact(c, workers, hosts, schedule);
    FocusIsHeldPlusLeaked(c, workers, hosts, schedule);
    FocusExactIff(c, workers, hosts, schedule);
  }

  /** And each activity is closed at most once, and exactly once when its job has left. */
  lemma ActivityClosedOnce(c: Config, workers: nat, hosts: nat, schedule: seq<Label>, i: nat)
    requires forall k :: 0 <= k < |schedule| ==> Orderly(schedule[k])
    requires i < |After(c, workers, hosts, schedule).jobs|
    ensures var s := After(c, workers, hosts, schedule);
      && i < |s.loc| && i < |s.closed| && s.closed[i] <= 1
      && (!Live(s.loc[i]) ==> s.closed[i] == if s.jobs[i].ledger then 1 else 0)
  {
    OrderlyRun(c, workers, hosts, schedule);
    ActivityClosedIff(c, workers, hosts, schedule);
    assert ClosedAt(c, workers, hosts, schedule, |schedule|);
    assert schedule[..|schedule|] == schedule;
  }

  // ---- Drained means done ----

  lemma {:induction false} NoTotalNoJobs(ws: seq<Worker>, w: nat)
    requires TotalHeld(ws) == 0 && w < |ws|
    ensures Unreleased(ws[w]) == []
  {
    HeldUpdate(ws, w, Idle);
  }

  /** When drain may return and the client is not shutting down, no worker holds a job. */
  lemma DrainedWorkersAreFree(s: State, w: nat)
    requires InflightOk(s) && s.g.inflight == 0 && !s.g.stop && w < |s.workers|
    ensures var pc := s.workers[w]; (pc.Batch? && pc.jobs == []) || pc == Idle || pc == Exited
  {
    NoTotalNoJobs(s.workers, w);
  }

  /** When drain returns and no host is cancelling, a job that has not left is held by a worker
      that gives it up because the client is stopping. */
  lemma DrainedHolder(s: State, i: nat)
    requires Inv(s) && InflightOk(s) && i < |s.jobs| && s.g.queue == [] && s.g.inflight == 0
    requires forall h :: 0 <= h < |s.hosts| ==> s.hosts[h] == []
    ensures Live(s.loc[i]) ==>
      s.g.stop && s.loc[i].AtWorker? && s.loc[i].w < |s.workers| && s.workers[s.loc[i].w].Unwinding?
  {
    var x := s.loc[i];
    if Live(x) {
      assert Exact(s, x) && Held(s, x, s.jobs[i]) == 1;
      if x.AtWorker? {
        NoTotalNoJobs(s.workers, x.w);
      }
    }
  }

  lemma StopStays(c: Config, s: State, l: Label)
    requires Inv(s) && Enabled(s, l) && AllShaped(s.cells) && s.g.stop
    ensures Step(c, s, l).g.stop
  {
    if l.HostStep? {
      OpKeepsKeys(s, s.hosts[l.h][0], AtHost(l.h));
    } else if l.ClaimStep? {
      ClaimSound(c, s);
    } else if l.WorkerStep? {
      WorkerKeepsStop(s, l.w, l.choice);
    }
  }

  lemma WorkerKeepsStop(s: State, w: nat, choice: Choice)
    requires AllShaped(s.cells) && w < |s.workers|
    ensures WorkerAct(s, w, choice).g.stop == s.g.stop
  {
    var pc := s.workers[w];
    if pc.Unwinding? && pc.ops != [] {
      OpKeepsKeys(s, pc.ops[0], AtWorker(w));
    } else if AtCell(pc) {
      CellStepFrame(s, w, choice);
    }
  }

  /** Until the client stops no job is abandoned. */
  lemma {:induction false} LedgerUntilStop(c: Config, workers: nat, hosts: nat, schedule: seq<Label>, n: nat)
    requires n <= |schedule| && !Prefix(c, workers, hosts, schedule, n).g.stop
    ensures LedgerAt(c, workers, hosts, schedule, n)
  {
    if n == 0 {
      StartHolds(c, workers, hosts, schedule);
    } else {
      NextPrefix(c, workers, hosts, schedule, n - 1);
      var s := Prefix(c, workers, hosts, schedule, n - 1);
      if Enabled(s, schedule[n - 1]) && s.g.stop {
        StopStays(c, s, schedule[n - 1]);
      }
      LedgerUntilStop(c, workers, hosts, schedule, n - 1);
      ClaimSound(c, s);
      LedgerStep(c, workers, hosts, schedule, n - 1);
    }
  }

  /** So when drain returns and no host is in the middle of a cancellation, every job ever
      queued was completed or dropped, had its activity closed exactly once, and every
      requested cell has exactly one reply. */
  lemma DrainedMeansDone(c: Config, workers: nat, hosts: nat, schedule: seq<Label>)
    requires ProperRun(c, workers, hosts, schedule)
    requires var s := After(c, workers, hosts, schedule);
      && s.g.queue == [] && s.g.inflight == 0 && !s.g.stop
      && forall h :: 0 <= h < |s.hosts| ==> s.hosts[h] == []
    ensures var s := After(c, workers, hosts, schedule);
      && |s.jobs| == |s.loc| == |s.closed|
      && (forall i :: 0 <= i < |s.jobs| ==>
            && (s.loc[i] == Dropped || s.loc[i] == Completed)
            && s.closed[i] == if s.jobs[i].ledger then 1 else 0)
      && (forall id, i :: id in s.cells && 0 <= i < |s.cells[id].log| ==> |s.cells[id].log[i]| == 1)
  {
    var s := After(c, workers, hosts, schedule);
    assert schedule[..|schedule|] == schedule;
    AfterHolds(c, workers, hosts, schedule);
    ProperMeansExact(c, workers, hosts, schedule);
    LedgerUntilStop(c, workers, hosts, schedule, |schedule|);
    forall i | 0 <= i < |s.jobs| ensures s.loc[i] == Dropped || s.loc[i] == Completed {
      DrainedHolder(s, i);
    }
    forall id, i | id in s.cells && 0 <= i < |s.cells[id].log| ensures |s.cells[id].log[i]| == 1 {
      assert CellOk(s, id);
    }
  }

  lemma HeldAtWorker(s: State, w: nat, j: Job)
    requires JobsConserved(s) && w < |s.workers| && j in Unreleased(s.workers[w])
    ensures Held(s, AtWorker(w), j) == 1 && Known(s.jobs, j) && s.loc[j.id] == AtWorker(w)
  {
    OccMember(Unreleased(s.workers[w]), j);
    if !s.workers[w].Batch? {
      assert s.workers[w].job == j;
    }
    assert Exact(s, AtWorker(w));
  }

  lemma CountedOutByWorker(s: State, w: nat, choice: Choice, j: Job)
    requires Inv(s) && AllShaped(s.cells) && w < |s.workers| && j in Unreleased(s.workers[w])
    ensures var s' := WorkerAct(s, w, choice);
      && |s'.workers| == |s.workers| && |s'.loc| == |s.loc| && j.id < |s.loc|
      && ((j !in Unreleased(s'.workers[w]) && s'.loc[j.id] == AtWorker(w))
          <==> s.workers[w].Started? && (s.g.stop || j.uri == ""))
  {
    var pc := s.workers[w];
    HeldAtWorker(s, w, j);
    if AtCell(pc) {
      CellStepFrame(s, w, choice);
      CellStepUnreleased(s, w, choice);
    } else if pc.Batch? && choice.Pick? && choice.k < |pc.jobs| {
      if j != pc.jobs[choice.k] { PickedOut(pc.jobs, choice.k, j); }
      OccMember(pc.jobs, pc.jobs[choice.k]);
      CompletedAt(s, w, pc.jobs[choice.k]);
    }
  }

  lemma PickedOut(js: seq<Job>, k: nat, j: Job)
    requires k < |js| && j in js && j != js[k]
    ensures j in WithoutIndex(js, k)
  {
    var i :| 0 <= i < |js| && js[i] == j;
    assert j == if i < k then WithoutIndex(js, k)[i] else WithoutIndex(js, k)[i - 1];
  }

  /** A worker holds a job until it no longer counts as in flight, in every step but one: the
      worker that has just claimed it finds the client stopping, or the job without a uri. */
  lemma CountedOutEarlyIff(c: Config, s: State, l: Label, w: nat, j: Job)
    requires Inv(s) && AllShaped(s.cells) && Enabled(s, l) && w < |s.workers| && j in Unreleased(s.workers[w])
    ensures var s' := Step(c, s, l);
      && w < |s'.workers| && j.id < |s'.loc|
      && ((j !in Unreleased(s'.workers[w]) && s'.loc[j.id] == AtWorker(w))
          <==> l.WorkerStep? && l.w == w && s.workers[w].Started? && (s.g.stop || j.uri == ""))
  {
    if l.WorkerStep? && l.w == w {
      CountedOutByWorker(s, w, l.choice, j);
    } else {
      OthersLeaveIt(c, s, l, w);
      StepConserves(c, s, l);
      HeldAtWorker(Step(c, s, l), w, j);
    }
  }

  lemma OthersLeaveIt(c: Config, s: State, l: Label, w: nat)
    requires Inv(s) && AllShaped(s.cells) && Enabled(s, l) && w < |s.workers| && Unreleased(s.workers[w]) != []
    requires !(l.WorkerStep? && l.w == w)
    ensures |Step(c, s, l).workers| == |s.workers| && Step(c, s, l).workers[w] == s.workers[w]
  {
    if l.ClaimStep? {
      ClaimSound(c, s);
      TakeFrame(s, l.w, NextClaim(c, s));
    } else if l.WorkerStep? {
      if AtCell(s.workers[l.w]) { CellStepFrame(s, l.w, l.choice); }
    } else {
      QuietGap(c, s, l);
    }
  }
}
