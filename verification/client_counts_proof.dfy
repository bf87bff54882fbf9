// The counters: inflight against the jobs that workers have not released, focus against the
// pyramids among them.
module ClientCountsProof {
  import opened JobQueue
  import opened ClientQueue
  import opened ClientProtocol
  import opened ClientJobsProof
  import opened ClientCellsProof
  import opened ClientStepsProof

  /** The jobs of a worker that still count as in flight. */
  function Unreleased(pc: Worker): seq<Job> {
    match pc
    case Idle => []
    case Exited => []
    case Batch(js, _) => js
    case Unwinding(_) => []
    case _ => [pc.job]
  }

  function TotalHeld(ws: seq<Worker>): nat {
    if ws == [] then 0 else TotalHeld(ws[..|ws| - 1]) + |Unreleased(ws[|ws| - 1])|
  }

  function TotalFocus(ws: seq<Worker>): nat {
    if ws == [] then 0 else TotalFocus(ws[..|ws| - 1]) + CountFocus(Unreleased(ws[|ws| - 1]))
  }

  lemma {:induction false} HeldUpdate(ws: seq<Worker>, w: nat, pc: Worker)
    requires w < |ws|
    ensures TotalHeld(ws[w := pc]) == TotalHeld(ws) - |Unreleased(ws[w])| + |Unreleased(pc)|
    ensures TotalHeld(ws) >= |Unreleased(ws[w])|
  {
    var n := |ws| - 1;
    if w == n {
      assert ws[w := pc][..n] == ws[..n];
    } else {
      HeldUpdate(ws[..n], w, pc);
      assert ws[w := pc][..n] == ws[..n][w := pc];
    }
  }

  lemma {:induction false} FocusUpdate(ws: seq<Worker>, w: nat, pc: Worker)
    requires w < |ws|
    ensures TotalFocus(ws[w := pc]) == TotalFocus(ws) - CountFocus(Unreleased(ws[w])) + CountFocus(Unreleased(pc))
    ensures TotalFocus(ws) >= CountFocus(Unreleased(ws[w]))
  {
    var n := |ws| - 1;
    if w == n {
      assert ws[w := pc][..n] == ws[..n];
    } else {
      FocusUpdate(ws[..n], w, pc);
      assert ws[w := pc][..n] == ws[..n][w := pc];
    }
  }

  lemma {:induction false} IdleCounts(ws: seq<Worker>)
    requires forall w :: 0 <= w < |ws| ==> ws[w] == Idle
    ensures TotalHeld(ws) == 0 && TotalFocus(ws) == 0
  {
    if ws != [] {
      IdleCounts(ws[..|ws| - 1]);
    }
  }

  predicate AllTitled(js: seq<Job>) { forall j :: j in js ==> j.uri != "" }

  ghost predicate NoShell(ops: seq<Op>) { forall k :: 0 <= k < |ops| ==> !ops[k].ReleaseShell? }

  /** No worker holds a job without a uri or is about to release one; workers give up jobs only
      to shut down. */
  ghost predicate Titled(s: State) {
    && (forall w :: 0 <= w < |s.workers| ==> AllTitled(Unreleased(s.workers[w])))
    && (forall h :: 0 <= h < |s.hosts| ==> NoShell(s.hosts[h]))
    && (forall w :: 0 <= w < |s.workers| && s.workers[w].Unwinding? ==> s.g.stop && NoShell(s.workers[w].ops))
    && (forall i :: 0 <= i < |s.loc| && s.loc[i] == Aborted ==> s.g.stop)
  }

  ghost predicate Exactly(s: State) { s.g.inflight == TotalHeld(s.workers) }

  ghost predicate InflightOk(s: State) { Titled(s) && Exactly(s) }

  /** A step the counter expects: a claimed job has a uri, and no job is released again while
      something is counted. */
  predicate Proper(c: Config, s: State, l: Label)
    requires Enabled(s, l)
  {
    match l
    case ClaimStep(_) => var r := NextClaim(c, s); r.Claimed? && r.jobs != [] ==> r.jobs[0].uri != ""
    case WorkerStep(w, choice) => Repeats(s.workers[w], choice) ==> s.g.inflight == 0
    case _ => true
  }

  // ---- Steps that leave the workers alone ----

  lemma QueueCounts(s: State, s': State)
    requires InflightOk(s) && s'.workers == s.workers && s'.g.inflight == s.g.inflight && (s.g.stop ==> s'.g.stop)
    requires forall h :: 0 <= h < |s'.hosts| ==> NoShell(s'.hosts[h])
    requires forall i :: 0 <= i < |s'.loc| && s'.loc[i] == Aborted ==> i < |s.loc| && s.loc[i] == Aborted
    ensures InflightOk(s')
  {
  }

  lemma DropCounts(s: State, h: nat, p: JobTest, more: seq<Op>)
    requires InflightOk(s) && h < |s.hosts| && NoShell(more)
    ensures InflightOk(DropFromQueue(s, h, p, more))
  {
    QueueCounts(s, DropFromQueue(s, h, p, more));
  }

  lemma NextNoShell(s: State, ops: seq<Op>)
    requires AllShaped(s.cells) && ops != [] && NoShell(ops)
    ensures NoShell(OpNext(s, ops[0]) + ops[1..])
  {
    assert NoShell(ops[1..]);
    assert NoShell(OpNext(s, ops[0]));
  }

  lemma HostCounts(s: State, h: nat)
    requires InflightOk(s) && AllShaped(s.cells) && h < |s.hosts| && s.hosts[h] != []
    ensures InflightOk(RunHost(s, h))
  {
    NextNoShell(s, s.hosts[h]);
    OpKeepsKeys(s, s.hosts[h][0], AtHost(h));
    HostFrame(s, h);
    QueueCounts(s, RunHost(s, h));
  }

  lemma HostFrame(s: State, h: nat)
    requires AllShaped(s.cells) && h < |s.hosts| && s.hosts[h] != [] && !s.hosts[h][0].ReleaseShell?
    ensures var s' := RunHost(s, h);
      && s'.workers == s.workers && s'.g.inflight == s.g.inflight
      && forall i :: 0 <= i < |s'.loc| && s'.loc[i] == Aborted ==> i < |s.loc| && s.loc[i] == Aborted
  {
  }

  lemma RequestCounts(c: Config, s: State, l: Label)
    requires InflightOk(s) && AllShaped(s.cells)
    requires IsRequest(l)
    ensures InflightOk(Step(c, s, l))
  {
    RequestFrame(c, s, l);
    QueueCounts(s, Step(c, s, l));
  }

  lemma EnqueueFrame(s: State, j: Job, front: bool)
    ensures var s' := EnqueueJob(s, j, front);
      && s'.workers == s.workers && s'.hosts == s.hosts
      && s'.g.inflight == s.g.inflight && s'.g.focus == s.g.focus && s'.g.stop == s.g.stop
      && forall i :: 0 <= i < |s'.loc| && s'.loc[i] == Aborted ==> i < |s.loc| && s.loc[i] == Aborted
  {
  }

  lemma RequestFrame(c: Config, s: State, l: Label)
    requires AllShaped(s.cells)
    requires IsRequest(l)
    ensures var s' := Step(c, s, l);
      && s'.workers == s.workers && s'.hosts == s.hosts
      && s'.g.inflight == s.g.inflight && s'.g.focus == s.g.focus && s'.g.stop == s.g.stop
      && forall i :: 0 <= i < |s'.loc| && s'.loc[i] == Aborted ==> i < |s.loc| && s.loc[i] == Aborted
  {
    match l
    case RequestTile(uri, at) => EnqueueFrame(s, NewJob(s, EnsureTiles, uri).(at := at), true);
    case RequestPyramid(uri) => EnqueueFrame(s, NewJob(s, EnsureTiles, uri).(pyramid := true), false);
    case RequestPixels(uri) => EnqueueFrame(s, NewJob(s, EnsurePixels, uri), false);
    case RequestSize(uri) => EnqueueFrame(s, NewJob(s, ProbeSize, uri), true);
    case RequestCells(uri, coords) =>
      if uri != "" && coords != [] {
        var j := NewJob(s, EnsureTiles, uri).(hasCells := true, at := coords[0], tileBatch := coords, exempt := true);
        EnqueueFrame(s, j, false);
      }
    case RequestLqip(_) =>
    case BulkSize(_) =>
  }

  lemma CancelCounts(c: Config, s: State, l: Label)
    requires InflightOk(s) && Enabled(s, l) && AllShaped(s.cells)
    requires IsCancel(l)
    ensures InflightOk(Step(c, s, l))
  {
    match l
    case BumpEpoch(h) =>
      var e := NextEpoch(s.g.epoch);
      DropCounts(s.(g := s.g.(epoch := e)), h, StaleTest(e), []);
    case CancelPending(h) => DropCounts(s, h, AnyTest(), []);
    case CancelUri(h, uri) => DropCounts(s, h, UriTest(uri), MarkAll(RunningFor(s.g.running, uri), [], true));
    case CancelCells(h, uri, want) =>
      if uri != "" && want != [] {
        DropCounts(s, h, LegacyReached(uri, want), CancelOps(s.g, uri, want));
      }
    case Shutdown(h) => DropCounts(s.(g := s.g.(stop := true)), h, AnyTest(), []);
  }

  // ---- Claims ----

  lemma OneJobCounts(j: Job)
    ensures CountNamed([j]) == (if j.uri == "" then 0 else 1) && CountFocus([j]) == (if FocusFull(j) then 1 else 0)
  {
    assert [j][..0] == [];
  }

  /** A claim counts all its jobs in exactly when the first one has a uri; a job that joins a
      batch has one. */
  lemma ClaimedCounts(q: seq<Job>, stop: bool, focus: int, epoch: nat, remote: bool, arch: ArchiveOf)
    requires Claim(q, stop, focus, epoch, remote, arch).Claimed?
    ensures var js := Claim(q, stop, focus, epoch, remote, arch).jobs;
      && js != [] && |js| - CountNamed(js) == (if js[0].uri == "" then 1 else 0)
      && (js[0].uri != "" ==> AllTitled(js))
  {
    var p := Prefer(q);
    OneJobCounts(p[0]);
    CountTaken(p[1..], p[0], arch);
    SelectMembers(p[1..], JoinTest(p[0], arch));
  }

  /** A claim stays under the cap on pyramids. */
  lemma ClaimedFocus(q: seq<Job>, stop: bool, focus: int, epoch: nat, remote: bool, arch: ArchiveOf)
    requires focus <= FOCUS_FULL_MAX_CONCURRENT && !Claim(q, stop, focus, epoch, remote, arch).Stale?
    ensures focus + CountFocus(Taken(Claim(q, stop, focus, epoch, remote, arch))) <= FOCUS_FULL_MAX_CONCURRENT
  {
    if q != [] {
      var p := Prefer(q);
      OneJobCounts(p[0]);
      CountTaken(p[1..], p[0], arch);
    }
  }

  /** What a claim does to the counters and to what the worker holds. */
  lemma TakeFrame(s: State, w: nat, r: ClaimResult)
    requires w < |s.workers| && s.workers[w] == Idle && !r.Stale?
    requires r.Claimed? ==> r.jobs != [] && (!r.coalesced ==> r.jobs == [r.jobs[0]])
    ensures var s' := TakeBy(s, w, r);
      && |s'.workers| == |s.workers| && s'.workers == s.workers[w := s'.workers[w]] && !s'.workers[w].Unwinding?
      && Unreleased(s'.workers[w]) == (if r.Claimed? then r.jobs else [])
      && s'.g.inflight == s.g.inflight + CountNamed(Taken(r)) && s'.g.focus == s.g.focus + CountFocus(Taken(r))
  {
  }

  lemma TakePlaces(s: State, w: nat, r: ClaimResult)
    requires w < |s.workers| && !r.Stale? && (r.Claimed? ==> r.jobs != [])
    ensures var s' := TakeBy(s, w, r);
      && s'.hosts == s.hosts && s'.g.stop == s.g.stop
      && forall i :: 0 <= i < |s'.loc| && s'.loc[i] == Aborted ==>
           r.Abandoned? || (i < |s.loc| && s.loc[i] == Aborted)
  {
  }

  lemma ClaimSound(c: Config, s: State)
    requires Inv(s)
    ensures var r := NextClaim(c, s);
      && !r.Stale? && (r.Claimed? ==> r.jobs != [] && (!r.coalesced ==> r.jobs == [r.jobs[0]]))
      && (r.Abandoned? ==> s.g.stop && r.job.uri == "")
  {
    NeverStale(s.g.queue, s.g.stop, s.g.focus, s.g.epoch, c.remote, c.arch);
    ClaimedSingle(c, s);
  }

  lemma TakeCounts(s: State, w: nat, r: ClaimResult)
    requires InflightOk(s) && w < |s.workers| && s.workers[w] == Idle && !r.Stale?
    requires r.Claimed? ==>
      && r.jobs != [] && (!r.coalesced ==> r.jobs == [r.jobs[0]])
      && |r.jobs| - CountNamed(r.jobs) == (if r.jobs[0].uri == "" then 1 else 0)
      && (r.jobs[0].uri != "" ==> AllTitled(r.jobs))
    requires r.Abandoned? ==> s.g.stop && CountNamed([r.job]) == 0
    ensures Exactly(TakeBy(s, w, r)) <==> (r.Claimed? ==> r.jobs[0].uri != "")
    ensures Exactly(TakeBy(s, w, r)) ==> Titled(TakeBy(s, w, r))
  {
    TakeFrame(s, w, r);
    TakePlaces(s, w, r);
    HeldUpdate(s.workers, w, TakeBy(s, w, r).workers[w]);
  }

  /** A claim keeps the count exact if and only if it takes no job without a uri to work on. */
  lemma ClaimStepCounts(c: Config, s: State, w: nat)
    requires Inv(s) && InflightOk(s) && w < |s.workers| && s.workers[w] == Idle
    ensures Exactly(ClaimBy(c, s, w)) <==> Proper(c, s, ClaimStep(w))
    ensures Proper(c, s, ClaimStep(w)) ==> Titled(ClaimBy(c, s, w))
  {
    var r := NextClaim(c, s);
    ClaimSound(c, s);
    if r.Claimed? {
      ClaimedCounts(s.g.queue, s.g.stop, s.g.focus, s.g.epoch, c.remote, c.arch);
    } else if r.Abandoned? {
      OneJobCounts(r.job);
    }
    TakeCounts(s, w, r);
  }

  // ---- Steps of one worker ----

  lemma WorkerCounts(s: State, s': State, w: nat)
    requires InflightOk(s) && w < |s.workers| && |s'.workers| == |s.workers| && s'.hosts == s.hosts
    requires s'.workers == s.workers[w := s'.workers[w]] && s'.g.stop == s.g.stop
    requires s'.g.inflight - s.g.inflight == |Unreleased(s'.workers[w])| - |Unreleased(s.workers[w])|
    requires AllTitled(Unreleased(s'.workers[w]))
    requires s'.workers[w].Unwinding? ==> s'.g.stop && NoShell(s'.workers[w].ops)
    requires forall i :: 0 <= i < |s'.loc| && s'.loc[i] == Aborted ==> s'.g.stop
    ensures InflightOk(s')
  {
    HeldUpdate(s.workers, w, s'.workers[w]);
  }

  /** A worker that releases a job of its own finds it counted. */
  lemma HeldIsCounted(s: State, w: nat)
    requires Exactly(s) && w < |s.workers|
    ensures |Unreleased(s.workers[w])| <= s.g.inflight
  {
    HeldUpdate(s.workers, w, Idle);
  }

  lemma StartedCounts(s: State, w: nat, choice: Choice)
    requires InflightOk(s) && AllShaped(s.cells) && w < |s.workers| && s.workers[w].Started?
    ensures InflightOk(WorkerAct(s, w, choice))
  {
    var j := s.workers[w].job;
    assert Unreleased(s.workers[w]) == [j];
    HeldIsCounted(s, w);
    WorkerCounts(s, WorkerAct(s, w, choice), w);
  }

  lemma ReleasingCounts(s: State, w: nat, choice: Choice)
    requires InflightOk(s) && AllShaped(s.cells) && w < |s.workers| && s.workers[w].Releasing?
    ensures InflightOk(WorkerAct(s, w, choice))
  {
    assert Unreleased(s.workers[w]) == [s.workers[w].job];
    HeldIsCounted(s, w);
    WorkerCounts(s, WorkerAct(s, w, choice), w);
  }

  lemma PickCounts(s: State, w: nat, choice: Choice)
    requires InflightOk(s) && AllShaped(s.cells) && w < |s.workers| && s.workers[w].Batch?
    requires choice.Pick? && choice.k < |s.workers[w].jobs|
    ensures InflightOk(WorkerAct(s, w, choice))
  {
    var js := s.workers[w].jobs;
    assert forall j :: j in WithoutIndex(js, choice.k) ==> j in js;
    HeldIsCounted(s, w);
    WorkerCounts(s, WorkerAct(s, w, choice), w);
  }

  /** A repeated release takes another job off the count. */
  lemma BatchCounts(c: Config, s: State, w: nat, choice: Choice)
    requires InflightOk(s) && AllShaped(s.cells) && w < |s.workers| && s.workers[w].Batch?
    ensures Exactly(WorkerAct(s, w, choice)) <==> Proper(c, s, WorkerStep(w, choice))
    ensures Titled(WorkerAct(s, w, choice))
  {
    if choice.Pick? && choice.k < |s.workers[w].jobs| {
      PickCounts(s, w, choice);
    } else if !Repeats(s.workers[w], choice) {
      WorkerCounts(s, WorkerAct(s, w, choice), w);
    }
  }

  lemma UnwindFrame(s: State, w: nat, choice: Choice)
    requires AllShaped(s.cells) && w < |s.workers| && s.workers[w].Unwinding?
    requires s.workers[w].ops != [] && !s.workers[w].ops[0].ReleaseShell? && !s.workers[w].ops[0].Sweep?
    ensures var s' := WorkerAct(s, w, choice);
      && s'.hosts == s.hosts && s'.g == s.g
      && s'.workers[w] == Unwinding(OpNext(s, s.workers[w].ops[0]) + s.workers[w].ops[1..])
      && s'.workers == s.workers[w := s'.workers[w]]
  {
  }

  lemma UnwindCounts(s: State, w: nat, choice: Choice)
    requires Inv(s) && InflightOk(s) && AllShaped(s.cells) && w < |s.workers| && s.workers[w].Unwinding?
    ensures InflightOk(WorkerAct(s, w, choice))
  {
    var ops := s.workers[w].ops;
    if ops != [] {
      assert Unwinds(s.workers[w]);
      NextNoShell(s, ops);
      UnwindFrame(s, w, choice);
    }
    WorkerCounts(s, WorkerAct(s, w, choice), w);
  }

  lemma HandlingCounts(s: State, w: nat, choice: Choice)
    requires InflightOk(s) && AllShaped(s.cells) && w < |s.workers| && s.workers[w].Handling?
    ensures InflightOk(WorkerAct(s, w, choice))
  {
    WorkerCounts(s, WorkerAct(s, w, choice), w);
  }

  lemma CellStepUnreleased(s: State, w: nat, choice: Choice)
    requires AllShaped(s.cells) && w < |s.workers| && AtCell(s.workers[w])
    ensures Unreleased(WorkerAct(s, w, choice).workers[w]) == [s.workers[w].job]
  {
  }

  lemma CellStepCounts(s: State, w: nat, choice: Choice)
    requires InflightOk(s) && AllShaped(s.cells) && w < |s.workers| && AtCell(s.workers[w])
    ensures InflightOk(WorkerAct(s, w, choice))
  {
    CellStepFrame(s, w, choice);
    CellStepUnreleased(s, w, choice);
    assert Unreleased(s.workers[w]) == [s.workers[w].job];
    WorkerCounts(s, WorkerAct(s, w, choice), w);
  }

  lemma WorkerStepCounts(c: Config, s: State, w: nat, choice: Choice)
    requires Inv(s) && InflightOk(s) && AllShaped(s.cells) && w < |s.workers|
    ensures Exactly(WorkerAct(s, w, choice)) <==> Proper(c, s, WorkerStep(w, choice))
    ensures Titled(WorkerAct(s, w, choice))
  {
    match s.workers[w]
    case Idle =>
    case Exited =>
    case Started(_) => StartedCounts(s, w, choice);
    case Handling(_) => HandlingCounts(s, w, choice);
    case Releasing(_) => ReleasingCounts(s, w, choice);
    case Batch(_, _) => BatchCounts(c, s, w, choice);
    case Unwinding(_) => UnwindCounts(s, w, choice);
    case _ => CellStepCounts(s, w, choice);
  }

  /** A step keeps inflight at the number of held jobs if and only if it is proper. */
  lemma StepInflightIff(c: Config, s: State, l: Label)
    requires Inv(s) && InflightOk(s) && Enabled(s, l) && AllShaped(s.cells)
    ensures Exactly(Step(c, s, l)) <==> Proper(c, s, l)
    ensures Proper(c, s, l) ==> Titled(Step(c, s, l))
  {
    if l.HostStep? {
      HostCounts(s, l.h);
    } else if l.ClaimStep? {
      ClaimStepCounts(c, s, l.w);
    } else if l.WorkerStep? {
      WorkerStepCounts(c, s, l.w, l.choice);
    } else if IsCancel(l) {
      CancelCounts(c, s, l);
    } else {
      RequestCounts(c, s, l);
    }
  }

  // ---- Pyramids ----

  /** How far focus is above the number of held pyramids. */
  function Gap(s: State): int { s.g.focus - TotalFocus(s.workers) }

  /** The steps in which a worker gives up a pyramid without its slot: the pyramid has no uri. */
  predicate Leaks(c: Config, s: State, l: Label)
    requires Enabled(s, l)
  {
    match l
    case ClaimStep(_) => var r := NextClaim(c, s); r.Abandoned? && FocusFull(r.job)
    case WorkerStep(w, _) => var pc := s.workers[w]; pc.Started? && pc.job.uri == "" && FocusFull(pc.job)
    case _ => false
  }

  lemma TakeGap(s: State, w: nat, r: ClaimResult)
    requires w < |s.workers| && s.workers[w] == Idle && !r.Stale?
    requires r.Claimed? ==> r.jobs != [] && (!r.coalesced ==> r.jobs == [r.jobs[0]])
    ensures Gap(TakeBy(s, w, r)) == Gap(s) + if r.Abandoned? && FocusFull(r.job) then 1 else 0
    ensures TakeBy(s, w, r).g.focus == s.g.focus + CountFocus(Taken(r))
  {
    TakeFrame(s, w, r);
    FocusUpdate(s.workers, w, TakeBy(s, w, r).workers[w]);
    if r.Abandoned? {
      OneJobCounts(r.job);
    }
  }

  lemma ClaimGap(c: Config, s: State, w: nat)
    requires Inv(s) && s.g.focus <= FOCUS_FULL_MAX_CONCURRENT && w < |s.workers| && s.workers[w] == Idle
    ensures Gap(ClaimBy(c, s, w)) == Gap(s) + if Leaks(c, s, ClaimStep(w)) then 1 else 0
    ensures ClaimBy(c, s, w).g.focus <= FOCUS_FULL_MAX_CONCURRENT
  {
    ClaimSound(c, s);
    ClaimedFocus(s.g.queue, s.g.stop, s.g.focus, s.g.epoch, c.remote, c.arch);
    TakeGap(s, w, NextClaim(c, s));
  }

  lemma WorkerGap(s: State, s': State, w: nat)
    requires w < |s.workers| && |s'.workers| == |s.workers| && s'.workers == s.workers[w := s'.workers[w]]
    ensures Gap(s') - Gap(s)
         == s'.g.focus - s.g.focus - CountFocus(Unreleased(s'.workers[w])) + CountFocus(Unreleased(s.workers[w]))
  {
    FocusUpdate(s.workers, w, s'.workers[w]);
  }

  /** The slot of a held pyramid is there to be given back. */
  lemma HeldHasSlot(s: State, w: nat)
    requires Gap(s) >= 0 && w < |s.workers|
    ensures CountFocus(Unreleased(s.workers[w])) <= s.g.focus
  {
    FocusUpdate(s.workers, w, Idle);
  }

  lemma {:induction false} FocusWithout(js: seq<Job>, k: nat)
    requires k < |js|
    ensures CountFocus(js) == CountFocus(WithoutIndex(js, k)) + if FocusFull(js[k]) then 1 else 0
  {
    var n := |js| - 1;
    if k == n {
      assert WithoutIndex(js, k) == js[..n];
    } else {
      FocusWithout(js[..n], k);
      var r := WithoutIndex(js, k);
      assert r[..n - 1] == WithoutIndex(js[..n], k) && r[n - 1] == js[n];
    }
  }

  lemma BatchGap(s: State, w: nat, choice: Choice)
    requires Gap(s) >= 0 && AllShaped(s.cells) && w < |s.workers| && s.workers[w].Batch?
    ensures Gap(WorkerAct(s, w, choice)) == Gap(s) && WorkerAct(s, w, choice).g.focus <= s.g.focus
  {
    if choice.Pick? && choice.k < |s.workers[w].jobs| {
      PickGap(s, w, choice);
    } else {
      WorkerGap(s, WorkerAct(s, w, choice), w);
    }
  }

  lemma PickGap(s: State, w: nat, choice: Choice)
    requires Gap(s) >= 0 && AllShaped(s.cells) && w < |s.workers| && s.workers[w].Batch?
    requires choice.Pick? && choice.k < |s.workers[w].jobs|
    ensures Gap(WorkerAct(s, w, choice)) == Gap(s) && WorkerAct(s, w, choice).g.focus <= s.g.focus
  {
    HeldHasSlot(s, w);
    FocusWithout(s.workers[w].jobs, choice.k);
    WorkerGap(s, WorkerAct(s, w, choice), w);
  }

  lemma HeldGap(c: Config, s: State, w: nat, choice: Choice)
    requires Gap(s) >= 0 && AllShaped(s.cells) && w < |s.workers|
    requires s.workers[w].Started? || s.workers[w].Releasing? || s.workers[w].Handling?
    ensures Gap(WorkerAct(s, w, choice)) == Gap(s) + if Leaks(c, s, WorkerStep(w, choice)) then 1 else 0
    ensures WorkerAct(s, w, choice).g.focus <= s.g.focus
  {
    HeldHasSlot(s, w);
    OneJobCounts(s.workers[w].job);
    WorkerGap(s, WorkerAct(s, w, choice), w);
  }

  lemma UnwindGap(s: State, w: nat, choice: Choice)
    requires AllShaped(s.cells) && w < |s.workers| && s.workers[w].Unwinding?
    ensures Gap(WorkerAct(s, w, choice)) == Gap(s) && WorkerAct(s, w, choice).g.focus == s.g.focus
  {
    WorkerGap(s, WorkerAct(s, w, choice), w);
  }

  lemma WorkerStepGap(c: Config, s: State, w: nat, choice: Choice)
    requires Gap(s) >= 0 && AllShaped(s.cells) && w < |s.workers|
    ensures Gap(WorkerAct(s, w, choice)) == Gap(s) + if Leaks(c, s, WorkerStep(w, choice)) then 1 else 0
    ensures WorkerAct(s, w, choice).g.focus <= s.g.focus
  {
    match s.workers[w]
    case Idle =>
    case Exited =>
    case Started(_) => HeldGap(c, s, w, choice);
    case Handling(_) => HeldGap(c, s, w, choice);
    case Releasing(_) => HeldGap(c, s, w, choice);
    case Batch(_, _) => BatchGap(s, w, choice);
    case Unwinding(_) => UnwindGap(s, w, choice);
    case _ =>
      CellStepFrame(s, w, choice);
      CellStepUnreleased(s, w, choice);
      WorkerGap(s, WorkerAct(s, w, choice), w);
  }

  lemma QuietGap(c: Config, s: State, l: Label)
    requires Enabled(s, l) && AllShaped(s.cells) && !l.ClaimStep? && !l.WorkerStep?
    ensures Step(c, s, l).workers == s.workers && Step(c, s, l).g.focus == s.g.focus
  {
    if !l.HostStep? && !l.BumpEpoch? && !l.CancelPending? && !l.CancelUri? && !l.CancelCells? && !l.Shutdown? {
      RequestFrame(c, s, l);
    }
  }

  /** Only a leak ever takes focus further above the held pyramids; it never exceeds the cap. */
  lemma StepGap(c: Config, s: State, l: Label)
    requires Inv(s) && Gap(s) >= 0 && s.g.focus <= FOCUS_FULL_MAX_CONCURRENT && Enabled(s, l) && AllShaped(s.cells)
    ensures Gap(Step(c, s, l)) == Gap(s) + if Leaks(c, s, l) then 1 else 0
    ensures Step(c, s, l).g.focus <= FOCUS_FULL_MAX_CONCURRENT
  {
    if l.ClaimStep? {
      ClaimGap(c, s, l.w);
    } else if l.WorkerStep? {
      WorkerStepGap(c, s, l.w, l.choice);
    } else {
      QuietGap(c, s, l);
    }
  }
}
