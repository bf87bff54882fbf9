// The interest epoch over whole runs: what is queued is never stale, and carries the current
// epoch until the 64-bit counter wraps.
module ClientEpochs {
  import opened JobQueue
  import opened ClientQueue
  import opened ClientProtocol
  import opened ClientJobsProof
  import opened ClientCellsProof
  import opened ClientStepsProof
  import opened ClientRuns

  /** In every run the queue holds no two jobs of which one supersedes the other, no stale job,
      and per-cell replies only on interactive batches; so no claim ever finds a stale job. */
  lemma QueueStaysOk(c: Config, workers: nat, hosts: nat, schedule: seq<Label>)
    ensures var g := After(c, workers, hosts, schedule).g;
      && QueueOk(g.queue, g.epoch) && 1 <= g.epoch < EPOCH_LIMIT
      && !Claim(g.queue, g.stop, g.focus, g.epoch, c.remote, c.arch).Stale?
  {
    InitHolds(workers, hosts);
    RunKeeps(c, Init(workers, hosts), schedule);
    var g := After(c, workers, hosts, schedule).g;
    NeverStale(g.queue, g.stop, g.focus, g.epoch, c.remote, c.arch);
  }

  // ---- Epochs are current until the counter wraps ----

  ghost predicate Current(s: State) { EpochsCurrent(s.g.queue, s.g.epoch) }

  ghost predicate Unstamped(s: State) { forall j :: j in s.g.queue ==> j.epoch == 0 }

  /** The bump that takes the 64-bit counter around. */
  predicate Wraps(s: State, l: Label) { l.BumpEpoch? && s.g.epoch + 1 == EPOCH_LIMIT }

  lemma RejectKeepsCurrent(q: seq<Job>, p: JobTest, epoch: nat)
    requires EpochsCurrent(q, epoch)
    ensures EpochsCurrent(Reject(q, p), epoch)
  {
    RejectMembers(q, p);
  }

  lemma EnqueueKeepsCurrent(q: seq<Job>, j: Job, front: bool, epoch: nat)
    requires EpochsCurrent(q, epoch) && j.epoch == 0
    ensures EpochsCurrent(Enqueued(q, Stamp(j, epoch), front), epoch)
  {
    RejectMembers(q, SupersededBy(Stamp(j, epoch)));
  }

  lemma ClaimKeepsCurrent(q: seq<Job>, stop: bool, focus: int, epoch: nat, remote: bool, arch: ArchiveOf)
    requires EpochsCurrent(q, epoch)
    ensures EpochsCurrent(Left(Claim(q, stop, focus, epoch, remote, arch)), epoch)
  {
    var left := Left(Claim(q, stop, focus, epoch, remote, arch));
    forall j | j in left ensures j in q {
      ClaimConserves(q, stop, focus, epoch, remote, arch, j);
      OccMember(left, j);
      OccMember(q, j);
    }
  }

  /** A step that does not bump keeps the queued epochs current. */
  lemma QuietKeepsCurrent(c: Config, s: State, l: Label)
    requires Inv(s) && Enabled(s, l) && AllShaped(s.cells) && Current(s) && !l.BumpEpoch?
    ensures Current(Step(c, s, l))
  {
    if IsRequest(l) {
      RequestKeepsCurrent(c, s, l);
    } else if IsCancel(l) {
      CancelKeepsCurrent(c, s, l);
    } else if l.HostStep? {
      OpKeepsKeys(s, s.hosts[l.h][0], AtHost(l.h));
      RejectKeepsCurrent(s.g.queue, FullyReplied(s.cells), s.g.epoch);
    } else if l.ClaimStep? {
      ClaimStepKeepsCurrent(c, s, l.w);
    } else {
      WorkerKeepsQueue(s, l.w, l.choice);
    }
  }

  lemma RequestKeepsCurrent(c: Config, s: State, l: Label)
    requires AllShaped(s.cells) && Current(s) && IsRequest(l)
    ensures Current(Step(c, s, l))
  {
    var q, e := s.g.queue, s.g.epoch;
    match l
    case RequestTile(uri, at) => EnqueueKeepsCurrent(q, NewJob(s, EnsureTiles, uri).(at := at), true, e);
    case RequestCells(uri, coords) =>
      if uri != "" && coords != [] {
        var j := NewJob(s, EnsureTiles, uri).(hasCells := true, at := coords[0], tileBatch := coords, exempt := true);
        EnqueueKeepsCurrent(q, j, false, e);
      }
    case RequestPyramid(uri) => EnqueueKeepsCurrent(q, NewJob(s, EnsureTiles, uri).(pyramid := true), false, e);
    case RequestPixels(uri) => EnqueueKeepsCurrent(q, NewJob(s, EnsurePixels, uri), false, e);
    case RequestSize(uri) => EnqueueKeepsCurrent(q, NewJob(s, ProbeSize, uri), true, e);
    case RequestLqip(_) =>
    case BulkSize(_) =>
  }

  lemma CancelKeepsCurrent(c: Config, s: State, l: Label)
    requires Enabled(s, l) && AllShaped(s.cells) && Current(s) && IsCancel(l) && !l.BumpEpoch?
    ensures Current(Step(c, s, l))
  {
    var q, e := s.g.queue, s.g.epoch;
    match l
    case CancelPending(h) => RejectKeepsCurrent(q, AnyTest(), e);
    case CancelUri(h, uri) => RejectKeepsCurrent(q, UriTest(uri), e);
    case CancelCells(h, uri, want) => RejectKeepsCurrent(q, LegacyReached(uri, want), e);
    case Shutdown(h) => RejectKeepsCurrent(q, AnyTest(), e);
  }

  lemma ClaimStepKeepsCurrent(c: Config, s: State, w: nat)
    requires w < |s.workers| && Current(s)
    ensures Current(ClaimBy(c, s, w))
  {
    ClaimedSingle(c, s);
    TakenQueue(s, w, NextClaim(c, s));
    ClaimKeepsCurrent(s.g.queue, s.g.stop, s.g.focus, s.g.epoch, c.remote, c.arch);
  }

  /** A step keeps the queued epochs current exactly unless it wraps the counter over a queue
      with stamped jobs in it. */
  lemma StepKeepsCurrentIff(c: Config, s: State, l: Label)
    requires Inv(s) && Enabled(s, l) && AllShaped(s.cells) && Current(s)
    ensures Current(Step(c, s, l)) <==> (Wraps(s, l) ==> Unstamped(s))
  {
    if l.BumpEpoch? {
      BumpKeepsEpochsCurrentIff(s.g.queue, s.g.epoch);
    } else {
      QuietKeepsCurrent(c, s, l);
    }
  }

  /** Step n of the schedule happens and wraps the counter. */
  ghost predicate WrapsAt(c: Config, workers: nat, hosts: nat, schedule: seq<Label>, n: nat)
    requires n < |schedule|
  {
    var s := Prefix(c, workers, hosts, schedule, n);
    Enabled(s, schedule[n]) && Wraps(s, schedule[n])
  }

  ghost predicate HarmlessAt(c: Config, workers: nat, hosts: nat, schedule: seq<Label>, n: nat)
    requires n < |schedule|
  {
    WrapsAt(c, workers, hosts, schedule, n) ==> Unstamped(Prefix(c, workers, hosts, schedule, n))
  }

  lemma CurrentStepIff(c: Config, workers: nat, hosts: nat, schedule: seq<Label>, n: nat)
    requires n < |schedule| && Current(Prefix(c, workers, hosts, schedule, n))
    ensures Current(Prefix(c, workers, hosts, schedule, n + 1)) <==> HarmlessAt(c, workers, hosts, schedule, n)
  {
    NextPrefix(c, workers, hosts, schedule, n);
    var s := Prefix(c, workers, hosts, schedule, n);
    if Enabled(s, schedule[n]) {
      StepKeepsCurrentIff(c, s, schedule[n]);
    }
  }

  lemma {:induction false} HarmlessMeansCurrent(c: Config, workers: nat, hosts: nat, schedule: seq<Label>, n: nat)
    requires n <= |schedule| && forall k: nat :: k < n ==> HarmlessAt(c, workers, hosts, schedule, k)
    ensures Current(Prefix(c, workers, hosts, schedule, n))
  {
    if n == 0 {
      assert schedule[..0] == [];
    } else {
      HarmlessMeansCurrent(c, workers, hosts, schedule, n - 1);
      CurrentStepIff(c, workers, hosts, schedule, n - 1);
    }
  }

  /** Throughout a run every queued epoch is 0 or the current one, exactly when each wrap of the
      counter in that run finds no stamped job in the queue. */
  lemma EpochsCurrentIff(c: Config, workers: nat, hosts: nat, schedule: seq<Label>)
    ensures (forall n: nat :: n <= |schedule| ==> Current(Prefix(c, workers, hosts, schedule, n)))
       <==> (forall n: nat :: n < |schedule| ==> HarmlessAt(c, workers, hosts, schedule, n))
  {
    if forall n: nat :: n < |schedule| ==> HarmlessAt(c, workers, hosts, schedule, n) {
      forall n: nat | n <= |schedule| ensures Current(Prefix(c, workers, hosts, schedule, n)) {
        HarmlessMeansCurrent(c, workers, hosts, schedule, n);
      }
    }
    if forall n: nat :: n <= |schedule| ==> Current(Prefix(c, workers, hosts, schedule, n)) {
      forall n: nat | n < |schedule| ensures HarmlessAt(c, workers, hosts, schedule, n) {
        assert Current(Prefix(c, workers, hosts, schedule, n + 1));
        CurrentStepIff(c, workers, hosts, schedule, n);
      }
    }
  }

  function Bumps(schedule: seq<Label>): nat {
    if schedule == [] then 0
    else Bumps(schedule[..|schedule| - 1]) + if schedule[|schedule| - 1].BumpEpoch? then 1 else 0
  }

  lemma {:induction false} EpochCounts(c: Config, workers: nat, hosts: nat, schedule: seq<Label>, n: nat)
    requires n <= |schedule|
    ensures Prefix(c, workers, hosts, schedule, n).g.epoch <= 1 + Bumps(schedule[..n])
    ensures Bumps(schedule[..n]) <= Bumps(schedule)
  {
    assert schedule[..|schedule|] == schedule;
    BumpsGrow(schedule, n);
    if n == 0 {
      assert schedule[..0] == [];
    } else {
      EpochCounts(c, workers, hosts, schedule, n - 1);
      NextPrefix(c, workers, hosts, schedule, n - 1);
      assert schedule[..n][..n - 1] == schedule[..n - 1] && schedule[..n][n - 1] == schedule[n - 1];
      var s := Prefix(c, workers, hosts, schedule, n - 1);
      if Enabled(s, schedule[n - 1]) {
        StepEpoch(c, s, schedule[n - 1]);
      }
    }
  }

  lemma {:induction false} BumpsGrow(schedule: seq<Label>, n: nat)
    requires n <= |schedule|
    ensures Bumps(schedule[..n]) <= Bumps(schedule)
  {
    if n < |schedule| {
      var front := schedule[..|schedule| - 1];
      BumpsGrow(front, n);
      assert front[..n] == schedule[..n];
    } else {
      assert schedule[..n] == schedule;
    }
  }

  lemma StepEpoch(c: Config, s: State, l: Label)
    requires Inv(s) && AllShaped(s.cells) && Enabled(s, l)
    ensures Step(c, s, l).g.epoch <= s.g.epoch + if l.BumpEpoch? then 1 else 0
  {
    if IsRequest(l) {
      RequestKeepsQueue(c, s, l);
    } else if l.HostStep? {
      OpKeepsKeys(s, s.hosts[l.h][0], AtHost(l.h));
    } else if l.ClaimStep? {
      ClaimKeepsQueue(c, s, l.w);
    } else if l.WorkerStep? {
      WorkerKeepsQueue(s, l.w, l.choice);
    }
  }

  /** With fewer bumps than the counter has room for, every queued epoch is 0 or the current one. */
  lemma EpochsCurrentWithoutWrap(c: Config, workers: nat, hosts: nat, schedule: seq<Label>)
    requires Bumps(schedule) + 1 < EPOCH_LIMIT
    ensures Current(After(c, workers, hosts, schedule))
  {
    forall n: nat | n < |schedule| ensures HarmlessAt(c, workers, hosts, schedule, n) {
      EpochCounts(c, workers, hosts, schedule, n);
      EarlyIsHarmless(c, workers, hosts, schedule, n);
    }
    HarmlessMeansCurrent(c, workers, hosts, schedule, |schedule|);
    assert schedule[..|schedule|] == schedule;
  }

  lemma EarlyIsHarmless(c: Config, workers: nat, hosts: nat, schedule: seq<Label>, n: nat)
    requires n < |schedule| && Bumps(schedule) + 1 < EPOCH_LIMIT
    requires Prefix(c, workers, hosts, schedule, n).g.epoch <= 1 + Bumps(schedule[..n])
    ensures HarmlessAt(c, workers, hosts, schedule, n)
  {
    BumpsGrow(schedule, n + 1);
    assert schedule[..n + 1][..n] == schedule[..n] && schedule[..n + 1][n] == schedule[n];
  }
}
