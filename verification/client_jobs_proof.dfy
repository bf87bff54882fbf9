// Job conservation: in every run each queued job is in exactly one place, whatever threads
// reorder, supersede, cancel, claim or coalesce it.
module ClientJobsProof {
  import opened TileCells
  import opened JobQueue
  import opened ClientQueue
  import opened ClientProtocol

  // ---- The jobs a place holds ----

  function OpHolds(op: Op, j: Job): nat {
    if (op.DropJob? || op.Retire? || op.CloseSwept?) && op.job == j then 1 else 0
  }

  /** How often a cancelling thread still holds a job. */
  function OpsHold(ops: seq<Op>, j: Job): nat {
    if ops == [] then 0 else OpHolds(ops[0], j) + OpsHold(ops[1..], j)
  }

  function WorkerHolds(pc: Worker, j: Job): nat {
    match pc
    case Idle => 0
    case Exited => 0
    case Batch(js, _) => Occ(js, j)
    case Unwinding(ops) => OpsHold(ops, j)
    case _ => if pc.job == j then 1 else 0
  }

  predicate Live(x: Loc) { x.Queued? || x.AtHost? || x.AtWorker? }

  /** How often the structure at a live place really holds a job. */
  function Held(s: State, x: Loc, j: Job): nat {
    match x
    case Queued => Occ(s.g.queue, j)
    case AtHost(h) => if h < |s.hosts| then OpsHold(s.hosts[h], j) else 0
    case AtWorker(w) => if w < |s.workers| then WorkerHolds(s.workers[w], j) else 0
    case _ => 0
  }

  predicate Known(jobs: seq<Job>, j: Job) {
    j.id < |jobs| && jobs[j.id] == j
  }

  ghost predicate Named(jobs: seq<Job>) {
    forall i :: 0 <= i < |jobs| ==> jobs[i].id == i
  }

  /** The place holds exactly the jobs that history puts there, each once. */
  ghost predicate Exact(s: State, x: Loc)
    requires |s.jobs| == |s.loc|
  {
    && (forall i :: 0 <= i < |s.jobs| ==> Held(s, x, s.jobs[i]) == if s.loc[i] == x then 1 else 0)
    && (forall j :: Held(s, x, j) > 0 ==> Known(s.jobs, j))
  }

  ghost predicate JobsConserved(s: State) {
    && |s.jobs| == |s.loc| == |s.closed| && Named(s.jobs)
    && forall x :: Live(x) ==> Exact(s, x)
  }

  // ---- Counting in what a thread has left to do ----

  lemma {:induction false} OpsHoldConcat(a: seq<Op>, b: seq<Op>, j: Job)
    ensures OpsHold(a + b, j) == OpsHold(a, j) + OpsHold(b, j)
  {
    if a == [] {
      assert a + b == b;
    } else {
      OpsHoldConcat(a[1..], b, j);
      assert (a + b)[1..] == a[1..] + b;
    }
  }

  ghost predicate HoldsNone(ops: seq<Op>) {
    forall k :: 0 <= k < |ops| ==> !ops[k].DropJob? && !ops[k].Retire? && !ops[k].CloseSwept?
  }

  lemma {:induction false} HoldsNothing(ops: seq<Op>, j: Job)
    requires HoldsNone(ops)
    ensures OpsHold(ops, j) == 0
  {
    if ops != [] {
      HoldsNothing(ops[1..], j);
    }
  }

  lemma {:induction false} HoldsJobs(ops: seq<Op>, js: seq<Job>, j: Job)
    requires |ops| == |js|
    requires forall k :: 0 <= k < |js| ==> (ops[k].DropJob? || ops[k].CloseSwept?) && ops[k].job == js[k]
    ensures OpsHold(ops, j) == Occ(js, j)
  {
    if ops != [] {
      HoldsJobs(ops[1..], js[1..], j);
      assert js == [js[0]] + js[1..];
      OccConcat([js[0]], js[1..], j);
      OccOne(js[0], j);
    }
  }

  lemma {:induction false} OpHeld(ops: seq<Op>, k: nat, j: Job)
    requires k < |ops| && OpHolds(ops[k], j) == 1
    ensures OpsHold(ops, j) > 0
  {
    if k > 0 {
      OpHeld(ops[1..], k - 1, j);
    }
  }

  // ---- Moving jobs between places ----

  lemma {:induction false} HasIdMember(js: seq<Job>, id: nat)
    ensures HasId(js, id) ==> exists k :: 0 <= k < |js| && js[k].id == id
    ensures (exists k :: 0 <= k < |js| && js[k].id == id) ==> HasId(js, id)
  {
    if js != [] {
      HasIdMember(js[..|js| - 1], id);
    }
  }

  /** Where a job is after known jobs moved. */
  lemma MovedAt(jobs: seq<Job>, loc: seq<Loc>, js: seq<Job>, to: Loc, i: nat)
    requires |jobs| == |loc| && i < |loc| && Named(jobs)
    requires forall j :: Occ(js, j) > 0 ==> Known(jobs, j)
    ensures MovedLoc(loc, js, to)[i] == if Occ(js, jobs[i]) > 0 then to else loc[i]
  {
    HasIdMember(js, i);
    OccMember(js, jobs[i]);
    if HasId(js, i) {
      var k :| 0 <= k < |js| && js[k].id == i;
      OccMember(js, js[k]);
    }
  }

  /** The heart of conservation: jobs leave `from`, arrive at `to`, and nothing else moves. */
  lemma MoveConserves(s: State, s': State, js: seq<Job>, from: Loc, to: Loc)
    requires JobsConserved(s) && Live(from) && from != to
    requires s'.jobs == s.jobs && |s'.closed| == |s.closed| && s'.loc == MovedLoc(s.loc, js, to)
    requires forall j :: Occ(js, j) + Held(s', from, j) == Held(s, from, j)
    requires Live(to) ==> forall j :: Held(s', to, j) == Held(s, to, j) + Occ(js, j)
    requires forall x, j :: Live(x) && x != from && x != to ==> Held(s', x, j) == Held(s, x, j)
    ensures JobsConserved(s')
  {
    assert Exact(s, from);
    forall x | Live(x) ensures Exact(s', x) {
      assert Exact(s, x);
      forall i | 0 <= i < |s.jobs| ensures Held(s', x, s.jobs[i]) == if s'.loc[i] == x then 1 else 0 {
        MovedAt(s.jobs, s.loc, js, to, i);
      }
    }
  }

  lemma StayConserves(s: State, s': State)
    requires JobsConserved(s)
    requires s'.jobs == s.jobs && |s'.closed| == |s.closed| && s'.loc == s.loc
    requires forall x, j :: Live(x) ==> Held(s', x, j) == Held(s, x, j)
    ensures JobsConserved(s')
  {
    forall x | Live(x) ensures Exact(s', x) {
      assert Exact(s, x);
    }
  }

  /** A recorded job is new everywhere. */
  lemma RecordConserves(s: State, s': State, j: Job, at: Loc)
    requires JobsConserved(s) && j.id == |s.jobs| && (at == Queued || !Live(at))
    requires s'.jobs == s.jobs + [j] && s'.loc == s.loc + [at] && |s'.closed| == |s.closed| + 1
    requires forall k :: Held(s', Queued, k) == Held(s, Queued, k) + if at == Queued && k == j then 1 else 0
    requires forall x, k :: Live(x) && x != Queued ==> Held(s', x, k) == Held(s, x, k)
    ensures JobsConserved(s')
  {
    forall x | Live(x) ensures Exact(s', x) {
      assert Exact(s, x);
      assert !Known(s.jobs, j);
      assert Held(s, x, j) == 0;
      forall i | 0 <= i < |s'.jobs| ensures Held(s', x, s'.jobs[i]) == if s'.loc[i] == x then 1 else 0 {
        if i < |s.jobs| {
          assert s'.jobs[i] == s.jobs[i] && s.jobs[i] != j;
        }
      }
    }
  }

  /** Only the place `me` and the queue changed. */
  ghost predicate OnlyAt(s: State, s': State, me: Loc) {
    && s'.jobs == s.jobs && |s'.closed| == |s.closed|
    && |s'.hosts| == |s.hosts| && |s'.workers| == |s.workers|
    && (forall h :: 0 <= h < |s.hosts| && AtHost(h) != me ==> s'.hosts[h] == s.hosts[h])
    && (forall w :: 0 <= w < |s.workers| && AtWorker(w) != me ==> s'.workers[w] == s.workers[w])
  }

  lemma KeepAt(s: State, s': State, me: Loc)
    requires JobsConserved(s) && OnlyAt(s, s', me) && s'.g.queue == s.g.queue && s'.loc == s.loc
    requires forall j :: Held(s', me, j) == Held(s, me, j)
    ensures JobsConserved(s')
  {
    StayConserves(s, s');
  }

  lemma LoseAt(s: State, s': State, me: Loc, j: Job, to: Loc)
    requires JobsConserved(s) && OnlyAt(s, s', me) && s'.g.queue == s.g.queue
    requires (me.AtHost? || me.AtWorker?) && !Live(to)
    requires s'.loc == MovedLoc(s.loc, [j], to)
    requires forall k :: (if k == j then 1 else 0) + Held(s', me, k) == Held(s, me, k)
    ensures JobsConserved(s')
  {
    forall k ensures Occ([j], k) == if k == j then 1 else 0 { OccOne(j, k); }
    MoveConserves(s, s', [j], me, to);
  }

  lemma GainAt(s: State, s': State, me: Loc, js: seq<Job>)
    requires JobsConserved(s) && OnlyAt(s, s', me) && (me.AtHost? || me.AtWorker?)
    requires forall j :: Occ(js, j) + Occ(s'.g.queue, j) == Occ(s.g.queue, j)
    requires s'.loc == MovedLoc(s.loc, js, me)
    requires forall j :: Held(s', me, j) == Held(s, me, j) + Occ(js, j)
    ensures JobsConserved(s')
  {
    MoveConserves(s, s', js, Queued, me);
  }

  // ---- Requests and cancellations ----

  lemma EnqueueConserves(s: State, j: Job, front: bool)
    requires JobsConserved(s) && j.id == |s.jobs|
    ensures JobsConserved(EnqueueJob(s, j, front))
  {
    var st := Stamp(j, s.g.epoch);
    var gone, kept := Select(s.g.queue, SupersededBy(st)), Reject(s.g.queue, SupersededBy(st));
    var s1 := Close(Moved(WithQueue(s, kept), gone, Dropped), gone);
    forall k ensures Occ(gone, k) + Occ(kept, k) == Occ(s.g.queue, k) {
      SplitConserves(s.g.queue, SupersededBy(st), k);
    }
    MoveConserves(s, s1, gone, Queued, Dropped);
    PushCounts(kept, st, front);
    RecordConserves(s1, EnqueueJob(s, j, front), st, Queued);
  }

  lemma PushCounts(q: seq<Job>, j: Job, front: bool)
    ensures forall k :: Occ(Push(q, j, front), k) == Occ(q, k) + if k == j then 1 else 0
  {
    forall k ensures Occ(Push(q, j, front), k) == Occ(q, k) + if k == j then 1 else 0 {
      OccConcat([j], q, k);
      OccConcat(q, [j], k);
      OccOne(j, k);
    }
  }

  lemma PushConserves(s: State, j: Job)
    requires JobsConserved(s) && j.id == |s.jobs|
    ensures JobsConserved(PushJob(s, j))
  {
    PushCounts(s.g.queue, j, false);
    RecordConserves(s, PushJob(s, j), j, Queued);
  }

  lemma DropConserves(s: State, h: nat, p: JobTest, more: seq<Op>)
    requires JobsConserved(s) && h < |s.hosts| && s.hosts[h] == [] && HoldsNone(more)
    ensures JobsConserved(DropFromQueue(s, h, p, more))
  {
    var gone := Select(s.g.queue, p);
    var s' := DropFromQueue(s, h, p, more);
    forall k
      ensures Occ(gone, k) + Occ(s'.g.queue, k) == Occ(s.g.queue, k)
      ensures Held(s', AtHost(h), k) == Held(s, AtHost(h), k) + Occ(gone, k)
    {
      SplitConserves(s.g.queue, p, k);
      OpsHoldConcat(DropAll(gone), more, k);
      HoldsNothing(more, k);
      HoldsJobs(DropAll(gone), gone, k);
    }
    GainAt(s, s', AtHost(h), gone);
  }

  // ---- Cancelling steps ----

  ghost predicate OpEffect(s: State, s': State, op: Op, me: Loc)
    requires AllShaped(s.cells)
  {
    var t := OpState(s, op, me);
    s'.jobs == t.jobs && s'.loc == t.loc && s'.closed == t.closed && s'.g == t.g
  }

  /** What an item leaves behind for its thread to do holds what the item held, except for
      the jobs that retire and the ones that a sweep takes. */
  ghost function NextHolds(s: State, op: Op, j: Job): nat
    requires AllShaped(s.cells)
  {
    match op
    case DropJob(k) => if k == j then 1 else 0
    case Sweep => Occ(Select(s.g.queue, FullyReplied(s.cells)), j)
    case _ => 0
  }

  lemma NextCounts(s: State, op: Op, j: Job)
    requires AllShaped(s.cells)
    ensures OpsHold(OpNext(s, op), j) == NextHolds(s, op, j)
  {
    match op
    case DropJob(k) =>
      var replies := Replies(k.id, if k.hasCells then Pendings(s.cells, k.id, []) else []);
      OpsHoldConcat(replies, [Retire(k)], j);
      HoldsNothing(replies, j);
      assert [Retire(k)][1..] == [];
    case Mark(id, want, running) => HoldsNothing(OpNext(s, op), j);
    case Sweep =>
      var done := Select(s.g.queue, FullyReplied(s.cells));
      HoldsJobs(SweepAll(done), done, j);
    case _ =>
  }

  /** One cancelling step of a host, or of a worker that unwinds. */
  lemma OpConserves(s: State, s': State, ops: seq<Op>, me: Loc)
    requires JobsConserved(s) && ops != [] && AllShaped(s.cells) && (me.AtHost? || me.AtWorker?)
    requires OpEffect(s, s', ops[0], me) && OnlyAt(s, s', me)
    requires forall j :: Held(s, me, j) == OpsHold(ops, j)
    requires forall j :: Held(s', me, j) == OpsHold(OpNext(s, ops[0]) + ops[1..], j)
    ensures JobsConserved(s')
  {
    var op := ops[0];
    forall j ensures Held(s', me, j) == Held(s, me, j) - OpHolds(op, j) + NextHolds(s, op, j) {
      NextCounts(s, op, j);
      OpsHoldConcat(OpNext(s, op), ops[1..], j);
    }
    if op.Sweep? {
      SweepConserves(s, s', me);
    } else if op.Retire? || op.CloseSwept? {
      LoseAt(s, s', me, op.job, if op.Retire? && me.AtWorker? then Aborted else Dropped);
    } else {
      StillConserves(s, s', op, me);
    }
  }

  lemma SweepConserves(s: State, s': State, me: Loc)
    requires JobsConserved(s) && AllShaped(s.cells) && (me.AtHost? || me.AtWorker?)
    requires OpEffect(s, s', Sweep, me) && OnlyAt(s, s', me)
    requires forall j :: Held(s', me, j) == Held(s, me, j) + Occ(Select(s.g.queue, FullyReplied(s.cells)), j)
    ensures JobsConserved(s')
  {
    var p := FullyReplied(s.cells);
    forall j ensures Occ(Select(s.g.queue, p), j) + Occ(s'.g.queue, j) == Occ(s.g.queue, j) {
      SplitConserves(s.g.queue, p, j);
    }
    GainAt(s, s', me, Select(s.g.queue, p));
  }

  lemma StillConserves(s: State, s': State, op: Op, me: Loc)
    requires JobsConserved(s) && AllShaped(s.cells) && (me.AtHost? || me.AtWorker?)
    requires !op.Sweep? && !op.Retire? && !op.CloseSwept? && OpEffect(s, s', op, me) && OnlyAt(s, s', me)
    requires forall j :: Held(s', me, j) == Held(s, me, j)
    ensures JobsConserved(s')
  {
    KeepAt(s, s', me);
  }

  lemma HostStepConserves(s: State, h: nat)
    requires JobsConserved(s) && h < |s.hosts| && s.hosts[h] != [] && AllShaped(s.cells)
    ensures JobsConserved(RunHost(s, h))
  {
    OpConserves(s, RunHost(s, h), s.hosts[h], AtHost(h));
  }

  // ---- Workers ----

  lemma ClaimedSingle(c: Config, s: State)
    ensures var r := NextClaim(c, s);
      && (r.Claimed? ==> r.jobs != [] && (!r.coalesced ==> r.jobs == [r.jobs[0]]))
      && (r.Exit? || r.Sleep? ==> s.g.queue == [])
      && (r.Abandoned? ==> s.g.stop && r.job.uri == "")
  {
  }

  lemma NextClaimConserves(c: Config, s: State)
    ensures var r := NextClaim(c, s);
      && (forall j :: Occ(Taken(r), j) + Occ(Left(r), j) == Occ(s.g.queue, j))
      && (forall j :: Occ(Taken(r), j) <= Occ(s.g.queue, j))
  {
    forall j ensures Occ(Taken(NextClaim(c, s)), j) + Occ(Left(NextClaim(c, s)), j) == Occ(s.g.queue, j) {
      ClaimConserves(s.g.queue, s.g.stop, s.g.focus, s.g.epoch, c.remote, c.arch, j);
    }
  }

  lemma ClaimStepConserves(c: Config, s: State, w: nat)
    requires JobsConserved(s) && w < |s.workers| && s.workers[w] == Idle
    ensures JobsConserved(ClaimBy(c, s, w))
  {
    NextClaimConserves(c, s);
    ClaimedSingle(c, s);
    TakeConserves(s, w, NextClaim(c, s));
  }

  lemma TakenQueue(s: State, w: nat, r: ClaimResult)
    requires w < |s.workers| && (r.Claimed? ==> r.jobs != []) && (r.Exit? || r.Sleep? ==> s.g.queue == [])
    ensures var g := TakeBy(s, w, r).g; g.queue == Left(r) && g.epoch == s.g.epoch && g.stop == s.g.stop
  {
  }

  lemma ClaimedConserves(s: State, w: nat, r: ClaimResult)
    requires JobsConserved(s) && w < |s.workers| && s.workers[w] == Idle && r.Claimed?
    requires forall j :: Occ(r.jobs, j) + Occ(r.rest, j) == Occ(s.g.queue, j)
    requires r.jobs != [] && (!r.coalesced ==> r.jobs == [r.jobs[0]])
    ensures JobsConserved(TakeBy(s, w, r))
  {
    var s' := TakeBy(s, w, r);
    forall j ensures Held(s', AtWorker(w), j) == Held(s, AtWorker(w), j) + Occ(r.jobs, j) {
      OccOne(r.jobs[0], j);
    }
    GainAt(s, s', AtWorker(w), r.jobs);
  }

  lemma StaleConserves(s: State, w: nat, r: ClaimResult)
    requires JobsConserved(s) && w < |s.workers| && s.workers[w] == Idle && r.Stale?
    requires forall j :: Occ(r.jobs, j) + Occ(r.rest, j) == Occ(s.g.queue, j)
    ensures JobsConserved(TakeBy(s, w, r))
  {
    var s' := TakeBy(s, w, r);
    forall j ensures Held(s', AtWorker(w), j) == Held(s, AtWorker(w), j) + Occ(r.jobs, j) {
      HoldsJobs(DropAll(r.jobs), r.jobs, j);
    }
    GainAt(s, s', AtWorker(w), r.jobs);
  }

  lemma TakeConserves(s: State, w: nat, r: ClaimResult)
    requires JobsConserved(s) && w < |s.workers| && s.workers[w] == Idle
    requires forall j :: Occ(Taken(r), j) + Occ(Left(r), j) == Occ(s.g.queue, j)
    requires r.Claimed? ==> r.jobs != [] && (!r.coalesced ==> r.jobs == [r.jobs[0]])
    requires r.Exit? || r.Sleep? ==> s.g.queue == []
    ensures JobsConserved(TakeBy(s, w, r))
  {
    if r.Claimed? {
      ClaimedConserves(s, w, r);
    } else if r.Stale? {
      StaleConserves(s, w, r);
    } else if r.Abandoned? {
      MoveConserves(s, TakeBy(s, w, r), [r.job], Queued, Aborted);
    } else {
      StayConserves(s, TakeBy(s, w, r));
    }
  }

  lemma BatchConserves(s: State, w: nat, k: nat)
    requires JobsConserved(s) && w < |s.workers| && s.workers[w].Batch? && k < |s.workers[w].jobs|
    ensures var js := s.workers[w].jobs;
      JobsConserved(Finished(Close(s, [js[k]]), w, js[k], Completed,
        Batch(WithoutIndex(js, k), s.workers[w].served + [js[k]])))
  {
    var js := s.workers[w].jobs;
    var s' := Finished(Close(s, [js[k]]), w, js[k], Completed,
      Batch(WithoutIndex(js, k), s.workers[w].served + [js[k]]));
    assert js == js[..k] + ([js[k]] + js[k + 1..]);
    forall j ensures (if j == js[k] then 1 else 0) + Occ(WithoutIndex(js, k), j) == Occ(js, j) {
      OccConcat(js[..k], [js[k]] + js[k + 1..], j);
      OccConcat([js[k]], js[k + 1..], j);
      OccConcat(js[..k], js[k + 1..], j);
      OccOne(js[k], j);
    }
    LoseAt(s, s', AtWorker(w), js[k], Completed);
  }

  lemma UnwindConserves(s: State, w: nat)
    requires JobsConserved(s) && w < |s.workers| && AllShaped(s.cells)
    requires s.workers[w].Unwinding? && s.workers[w].ops != []
    ensures JobsConserved(RunWorker(s, w, s.workers[w].ops))
  {
    OpConserves(s, RunWorker(s, w, s.workers[w].ops), s.workers[w].ops, AtWorker(w));
  }

  lemma WorkerStepConserves(s: State, w: nat, choice: Choice)
    requires JobsConserved(s) && w < |s.workers| && AllShaped(s.cells)
    ensures JobsConserved(WorkerAct(s, w, choice))
  {
    var s' := WorkerAct(s, w, choice);
    var pc := s.workers[w];
    if pc.Releasing? {
      LoseAt(s, s', AtWorker(w), pc.job, Completed);
    } else if pc.Batch? && choice.Pick? && choice.k < |pc.jobs| {
      BatchConserves(s, w, choice.k);
    } else if pc.Unwinding? && pc.ops != [] {
      UnwindConserves(s, w);
    } else {
      WorkerKeeps(s, w, choice);
      KeepAt(s, s', AtWorker(w));
    }
  }

  ghost predicate OnlyOneWorker(s: State, s': State, w: nat)
    requires w < |s.workers|
  {
    && s'.jobs == s.jobs && s'.loc == s.loc && |s'.closed| == |s.closed| && s'.g.queue == s.g.queue
    && s'.hosts == s.hosts && |s'.workers| == |s.workers| && s'.workers == s.workers[w := s'.workers[w]]
  }

  /** Every other worker step keeps the jobs it holds. */
  lemma WorkerKeeps(s: State, w: nat, choice: Choice)
    requires w < |s.workers| && AllShaped(s.cells)
    requires var pc := s.workers[w];
      && !pc.Releasing? && !(pc.Unwinding? && pc.ops != [])
      && !(pc.Batch? && choice.Pick? && choice.k < |pc.jobs|)
    ensures OnlyOneWorker(s, WorkerAct(s, w, choice), w)
    ensures forall j :: WorkerHolds(WorkerAct(s, w, choice).workers[w], j) == WorkerHolds(s.workers[w], j)
  {
    var pc := s.workers[w];
    if pc.Started? {
      StartKeeps(s, w, choice);
    } else if !pc.Idle? && !pc.Exited? && !pc.Batch? && !pc.Unwinding? {
      CellStepKeeps(s, w, choice);
    }
  }

  lemma StartKeeps(s: State, w: nat, choice: Choice)
    requires w < |s.workers| && AllShaped(s.cells) && s.workers[w].Started?
    ensures OnlyOneWorker(s, WorkerAct(s, w, choice), w)
    ensures forall j :: WorkerHolds(WorkerAct(s, w, choice).workers[w], j) == WorkerHolds(s.workers[w], j)
  {
    var job := s.workers[w].job;
    forall j ensures WorkerHolds(WorkerAct(s, w, choice).workers[w], j) == WorkerHolds(s.workers[w], j) {
      DropHolds(job, j);
    }
  }

  lemma DropHolds(job: Job, j: Job)
    ensures OpsHold([DropJob(job)], j) == if job == j then 1 else 0
    ensures OpsHold([DropJob(job), ReleaseShell], j) == if job == j then 1 else 0
  {
    assert [DropJob(job)][1..] == [] && [ReleaseShell][1..] == [];
    assert [DropJob(job), ReleaseShell][1..] == [ReleaseShell];
  }

  lemma CellStepKeeps(s: State, w: nat, choice: Choice)
    requires w < |s.workers| && AllShaped(s.cells)
    requires var pc := s.workers[w];
      && !pc.Idle? && !pc.Exited? && !pc.Started? && !pc.Releasing? && !pc.Batch? && !pc.Unwinding?
    ensures OnlyOneWorker(s, WorkerAct(s, w, choice), w)
    ensures forall j :: WorkerHolds(WorkerAct(s, w, choice).workers[w], j) == WorkerHolds(s.workers[w], j)
  {
  }

  // ---- Every step ----

  lemma InitConserves(workers: nat, hosts: nat)
    ensures JobsConserved(Init(workers, hosts))
  {
  }

  lemma RequestConserves(c: Config, s: State, l: Label)
    requires JobsConserved(s) && AllShaped(s.cells)
    requires l.RequestTile? || l.RequestPyramid? || l.RequestPixels? || l.RequestSize? || l.RequestLqip? || l.BulkSize?
    ensures JobsConserved(Step(c, s, l))
  {
    match l
    case RequestTile(uri, at) => EnqueueConserves(s, NewJob(s, EnsureTiles, uri).(at := at), true);
    case RequestPyramid(uri) => EnqueueConserves(s, NewJob(s, EnsureTiles, uri).(pyramid := true), false);
    case RequestPixels(uri) => EnqueueConserves(s, NewJob(s, EnsurePixels, uri), false);
    case RequestSize(uri) => EnqueueConserves(s, NewJob(s, ProbeSize, uri), true);
    case RequestLqip(uri) => if uri != "" { PushConserves(s, NewJob(s, EnsureLqip, uri)); }
    case BulkSize(uri) => PushConserves(s, NewJob(s, ProbeSize, uri).(epoch := s.g.epoch));
  }

  lemma RequestCellsConserves(s: State, uri: string, coords: seq<TileCoord>)
    requires JobsConserved(s) && AllShaped(s.cells)
    ensures JobsConserved(RequestCellBatch(s, uri, coords))
  {
    var j := NewJob(s, EnsureTiles, uri).(hasCells := true);
    if coords != [] && uri != "" {
      var k := j.(at := coords[0], tileBatch := coords, exempt := true);
      EnqueueConserves(s, k, false);
      StayConserves(EnqueueJob(s, k, false), RequestCellBatch(s, uri, coords));
    } else if coords != [] {
      RecordConserves(s, RequestCellBatch(s, uri, coords), j.(ledger := false), Dropped);
    }
  }

  lemma CancelConserves(c: Config, s: State, l: Label)
    requires JobsConserved(s) && Enabled(s, l) && AllShaped(s.cells)
    requires IsCancel(l)
    ensures JobsConserved(Step(c, s, l))
  {
    match l
    case BumpEpoch(h) =>
      var e := NextEpoch(s.g.epoch);
      var s1 := s.(g := s.g.(epoch := e));
      StayConserves(s, s1);
      DropConserves(s1, h, StaleTest(e), []);
    case CancelPending(h) => DropConserves(s, h, AnyTest(), []);
    case CancelUri(h, uri) =>
      DropConserves(s, h, UriTest(uri), MarkAll(RunningFor(s.g.running, uri), [], true));
    case CancelCells(h, uri, want) =>
      if uri != "" && want != [] {
        DropConserves(s, h, LegacyReached(uri, want), CancelOps(s.g, uri, want));
      }
    case Shutdown(h) =>
      var s1 := s.(g := s.g.(stop := true));
      StayConserves(s, s1);
      DropConserves(s1, h, AnyTest(), []);
  }

  /** Conservation: every step of every thread keeps each job in exactly one place. */
  lemma StepConserves(c: Config, s: State, l: Label)
    requires JobsConserved(s) && Enabled(s, l) && AllShaped(s.cells)
    ensures JobsConserved(Step(c, s, l))
  {
    if l.HostStep? {
      HostStepConserves(s, l.h);
    } else if l.ClaimStep? {
      ClaimStepConserves(c, s, l.w);
    } else if l.WorkerStep? {
      WorkerStepConserves(s, l.w, l.choice);
    } else if IsCancel(l) {
      CancelConserves(c, s, l);
    } else if l.RequestCells? {
      RequestCellsConserves(s, l.uri, l.coords);
    } else {
      RequestConserves(c, s, l);
    }
  }
}
