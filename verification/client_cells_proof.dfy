// The reply protocol of tile-cell batches: in every run each cell is answered at most once,
// a batch that has left queue, hosts and workers is fully answered, and a cancellation that
// the worker saw is honoured. The one exception is a worker's shutdown path.
module ClientCellsProof {
  import opened TileCells
  import opened JobQueue
  import opened ClientQueue
  import opened ClientProtocol
  import opened ClientJobsProof

  // ---- The invariant of one batch ----

  /** No worker has had it yet: nothing marked, nothing looked at. */
  ghost predicate Quiet(b: Cells)
    requires Shaped(b)
  {
    NoneIn(b, CancelRequested) && forall i :: 0 <= i < |b.seen| ==> b.seen[i] == Unseen
  }

  /** A cell found cancelled is only ever answered Cancelled; only a cell found pending is
      answered Ok. */
  ghost predicate HonoursCancel(b: Cells)
    requires Shaped(b)
  {
    forall i :: 0 <= i < |b.log| ==>
      && (b.seen[i] == SawCancel ==> b.log[i] == [] || b.log[i] == [Cancelled])
      && (b.log[i] == [Ok] ==> b.seen[i] == SawPending)
  }

  /** Every cell that the worker found cancelled has been answered. */
  ghost predicate NoOpenCancel(b: Cells)
    requires Shaped(b)
  {
    forall i :: 0 <= i < |b.seen| && b.seen[i] == SawCancel ==> b.state[i] == Replied
  }

  /** A cancelling thread answers every pending cell before it lets the job go. */
  ghost predicate Covered(ops: seq<Op>, id: nat, b: Cells)
    requires Shaped(b)
  {
    forall k :: 0 <= k < |ops| ==>
      && (ops[k].Retire? && ops[k].job.id == id ==>
            forall i :: 0 <= i < |b.state| && b.state[i] == Pending ==> Reply(id, i) in ops[..k])
      && (ops[k].CloseSwept? && ops[k].job.id == id ==> AllReplied(b))
  }

  ghost predicate WorkerCell(pc: Worker, id: nat, b: Cells, stop: bool)
    requires Shaped(b)
  {
    match pc
    case Started(_) => NoOpenCancel(b)
    case Checking(_, _) => NoOpenCancel(b)
    case Cancelling(_, i) =>
      && i < |b.seen| && b.seen[i] == SawCancel
      && forall k :: 0 <= k < |b.seen| && k != i && b.seen[k] == SawCancel ==> b.state[k] == Replied
    case Producing(_, i) => i < |b.seen| && b.seen[i] == SawPending && NoOpenCancel(b)
    case Answering(_, i, _) => i < |b.seen| && b.seen[i] == SawPending && NoOpenCancel(b)
    case Backstop(_) => NoOpenCancel(b)
    case Orphaning(_, todo) =>
      NoOpenCancel(b) && forall i :: 0 <= i < |b.state| && b.state[i] != Replied ==> i in todo
    case Releasing(_) => AllReplied(b)
    case Unwinding(ops) => stop && Covered(ops, id, b)
    case _ => false
  }

  ghost predicate PlaceOk(s: State, x: Loc, id: nat, b: Cells)
    requires Shaped(b)
  {
    match x
    case Queued => Quiet(b)
    case AtHost(h) => Quiet(b) && h < |s.hosts| && Covered(s.hosts[h], id, b)
    case AtWorker(w) => w < |s.workers| && WorkerCell(s.workers[w], id, b, s.g.stop)
    case Aborted => NoneIn(b, Pending) && s.g.stop
    case _ => AllReplied(b)
  }

  /** The job of a batch: interactive, with cells; one without a uri was answered at once. */
  predicate BatchJob(j: Job, x: Loc) {
    j.hasCells && Interactive(j) && (x == Dropped || (j.uri != "" && j.tileBatch != []))
  }

  ghost predicate CellOk(s: State, id: nat)
    requires id in s.cells
  {
    && id < |s.jobs| && id < |s.loc| && BatchJob(s.jobs[id], s.loc[id])
    && ExactlyOnce(s.cells[id]) && HonoursCancel(s.cells[id]) && PlaceOk(s, s.loc[id], id, s.cells[id])
  }

  predicate ClaimedAt(x: Loc) { x.AtWorker? || x.Completed? || x.Aborted? }

  /** Only batches that a worker has claimed are ever going to be marked. */
  ghost predicate Aimed(loc: seq<Loc>, ops: seq<Op>) {
    forall k :: 0 <= k < |ops| && ops[k].Mark? && ops[k].running ==>
      ops[k].id < |loc| && ClaimedAt(loc[ops[k].id])
  }

  ghost predicate RunningClaimed(loc: seq<Loc>, running: seq<BatchRef>) {
    forall k :: 0 <= k < |running| ==> running[k].id < |loc| && ClaimedAt(loc[running[k].id])
  }

  /** A worker that gives jobs up neither marks nor sweeps. */
  ghost predicate Unwinds(pc: Worker) {
    pc.Unwinding? ==> forall k :: 0 <= k < |pc.ops| ==>
      pc.ops[k].DropJob? || pc.ops[k].Retire? || pc.ops[k].Reply? || pc.ops[k].ReleaseShell?
  }

  ghost predicate AllAimed(s: State) {
    && (forall h :: 0 <= h < |s.hosts| ==> Aimed(s.loc, s.hosts[h]))
    && (forall w :: 0 <= w < |s.workers| ==> Unwinds(s.workers[w]))
    && RunningClaimed(s.loc, s.g.running)
  }

  ghost predicate CellsOk(s: State) {
    && (forall id :: id in s.cells ==> CellOk(s, id))
    && (forall i :: 0 <= i < |s.jobs| && s.jobs[i].hasCells ==> i in s.cells)
  }

  ghost predicate Inv(s: State) {
    && JobsConserved(s) && CellsOk(s) && AllAimed(s)
    && QueueOk(s.g.queue, s.g.epoch) && 1 <= s.g.epoch < EPOCH_LIMIT
  }

  lemma InvShaped(s: State)
    requires CellsOk(s)
    ensures AllShaped(s.cells)
  {
    forall id | id in s.cells ensures Shaped(s.cells[id]) { assert CellOk(s, id); }
  }

  // ---- What other threads may do to a batch ----

  /** Cells get answered, and those of a claimed batch get marked; nothing else. */
  ghost predicate Ripples(b: Cells, b': Cells, claimed: bool) {
    && Shaped(b) && Shaped(b') && b'.coords == b.coords && b'.seen == b.seen
    && forall i :: 0 <= i < |b.state| ==>
      || b'.state[i] == b.state[i] || b'.state[i] == Replied
      || (claimed && b.state[i] == Pending && b'.state[i] == CancelRequested)
  }

  ghost predicate SamePlace(s: State, s': State, x: Loc) {
    && (x.AtHost? && x.h < |s.hosts| ==> x.h < |s'.hosts| && s'.hosts[x.h] == s.hosts[x.h])
    && (x.AtWorker? && x.w < |s.workers| ==> x.w < |s'.workers| && s'.workers[x.w] == s.workers[x.w])
    && (s.g.stop ==> s'.g.stop)
  }

  lemma CoveredRipples(ops: seq<Op>, id: nat, b: Cells, b': Cells, claimed: bool)
    requires Ripples(b, b', claimed) && Covered(ops, id, b)
    ensures Covered(ops, id, b')
  {
    forall k | 0 <= k < |ops|
      ensures ops[k].Retire? && ops[k].job.id == id ==>
                forall i :: 0 <= i < |b'.state| && b'.state[i] == Pending ==> Reply(id, i) in ops[..k]
      ensures ops[k].CloseSwept? && ops[k].job.id == id ==> AllReplied(b')
    {
      forall i | 0 <= i < |b'.state| && b'.state[i] == Pending ensures b.state[i] == Pending {}
    }
  }

  lemma WorkerCellRipples(pc: Worker, id: nat, b: Cells, b': Cells, stop: bool, stop': bool)
    requires Ripples(b, b', true) && WorkerCell(pc, id, b, stop) && (stop ==> stop')
    ensures WorkerCell(pc, id, b', stop')
  {
    if pc.Unwinding? {
      CoveredRipples(pc.ops, id, b, b', true);
    }
  }

  lemma PlaceRipples(s: State, s': State, x: Loc, id: nat, b: Cells, b': Cells)
    requires Shaped(b) && PlaceOk(s, x, id, b) && Ripples(b, b', ClaimedAt(x)) && SamePlace(s, s', x)
    ensures PlaceOk(s', x, id, b')
  {
    match x
    case AtHost(h) => CoveredRipples(s.hosts[h], id, b, b', false);
    case AtWorker(w) => WorkerCellRipples(s.workers[w], id, b, b', s.g.stop, s'.g.stop);
    case _ =>
  }

  /** An answer that is not Ok, from any thread, is harmless where the worker saw no
      cancellation; Cancelled is harmless everywhere. */
  lemma ReplyIsHarmless(b: Cells, i: nat, st: TileStatus, claimed: bool)
    requires ExactlyOnce(b) && HonoursCancel(b)
    requires i < |b.seen| && b.state[i] != Replied ==>
      (b.seen[i] == SawCancel ==> st == Cancelled) && (st == Ok ==> b.seen[i] == SawPending)
    ensures var b' := ReplyCell(b, i, st);
      ExactlyOnce(b') && HonoursCancel(b') && Ripples(b, b', claimed)
  {
    ReplyKeepsExactlyOnce(b, i, st);
    if i < |b.coords| && b.state[i] != Replied {
      assert b.log[i] == [];
      assert ReplyCell(b, i, st).log[i] == [st];
    }
  }

  lemma MarkIsHarmless(b: Cells, want: seq<TileCoord>)
    requires ExactlyOnce(b) && HonoursCancel(b)
    ensures var b' := MarkRunning(b, want); ExactlyOnce(b') && HonoursCancel(b') && Ripples(b, b', true)
  {
    MarkKeepsExactlyOnce(b, want);
  }

  lemma SameRipples(b: Cells, claimed: bool)
    requires Shaped(b)
    ensures Ripples(b, b, claimed)
  {
  }

  // ---- Where jobs go ----

  /** Locations only move forward: a claimed job stays claimed. */
  ghost predicate Flows(loc: seq<Loc>, loc': seq<Loc>) {
    |loc| <= |loc'| && forall i :: 0 <= i < |loc| && ClaimedAt(loc[i]) ==> ClaimedAt(loc'[i])
  }

  lemma MovedFrom(s: State, js: seq<Job>, from: Loc, to: Loc, i: nat)
    requires JobsConserved(s) && Live(from) && i < |s.jobs|
    requires forall j :: Occ(js, j) <= Held(s, from, j)
    ensures var loc' := MovedLoc(s.loc, js, to);
      && loc'[i] == (if Occ(js, s.jobs[i]) > 0 then to else s.loc[i])
      && (Occ(js, s.jobs[i]) > 0 ==> s.loc[i] == from)
  {
    assert Exact(s, from);
    forall j | Occ(js, j) > 0 ensures Known(s.jobs, j) {
      assert Held(s, from, j) > 0;
    }
    MovedAt(s.jobs, s.loc, js, to, i);
  }

  lemma FlowsMoved(s: State, js: seq<Job>, from: Loc, to: Loc)
    requires JobsConserved(s) && Live(from) && (ClaimedAt(from) ==> ClaimedAt(to))
    requires forall j :: Occ(js, j) <= Held(s, from, j)
    ensures Flows(s.loc, MovedLoc(s.loc, js, to))
  {
    forall i | 0 <= i < |s.loc| && ClaimedAt(s.loc[i]) ensures ClaimedAt(MovedLoc(s.loc, js, to)[i]) {
      MovedFrom(s, js, from, to, i);
    }
  }

  lemma AimedFlows(loc: seq<Loc>, loc': seq<Loc>, ops: seq<Op>)
    requires Aimed(loc, ops) && Flows(loc, loc')
    ensures Aimed(loc', ops)
  {
  }

  /** Aims survive a step that changes what at most one thread has left to do. */
  lemma AllAimedFlows(s: State, s': State, me: Loc)
    requires AllAimed(s) && Flows(s.loc, s'.loc)
    requires |s'.hosts| == |s.hosts| && |s'.workers| == |s.workers|
    requires forall h :: 0 <= h < |s.hosts| && AtHost(h) != me ==> s'.hosts[h] == s.hosts[h]
    requires forall w :: 0 <= w < |s.workers| && AtWorker(w) != me ==> s'.workers[w] == s.workers[w]
    requires me.AtHost? && me.h < |s.hosts| ==> Aimed(s'.loc, s'.hosts[me.h])
    requires me.AtWorker? && me.w < |s.workers| ==> Unwinds(s'.workers[me.w])
    requires RunningClaimed(s'.loc, s'.g.running)
    ensures AllAimed(s')
  {
    forall h | 0 <= h < |s'.hosts| ensures Aimed(s'.loc, s'.hosts[h]) {
      if AtHost(h) != me { AimedFlows(s.loc, s'.loc, s.hosts[h]); }
    }
  }

  lemma RunningFlows(loc: seq<Loc>, loc': seq<Loc>, running: seq<BatchRef>)
    requires RunningClaimed(loc, running) && Flows(loc, loc')
    ensures RunningClaimed(loc', running)
  {
  }
}
