// Every step of every thread keeps the invariant of the batches.
module ClientStepsProof {
  import opened TileCells
  import opened JobQueue
  import opened ClientQueue
  import opened ClientProtocol
  import opened ClientJobsProof
  import opened ClientCellsProof

  // ---- Requests ----

  /** A new job, with the queued jobs it replaces dropped. */
  lemma RecordKeeps(s: State, s': State, j: Job, at: Loc, gone: seq<Job>)
    requires Inv(s) && j.id == |s.jobs| && s'.jobs == s.jobs + [j]
    requires s'.loc == MovedLoc(s.loc, gone, Dropped) + [at]
    requires forall k :: Occ(gone, k) <= Occ(s.g.queue, k)
    requires forall k :: k in gone ==> !k.hasCells
    requires s'.hosts == s.hosts && s'.workers == s.workers
    requires s'.g.running == s.g.running && s'.g.stop == s.g.stop
    requires forall id :: id in s.cells ==> id in s'.cells && s'.cells[id] == s.cells[id]
    requires forall id :: id in s'.cells ==> id in s.cells || id == j.id
    requires j.hasCells ==> j.id in s'.cells
    requires j.id in s'.cells ==> CellOk(s', j.id)
    ensures CellsOk(s') && AllAimed(s')
  {
    FlowsMoved(s, gone, Queued, Dropped);
    RunningFlows(s.loc, s'.loc, s.g.running);
    AllAimedFlows(s, s', Queued);
    forall id | id in s'.cells ensures CellOk(s', id) {
      if id in s.cells {
        assert CellOk(s, id);
        MovedFrom(s, gone, Queued, Dropped, id);
        OccMember(gone, s.jobs[id]);
        SameRipples(s.cells[id], ClaimedAt(s.loc[id]));
        PlaceRipples(s, s', s.loc[id], id, s.cells[id], s.cells[id]);
      }
    }
  }

  // ---- Dropping queued jobs ----

  lemma DropKeeps(s: State, s': State, h: nat, p: JobTest, more: seq<Op>)
    requires Inv(s) && h < |s.hosts| && s.hosts[h] == []
    requires s'.jobs == s.jobs && s'.cells == s.cells && s'.workers == s.workers
    requires s'.loc == MovedLoc(s.loc, Select(s.g.queue, p), AtHost(h))
    requires s'.hosts == s.hosts[h := DropAll(Select(s.g.queue, p)) + more]
    requires s'.g.running == s.g.running && (s.g.stop ==> s'.g.stop)
    requires HoldsNone(more) && Aimed(s.loc, more)
    ensures CellsOk(s') && AllAimed(s')
  {
    var gone := Select(s.g.queue, p);
    forall j ensures Occ(gone, j) <= Held(s, Queued, j) { SplitConserves(s.g.queue, p, j); }
    FlowsMoved(s, gone, Queued, AtHost(h));
    RunningFlows(s.loc, s'.loc, s.g.running);
    AimedFlows(s.loc, s'.loc, more);
    AllAimedFlows(s, s', AtHost(h));
    forall id | id in s'.cells ensures CellOk(s', id) {
      assert CellOk(s, id);
      MovedFrom(s, gone, Queued, AtHost(h), id);
      if s'.loc[id] == s.loc[id] {
        assert Exact(s, s.loc[id]) || !Live(s.loc[id]);
        SameRipples(s.cells[id], ClaimedAt(s.loc[id]));
        PlaceRipples(s, s', s.loc[id], id, s.cells[id], s.cells[id]);
      }
    }
  }

  // ---- Cancelling steps ----

  lemma CoveredRest(op: Op, next: seq<Op>, rest: seq<Op>, id: nat, b: Cells, b': Cells, claimed: bool)
    requires Ripples(b, b', claimed) && Covered([op] + rest, id, b) && Covered(next, id, b')
    requires op.Reply? && op.id == id && op.index < |b.state| ==> b'.state[op.index] == Replied
    ensures Covered(next + rest, id, b')
  {
    var ops, all := [op] + rest, next + rest;
    CoveredRipples(ops, id, b, b', claimed);
    forall k | 0 <= k < |all|
      ensures all[k].Retire? && all[k].job.id == id ==>
                forall i :: 0 <= i < |b'.state| && b'.state[i] == Pending ==> Reply(id, i) in all[..k]
      ensures all[k].CloseSwept? && all[k].job.id == id ==> AllReplied(b')
    {
      if k < |next| {
        assert all[k] == next[k] && all[..k] == next[..k];
      } else {
        var m := k - |next| + 1;
        assert all[k] == ops[m] && ops[..m] == [op] + rest[..m - 1] && all[..k] == next + rest[..m - 1];
      }
    }
  }

  lemma AllRepliedCovers(ops: seq<Op>, id: nat, b: Cells)
    requires Shaped(b) && AllReplied(b)
    ensures Covered(ops, id, b)
  {
  }

  lemma NoRetireCovers(ops: seq<Op>, id: nat, b: Cells)
    requires Shaped(b) && HoldsNone(ops)
    ensures Covered(ops, id, b)
  {
  }

  lemma FullyRepliedAnswered(s: State, id: nat)
    requires id in s.cells && ExactlyOnce(s.cells[id]) && s.cells[id].replied >= |s.cells[id].coords|
    ensures AllReplied(s.cells[id])
  {
    CountFull(s.cells[id].state);
  }

  /** The work that replaces an item covers the batch. */
  lemma NextCovers(s: State, op: Op, id: nat)
    requires Inv(s) && AllShaped(s.cells) && id in s.cells
    requires op.DropJob? && op.job.id == id ==> op.job == s.jobs[id]
    ensures Covered(OpNext(s, op), id, s.cells[id])
  {
    match op
    case DropJob(j) => DropCovers(s, j, id);
    case Sweep => SweepCovers(s, id);
    case _ => NoRetireCovers(OpNext(s, op), id, s.cells[id]);
  }

  lemma DropCovers(s: State, j: Job, id: nat)
    requires Inv(s) && AllShaped(s.cells) && id in s.cells
    requires j.id == id ==> j == s.jobs[id]
    ensures Covered(OpNext(s, DropJob(j)), id, s.cells[id])
  {
    assert CellOk(s, id);
    var b := s.cells[id];
    if j.id == id {
      var todo := Pendings(s.cells, id, []);
      var ops := Replies(id, todo) + [Retire(j)];
      assert OpNext(s, DropJob(j)) == ops;
      forall i: nat | i < |b.state| && b.state[i] == Pending ensures Reply(id, i) in ops[..|todo|] {
        assert i in todo;
        var m :| 0 <= m < |todo| && todo[m] == i;
        assert ops[m] == Reply(id, i) && ops[..|todo|][m] == ops[m];
      }
    }
  }

  lemma SweepCovers(s: State, id: nat)
    requires Inv(s) && AllShaped(s.cells) && id in s.cells
    ensures Covered(SweepAll(Select(s.g.queue, FullyReplied(s.cells))), id, s.cells[id])
  {
    assert CellOk(s, id);
    var done := Select(s.g.queue, FullyReplied(s.cells));
    SelectMembers(s.g.queue, FullyReplied(s.cells));
    var ops := SweepAll(done);
    forall k | 0 <= k < |ops| && ops[k].job.id == id ensures AllReplied(s.cells[id]) {
      assert done[k] in done;
      FullyRepliedAnswered(s, id);
    }
  }

  /** What a cancelling step does to a batch, wherever the batch is. */
  lemma OpCell(s: State, op: Op, me: Loc, id: nat)
    requires Inv(s) && AllShaped(s.cells) && id in s.cells && Aimed(s.loc, [op])
    ensures var s' := OpState(s, op, me);
      && s'.cells.Keys == s.cells.Keys
      && ExactlyOnce(s'.cells[id]) && HonoursCancel(s'.cells[id])
      && Ripples(s.cells[id], s'.cells[id], ClaimedAt(s.loc[id]))
      && (op.Reply? && op.id == id && op.index < |s.cells[id].state| ==> s'.cells[id].state[op.index] == Replied)
      && (!(op.Mark? || op.Reply?) ==> s'.cells == s.cells)
  {
    assert CellOk(s, id);
    if op.Mark? && op.running && op.id == id {
      assert [op][0].Mark?;
      MarkIsHarmless(s.cells[id], op.want);
    } else if op.Reply? && op.id == id {
      ReplyIsHarmless(s.cells[id], op.index, Cancelled, ClaimedAt(s.loc[id]));
    } else {
      SameRipples(s.cells[id], ClaimedAt(s.loc[id]));
      OtherCellStays(s, op, me, id);
    }
  }

  lemma OtherCellStays(s: State, op: Op, me: Loc, id: nat)
    requires AllShaped(s.cells) && id in s.cells
    requires !(op.Mark? && op.running && op.id == id) && !(op.Reply? && op.id == id)
    ensures id in OpState(s, op, me).cells && OpState(s, op, me).cells[id] == s.cells[id]
  {
  }

  ghost predicate OpDone(s: State, s': State, ops: seq<Op>, me: Loc)
    requires ops != [] && AllShaped(s.cells)
  {
    && (me.AtHost? || me.AtWorker?)
    && s'.cells == OpState(s, ops[0], me).cells && s'.g == OpState(s, ops[0], me).g
    && s'.jobs == s.jobs && s'.loc == OpState(s, ops[0], me).loc
    && |s'.hosts| == |s.hosts| && |s'.workers| == |s.workers|
    && (forall h :: 0 <= h < |s.hosts| && AtHost(h) != me ==> s'.hosts[h] == s.hosts[h])
    && (forall w :: 0 <= w < |s.workers| && AtWorker(w) != me ==> s'.workers[w] == s.workers[w])
    && (me.AtHost? ==> me.h < |s.hosts| && s.hosts[me.h] == ops
                       && s'.hosts[me.h] == OpNext(s, ops[0]) + ops[1..])
    && (me.AtWorker? ==> me.w < |s.workers| && s.workers[me.w] == Unwinding(ops)
                         && s'.workers[me.w] == Unwinding(OpNext(s, ops[0]) + ops[1..]))
  }

  /** The jobs a cancelling step moves, and from where. */
  function OpMoves(s: State, op: Op): seq<Job>
    requires AllShaped(s.cells)
  {
    match op
    case Retire(j) => [j]
    case CloseSwept(j) => [j]
    case Sweep => Select(s.g.queue, FullyReplied(s.cells))
    case _ => []
  }

  function OpFrom(op: Op, me: Loc): Loc { if op.Sweep? then Queued else me }

  function OpTo(op: Op, me: Loc): Loc {
    if op.Sweep? then me else if op.CloseSwept? || me.AtHost? then Dropped else Aborted
  }

  lemma OpMoved(s: State, s': State, ops: seq<Op>, me: Loc, id: nat)
    requires Inv(s) && ops != [] && AllShaped(s.cells) && OpDone(s, s', ops, me) && id < |s.jobs|
    ensures var gone, from, to := OpMoves(s, ops[0]), OpFrom(ops[0], me), OpTo(ops[0], me);
      && s'.loc[id] == (if Occ(gone, s.jobs[id]) > 0 then to else s.loc[id])
      && (Occ(gone, s.jobs[id]) > 0 ==> s.loc[id] == from)
  {
    var op := ops[0];
    var gone, from, to := OpMoves(s, op), OpFrom(op, me), OpTo(op, me);
    OpLoc(s, op, me);
    OpMovesHeld(s, ops, me);
    MovedFrom(s, gone, from, to, id);
  }

  lemma OpLoc(s: State, op: Op, me: Loc)
    requires AllShaped(s.cells)
    ensures OpState(s, op, me).loc == MovedLoc(s.loc, OpMoves(s, op), OpTo(op, me))
  {
    if !op.Retire? && !op.CloseSwept? && !op.Sweep? {
      assert OpMoves(s, op) == [];
    }
  }

  lemma OpMovesHeld(s: State, ops: seq<Op>, me: Loc)
    requires ops != [] && AllShaped(s.cells)
    requires forall j :: Held(s, me, j) == OpsHold(ops, j)
    ensures forall j :: Occ(OpMoves(s, ops[0]), j) <= Held(s, OpFrom(ops[0], me), j)
  {
    forall j ensures Occ(OpMoves(s, ops[0]), j) <= Held(s, OpFrom(ops[0], me), j) {
      if ops[0].Sweep? {
        SplitConserves(s.g.queue, FullyReplied(s.cells), j);
      } else if ops[0].Retire? || ops[0].CloseSwept? {
        OccOne(ops[0].job, j);
      }
    }
  }

  lemma DroppedIsKnown(s: State, ops: seq<Op>, me: Loc, id: nat)
    requires JobsConserved(s) && Live(me) && ops != [] && ops[0].DropJob? && ops[0].job.id == id
    requires Held(s, me, ops[0].job) == OpsHold(ops, ops[0].job)
    ensures id < |s.jobs| && ops[0].job == s.jobs[id]
  {
    assert Exact(s, me);
    OpHeld(ops, 0, ops[0].job);
    assert Known(s.jobs, ops[0].job);
  }

  /** What a thread has left to do still covers a batch after one of its steps. */
  lemma StepCovers(s: State, ops: seq<Op>, me: Loc, id: nat)
    requires Inv(s) && ops != [] && AllShaped(s.cells) && id in s.cells && Aimed(s.loc, [ops[0]])
    requires Covered(ops, id, s.cells[id])
    requires ops[0].DropJob? && ops[0].job.id == id ==> id < |s.jobs| && ops[0].job == s.jobs[id]
    ensures var s' := OpState(s, ops[0], me);
      id in s'.cells && Shaped(s'.cells[id]) && Covered(OpNext(s, ops[0]) + ops[1..], id, s'.cells[id])
  {
    var b, x := s.cells[id], ClaimedAt(s.loc[id]);
    OpCell(s, ops[0], me, id);
    var b' := OpState(s, ops[0], me).cells[id];
    NextCovers(s, ops[0], id);
    CoveredRipples(OpNext(s, ops[0]), id, b, b', x);
    assert ops == [ops[0]] + ops[1..];
    CoveredRest(ops[0], OpNext(s, ops[0]), ops[1..], id, b, b', x);
  }

  lemma QuietRipples(b: Cells, b': Cells)
    requires Shaped(b) && Quiet(b) && Ripples(b, b', false)
    ensures Quiet(b')
  {
  }

  /** The batch stays where it was while its thread does a step of its own. */
  lemma OwnStepCovers(s: State, s': State, ops: seq<Op>, me: Loc, id: nat)
    requires Inv(s) && ops != [] && AllShaped(s.cells) && OpDone(s, s', ops, me)
    requires id in s.cells && s.loc[id] == me && Aimed(s.loc, [ops[0]])
    ensures id in s'.cells && Shaped(s'.cells[id]) && PlaceOk(s', me, id, s'.cells[id])
  {
    assert CellOk(s, id);
    if ops[0].DropJob? && ops[0].job.id == id {
      DroppedIsKnown(s, ops, me, id);
    }
    StepCovers(s, ops, me, id);
    OpCell(s, ops[0], me, id);
    OpKeepsKeys(s, ops[0], me);
    if me.AtHost? {
      QuietRipples(s.cells[id], s'.cells[id]);
    }
  }

  /** A batch that a cancelling step moves is fully answered, or given up with no cell pending. */
  lemma MovedCovers(s: State, s': State, ops: seq<Op>, me: Loc, id: nat)
    requires Inv(s) && ops != [] && AllShaped(s.cells) && OpDone(s, s', ops, me) && id in s.cells
    requires Occ(OpMoves(s, ops[0]), s.jobs[id]) > 0
    requires me.AtWorker? ==> !ops[0].Sweep? && !ops[0].CloseSwept?
    ensures PlaceOk(s', OpTo(ops[0], me), id, s'.cells[id])
  {
    assert CellOk(s, id);
    OpMoved(s, s', ops, me, id);
    OccMember(OpMoves(s, ops[0]), s.jobs[id]);
    var b := s.cells[id];
    if ops[0].Sweep? {
      SelectMembers(s.g.queue, FullyReplied(s.cells));
      FullyRepliedAnswered(s, id);
      AllRepliedCovers(s'.hosts[me.h], id, b);
    } else {
      assert ops[0].job == s.jobs[id];
      assert Covered(ops, id, b);
      assert ops[..0] == [];
      assert NoneIn(b, Pending);
    }
  }

  lemma OpKeepsPlace(s: State, s': State, ops: seq<Op>, me: Loc, id: nat)
    requires Inv(s) && ops != [] && AllShaped(s.cells) && OpDone(s, s', ops, me) && Aimed(s.loc, [ops[0]])
    requires me.AtWorker? ==> !ops[0].Sweep? && !ops[0].CloseSwept?
    requires id in s.cells && id < |s.jobs| && CellOk(s, id)
    requires id in s'.cells && Ripples(s.cells[id], s'.cells[id], ClaimedAt(s.loc[id]))
    ensures id < |s'.loc| && PlaceOk(s', s'.loc[id], id, s'.cells[id])
  {
    OpMoved(s, s', ops, me, id);
    if Occ(OpMoves(s, ops[0]), s.jobs[id]) > 0 {
      MovedCovers(s, s', ops, me, id);
    } else if s.loc[id] == me {
      OwnStepCovers(s, s', ops, me, id);
    } else {
      PlaceRipples(s, s', s.loc[id], id, s.cells[id], s'.cells[id]);
    }
  }

  lemma OpKeepsCell(s: State, s': State, ops: seq<Op>, me: Loc, id: nat)
    requires Inv(s) && ops != [] && AllShaped(s.cells) && OpDone(s, s', ops, me) && Aimed(s.loc, [ops[0]])
    requires me.AtWorker? ==> !ops[0].Sweep? && !ops[0].CloseSwept?
    requires id in s.cells
    ensures id in s'.cells && CellOk(s', id)
  {
    assert CellOk(s, id);
    OpCell(s, ops[0], me, id);
    OpKeepsPlace(s, s', ops, me, id);
    OpMoved(s, s', ops, me, id);
  }

  lemma OpKeepsCells(s: State, s': State, ops: seq<Op>, me: Loc)
    requires Inv(s) && ops != [] && AllShaped(s.cells) && OpDone(s, s', ops, me) && Aimed(s.loc, ops)
    requires me.AtWorker? ==> !ops[0].Sweep? && !ops[0].CloseSwept?
    ensures CellsOk(s')
  {
    assert Aimed(s.loc, [ops[0]]);
    OpKeepsKeys(s, ops[0], me);
    forall id | id in s'.cells ensures CellOk(s', id) {
      OpKeepsCell(s, s', ops, me, id);
    }
  }

  lemma OpKeepsKeys(s: State, op: Op, me: Loc)
    requires AllShaped(s.cells)
    ensures OpState(s, op, me).cells.Keys == s.cells.Keys
    ensures OpState(s, op, me).g.running == s.g.running && OpState(s, op, me).g.stop == s.g.stop
    ensures OpState(s, op, me).g.epoch == s.g.epoch
    ensures OpState(s, op, me).g.queue == if op.Sweep? then Reject(s.g.queue, FullyReplied(s.cells)) else s.g.queue
  {
  }

  lemma OpKeepsAims(s: State, s': State, ops: seq<Op>, me: Loc)
    requires Inv(s) && ops != [] && AllShaped(s.cells) && OpDone(s, s', ops, me) && Aimed(s.loc, ops)
    requires me.AtWorker? ==> Unwinds(Unwinding(ops))
    ensures AllAimed(s')
  {
    OpKeepsKeys(s, ops[0], me);
    OpFlows(s, s', ops, me);
    RunningFlows(s.loc, s'.loc, s.g.running);
    var now := OpNext(s, ops[0]) + ops[1..];
    assert Aimed(s.loc, now) by {
      forall k | 0 <= k < |now| && now[k].Mark? && now[k].running
        ensures now[k].id < |s.loc| && ClaimedAt(s.loc[now[k].id])
      {
        assert k >= |OpNext(s, ops[0])|;
        assert now[k] == ops[k - |OpNext(s, ops[0])| + 1];
      }
    }
    AimedFlows(s.loc, s'.loc, now);
    if me.AtWorker? {
      assert Unwinds(Unwinding(now));
    }
    AllAimedFlows(s, s', me);
  }

  lemma OpFlows(s: State, s': State, ops: seq<Op>, me: Loc)
    requires Inv(s) && ops != [] && AllShaped(s.cells) && OpDone(s, s', ops, me)
    requires me.AtWorker? ==> Unwinds(Unwinding(ops))
    ensures Flows(s.loc, s'.loc)
  {
    assert me.AtWorker? ==> !ops[0].Sweep? && !ops[0].CloseSwept?;
    forall i | 0 <= i < |s.loc| && ClaimedAt(s.loc[i]) ensures ClaimedAt(s'.loc[i]) {
      OpMoved(s, s', ops, me, i);
    }
  }

  // ---- Workers ----

  lemma TakeKeeps(s: State, s': State, w: nat, js: seq<Job>, to: Loc)
    requires Inv(s) && w < |s.workers| && s.workers[w] == Idle && js != []
    requires s'.jobs == s.jobs && s'.cells == s.cells && s'.hosts == s.hosts && s'.g.stop == s.g.stop
    requires |s'.workers| == |s.workers| && s'.workers == s.workers[w := s'.workers[w]] && !s'.workers[w].Unwinding?
    requires s'.loc == MovedLoc(s.loc, js, to) && ClaimedAt(to)
    requires forall j :: Occ(js, j) <= Occ(s.g.queue, j)
    requires s'.g.running == s.g.running + if js[0].hasCells then [BatchRef(js[0].id, js[0].uri)] else []
    requires forall id :: id in s.cells && CellOk(s, id) && Occ(js, s.jobs[id]) > 0 ==>
               s.loc[id] == Queued ==> to == AtWorker(w) && s'.workers[w].Started?
    ensures CellsOk(s') && AllAimed(s')
  {
    FlowsMoved(s, js, Queued, to);
    TakenIsClaimed(s, js, to);
    AllAimedFlows(s, s', AtWorker(w));
    forall id | id in s'.cells ensures CellOk(s', id) {
      assert CellOk(s, id);
      MovedFrom(s, js, Queued, to, id);
      if Occ(js, s.jobs[id]) == 0 {
        SameRipples(s.cells[id], ClaimedAt(s.loc[id]));
        PlaceRipples(s, s', s.loc[id], id, s.cells[id], s.cells[id]);
      }
    }
  }

  lemma TakenIsClaimed(s: State, js: seq<Job>, to: Loc)
    requires Inv(s) && js != [] && ClaimedAt(to) && forall j :: Occ(js, j) <= Occ(s.g.queue, j)
    ensures RunningClaimed(MovedLoc(s.loc, js, to),
                           s.g.running + if js[0].hasCells then [BatchRef(js[0].id, js[0].uri)] else [])
  {
    FlowsMoved(s, js, Queued, to);
    OccMember(js, js[0]);
    assert Exact(s, Queued) && Held(s, Queued, js[0]) > 0;
    assert Known(s.jobs, js[0]);
    MovedFrom(s, js, Queued, to, js[0].id);
  }

  lemma QueuedBatchJob(s: State, j: Job)
    requires Inv(s) && j in s.g.queue
    ensures Known(s.jobs, j) && s.loc[j.id] == Queued && (j.hasCells ==> j.uri != "")
  {
    OccMember(s.g.queue, j);
    assert Exact(s, Queued) && Held(s, Queued, j) > 0;
    assert Known(s.jobs, j);
    if j.hasCells { assert CellOk(s, j.id); }
  }

  lemma ClaimKeeps(c: Config, s: State, w: nat)
    requires Inv(s) && w < |s.workers| && s.workers[w] == Idle
    ensures CellsOk(ClaimBy(c, s, w)) && AllAimed(ClaimBy(c, s, w))
  {
    var g := s.g;
    NeverStale(g.queue, g.stop, g.focus, g.epoch, c.remote, c.arch);
    ClaimedSingle(c, s);
    NextClaimConserves(c, s);
    if NextClaim(c, s).Claimed? && NextClaim(c, s).coalesced {
      CoalescedBatch(g.queue, g.stop, g.focus, g.epoch, c.remote, c.arch);
    }
    TakeByKeeps(s, w, NextClaim(c, s));
  }

  lemma TakeByKeeps(s: State, w: nat, r: ClaimResult)
    requires Inv(s) && w < |s.workers| && s.workers[w] == Idle && !r.Stale?
    requires r.Claimed? ==> r.jobs != [] && (!r.coalesced ==> r.jobs == [r.jobs[0]])
    requires r.Abandoned? ==> r.job.uri == ""
    requires r.Claimed? && r.coalesced ==> forall j :: j in r.jobs ==> !j.hasCells
    requires forall j :: Occ(Taken(r), j) <= Occ(s.g.queue, j)
    ensures CellsOk(TakeBy(s, w, r)) && AllAimed(TakeBy(s, w, r))
  {
    if r.Abandoned? {
      AbandonKeeps(s, w, r);
    } else if r.Claimed? && r.coalesced {
      CoalescedKeeps(s, w, r);
    } else if r.Claimed? {
      TakeKeeps(s, TakeBy(s, w, r), w, r.jobs, AtWorker(w));
    } else {
      QuietKeeps(s, TakeBy(s, w, r), w);
    }
  }

  lemma AbandonKeeps(s: State, w: nat, r: ClaimResult)
    requires Inv(s) && w < |s.workers| && s.workers[w] == Idle
    requires r.Abandoned? && r.job.uri == "" && forall j :: Occ([r.job], j) <= Occ(s.g.queue, j)
    ensures CellsOk(TakeBy(s, w, r)) && AllAimed(TakeBy(s, w, r))
  {
    var j := r.job;
    forall k ensures Occ([j], k) == if j == k then 1 else 0 { OccOne(j, k); }
    OccMember(s.g.queue, j);
    QueuedBatchJob(s, j);
    TakeKeeps(s, TakeBy(s, w, r), w, [j], Aborted);
  }

  lemma CoalescedKeeps(s: State, w: nat, r: ClaimResult)
    requires Inv(s) && w < |s.workers| && s.workers[w] == Idle
    requires r.Claimed? && r.coalesced && r.jobs != [] && forall j :: Occ(r.jobs, j) <= Occ(s.g.queue, j)
    requires forall j :: j in r.jobs ==> !j.hasCells
    ensures CellsOk(TakeBy(s, w, r)) && AllAimed(TakeBy(s, w, r))
  {
    forall id | id in s.cells && CellOk(s, id) ensures Occ(r.jobs, s.jobs[id]) == 0 {
      OccMember(r.jobs, s.jobs[id]);
    }
    TakeKeeps(s, TakeBy(s, w, r), w, r.jobs, AtWorker(w));
  }

  /** A pass that claims nothing. */
  lemma QuietKeeps(s: State, s': State, w: nat)
    requires Inv(s) && w < |s.workers| && s.workers[w] == Idle
    requires s'.jobs == s.jobs && s'.cells == s.cells && s'.hosts == s.hosts && s'.loc == s.loc
    requires |s'.workers| == |s.workers| && s'.workers == s.workers[w := s'.workers[w]]
    requires (s'.workers[w] == Idle || s'.workers[w] == Exited)
    requires s'.g.running == s.g.running && s'.g.stop == s.g.stop
    ensures CellsOk(s') && AllAimed(s')
  {
    AllAimedFlows(s, s', AtWorker(w));
    forall id | id in s'.cells ensures CellOk(s', id) {
      assert CellOk(s, id);
      SameRipples(s.cells[id], ClaimedAt(s.loc[id]));
      PlaceRipples(s, s', s.loc[id], id, s.cells[id], s.cells[id]);
    }
  }

  /** A step of worker w that concerns no batch but possibly its own. */
  lemma ActKeeps(s: State, s': State, w: nat, own: nat)
    requires Inv(s) && w < |s.workers| && s'.jobs == s.jobs && s'.hosts == s.hosts && s'.g.stop == s.g.stop
    requires |s'.workers| == |s.workers| && s'.workers == s.workers[w := s'.workers[w]] && Unwinds(s'.workers[w])
    requires forall k :: 0 <= k < |s'.g.running| ==> s'.g.running[k] in s.g.running
    requires Flows(s.loc, s'.loc) && s'.cells.Keys == s.cells.Keys
    requires forall id :: id in s.cells && CellOk(s, id) && id != own ==>
               s'.loc[id] == s.loc[id] && s.loc[id] != AtWorker(w) && s'.cells[id] == s.cells[id]
    requires own in s.cells ==> CellOk(s', own)
    ensures CellsOk(s') && AllAimed(s')
  {
    RunningFlows(s.loc, s'.loc, s.g.running);
    AllAimedFlows(s, s', AtWorker(w));
    forall id | id in s'.cells ensures CellOk(s', id) {
      assert CellOk(s, id);
      if id != own {
        SameRipples(s.cells[id], ClaimedAt(s.loc[id]));
        PlaceRipples(s, s', s.loc[id], id, s.cells[id], s.cells[id]);
      }
    }
  }

  predicate HoldsOne(pc: Worker) {
    !pc.Idle? && !pc.Exited? && !pc.Batch? && !pc.Unwinding?
  }

  /** A worker busy with one job is at no other job's place. */
  lemma AloneAt(s: State, w: nat)
    requires JobsConserved(s) && w < |s.workers| && HoldsOne(s.workers[w])
    ensures var j := s.workers[w].job; Known(s.jobs, j) && s.loc[j.id] == AtWorker(w)
    ensures forall i :: 0 <= i < |s.jobs| && s.loc[i] == AtWorker(w) ==> i == s.workers[w].job.id
  {
    assert Exact(s, AtWorker(w));
    var j := s.workers[w].job;
    assert Held(s, AtWorker(w), j) == 1;
    assert Known(s.jobs, j);
    assert Held(s, AtWorker(w), s.jobs[j.id]) == 1;
    forall i | 0 <= i < |s.jobs| && s.loc[i] == AtWorker(w) ensures i == j.id {
      assert Held(s, AtWorker(w), s.jobs[i]) == 1;
    }
  }

  lemma {:induction false} WithoutBatchMembers(running: seq<BatchRef>, id: nat)
    ensures forall k :: 0 <= k < |WithoutBatch(running, id)| ==> WithoutBatch(running, id)[k] in running
  {
    if running != [] {
      WithoutBatchMembers(running[..|running| - 1], id);
    }
  }

  /** The worker's own batch after a step: well formed and right for the new program counter. */
  lemma OwnCellOk(s: State, s': State, w: nat, b': Cells)
    requires Inv(s) && w < |s.workers| && HoldsOne(s.workers[w]) && s.workers[w].job.id in s.cells
    requires s'.jobs == s.jobs && s'.loc == s.loc && w < |s'.workers| && s'.g.stop == s.g.stop
    requires s'.cells == s.cells[s.workers[w].job.id := b']
    requires Shaped(b') && ExactlyOnce(b') && HonoursCancel(b')
    requires WorkerCell(s'.workers[w], s.workers[w].job.id, b', s.g.stop)
    ensures CellOk(s', s.workers[w].job.id)
  {
    AloneAt(s, w);
    assert CellOk(s, s.workers[w].job.id);
  }

  lemma OwnCellWas(s: State, w: nat)
    requires Inv(s) && w < |s.workers| && HoldsOne(s.workers[w]) && s.workers[w].job.id in s.cells
    ensures var id := s.workers[w].job.id; var b := s.cells[id];
      && ExactlyOnce(b) && HonoursCancel(b) && WorkerCell(s.workers[w], id, b, s.g.stop)
      && s.workers[w].job == s.jobs[id] && BatchJob(s.jobs[id], AtWorker(w))
  {
    AloneAt(s, w);
    assert CellOk(s, s.workers[w].job.id);
  }

  /** Program counters that look at or answer a cell. */
  predicate AtCell(pc: Worker) {
    pc.Checking? || pc.Cancelling? || pc.Producing? || pc.Answering? || pc.Backstop? || pc.Orphaning?
  }

  lemma CheckingKeeps(b: Cells, i: nat, id: nat, j: Job, stop: bool)
    requires ExactlyOnce(b) && HonoursCancel(b) && NoOpenCancel(b) && i < |b.coords| && b.state[i] != Replied
    ensures var b' := Look(b, i);
      && ExactlyOnce(b') && HonoursCancel(b')
      && WorkerCell(if b.state[i] == CancelRequested then Cancelling(j, i) else Producing(j, i), id, b', stop)
  {
    assert b.log[i] == [];
  }

  lemma CancellingKeeps(b: Cells, j: Job, i: nat, id: nat, stop: bool)
    requires ExactlyOnce(b) && HonoursCancel(b) && WorkerCell(Cancelling(j, i), id, b, stop)
    ensures var b' := ReplyCell(b, i, Cancelled);
      ExactlyOnce(b') && HonoursCancel(b') && NoOpenCancel(b')
  {
    ReplyIsHarmless(b, i, Cancelled, true);
  }

  lemma AnsweringKeeps(b: Cells, j: Job, i: nat, st: TileStatus, id: nat, stop: bool)
    requires ExactlyOnce(b) && HonoursCancel(b) && WorkerCell(Answering(j, i, st), id, b, stop)
    ensures var b' := ReplyCell(b, i, st);
      ExactlyOnce(b') && HonoursCancel(b') && NoOpenCancel(b')
  {
    ReplyIsHarmless(b, i, st, true);
  }

  lemma OrphaningKeeps(b: Cells, j: Job, todo: seq<nat>, id: nat, stop: bool)
    requires ExactlyOnce(b) && HonoursCancel(b) && WorkerCell(Orphaning(j, todo), id, b, stop) && todo != []
    ensures var b' := ReplyCell(b, todo[0], Failed);
      && ExactlyOnce(b') && HonoursCancel(b')
      && WorkerCell(Orphaning(j, todo[1..]), id, b', stop)
  {
    ReplyIsHarmless(b, todo[0], Failed, true);
    assert todo == [todo[0]] + todo[1..];
  }

  /** The new program counter and batch of a worker that steps through its cells. */
  lemma CellStepOk(s: State, w: nat, choice: Choice)
    requires Inv(s) && AllShaped(s.cells) && w < |s.workers| && AtCell(s.workers[w])
    requires s.workers[w].job.id in s.cells
    ensures var id := s.workers[w].job.id; var s' := WorkerAct(s, w, choice);
      && id in s'.cells && s'.cells == s.cells[id := s'.cells[id]]
      && ExactlyOnce(s'.cells[id]) && HonoursCancel(s'.cells[id])
      && WorkerCell(s'.workers[w], id, s'.cells[id], s.g.stop)
  {
    OwnCellWas(s, w);
    var pc := s.workers[w];
    var b := s.cells[pc.job.id];
    assert s.cells == s.cells[pc.job.id := b];
    match pc
    case Checking(j, i) =>
      if i < |b.coords| && b.state[i] != Replied { CheckingKeeps(b, i, j.id, j, s.g.stop); }
    case Cancelling(j, i) => CancellingKeeps(b, j, i, j.id, s.g.stop);
    case Answering(j, i, st) => AnsweringKeeps(b, j, i, st, j.id, s.g.stop);
    case Orphaning(j, todo) => if todo != [] { OrphaningKeeps(b, j, todo, j.id, s.g.stop); }
    case _ =>
  }

  /** What every step at a cell leaves alone. */
  lemma CellStepFrame(s: State, w: nat, choice: Choice)
    requires AllShaped(s.cells) && w < |s.workers| && AtCell(s.workers[w])
    ensures var s' := WorkerAct(s, w, choice);
      && s'.jobs == s.jobs && s'.loc == s.loc && s'.hosts == s.hosts && s'.g == s.g
      && s'.workers == s.workers[w := s'.workers[w]] && !s'.workers[w].Unwinding?
      && (s.workers[w].job.id !in s.cells ==> s'.cells == s.cells)
  {
  }

  lemma CellStepKeeps(s: State, w: nat, choice: Choice)
    requires Inv(s) && AllShaped(s.cells) && w < |s.workers| && AtCell(s.workers[w])
    ensures CellsOk(WorkerAct(s, w, choice)) && AllAimed(WorkerAct(s, w, choice))
  {
    var s' := WorkerAct(s, w, choice);
    var id := s.workers[w].job.id;
    CellStepFrame(s, w, choice);
    AloneAt(s, w);
    if id in s.cells {
      CellStepOk(s, w, choice);
      OwnCellOk(s, s', w, s'.cells[id]);
    }
    ActKeeps(s, s', w, id);
  }

  lemma StartedKeeps(s: State, w: nat, choice: Choice)
    requires Inv(s) && AllShaped(s.cells) && w < |s.workers| && s.workers[w].Started?
    ensures CellsOk(WorkerAct(s, w, choice)) && AllAimed(WorkerAct(s, w, choice))
  {
    var s' := WorkerAct(s, w, choice);
    var j := s.workers[w].job;
    AloneAt(s, w);
    WithoutBatchMembers(s.g.running, j.id);
    if j.id in s.cells {
      OwnCellWas(s, w);
      assert s.cells == s.cells[j.id := s.cells[j.id]];
      OwnCellOk(s, s', w, s.cells[j.id]);
    }
    ActKeeps(s, s', w, j.id);
  }

  lemma HandlingKeeps(s: State, w: nat, choice: Choice)
    requires Inv(s) && AllShaped(s.cells) && w < |s.workers| && s.workers[w].Handling?
    ensures CellsOk(WorkerAct(s, w, choice)) && AllAimed(WorkerAct(s, w, choice))
  {
    AloneAt(s, w);
    if s.workers[w].job.id in s.cells {
      OwnCellWas(s, w);
      assert false;
    }
    ActKeeps(s, WorkerAct(s, w, choice), w, s.workers[w].job.id);
  }

  /** A finished job moves to Completed, and nothing else moves. */
  lemma CompletedAt(s: State, w: nat, j: Job)
    requires JobsConserved(s) && w < |s.workers| && WorkerHolds(s.workers[w], j) > 0
    ensures var loc' := MovedLoc(s.loc, [j], Completed);
      && Known(s.jobs, j) && s.loc[j.id] == AtWorker(w) && loc'[j.id] == Completed && Flows(s.loc, loc')
      && forall i :: 0 <= i < |s.jobs| && i != j.id ==> loc'[i] == s.loc[i]
  {
    assert Exact(s, AtWorker(w));
    assert Held(s, AtWorker(w), j) > 0;
    assert Known(s.jobs, j);
    forall k ensures Occ([j], k) == if j == k then 1 else 0 { OccOne(j, k); }
    FlowsMoved(s, [j], AtWorker(w), Completed);
    MovedFrom(s, [j], AtWorker(w), Completed, j.id);
    forall i | 0 <= i < |s.jobs| && i != j.id ensures MovedLoc(s.loc, [j], Completed)[i] == s.loc[i] {
      MovedFrom(s, [j], AtWorker(w), Completed, i);
    }
  }

  lemma ReleasingKeeps(s: State, w: nat, choice: Choice)
    requires Inv(s) && AllShaped(s.cells) && w < |s.workers| && s.workers[w].Releasing?
    ensures CellsOk(WorkerAct(s, w, choice)) && AllAimed(WorkerAct(s, w, choice))
  {
    var j := s.workers[w].job;
    AloneAt(s, w);
    CompletedAt(s, w, j);
    WithoutBatchMembers(s.g.running, j.id);
    if j.id in s.cells {
      OwnCellWas(s, w);
    }
    ActKeeps(s, WorkerAct(s, w, choice), w, j.id);
  }

  lemma NoBatchAt(s: State, w: nat)
    requires CellsOk(s) && w < |s.workers| && s.workers[w].Batch?
    ensures forall id :: id in s.cells ==> id < |s.loc| && s.loc[id] != AtWorker(w)
  {
    forall id | id in s.cells ensures id < |s.loc| && s.loc[id] != AtWorker(w) {
      assert CellOk(s, id);
    }
  }

  lemma BatchKeeps(s: State, w: nat, choice: Choice)
    requires Inv(s) && AllShaped(s.cells) && w < |s.workers| && s.workers[w].Batch?
    ensures CellsOk(WorkerAct(s, w, choice)) && AllAimed(WorkerAct(s, w, choice))
  {
    var js := s.workers[w].jobs;
    if choice.Pick? && choice.k < |js| {
      PickKeeps(s, w, choice);
    } else {
      NoBatchAt(s, w);
      ActKeeps(s, WorkerAct(s, w, choice), w, |s.jobs|);
    }
  }

  lemma PickKeeps(s: State, w: nat, choice: Choice)
    requires Inv(s) && AllShaped(s.cells) && w < |s.workers| && s.workers[w].Batch?
    requires choice.Pick? && choice.k < |s.workers[w].jobs|
    ensures CellsOk(WorkerAct(s, w, choice)) && AllAimed(WorkerAct(s, w, choice))
  {
    var js := s.workers[w].jobs;
    var j := js[choice.k];
    NoBatchAt(s, w);
    OccMember(js, j);
    CompletedAt(s, w, j);
    WithoutBatchMembers(s.g.running, j.id);
    ActKeeps(s, WorkerAct(s, w, choice), w, j.id);
  }

  lemma UnwindKeeps(s: State, w: nat, choice: Choice)
    requires Inv(s) && AllShaped(s.cells) && w < |s.workers| && s.workers[w].Unwinding?
    ensures CellsOk(WorkerAct(s, w, choice)) && AllAimed(WorkerAct(s, w, choice))
  {
    var ops := s.workers[w].ops;
    var s' := WorkerAct(s, w, choice);
    if ops == [] {
      NothingUnwinding(s, w);
      ActKeeps(s, s', w, |s.jobs|);
    } else {
      assert Unwinds(s.workers[w]);
      OpKeepsCells(s, s', ops, AtWorker(w));
      OpKeepsAims(s, s', ops, AtWorker(w));
    }
  }

  lemma NothingUnwinding(s: State, w: nat)
    requires JobsConserved(s) && w < |s.workers| && s.workers[w] == Unwinding([])
    ensures forall i :: 0 <= i < |s.jobs| ==> s.loc[i] != AtWorker(w)
  {
    assert Exact(s, AtWorker(w));
    forall i | 0 <= i < |s.jobs| ensures s.loc[i] != AtWorker(w) {
      assert Held(s, AtWorker(w), s.jobs[i]) == 0;
    }
  }

  lemma WorkerStepKeeps(s: State, w: nat, choice: Choice)
    requires Inv(s) && AllShaped(s.cells) && w < |s.workers|
    ensures CellsOk(WorkerAct(s, w, choice)) && AllAimed(WorkerAct(s, w, choice))
  {
    var pc := s.workers[w];
    match pc
    case Idle =>
    case Exited =>
    case Started(_) => StartedKeeps(s, w, choice);
    case Handling(_) => HandlingKeeps(s, w, choice);
    case Releasing(_) => ReleasingKeeps(s, w, choice);
    case Batch(_, _) => BatchKeeps(s, w, choice);
    case Unwinding(_) => UnwindKeeps(s, w, choice);
    case _ => CellStepKeeps(s, w, choice);
  }
}
