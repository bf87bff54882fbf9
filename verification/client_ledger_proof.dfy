// The activity ledger: each job that leaves the client had its activity id closed exactly once.
module ClientLedgerProof {
  import opened TileCells
  import opened JobQueue
  import opened ClientQueue
  import opened ClientProtocol
  import opened ClientJobsProof
  import opened ClientCellsProof
  import opened ClientStepsProof
  import opened ClientRuns
  import opened ClientCountsProof

  function OpOpens(op: Op, j: Job): nat {
    if (op.DropJob? || op.CloseSwept?) && op.job == j then 1 else 0
  }

  /** How often the rest of a thread's work is going to close a job. */
  function OpsOpen(ops: seq<Op>, j: Job): nat {
    if ops == [] then 0 else OpOpens(ops[0], j) + OpsOpen(ops[1..], j)
  }

  function WorkerOpen(pc: Worker, j: Job): nat {
    match pc
    case Idle => 0
    case Exited => 0
    case Backstop(_) => 0
    case Orphaning(_, _) => 0
    case Releasing(_) => 0
    case Batch(js, _) => Occ(js, j)
    case Unwinding(ops) => OpsOpen(ops, j)
    case _ => if pc.job == j then 1 else 0
  }

  /** How often the activity of a job is still to be closed, by where the job is. */
  function Open(s: State, x: Loc, j: Job): nat {
    match x
    case Queued => 1
    case AtHost(h) => if h < |s.hosts| then OpsOpen(s.hosts[h], j) else 0
    case AtWorker(w) => if w < |s.workers| then WorkerOpen(s.workers[w], j) else 0
    case _ => 0
  }

  ghost predicate LedgerOk(s: State)
    requires |s.jobs| == |s.loc| == |s.closed|
  {
    forall i :: 0 <= i < |s.jobs| ==>
      s.closed[i] + (if s.jobs[i].ledger then Open(s, s.loc[i], s.jobs[i]) else 0)
      == if s.jobs[i].ledger then 1 else 0
  }

  lemma {:induction false} OpsOpenConcat(a: seq<Op>, b: seq<Op>, j: Job)
    ensures OpsOpen(a + b, j) == OpsOpen(a, j) + OpsOpen(b, j)
  {
    if a == [] {
      assert a + b == b;
    } else {
      OpsOpenConcat(a[1..], b, j);
      assert (a + b)[1..] == a[1..] + b;
    }
  }

  /** Work that holds no Retire opens what it holds; in general it opens at most that. */
  lemma {:induction false} OpensHeld(ops: seq<Op>, j: Job)
    ensures OpsOpen(ops, j) <= OpsHold(ops, j)
    ensures (forall k :: 0 <= k < |ops| ==> !ops[k].Retire?) ==> OpsOpen(ops, j) == OpsHold(ops, j)
  {
    if ops != [] {
      OpensHeld(ops[1..], j);
    }
  }

  lemma {:induction false} ClosingsOcc(jobs: seq<Job>, js: seq<Job>, i: nat)
    requires Named(jobs) && i < |jobs| && forall j :: Occ(js, j) > 0 ==> Known(jobs, j)
    ensures Closings(js, i) == if jobs[i].ledger then Occ(js, jobs[i]) else 0
  {
    if js != [] {
      var n := |js| - 1;
      forall j | Occ(js[..n], j) > 0 ensures Known(jobs, j) { assert Occ(js, j) > 0; }
      ClosingsOcc(jobs, js[..n], i);
      OccMember(js, js[n]);
      assert Known(jobs, js[n]);
    }
  }

  /** The balance every step keeps: what is closed is no longer open. */
  lemma Balance(s: State, s': State, js: seq<Job>)
    requires JobsConserved(s) && LedgerOk(s) && s'.jobs == s.jobs && |s'.loc| == |s.loc|
    requires s'.closed == ClosedBy(s.closed, js)
    requires forall j :: Occ(js, j) > 0 ==> Known(s.jobs, j)
    requires forall i :: 0 <= i < |s.jobs| ==>
               s.jobs[i].ledger ==> Occ(js, s.jobs[i]) + Open(s', s'.loc[i], s.jobs[i]) == Open(s, s.loc[i], s.jobs[i])
    ensures LedgerOk(s')
  {
    forall i | 0 <= i < |s.jobs|
      ensures s'.closed[i] + (if s'.jobs[i].ledger then Open(s', s'.loc[i], s'.jobs[i]) else 0)
              == if s'.jobs[i].ledger then 1 else 0
    {
      ClosingsOcc(s.jobs, js, i);
    }
  }

  lemma NoClosings(closed: seq<nat>)
    ensures ClosedBy(closed, []) == closed
  {
  }

  // ---- Requests and cancellations ----

  /** Superseded jobs are closed as they are dropped. */
  lemma RecordLedger(s: State, s': State, j: Job, at: Loc, gone: seq<Job>)
    requires JobsConserved(s) && LedgerOk(s) && forall k :: Occ(gone, k) <= Occ(s.g.queue, k)
    requires s'.jobs == s.jobs + [j] && s'.loc == MovedLoc(s.loc, gone, Dropped) + [at]
    requires s'.closed == ClosedBy(s.closed, gone) + [0]
    requires s'.hosts == s.hosts && s'.workers == s.workers && s'.g.stop == s.g.stop
    requires (at == Dropped && !j.ledger) || at == Queued
    ensures LedgerOk(s')
  {
    assert Exact(s, Queued);
    forall k | Occ(gone, k) > 0 ensures Known(s.jobs, k) { assert Held(s, Queued, k) > 0; }
    forall i | 0 <= i < |s'.jobs|
      ensures s'.closed[i] + (if s'.jobs[i].ledger then Open(s', s'.loc[i], s'.jobs[i]) else 0)
              == if s'.jobs[i].ledger then 1 else 0
    {
      if i < |s.jobs| {
        ClosingsOcc(s.jobs, gone, i);
        MovedFrom(s, gone, Queued, Dropped, i);
        assert Held(s, Queued, s.jobs[i]) <= 1;
        OpenFrame(s, s', s'.loc[i], s.jobs[i]);
      }
    }
  }

  lemma OpenFrame(s: State, s': State, x: Loc, j: Job)
    requires SamePlace(s, s', x) && |s'.hosts| == |s.hosts| && |s'.workers| == |s.workers|
    ensures Open(s', x, j) == Open(s, x, j)
  {
  }

  lemma EnqueueLedger(s: State, j: Job, front: bool)
    requires Inv(s) && LedgerOk(s)
    ensures LedgerOk(EnqueueJob(s, j, front))
  {
    var st := Stamp(j, s.g.epoch);
    forall k ensures Occ(Select(s.g.queue, SupersededBy(st)), k) <= Occ(s.g.queue, k) {
      SplitConserves(s.g.queue, SupersededBy(st), k);
    }
    RecordLedger(s, EnqueueJob(s, j, front), st, Queued, Select(s.g.queue, SupersededBy(st)));
  }

  lemma PushLedger(s: State, j: Job)
    requires Inv(s) && LedgerOk(s)
    ensures LedgerOk(PushJob(s, j))
  {
    NoneMoved(s.loc, Dropped);
    NoClosings(s.closed);
    RecordLedger(s, PushJob(s, j), j, Queued, []);
  }

  lemma RequestLedger(c: Config, s: State, l: Label)
    requires Inv(s) && LedgerOk(s) && AllShaped(s.cells)
    requires IsRequest(l)
    ensures |Step(c, s, l).jobs| == |Step(c, s, l).loc| == |Step(c, s, l).closed|
    ensures LedgerOk(Step(c, s, l))
  {
    match l
    case RequestTile(uri, at) => EnqueueLedger(s, NewJob(s, EnsureTiles, uri).(at := at), true);
    case RequestPyramid(uri) => EnqueueLedger(s, NewJob(s, EnsureTiles, uri).(pyramid := true), false);
    case RequestPixels(uri) => EnqueueLedger(s, NewJob(s, EnsurePixels, uri), false);
    case RequestSize(uri) => EnqueueLedger(s, NewJob(s, ProbeSize, uri), true);
    case RequestLqip(uri) => PushLedger(s, NewJob(s, EnsureLqip, uri));
    case BulkSize(uri) => PushLedger(s, NewJob(s, ProbeSize, uri).(epoch := s.g.epoch));
    case RequestCells(uri, coords) => RequestCellsLedger(s, uri, coords);
  }

  lemma RequestCellsLedger(s: State, uri: string, coords: seq<TileCoord>)
    requires Inv(s) && LedgerOk(s)
    ensures var s' := RequestCellBatch(s, uri, coords);
      |s'.jobs| == |s'.loc| == |s'.closed| && LedgerOk(s')
  {
    var s' := RequestCellBatch(s, uri, coords);
    var j := NewJob(s, EnsureTiles, uri).(hasCells := true);
    if uri == "" {
      NoneMoved(s.loc, Dropped);
      NoClosings(s.closed);
      if coords != [] { RecordLedger(s, s', j.(ledger := false), Dropped, []); }
    } else if coords != [] {
      var k := j.(at := coords[0], tileBatch := coords, exempt := true);
      EnqueueLedger(s, k, false);
      LedgerFrame(EnqueueJob(s, k, false), s');
    }
  }

  lemma LedgerFrame(s: State, s': State)
    requires |s.jobs| == |s.loc| == |s.closed| && LedgerOk(s)
    requires s'.jobs == s.jobs && s'.loc == s.loc && s'.closed == s.closed && s'.hosts == s.hosts
    requires s'.workers == s.workers
    ensures LedgerOk(s')
  {
    forall i | 0 <= i < |s.jobs| ensures Open(s', s'.loc[i], s.jobs[i]) == Open(s, s.loc[i], s.jobs[i]) {}
  }

  lemma DropLedger(s: State, s': State, h: nat, p: JobTest, more: seq<Op>)
    requires JobsConserved(s) && LedgerOk(s) && h < |s.hosts| && s.hosts[h] == [] && HoldsNone(more)
    requires s'.jobs == s.jobs && s'.workers == s.workers && s'.closed == s.closed
    requires s'.loc == MovedLoc(s.loc, Select(s.g.queue, p), AtHost(h))
    requires s'.hosts == s.hosts[h := DropAll(Select(s.g.queue, p)) + more]
    ensures LedgerOk(s')
  {
    var gone := Select(s.g.queue, p);
    forall j ensures Occ(gone, j) <= Held(s, Queued, j) { SplitConserves(s.g.queue, p, j); }
    NoClosings(s.closed);
    assert Exact(s, Queued) && Exact(s, AtHost(h));
    forall i | 0 <= i < |s.jobs| ensures Open(s', s'.loc[i], s.jobs[i]) == Open(s, s.loc[i], s.jobs[i]) {
      MovedFrom(s, gone, Queued, AtHost(h), i);
      DropOpens(gone, more, s.jobs[i]);
      assert Held(s, AtHost(h), s.jobs[i]) == 0 && Held(s, Queued, s.jobs[i]) <= 1;
    }
    Balance(s, s', []);
  }

  lemma DropOpens(gone: seq<Job>, more: seq<Op>, j: Job)
    requires HoldsNone(more)
    ensures OpsOpen(DropAll(gone) + more, j) == Occ(gone, j)
  {
    OpsOpenConcat(DropAll(gone), more, j);
    OpensHeld(DropAll(gone), j);
    OpensHeld(more, j);
    HoldsNothing(more, j);
    HoldsJobs(DropAll(gone), gone, j);
  }

  lemma CancelLedger(c: Config, s: State, l: Label)
    requires Inv(s) && LedgerOk(s) && Enabled(s, l) && AllShaped(s.cells)
    requires IsCancel(l)
    ensures var s' := Step(c, s, l); |s'.jobs| == |s'.loc| == |s'.closed| && LedgerOk(s')
  {
    var s' := Step(c, s, l);
    match l
    case BumpEpoch(h) => DropLedger(s, s', h, StaleTest(NextEpoch(s.g.epoch)), []);
    case CancelPending(h) => DropLedger(s, s', h, AnyTest(), []);
    case CancelUri(h, uri) => DropLedger(s, s', h, UriTest(uri), MarkAll(RunningFor(s.g.running, uri), [], true));
    case CancelCells(h, uri, want) =>
      if uri != "" && want != [] {
        DropLedger(s, s', h, LegacyReached(uri, want), CancelOps(s.g, uri, want));
      }
    case Shutdown(h) => DropLedger(s, s', h, AnyTest(), []);
  }

  // ---- Cancelling steps ----

  /** What a cancelling step closes. */
  function OpCloses(op: Op): seq<Job> {
    match op
    case DropJob(j) => [j]
    case CloseSwept(j) => [j]
    case _ => []
  }

  /** What replaces an item opens what a sweep takes, nothing else. */
  lemma NextOpens(s: State, op: Op, j: Job)
    requires AllShaped(s.cells)
    ensures OpsOpen(OpNext(s, op), j) == if op.Sweep? then Occ(Select(s.g.queue, FullyReplied(s.cells)), j) else 0
  {
    match op
    case DropJob(k) =>
      var replies := Replies(k.id, if k.hasCells then Pendings(s.cells, k.id, []) else []);
      OpsOpenConcat(replies, [Retire(k)], j);
      OpensHeld(replies, j);
      HoldsNothing(replies, j);
      assert [Retire(k)][1..] == [];
    case Sweep =>
      var done := Select(s.g.queue, FullyReplied(s.cells));
      HoldsJobs(SweepAll(done), done, j);
      OpensHeld(SweepAll(done), j);
    case _ =>
      OpensHeld(OpNext(s, op), j);
      HoldsNothing(OpNext(s, op), j);
  }

  lemma OpBalanceOwn(s: State, s': State, ops: seq<Op>, me: Loc, i: nat)
    requires Inv(s) && ops != [] && AllShaped(s.cells) && OpDone(s, s', ops, me) && i < |s.jobs|
    requires me.AtWorker? ==> !ops[0].Sweep? && !ops[0].CloseSwept?
    requires s.loc[i] == me
    ensures Occ(OpCloses(ops[0]), s.jobs[i]) + Open(s', s'.loc[i], s.jobs[i]) == Open(s, me, s.jobs[i])
  {
    var op, j := ops[0], s.jobs[i];
    OpMoved(s, s', ops, me, i);
    NextOpens(s, op, j);
    OpsOpenConcat(OpNext(s, op), ops[1..], j);
    OpensHeld(ops[1..], j);
    assert Exact(s, me) && Held(s, me, j) == 1;
    OccOpMoves(s, op, j);
    if op.Sweep? {
      assert Exact(s, Queued) && Held(s, Queued, j) == 0;
      SplitConserves(s.g.queue, FullyReplied(s.cells), j);
    }
  }

  lemma OccOpMoves(s: State, op: Op, j: Job)
    requires AllShaped(s.cells)
    ensures op.Retire? || op.CloseSwept? ==> Occ(OpMoves(s, op), j) == if op.job == j then 1 else 0
    ensures !op.Retire? && !op.CloseSwept? && !op.Sweep? ==> Occ(OpMoves(s, op), j) == 0
    ensures Occ(OpCloses(op), j) == if (op.DropJob? || op.CloseSwept?) && op.job == j then 1 else 0
  {
    if op.DropJob? || op.Retire? || op.CloseSwept? {
      OccOne(op.job, j);
    }
  }

  lemma OpBalance(s: State, s': State, ops: seq<Op>, me: Loc, i: nat)
    requires Inv(s) && ops != [] && AllShaped(s.cells) && OpDone(s, s', ops, me) && i < |s.jobs|
    requires me.AtWorker? ==> !ops[0].Sweep? && !ops[0].CloseSwept?
    ensures Occ(OpCloses(ops[0]), s.jobs[i]) + Open(s', s'.loc[i], s.jobs[i]) == Open(s, s.loc[i], s.jobs[i])
  {
    var op, j := ops[0], s.jobs[i];
    if s.loc[i] == me {
      OpBalanceOwn(s, s', ops, me, i);
    } else {
      OpMoved(s, s', ops, me, i);
      OccOpMoves(s, op, j);
      NotMine(s, ops, me, i);
      if op.Sweep? {
        SweptOpens(s, s', ops, me, i);
      } else {
        OpKeepsKeys(s, op, me);
        OpenFrame(s, s', s.loc[i], j);
      }
    }
  }

  /** A thread's work does not name a job that is elsewhere. */
  lemma NotMine(s: State, ops: seq<Op>, me: Loc, i: nat)
    requires JobsConserved(s) && ops != [] && i < |s.jobs| && Live(me) && s.loc[i] != me
    requires Held(s, me, s.jobs[i]) == OpsHold(ops, s.jobs[i])
    ensures OpsHold(ops, s.jobs[i]) == 0 && OpHolds(ops[0], s.jobs[i]) == 0
  {
    assert Exact(s, me);
  }

  lemma SweptOpens(s: State, s': State, ops: seq<Op>, me: Loc, i: nat)
    requires Inv(s) && ops != [] && AllShaped(s.cells) && OpDone(s, s', ops, me) && i < |s.jobs|
    requires ops[0].Sweep? && me.AtHost? && s.loc[i] != me && OpsHold(ops, s.jobs[i]) == 0
    ensures Open(s', s'.loc[i], s.jobs[i]) == Open(s, s.loc[i], s.jobs[i])
  {
    var j := s.jobs[i];
    OpMoved(s, s', ops, me, i);
    OpKeepsKeys(s, ops[0], me);
    if Occ(OpMoves(s, ops[0]), j) > 0 {
      NextOpens(s, ops[0], j);
      OpsOpenConcat(OpNext(s, ops[0]), ops[1..], j);
      OpensHeld(ops[1..], j);
      assert Exact(s, Queued) && Held(s, Queued, j) == 1;
      SplitConserves(s.g.queue, FullyReplied(s.cells), j);
    } else {
      OpenFrame(s, s', s.loc[i], j);
    }
  }

  lemma OpLedger(s: State, s': State, ops: seq<Op>, me: Loc)
    requires Inv(s) && LedgerOk(s) && ops != [] && AllShaped(s.cells) && OpDone(s, s', ops, me)
    requires me.AtWorker? ==> !ops[0].Sweep? && !ops[0].CloseSwept?
    requires s'.closed == OpState(s, ops[0], me).closed
    ensures |s'.jobs| == |s'.loc| == |s'.closed| && LedgerOk(s')
  {
    NoClosings(s.closed);
    forall i | 0 <= i < |s.jobs|
      ensures Occ(OpCloses(ops[0]), s.jobs[i]) + Open(s', s'.loc[i], s.jobs[i]) == Open(s, s.loc[i], s.jobs[i])
    {
      OpBalance(s, s', ops, me, i);
    }
    ClosedKnown(s, ops, me);
    Balance(s, s', OpCloses(ops[0]));
  }

  lemma ClosedKnown(s: State, ops: seq<Op>, me: Loc)
    requires JobsConserved(s) && ops != [] && Live(me) && forall j :: Held(s, me, j) == OpsHold(ops, j)
    ensures forall j :: Occ(OpCloses(ops[0]), j) > 0 ==> Known(s.jobs, j)
  {
    assert Exact(s, me);
    forall j | Occ(OpCloses(ops[0]), j) > 0 ensures Known(s.jobs, j) {
      OccOne(ops[0].job, j);
      assert Held(s, me, j) > 0;
    }
  }

  // ---- Workers ----

  /** A claim that gives its job up, with the client stopping and no uri, without a closing. */
  predicate Abandons(c: Config, s: State, l: Label)
    requires Enabled(s, l)
  {
    l.ClaimStep? && var r := NextClaim(c, s); r.Abandoned? && r.job.ledger
  }

  lemma ClaimLedger(c: Config, s: State, w: nat)
    requires Inv(s) && LedgerOk(s) && w < |s.workers| && s.workers[w] == Idle && !Abandons(c, s, ClaimStep(w))
    ensures var s' := ClaimBy(c, s, w); |s'.jobs| == |s'.loc| == |s'.closed| && LedgerOk(s')
  {
    var r := NextClaim(c, s);
    ClaimSound(c, s);
    NextClaimConserves(c, s);
    if r.Abandoned? {
      AbandonBalance(s, w, r);
    } else {
      TakeLedger(s, w, r);
    }
  }

  /** The abandoned job is gone with its closing still open; all others keep theirs. */
  lemma AbandonOpen(s: State, w: nat, r: ClaimResult, i: nat)
    requires JobsConserved(s) && w < |s.workers| && s.workers[w] == Idle && i < |s.jobs|
    requires r.Abandoned? && forall j :: Occ([r.job], j) <= Occ(s.g.queue, j)
    ensures var s' := TakeBy(s, w, r);
      && s'.jobs == s.jobs && s'.closed == s.closed && |s'.loc| == |s.loc|
      && if s.jobs[i] == r.job then s'.loc[i] == Aborted && s.loc[i] == Queued
         else Open(s', s'.loc[i], s.jobs[i]) == Open(s, s.loc[i], s.jobs[i])
  {
    OccOne(r.job, s.jobs[i]);
    MovedFrom(s, [r.job], Queued, Aborted, i);
    assert Exact(s, AtWorker(w));
    assert Held(s, AtWorker(w), s.jobs[i]) == 0;
  }

  lemma AbandonBalance(s: State, w: nat, r: ClaimResult)
    requires JobsConserved(s) && LedgerOk(s) && w < |s.workers| && s.workers[w] == Idle
    requires r.Abandoned? && !r.job.ledger && forall j :: Occ(Taken(r), j) <= Occ(s.g.queue, j)
    ensures var s' := TakeBy(s, w, r); |s'.jobs| == |s'.loc| == |s'.closed| && LedgerOk(s')
  {
    NoClosings(s.closed);
    forall i | 0 <= i < |s.jobs|
      ensures TakeBy(s, w, r).closed == s.closed && TakeBy(s, w, r).jobs == s.jobs && |TakeBy(s, w, r).loc| == |s.loc|
      ensures s.jobs[i].ledger ==>
        Open(TakeBy(s, w, r), TakeBy(s, w, r).loc[i], s.jobs[i]) == Open(s, s.loc[i], s.jobs[i])
    {
      AbandonOpen(s, w, r, i);
    }
    Balance(s, TakeBy(s, w, r), []);
  }

  /** Every activity is closed at most once, and exactly once when its job has left. */
  ghost predicate AllClosed(s: State)
    requires |s.jobs| == |s.loc| == |s.closed|
  {
    forall i :: 0 <= i < |s.jobs| ==>
      s.closed[i] <= 1 && (!Live(s.loc[i]) ==> s.closed[i] == if s.jobs[i].ledger then 1 else 0)
  }

  /** An abandoned job has left unclosed. */
  lemma AbandonUnclosed(c: Config, s: State, w: nat)
    requires Inv(s) && LedgerOk(s) && w < |s.workers| && s.workers[w] == Idle && Abandons(c, s, ClaimStep(w))
    ensures var s' := ClaimBy(c, s, w); |s'.jobs| == |s'.loc| == |s'.closed| && !AllClosed(s')
  {
    NextClaimConserves(c, s);
    TakeUnclosed(s, w, NextClaim(c, s));
  }

  lemma TakeUnclosed(s: State, w: nat, r: ClaimResult)
    requires JobsConserved(s) && LedgerOk(s) && w < |s.workers| && s.workers[w] == Idle
    requires r.Abandoned? && r.job.ledger && forall j :: Occ(Taken(r), j) <= Occ(s.g.queue, j)
    ensures var s' := TakeBy(s, w, r); |s'.jobs| == |s'.loc| == |s'.closed| && !AllClosed(s')
  {
    OccOne(r.job, r.job);
    assert Exact(s, Queued) && Held(s, Queued, r.job) > 0 && Known(s.jobs, r.job);
    AbandonOpen(s, w, r, r.job.id);
  }

  lemma TakeLedger(s: State, w: nat, r: ClaimResult)
    requires JobsConserved(s) && LedgerOk(s) && w < |s.workers| && s.workers[w] == Idle
    requires !r.Stale? && !r.Abandoned? && forall j :: Occ(Taken(r), j) <= Occ(s.g.queue, j)
    requires r.Claimed? ==> r.jobs != [] && (!r.coalesced ==> r.jobs == [r.jobs[0]])
    ensures var s' := TakeBy(s, w, r); |s'.jobs| == |s'.loc| == |s'.closed| && LedgerOk(s')
  {
    var s' := TakeBy(s, w, r);
    NoClosings(s.closed);
    NoneMoved(s.loc, AtWorker(w));
    assert s'.loc == MovedLoc(s.loc, Taken(r), AtWorker(w));
    assert Exact(s, Queued) && Exact(s, AtWorker(w));
    forall i | 0 <= i < |s.jobs| ensures Open(s', s'.loc[i], s.jobs[i]) == Open(s, s.loc[i], s.jobs[i]) {
      MovedFrom(s, Taken(r), Queued, AtWorker(w), i);
      assert Held(s, AtWorker(w), s.jobs[i]) == 0 && Held(s, Queued, s.jobs[i]) <= 1;
      if r.Claimed? && !r.coalesced { OccOne(r.jobs[0], s.jobs[i]); }
    }
    Balance(s, s', []);
  }

  /** A step of worker w that closes `js` and may finish job `done`. */
  lemma WorkerLedger(s: State, s': State, w: nat, js: seq<Job>, gone: seq<Job>)
    requires JobsConserved(s) && LedgerOk(s) && w < |s.workers| && |s'.workers| == |s.workers|
    requires s'.jobs == s.jobs && s'.hosts == s.hosts && s'.workers == s.workers[w := s'.workers[w]]
    requires s'.closed == ClosedBy(s.closed, js) && s'.loc == MovedLoc(s.loc, gone, Completed)
    requires forall j :: Occ(js, j) <= WorkerHolds(s.workers[w], j) && Occ(gone, j) <= WorkerHolds(s.workers[w], j)
    requires forall j :: WorkerHolds(s.workers[w], j) == 1 ==>
               Occ(js, j) + (if Occ(gone, j) > 0 then 0 else WorkerOpen(s'.workers[w], j))
                 == WorkerOpen(s.workers[w], j)
    ensures LedgerOk(s')
  {
    assert Exact(s, AtWorker(w));
    forall j | Occ(js, j) > 0 ensures Known(s.jobs, j) { assert Held(s, AtWorker(w), j) > 0; }
    forall i | 0 <= i < |s.jobs|
      ensures Occ(js, s.jobs[i]) + Open(s', s'.loc[i], s.jobs[i]) == Open(s, s.loc[i], s.jobs[i])
    {
      MovedFrom(s, gone, AtWorker(w), Completed, i);
      assert Held(s, AtWorker(w), s.jobs[i]) == if s.loc[i] == AtWorker(w) then 1 else 0;
    }
    Balance(s, s', js);
  }

  /** The jobs whose activity a worker step closes, and those it finishes. */
  function WorkerCloses(s: State, w: nat, choice: Choice): seq<Job>
    requires w < |s.workers|
  {
    match s.workers[w]
    case Handling(j) => [j]
    case Checking(j, i) => if j.id !in s.cells || i >= |s.cells[j.id].coords| then [j] else []
    case Producing(j, _) => if choice.Result? then [] else [j]
    case Batch(js, _) => if choice.Pick? && choice.k < |js| then [js[choice.k]] else []
    case _ => []
  }

  function WorkerDone(s: State, w: nat, choice: Choice): seq<Job>
    requires w < |s.workers|
  {
    match s.workers[w]
    case Releasing(j) => [j]
    case Batch(js, _) => if choice.Pick? && choice.k < |js| then [js[choice.k]] else []
    case _ => []
  }

  lemma WorkerFrame(s: State, w: nat, choice: Choice)
    requires w < |s.workers| && AllShaped(s.cells) && (s.workers[w].Unwinding? ==> s.workers[w].ops == [])
    ensures var s' := WorkerAct(s, w, choice);
      && |s'.workers| == |s.workers| && s'.jobs == s.jobs && s'.hosts == s.hosts
      && s'.workers == s.workers[w := s'.workers[w]]
      && s'.closed == ClosedBy(s.closed, WorkerCloses(s, w, choice))
      && s'.loc == MovedLoc(s.loc, WorkerDone(s, w, choice), Completed)
  {
    NoClosings(s.closed);
    NoneMoved(s.loc, Completed);
    if AtCell(s.workers[w]) {
      CellFrame(s, w, choice);
    }
  }

  lemma CellFrame(s: State, w: nat, choice: Choice)
    requires w < |s.workers| && AllShaped(s.cells) && AtCell(s.workers[w])
    ensures WorkerAct(s, w, choice).closed == ClosedBy(s.closed, WorkerCloses(s, w, choice))
    ensures var s' := WorkerAct(s, w, choice);
      && |s'.workers| == |s.workers| && s'.jobs == s.jobs && s'.hosts == s.hosts
      && s'.workers == s.workers[w := s'.workers[w]] && s'.loc == s.loc
  {
    NoClosings(s.closed);
  }

  lemma WorkerBalance(s: State, w: nat, choice: Choice, j: Job)
    requires w < |s.workers| && AllShaped(s.cells) && (s.workers[w].Unwinding? ==> s.workers[w].ops == [])
    ensures var s' := WorkerAct(s, w, choice);
      var closes, gone := Occ(WorkerCloses(s, w, choice), j), Occ(WorkerDone(s, w, choice), j);
      && closes <= WorkerHolds(s.workers[w], j) && gone <= WorkerHolds(s.workers[w], j)
      && (WorkerHolds(s.workers[w], j) == 1 ==>
            closes + (if gone > 0 then 0 else WorkerOpen(s'.workers[w], j)) == WorkerOpen(s.workers[w], j))
  {
    var pc := s.workers[w];
    if HoldsOne(pc) {
      OccOne(pc.job, j);
      BusyBalance(s, w, choice, j);
    } else if pc.Batch? && choice.Pick? && choice.k < |pc.jobs| {
      BatchBalance(pc.jobs, choice.k, j);
    }
  }

  lemma BusyBalance(s: State, w: nat, choice: Choice, j: Job)
    requires w < |s.workers| && AllShaped(s.cells) && HoldsOne(s.workers[w])
    requires Occ([s.workers[w].job], j) == if s.workers[w].job == j then 1 else 0
    ensures var s' := WorkerAct(s, w, choice);
      var closes, gone := Occ(WorkerCloses(s, w, choice), j), Occ(WorkerDone(s, w, choice), j);
      && closes <= WorkerHolds(s.workers[w], j) && gone <= WorkerHolds(s.workers[w], j)
      && (WorkerHolds(s.workers[w], j) == 1 ==>
            closes + (if gone > 0 then 0 else WorkerOpen(s'.workers[w], j)) == WorkerOpen(s.workers[w], j))
  {
    var pc := s.workers[w];
    DropOpensOne(pc.job, j);
  }

  lemma DropOpensOne(job: Job, j: Job)
    ensures OpsOpen([DropJob(job)], j) == if job == j then 1 else 0
    ensures OpsOpen([DropJob(job), ReleaseShell], j) == if job == j then 1 else 0
  {
    assert [DropJob(job)][1..] == [] && [ReleaseShell][1..] == [];
    assert [DropJob(job), ReleaseShell][1..] == [ReleaseShell];
  }

  lemma BatchBalance(js: seq<Job>, k: nat, j: Job)
    requires k < |js|
    ensures Occ([js[k]], j) <= Occ(js, j)
    ensures Occ(js, j) == 1 && Occ([js[k]], j) == 0 ==> Occ(WithoutIndex(js, k), j) == Occ(js, j)
  {
    assert js == js[..k] + ([js[k]] + js[k + 1..]);
    OccConcat(js[..k], [js[k]] + js[k + 1..], j);
    OccConcat([js[k]], js[k + 1..], j);
    OccConcat(js[..k], js[k + 1..], j);
  }

  lemma WorkerStepLedger(s: State, w: nat, choice: Choice)
    requires Inv(s) && LedgerOk(s) && AllShaped(s.cells) && w < |s.workers|
    ensures var s' := WorkerAct(s, w, choice); |s'.jobs| == |s'.loc| == |s'.closed| && LedgerOk(s')
  {
    var pc := s.workers[w];
    if pc.Unwinding? && pc.ops != [] {
      assert Unwinds(pc);
      OpLedger(s, WorkerAct(s, w, choice), pc.ops, AtWorker(w));
    } else {
      WorkerFrame(s, w, choice);
      forall j
        ensures Occ(WorkerCloses(s, w, choice), j) <= WorkerHolds(pc, j)
        ensures Occ(WorkerDone(s, w, choice), j) <= WorkerHolds(pc, j)
        ensures WorkerHolds(pc, j) == 1 ==>
          Occ(WorkerCloses(s, w, choice), j)
          + (if Occ(WorkerDone(s, w, choice), j) > 0 then 0 else WorkerOpen(WorkerAct(s, w, choice).workers[w], j))
          == WorkerOpen(pc, j)
      {
        WorkerBalance(s, w, choice, j);
      }
      WorkerLedger(s, WorkerAct(s, w, choice), w, WorkerCloses(s, w, choice), WorkerDone(s, w, choice));
    }
  }

  /** Every step of every thread keeps the ledger balanced, unless it abandons a job. */
  lemma StepLedger(c: Config, s: State, l: Label)
    requires Inv(s) && LedgerOk(s) && Enabled(s, l) && AllShaped(s.cells) && !Abandons(c, s, l)
    ensures var s' := Step(c, s, l); |s'.jobs| == |s'.loc| == |s'.closed| && LedgerOk(s')
  {
    if l.HostStep? {
      OpLedger(s, RunHost(s, l.h), s.hosts[l.h], AtHost(l.h));
    } else if l.ClaimStep? {
      ClaimLedger(c, s, l.w);
    } else if l.WorkerStep? {
      WorkerStepLedger(s, l.w, l.choice);
    } else if IsCancel(l) {
      CancelLedger(c, s, l);
    } else {
      RequestLedger(c, s, l);
    }
  }
}
