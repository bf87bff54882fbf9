// Whole runs of the client: any interleaving of requests, cancellations, epoch bumps, shutdown
// and worker steps.
module ClientRuns {
  import opened TileCells
  import opened JobQueue
  import opened ClientQueue
  import opened ClientProtocol
  import opened ClientJobsProof
  import opened ClientCellsProof
  import opened ClientStepsProof

  // ---- One step ----

  lemma RequestKeeps(c: Config, s: State, l: Label)
    requires Inv(s) && AllShaped(s.cells)
    requires l.RequestTile? || l.RequestPyramid? || l.RequestPixels? || l.RequestSize? || l.RequestLqip? || l.BulkSize?
    ensures CellsOk(Step(c, s, l)) && AllAimed(Step(c, s, l))
  {
    match l
    case RequestTile(uri, at) => EnqueueKeeps(s, NewJob(s, EnsureTiles, uri).(at := at), true);
    case RequestPyramid(uri) => EnqueueKeeps(s, NewJob(s, EnsureTiles, uri).(pyramid := true), false);
    case RequestPixels(uri) => EnqueueKeeps(s, NewJob(s, EnsurePixels, uri), false);
    case RequestSize(uri) => EnqueueKeeps(s, NewJob(s, ProbeSize, uri), true);
    case RequestLqip(uri) => PushKeeps(s, NewJob(s, EnsureLqip, uri));
    case BulkSize(uri) => PushKeeps(s, NewJob(s, ProbeSize, uri).(epoch := s.g.epoch));
  }

  lemma NoneMoved(loc: seq<Loc>, to: Loc)
    ensures MovedLoc(loc, [], to) == loc
  {
  }

  lemma PushKeeps(s: State, j: Job)
    requires Inv(s) && j.id == |s.jobs| && !j.hasCells
    ensures CellsOk(PushJob(s, j)) && AllAimed(PushJob(s, j))
  {
    NoneMoved(s.loc, Dropped);
    NewIdHasNoCells(s);
    RecordKeeps(s, PushJob(s, j), j, Queued, []);
  }

  lemma NewIdHasNoCells(s: State)
    requires CellsOk(s)
    ensures |s.jobs| !in s.cells
  {
    forall id | id in s.cells ensures id < |s.jobs| { assert CellOk(s, id); }
  }

  /** The queued jobs that a new job replaces are known and answer no cells. */
  lemma SupersededPlain(s: State, j: Job)
    requires Inv(s)
    ensures forall k :: k in Select(s.g.queue, SupersededBy(j)) ==> !k.hasCells
    ensures forall k :: Occ(Select(s.g.queue, SupersededBy(j)), k) <= Occ(s.g.queue, k)
  {
    forall k ensures Occ(Select(s.g.queue, SupersededBy(j)), k) <= Occ(s.g.queue, k) {
      SplitConserves(s.g.queue, SupersededBy(j), k);
    }
    SelectMembers(s.g.queue, SupersededBy(j));
  }

  lemma EnqueueKeeps(s: State, j: Job, front: bool)
    requires Inv(s) && j.id == |s.jobs| && !j.hasCells
    ensures CellsOk(EnqueueJob(s, j, front)) && AllAimed(EnqueueJob(s, j, front))
  {
    var st := Stamp(j, s.g.epoch);
    SupersededPlain(s, st);
    NewIdHasNoCells(s);
    RecordKeeps(s, EnqueueJob(s, j, front), st, Queued, Select(s.g.queue, SupersededBy(st)));
  }

  /** A request without a uri: the first n cells are answered, the rest untouched. */
  ghost predicate AnsweredUpTo(b: Cells, n: nat, st: TileStatus)
    requires Shaped(b)
  {
    && (forall i :: 0 <= i < |b.seen| ==> b.seen[i] == Unseen)
    && (forall i :: 0 <= i < |b.log| ==> b.log[i] == if i < n then [st] else [])
    && forall i :: 0 <= i < |b.state| ==> b.state[i] == if i < n then Replied else Pending
  }

  lemma {:induction false} AnswerAllAnswers(b: Cells, n: nat, st: TileStatus)
    requires ExactlyOnce(b) && AnsweredUpTo(b, 0, st) && n <= |b.coords|
    ensures ExactlyOnce(AnswerAll(b, n, st)) && AnsweredUpTo(AnswerAll(b, n, st), n, st)
  {
    if n > 0 {
      AnswerAllAnswers(b, n - 1, st);
      AnswerOne(AnswerAll(b, n - 1, st), n - 1, st);
    }
  }

  lemma AnswerOne(b: Cells, n: nat, st: TileStatus)
    requires ExactlyOnce(b) && AnsweredUpTo(b, n, st) && n < |b.coords|
    ensures ExactlyOnce(ReplyCell(b, n, st)) && AnsweredUpTo(ReplyCell(b, n, st), n + 1, st)
  {
    ReplyKeepsExactlyOnce(b, n, st);
    assert b.log[n] == [] && [] + [st] == [st];
  }

  lemma NamelessCellsKeep(s: State, coords: seq<TileCoord>)
    requires Inv(s) && coords != []
    ensures var s' := RequestCellBatch(s, "", coords); CellsOk(s') && AllAimed(s')
  {
    var s' := RequestCellBatch(s, "", coords);
    NewIdHasNoCells(s);
    NoneMoved(s.loc, Dropped);
    FreshIsExactlyOnce(coords);
    AnswerAllAnswers(Fresh(coords), |coords|, Failed);
    RecordKeeps(s, s', NewJob(s, EnsureTiles, "").(hasCells := true, ledger := false), Dropped, []);
  }

  lemma NamedCellsKeep(s: State, uri: string, coords: seq<TileCoord>)
    requires Inv(s) && coords != [] && uri != ""
    ensures var s' := RequestCellBatch(s, uri, coords); CellsOk(s') && AllAimed(s')
  {
    var s' := RequestCellBatch(s, uri, coords);
    var k := NewJob(s, EnsureTiles, uri).(hasCells := true, at := coords[0], tileBatch := coords, exempt := true);
    NewIdHasNoCells(s);
    FreshIsExactlyOnce(coords);
    SupersededPlain(s, k);
    assert Stamp(k, s.g.epoch) == k;
    RecordKeeps(s, s', k, Queued, Select(s.g.queue, SupersededBy(k)));
  }

  lemma RequestCellsKeeps(s: State, uri: string, coords: seq<TileCoord>)
    requires Inv(s)
    ensures var s' := RequestCellBatch(s, uri, coords); CellsOk(s') && AllAimed(s')
  {
    if coords != [] && uri == "" {
      NamelessCellsKeep(s, coords);
    } else if coords != [] {
      NamedCellsKeep(s, uri, coords);
    }
  }

  lemma MarksAimed(s: State, uri: string, want: seq<TileCoord>)
    requires AllAimed(s)
    ensures Aimed(s.loc, MarkAll(RunningFor(s.g.running, uri), want, true))
    ensures Aimed(s.loc, CancelOps(s.g, uri, want))
  {
    RunningForClaimed(s.loc, s.g.running, uri);
  }

  lemma {:induction false} RunningForClaimed(loc: seq<Loc>, running: seq<BatchRef>, uri: string)
    requires RunningClaimed(loc, running)
    ensures forall k :: 0 <= k < |RunningFor(running, uri)| ==>
              RunningFor(running, uri)[k] < |loc| && ClaimedAt(loc[RunningFor(running, uri)[k]])
  {
    if running != [] {
      RunningForClaimed(loc, running[..|running| - 1], uri);
    }
  }

  lemma CancelKeeps(c: Config, s: State, l: Label)
    requires Inv(s) && Enabled(s, l) && AllShaped(s.cells)
    requires IsCancel(l)
    ensures CellsOk(Step(c, s, l)) && AllAimed(Step(c, s, l))
  {
    var s' := Step(c, s, l);
    match l
    case BumpEpoch(h) => DropKeeps(s, s', h, StaleTest(NextEpoch(s.g.epoch)), []);
    case CancelPending(h) => DropKeeps(s, s', h, AnyTest(), []);
    case CancelUri(h, uri) =>
      MarksAimed(s, uri, []);
      DropKeeps(s, s', h, UriTest(uri), MarkAll(RunningFor(s.g.running, uri), [], true));
    case CancelCells(h, uri, want) =>
      if uri != "" && want != [] {
        MarksAimed(s, uri, want);
        DropKeeps(s, s', h, LegacyReached(uri, want), CancelOps(s.g, uri, want));
      }
    case Shutdown(h) => DropKeeps(s, s', h, AnyTest(), []);
  }

  lemma HostKeeps(s: State, h: nat)
    requires Inv(s) && AllShaped(s.cells) && h < |s.hosts| && s.hosts[h] != []
    ensures CellsOk(RunHost(s, h)) && AllAimed(RunHost(s, h))
  {
    OpKeepsCells(s, RunHost(s, h), s.hosts[h], AtHost(h));
    OpKeepsAims(s, RunHost(s, h), s.hosts[h], AtHost(h));
  }

  /** The queue stays well formed. */
  lemma StepKeepsQueue(c: Config, s: State, l: Label)
    requires Inv(s) && Enabled(s, l) && AllShaped(s.cells)
    ensures var g := Step(c, s, l).g; QueueOk(g.queue, g.epoch) && 1 <= g.epoch < EPOCH_LIMIT
  {
    if IsRequest(l) {
      RequestKeepsQueue(c, s, l);
    } else if IsCancel(l) {
      CancelKeepsQueue(c, s, l);
    } else if l.HostStep? {
      OpKeepsKeys(s, s.hosts[l.h][0], AtHost(l.h));
      RejectKeepsQueueOk(s.g.queue, FullyReplied(s.cells), s.g.epoch);
    } else if l.ClaimStep? {
      ClaimKeepsQueue(c, s, l.w);
    } else {
      WorkerKeepsQueue(s, l.w, l.choice);
    }
  }

  lemma RequestKeepsQueue(c: Config, s: State, l: Label)
    requires Inv(s) && AllShaped(s.cells) && IsRequest(l)
    ensures var g := Step(c, s, l).g; QueueOk(g.queue, g.epoch) && g.epoch == s.g.epoch
  {
    var q, e := s.g.queue, s.g.epoch;
    match l
    case RequestTile(uri, at) =>
      EnqueueKeepsQueueOk(q, Stamp(NewJob(s, EnsureTiles, uri).(at := at), e), true, e);
    case RequestCells(uri, coords) =>
      if uri != "" && coords != [] {
        var j := NewJob(s, EnsureTiles, uri).(hasCells := true, at := coords[0], tileBatch := coords, exempt := true);
        EnqueueKeepsQueueOk(q, Stamp(j, e), false, e);
      }
    case RequestPyramid(uri) =>
      EnqueueKeepsQueueOk(q, Stamp(NewJob(s, EnsureTiles, uri).(pyramid := true), e), false, e);
    case RequestPixels(uri) => EnqueueKeepsQueueOk(q, Stamp(NewJob(s, EnsurePixels, uri), e), false, e);
    case RequestSize(uri) => EnqueueKeepsQueueOk(q, Stamp(NewJob(s, ProbeSize, uri), e), true, e);
    case RequestLqip(uri) => PushKeepsQueueOk(q, NewJob(s, EnsureLqip, uri), false, e);
    case BulkSize(uri) => PushKeepsQueueOk(q, NewJob(s, ProbeSize, uri).(epoch := e), false, e);
  }

  lemma CancelKeepsQueue(c: Config, s: State, l: Label)
    requires Inv(s) && Enabled(s, l) && AllShaped(s.cells) && IsCancel(l)
    ensures var g := Step(c, s, l).g; QueueOk(g.queue, g.epoch) && 1 <= g.epoch < EPOCH_LIMIT
  {
    var q, e := s.g.queue, s.g.epoch;
    match l
    case BumpEpoch(h) => BumpKeepsQueueOk(q, e);
    case CancelPending(h) => RejectKeepsQueueOk(q, AnyTest(), e);
    case CancelUri(h, uri) => RejectKeepsQueueOk(q, UriTest(uri), e);
    case CancelCells(h, uri, want) => RejectKeepsQueueOk(q, LegacyReached(uri, want), e);
    case Shutdown(h) => RejectKeepsQueueOk(q, AnyTest(), e);
  }

  lemma ClaimKeepsQueue(c: Config, s: State, w: nat)
    requires Inv(s) && w < |s.workers|
    ensures var g := ClaimBy(c, s, w).g; QueueOk(g.queue, g.epoch) && g.epoch == s.g.epoch
  {
    ClaimKeepsQueueOk(s.g.queue, s.g.stop, s.g.focus, s.g.epoch, c.remote, c.arch);
    ClaimedSingle(c, s);
    TakenQueue(s, w, NextClaim(c, s));
  }

  lemma WorkerKeepsQueue(s: State, w: nat, choice: Choice)
    requires Inv(s) && AllShaped(s.cells) && w < |s.workers|
    ensures var g := WorkerAct(s, w, choice).g; g.queue == s.g.queue && g.epoch == s.g.epoch
  {
    var pc := s.workers[w];
    if pc.Unwinding? {
      if pc.ops != [] {
        OpKeepsKeys(s, pc.ops[0], AtWorker(w));
        assert Unwinds(pc);
      }
    } else if AtCell(pc) {
      CellStepFrame(s, w, choice);
    }
  }

  /** Every step of every thread keeps the whole invariant. */
  lemma StepKeeps(c: Config, s: State, l: Label)
    requires Inv(s) && Enabled(s, l) && AllShaped(s.cells)
    ensures Inv(Step(c, s, l))
  {
    StepConserves(c, s, l);
    StepKeepsQueue(c, s, l);
    if l.HostStep? {
      HostKeeps(s, l.h);
    } else if l.ClaimStep? {
      ClaimKeeps(c, s, l.w);
    } else if l.WorkerStep? {
      WorkerStepKeeps(s, l.w, l.choice);
    } else if IsCancel(l) {
      CancelKeeps(c, s, l);
    } else if l.RequestCells? {
      RequestCellsKeeps(s, l.uri, l.coords);
    } else {
      RequestKeeps(c, s, l);
    }
  }

  // ---- Runs ----

  /** The schedule names the thread that moves next; a thread that cannot move is skipped.
      AllShaped holds in every reachable state, as RunKeeps shows. */
  ghost function Run(c: Config, s: State, schedule: seq<Label>): State {
    if schedule == [] then s
    else
      var s1 := Run(c, s, schedule[..|schedule| - 1]);
      var l := schedule[|schedule| - 1];
      if AllShaped(s1.cells) && Enabled(s1, l) then Step(c, s1, l) else s1
  }

  lemma InitHolds(workers: nat, hosts: nat)
    ensures Inv(Init(workers, hosts))
  {
    InitConserves(workers, hosts);
  }

  lemma {:induction false} RunKeeps(c: Config, s: State, schedule: seq<Label>)
    requires Inv(s)
    ensures Inv(Run(c, s, schedule)) && AllShaped(Run(c, s, schedule).cells)
  {
    if schedule != [] {
      RunKeeps(c, s, schedule[..|schedule| - 1]);
      var s1 := Run(c, s, schedule[..|schedule| - 1]);
      if Enabled(s1, schedule[|schedule| - 1]) {
        StepKeeps(c, s1, schedule[|schedule| - 1]);
      }
    }
    InvShaped(Run(c, s, schedule));
  }

  ghost function After(c: Config, workers: nat, hosts: nat, schedule: seq<Label>): State {
    Run(c, Init(workers, hosts), schedule)
  }

  /** The state before step n of the schedule. */
  ghost function Prefix(c: Config, workers: nat, hosts: nat, schedule: seq<Label>, n: nat): State
    requires n <= |schedule|
  {
    After(c, workers, hosts, schedule[..n])
  }

  lemma NextPrefix(c: Config, workers: nat, hosts: nat, schedule: seq<Label>, n: nat)
    requires n < |schedule|
    ensures var s := Prefix(c, workers, hosts, schedule, n);
      && Inv(s) && AllShaped(s.cells)
      && Prefix(c, workers, hosts, schedule, n + 1) == if Enabled(s, schedule[n]) then Step(c, s, schedule[n]) else s
  {
    InitHolds(workers, hosts);
    RunKeeps(c, Init(workers, hosts), schedule[..n]);
    assert schedule[..n + 1][..n] == schedule[..n] && schedule[..n + 1][n] == schedule[n];
  }
}
