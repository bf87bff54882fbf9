// Client as a concurrent system (src/client.cpp): host threads and workers interleave, one
// critical section at a time.
module ClientProtocol {
  import opened TileCells
  import opened JobQueue
  import opened ClientQueue

  /** Where a job is. `Dropped`: cancelled by a host or superseded. `Completed`: finished by a
      worker. `Aborted`: given up by a worker (shutdown, or a job without a uri). */
  datatype Loc = Queued | AtHost(h: nat) | AtWorker(w: nat) | Dropped | Completed | Aborted

  /** What a thread that is cancelling still has to do, one critical section an item. */
  datatype Op =
    | DropJob(job: Job)                                       // reply_cancelled_job
    | Retire(job: Job)                                        // its end: the job object goes away
    | Mark(id: nat, want: seq<TileCoord>, running: bool)      // cancel_cells_in_batch
    | Reply(id: nat, index: nat)                              // reply_tile_cell, Cancelled
    | Sweep                                                   // drop fully answered queued batches
    | CloseSwept(job: Job)
    | ReleaseShell                                            // release of a job without a uri

  /** Program counter of a worker. */
  datatype Worker =
    | Idle
    | Exited
    | Started(job: Job)
    | Handling(job: Job)
    | Checking(job: Job, i: nat)
    | Cancelling(job: Job, i: nat)
    | Producing(job: Job, i: nat)
    | Answering(job: Job, i: nat, st: TileStatus)
    | Backstop(job: Job)
    | Orphaning(job: Job, todo: seq<nat>)
    | Releasing(job: Job)
    | Batch(jobs: seq<Job>, served: seq<Job>)
    | Unwinding(ops: seq<Op>)

  /** `jobs`, `loc` and `closed` are history: every job ever queued, where it is, and how
      often its activity id was closed. */
  datatype State = State(g: Guarded, cells: map<nat, Cells>, workers: seq<Worker>, hosts: seq<seq<Op>>,
                         jobs: seq<Job>, loc: seq<Loc>, closed: seq<nat>)

  datatype Config = Config(remote: bool, arch: ArchiveOf)

  /** What the environment decides in a worker step. `Again`: a sequential archive holds a member
      twice, and the visitor releases a size job that it already released. */
  datatype Choice = Result(st: TileStatus) | Throw | Pick(k: nat) | Again(k: nat)

  datatype Label =
    | RequestTile(uri: string, at: TileCoord)
    | RequestCells(uri: string, coords: seq<TileCoord>)
    | RequestPyramid(uri: string)
    | RequestPixels(uri: string)
    | RequestSize(uri: string)
    | RequestLqip(uri: string)
    | BulkSize(uri: string)
    | BumpEpoch(h: nat)
    | CancelPending(h: nat)
    | CancelUri(h: nat, uri: string)
    | CancelCells(h: nat, uri: string, want: seq<TileCoord>)
    | Shutdown(h: nat)
    | HostStep(h: nat)
    | ClaimStep(w: nat)
    | WorkerStep(w: nat, choice: Choice)

  predicate IsRequest(l: Label) {
    || l.RequestTile? || l.RequestCells? || l.RequestPyramid? || l.RequestPixels? || l.RequestSize?
    || l.RequestLqip? || l.BulkSize?
  }

  predicate IsCancel(l: Label) {
    l.BumpEpoch? || l.CancelPending? || l.CancelUri? || l.CancelCells? || l.Shutdown?
  }

  ghost predicate AllShaped(cells: map<nat, Cells>) {
    forall id :: id in cells ==> Shaped(cells[id])
  }

  // ---- State updates ----

  predicate HasId(js: seq<Job>, id: nat) {
    js != [] && (js[|js| - 1].id == id || HasId(js[..|js| - 1], id))
  }

  function MovedLoc(loc: seq<Loc>, js: seq<Job>, to: Loc): seq<Loc> {
    seq(|loc|, i requires 0 <= i < |loc| => if HasId(js, i) then to else loc[i])
  }

  ghost function Moved(s: State, js: seq<Job>, to: Loc): State {
    s.(loc := MovedLoc(s.loc, js, to))
  }

  /** The activity ids of the jobs are closed. */
  function ClosedBy(closed: seq<nat>, js: seq<Job>): seq<nat> {
    seq(|closed|, i requires 0 <= i < |closed| => closed[i] + Closings(js, i))
  }

  function Closings(js: seq<Job>, id: nat): nat {
    if js == [] then 0
    else Closings(js[..|js| - 1], id) + if js[|js| - 1].id == id && js[|js| - 1].ledger then 1 else 0
  }

  ghost function Close(s: State, js: seq<Job>): State {
    s.(closed := ClosedBy(s.closed, js))
  }

  ghost function WithQueue(s: State, q: seq<Job>): State {
    s.(g := s.g.(queue := q))
  }

  function Replies(id: nat, todo: seq<nat>): (ops: seq<Op>)
    ensures |ops| == |todo| && forall k :: 0 <= k < |todo| ==> ops[k] == Reply(id, todo[k])
  {
    seq(|todo|, k requires 0 <= k < |todo| => Reply(id, todo[k]))
  }

  function DropAll(js: seq<Job>): (ops: seq<Op>)
    ensures |ops| == |js| && forall k :: 0 <= k < |js| ==> ops[k] == DropJob(js[k])
  {
    seq(|js|, k requires 0 <= k < |js| => DropJob(js[k]))
  }

  function SweepAll(js: seq<Job>): (ops: seq<Op>)
    ensures |ops| == |js| && forall k :: 0 <= k < |js| ==> ops[k] == CloseSwept(js[k])
  {
    seq(|js|, k requires 0 <= k < |js| => CloseSwept(js[k]))
  }

  function MarkAll(ids: seq<nat>, want: seq<TileCoord>, running: bool): (ops: seq<Op>)
    ensures |ops| == |ids| && forall k :: 0 <= k < |ids| ==> ops[k] == Mark(ids[k], want, running)
  {
    seq(|ids|, k requires 0 <= k < |ids| => Mark(ids[k], want, running))
  }

  ghost function SetCell(s: State, id: nat, b: Cells): State {
    s.(cells := s.cells[id := b])
  }

  // ---- Requests ----

  function NewJob(s: State, kind: JobKind, uri: string): Job {
    Job(|s.jobs|, kind, uri, 0, TileCoord(0, 0, 0), false, [], false, false, kind != EnsureLqip)
  }

  /** The new job enters the history as queued. */
  ghost function Recorded(s: State, j: Job, at: Loc): State {
    s.(jobs := s.jobs + [j], loc := s.loc + [at], closed := s.closed + [0])
  }

  /** enqueue: the superseded jobs are dropped and closed under the same lock. */
  ghost function EnqueueJob(s: State, j: Job, front: bool): State {
    var stamped := Stamp(j, s.g.epoch);
    var was := Select(s.g.queue, SupersededBy(stamped));
    var s1 := Close(Moved(s, was, Dropped), was);
    Recorded(WithQueue(s1, Enqueued(s.g.queue, stamped, front)), stamped, Queued)
  }

  /** request_lqip and enqueue_jobs push without superseding; the former does not stamp. */
  ghost function PushJob(s: State, j: Job): State {
    Recorded(WithQueue(s, Push(s.g.queue, j, false)), j, Queued)
  }

  /** The loop that answers every cell of a request without a uri. */
  function AnswerAll(b: Cells, n: nat, st: TileStatus): (r: Cells)
    requires Shaped(b)
    ensures Shaped(r) && r.coords == b.coords
  {
    if n == 0 then b else ReplyCell(AnswerAll(b, n - 1, st), n - 1, st)
  }

  ghost function RequestCellBatch(s: State, uri: string, coords: seq<TileCoord>): State {
    var j := NewJob(s, EnsureTiles, uri).(hasCells := true);
    if coords == [] then s
    else if uri == "" then
      SetCell(Recorded(s, j.(ledger := false), Dropped), j.id, AnswerAll(Fresh(coords), |coords|, Failed))
    else
      SetCell(EnqueueJob(s, j.(at := coords[0], tileBatch := coords, exempt := true), false), j.id, Fresh(coords))
  }

  // ---- Cancelling threads ----

  function FullyReplied(cells: map<nat, Cells>): JobTest {
    (j: Job) => j.hasCells && j.id in cells && cells[j.id].replied >= |cells[j.id].coords|
  }

  function Pendings(cells: map<nat, Cells>, id: nat, want: seq<TileCoord>): seq<nat>
    requires AllShaped(cells)
  {
    if id in cells then Reached(cells[id], want, |cells[id].coords|) else []
  }

  /** Executes the first item of a cancelling thread, in the state. */
  ghost function OpState(s: State, op: Op, me: Loc): State
    requires AllShaped(s.cells)
  {
    match op
    case DropJob(j) => Close(s, [j])
    case Retire(j) => Moved(s, [j], if me.AtHost? then Dropped else Aborted)
    case Mark(id, want, running) =>
      if id in s.cells && running then SetCell(s, id, MarkRunning(s.cells[id], want)) else s
    case Reply(id, i) =>
      if id in s.cells then SetCell(s, id, ReplyCell(s.cells[id], i, Cancelled)) else s
    case Sweep =>
      Moved(WithQueue(s, Reject(s.g.queue, FullyReplied(s.cells))), Select(s.g.queue, FullyReplied(s.cells)), me)
    case CloseSwept(j) => Moved(Close(s, [j]), [j], Dropped)
    case ReleaseShell => s.(g := Released(s.g))
  }

  /** What takes the place of that item in what the thread still has to do. */
  ghost function OpNext(s: State, op: Op): seq<Op>
    requires AllShaped(s.cells)
  {
    match op
    case DropJob(j) => Replies(j.id, if j.hasCells then Pendings(s.cells, j.id, []) else []) + [Retire(j)]
    case Mark(id, want, running) => if running then [] else Replies(id, Pendings(s.cells, id, want))
    case Sweep => SweepAll(Select(s.g.queue, FullyReplied(s.cells)))
    case _ => []
  }

  ghost function RunHost(s: State, h: nat): State
    requires h < |s.hosts| && s.hosts[h] != [] && AllShaped(s.cells)
  {
    var ops := s.hosts[h];
    OpState(s, ops[0], AtHost(h)).(hosts := s.hosts[h := OpNext(s, ops[0]) + ops[1..]])
  }

  ghost function RunWorker(s: State, w: nat, ops: seq<Op>): State
    requires w < |s.workers| && ops != [] && AllShaped(s.cells)
  {
    OpState(s, ops[0], AtWorker(w)).(workers := s.workers[w := Unwinding(OpNext(s, ops[0]) + ops[1..])])
  }

  ghost function DropFromQueue(s: State, h: nat, p: JobTest, more: seq<Op>): State
    requires h < |s.hosts|
  {
    var dropped := Select(s.g.queue, p);
    var s1 := Moved(WithQueue(s, Reject(s.g.queue, p)), dropped, AtHost(h));
    s1.(hosts := s1.hosts[h := DropAll(dropped) + more])
  }

  function AnyTest(): JobTest { (j: Job) => true }

  /** What cancel_tile_cells has left to do after its first locked section. */
  function CancelOps(g: Guarded, uri: string, want: seq<TileCoord>): (ops: seq<Op>)
    ensures forall k :: 0 <= k < |ops| ==> ops[k].Mark? || ops[k].Sweep?
  {
    var queued := Ids(Select(g.queue, QueuedBatchTest(uri)));
    MarkAll(queued, want, false) + MarkAll(RunningFor(g.running, uri), want, true)
    + if queued == [] then [] else [Sweep]
  }

  ghost function StartCancelCells(s: State, h: nat, uri: string, want: seq<TileCoord>): State
    requires h < |s.hosts|
  {
    if uri == "" || want == [] then s
    else DropFromQueue(s, h, LegacyReached(uri, want), CancelOps(s.g, uri, want))
  }

  // ---- Workers ----

  ghost function SetWorker(s: State, w: nat, pc: Worker): State
    requires w < |s.workers|
  {
    s.(workers := s.workers[w := pc])
  }

  /** What the next claim finds. */
  function NextClaim(c: Config, s: State): ClaimResult {
    Claim(s.g.queue, s.g.stop, s.g.focus, s.g.epoch, c.remote, c.arch)
  }

  ghost function ClaimBy(c: Config, s: State, w: nat): State
    requires w < |s.workers|
  {
    TakeBy(s, w, NextClaim(c, s))
  }

  ghost function TakeBy(s: State, w: nat, r: ClaimResult): State
    requires w < |s.workers| && (r.Claimed? ==> r.jobs != [])
  {
    var s1 := s.(g := AfterClaim(s.g, r));
    match r
    case Exit => SetWorker(s, w, Exited)
    case Sleep => s
    case Rotated(_) => s1
    case Blocked(_) => s1
    case Stale(js, _) => SetWorker(Moved(s1, js, AtWorker(w)), w, Unwinding(DropAll(js)))
    case Abandoned(j, _) => SetWorker(Moved(s1, [j], Aborted), w, Exited)
    case Claimed(js, coalesced, _) =>
      SetWorker(Moved(s1, js, AtWorker(w)), w, if coalesced then Batch(js, []) else Started(js[0]))
  }

  /** The release of a finished job by worker w, and its next program counter. */
  ghost function Finished(s: State, w: nat, j: Job, to: Loc, pc: Worker): State
    requires w < |s.workers|
  {
    SetWorker(Moved(s.(g := FinishJob(s.g, j)), [j], to), w, pc)
  }

  function WithoutIndex(js: seq<Job>, k: nat): seq<Job>
    requires k < |js|
  {
    js[..k] + js[k + 1..]
  }

  ghost function Look(b: Cells, i: nat): Cells
    requires Shaped(b) && i < |b.coords|
  {
    b.(seen := b.seen[i := if b.state[i] == CancelRequested then SawCancel else SawPending])
  }

  predicate Repeats(pc: Worker, choice: Choice) {
    pc.Batch? && choice.Again? && choice.k < |pc.served| && pc.served[choice.k].kind == ProbeSize
  }

  ghost function WorkerAct(s: State, w: nat, choice: Choice): State
    requires w < |s.workers| && AllShaped(s.cells)
  {
    match s.workers[w]
    case Idle => s
    case Exited => s
    case Started(j) =>
      if j.uri == "" then SetWorker(s, w, Unwinding([DropJob(j), ReleaseShell]))
      else if s.g.stop then SetWorker(s.(g := FinishJob(s.g, j)), w, Unwinding([DropJob(j)]))
      else SetWorker(s, w, if j.hasCells then Checking(j, 0) else Handling(j))
    case Handling(j) => SetWorker(Close(s, [j]), w, Releasing(j))
    case Checking(j, i) =>
      if j.id !in s.cells || i >= |s.cells[j.id].coords| then SetWorker(Close(s, [j]), w, Backstop(j))
      else
        var b := s.cells[j.id];
        assert Shaped(b);
        if b.state[i] == Replied then SetWorker(s, w, Checking(j, i + 1))
        else SetWorker(SetCell(s, j.id, Look(b, i)), w,
                       if b.state[i] == CancelRequested then Cancelling(j, i) else Producing(j, i))
    case Cancelling(j, i) =>
      if j.id !in s.cells then s
      else SetWorker(SetCell(s, j.id, ReplyCell(s.cells[j.id], i, Cancelled)), w, Checking(j, i + 1))
    case Producing(j, i) =>
      if choice.Result? then SetWorker(s, w, Answering(j, i, choice.st))
      else SetWorker(Close(s, [j]), w, Backstop(j))
    case Answering(j, i, st) =>
      if j.id !in s.cells then s
      else SetWorker(SetCell(s, j.id, ReplyCell(s.cells[j.id], i, st)), w, Checking(j, i + 1))
    case Backstop(j) =>
      if j.id !in s.cells then s
      else SetWorker(s, w, Orphaning(j, Unanswered(s.cells[j.id], |s.cells[j.id].state|)))
    case Orphaning(j, todo) =>
      if j.id !in s.cells then s
      else if todo == [] then SetWorker(s, w, Releasing(j))
      else SetWorker(SetCell(s, j.id, ReplyCell(s.cells[j.id], todo[0], Failed)), w, Orphaning(j, todo[1..]))
    case Releasing(j) => Finished(s, w, j, Completed, Idle)
    case Batch(js, served) =>
      if choice.Pick? && choice.k < |js| then
        var j := js[choice.k];
        Finished(Close(s, [j]), w, j, Completed, Batch(WithoutIndex(js, choice.k), served + [j]))
      else if Repeats(s.workers[w], choice) then s.(g := Released(s.g))
      else if js == [] then SetWorker(s, w, Idle)
      else s
    case Unwinding(ops) =>
      if ops == [] then SetWorker(s, w, Idle)
      else RunWorker(s, w, ops)
  }

  // ---- Runs ----

  predicate Free(s: State, h: nat) { h < |s.hosts| && s.hosts[h] == [] }

  predicate Enabled(s: State, l: Label) {
    match l
    case BumpEpoch(h) => Free(s, h)
    case CancelPending(h) => Free(s, h)
    case CancelUri(h, _) => Free(s, h)
    case CancelCells(h, _, _) => Free(s, h)
    case Shutdown(h) => Free(s, h)
    case HostStep(h) => h < |s.hosts| && s.hosts[h] != []
    case ClaimStep(w) => w < |s.workers| && s.workers[w] == Idle
    case WorkerStep(w, _) => w < |s.workers|
    case _ => true
  }

  ghost function Step(c: Config, s: State, l: Label): State
    requires Enabled(s, l) && AllShaped(s.cells)
  {
    match l
    case RequestTile(uri, at) => EnqueueJob(s, NewJob(s, EnsureTiles, uri).(at := at), true)
    case RequestCells(uri, coords) => RequestCellBatch(s, uri, coords)
    case RequestPyramid(uri) => EnqueueJob(s, NewJob(s, EnsureTiles, uri).(pyramid := true), false)
    case RequestPixels(uri) => EnqueueJob(s, NewJob(s, EnsurePixels, uri), false)
    case RequestSize(uri) => EnqueueJob(s, NewJob(s, ProbeSize, uri), true)
    case RequestLqip(uri) => if uri == "" then s else PushJob(s, NewJob(s, EnsureLqip, uri))
    case BulkSize(uri) => PushJob(s, NewJob(s, ProbeSize, uri).(epoch := s.g.epoch))
    case BumpEpoch(h) =>
      var e := NextEpoch(s.g.epoch);
      DropFromQueue(s.(g := s.g.(epoch := e)), h, StaleTest(e), [])
    case CancelPending(h) => DropFromQueue(s, h, AnyTest(), [])
    case CancelUri(h, uri) =>
      DropFromQueue(s, h, UriTest(uri), MarkAll(RunningFor(s.g.running, uri), [], true))
    case CancelCells(h, uri, want) => StartCancelCells(s, h, uri, want)
    case Shutdown(h) => DropFromQueue(s.(g := s.g.(stop := true)), h, AnyTest(), [])
    case HostStep(h) => RunHost(s, h)
    case ClaimStep(w) => ClaimBy(c, s, w)
    case WorkerStep(w, choice) => WorkerAct(s, w, choice)
  }

  ghost function Init(workers: nat, hosts: nat): State {
    State(Guarded([], false, 0, 0, 1, []), map[], seq(workers, i => Idle), seq(hosts, i => []), [], [], [])
  }
}
