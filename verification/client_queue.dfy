// The state of Client guarded by mu_, changed in place, loop by loop, as src/client.cpp does.
module ClientQueue {
  import opened TileCells
  import opened JobQueue

  /** A shared_ptr<TileCellBatch> held in running_cell_batches_. */
  datatype BatchRef = BatchRef(id: nat, uri: string)

  function LegacyReached(uri: string, cells: seq<TileCoord>): JobTest {
    (j: Job) => LegacyCell(j) && j.uri == uri && j.at in cells
  }

  function QueuedBatchTest(uri: string): JobTest {
    (j: Job) => Interactive(j) && j.hasCells && j.uri == uri
  }

  function UriTest(uri: string): JobTest { (j: Job) => j.uri == uri }

  function Ids(js: seq<Job>): (r: seq<nat>)
    ensures |r| == |js| && forall k :: 0 <= k < |js| ==> r[k] == js[k].id
  {
    seq(|js|, k requires 0 <= k < |js| => js[k].id)
  }

  function RunningFor(running: seq<BatchRef>, uri: string): seq<nat> {
    if running == [] then []
    else
      var last := running[|running| - 1];
      RunningFor(running[..|running| - 1], uri) + if last.uri == uri then [last.id] else []
  }

  function WithoutBatch(running: seq<BatchRef>, id: nat): seq<BatchRef> {
    if running == [] then []
    else
      var last := running[|running| - 1];
      WithoutBatch(running[..|running| - 1], id) + if last.id == id then [] else [last]
  }

  /** The value of everything guarded by mu_. */
  datatype Guarded = Guarded(queue: seq<Job>, stop: bool, inflight: int, focus: int, epoch: nat,
                             running: seq<BatchRef>)

  function Released(g: Guarded): Guarded {
    g.(inflight := if g.inflight > 0 then g.inflight - 1 else g.inflight)
  }

  /** The release of a finished job: forget its batch, free its pyramid slot, count it out. */
  function FinishJob(g: Guarded, j: Job): Guarded {
    var g1 := if j.hasCells then g.(running := WithoutBatch(g.running, j.id)) else g;
    var g2 := if FocusFull(j) && g1.focus > 0 then g1.(focus := g1.focus - 1) else g1;
    Released(g2)
  }

  /** Jobs taken by a worker: the queue they leave, counted in, their batch remembered. */
  function AfterTaking(g: Guarded, taken: seq<Job>, rest: seq<Job>): Guarded
    requires taken != []
  {
    g.(queue := rest,
       inflight := g.inflight + CountNamed(taken),
       focus := g.focus + CountFocus(taken),
       running := g.running + if taken[0].hasCells then [BatchRef(taken[0].id, taken[0].uri)] else [])
  }

  /** What a claim does to the guarded state. */
  function AfterClaim(g: Guarded, r: ClaimResult): Guarded
    requires r.Claimed? ==> r.jobs != []
  {
    match r
    case Exit => g
    case Sleep => g
    case Stale(_, rest) => g.(queue := rest)
    case Rotated(rest) => g.(queue := rest)
    case Blocked(rest) => g.(queue := rest)
    case Abandoned(job, rest) => AfterTaking(g, [job], rest)
    case Claimed(jobs, _, rest) => AfterTaking(g, jobs, rest)
  }

  lemma {:induction false} SameTest(q: seq<Job>, p: JobTest, r: JobTest)
    requires forall j :: p(j) == r(j)
    ensures Select(q, p) == Select(q, r) && Reject(q, p) == Reject(q, r)
  {
    if q != [] {
      SameTest(q[..|q| - 1], p, r);
    }
  }

  class ClientState {
    var queue: seq<Job>
    var stop: bool
    var inflight: int
    var focus: int
    var epoch: nat
    var running: seq<BatchRef>
    const remote: bool
    const archiveOf: ArchiveOf

    ghost function View(): Guarded
      reads this
    {
      Guarded(queue, stop, inflight, focus, epoch, running)
    }

    constructor (remote: bool, archiveOf: ArchiveOf)
      ensures View() == Guarded([], false, 0, 0, 1, [])
      ensures this.remote == remote && this.archiveOf == archiveOf
    {
      queue, stop, inflight, focus, epoch, running := [], false, 0, 0, 1, [];
      this.remote, this.archiveOf := remote, archiveOf;
    }

    /** The erase loop that most critical sections share. */
    method EraseIf(p: JobTest) returns (taken: seq<Job>)
      modifies this`queue
      ensures queue == Reject(old(queue), p) && taken == Select(old(queue), p)
    {
      taken := [];
      ghost var q := queue;
      ghost var k := 0;
      var it := 0;
      while it < |queue|
        invariant 0 <= k <= |q| && it <= |queue|
        invariant queue[..it] == Reject(q[..k], p) && queue[it..] == q[k..]
        invariant taken == Select(q[..k], p)
        decreases |q| - k
      {
        EraseStep(queue, it, q, k, p);
        if p(queue[it]) {
          taken := taken + [queue[it]];
          queue := queue[..it] + queue[it + 1..];
        } else {
          it := it + 1;
        }
        k := k + 1;
      }
      assert q[..k] == q && queue[..it] == queue;
    }

    /** enqueue: stamp, drop what the job supersedes, push. */
    method Enqueue(job: Job, front: bool) returns (superseded: seq<Job>)
      modifies this`queue
      ensures queue == Enqueued(old(queue), Stamp(job, epoch), front)
      ensures superseded == Select(old(queue), SupersededBy(Stamp(job, epoch)))
    {
      var j := job;
      if j.epoch == 0 && !j.exempt {
        j := j.(epoch := epoch);
      }
      superseded := [];
      if j.kind == EnsureTiles && !j.pyramid && j.tileBatch == [] && !j.hasCells {
        var same := (it: Job) => it.kind == EnsureTiles && !it.pyramid && it.tileBatch == [] && !it.hasCells
                                 && it.uri == j.uri && it.at == j.at;
        SameTest(queue, same, SupersededBy(j));
        superseded := EraseIf(same);
      } else if j.kind == EnsureTiles && j.pyramid {
        var same := (it: Job) => it.kind == EnsureTiles && it.pyramid && it.uri == j.uri;
        SameTest(queue, same, SupersededBy(j));
        superseded := EraseIf(same);
      } else {
        NothingSuperseded(queue, j);
      }
      if front {
        queue := [j] + queue;
      } else {
        queue := queue + [j];
      }
    }

    /** bump_interest_epoch up to the release of mu_. */
    method BumpEpoch() returns (dropped: seq<Job>)
      modifies this`queue, this`epoch
      ensures epoch == NextEpoch(old(epoch))
      ensures queue == Reject(old(queue), StaleTest(epoch)) && dropped == Select(old(queue), StaleTest(epoch))
    {
      epoch := (epoch + 1) % EPOCH_LIMIT;
      if epoch == 0 {
        epoch := 1;
      }
      var live := epoch;
      var stale := (it: Job) => it.epoch != 0 && it.epoch < live;
      SameTest(queue, stale, StaleTest(epoch));
      dropped := EraseIf(stale);
    }

    method TakeAll() returns (dropped: seq<Job>)
      modifies this`queue
      ensures queue == [] && dropped == old(queue)
    {
      dropped := [];
      for k := 0 to |queue|
        invariant dropped == queue[..k]
      {
        dropped := dropped + [queue[k]];
      }
      queue := [];
    }

    method RunningOf(uri: string) returns (ids: seq<nat>)
      ensures ids == RunningFor(running, uri)
    {
      ids := [];
      for k := 0 to |running|
        invariant ids == RunningFor(running[..k], uri)
      {
        assert running[..k + 1][..k] == running[..k];
        if running[k].uri == uri {
          ids := ids + [running[k].id];
        }
      }
      assert running[..|running|] == running;
    }

    method CancelUri(uri: string) returns (dropped: seq<Job>, marked: seq<nat>)
      modifies this`queue
      ensures queue == Reject(old(queue), UriTest(uri)) && dropped == Select(old(queue), UriTest(uri))
      ensures marked == RunningFor(running, uri)
    {
      dropped := EraseIf(UriTest(uri));
      marked := RunningOf(uri);
    }

    /** The first locked section of cancel_tile_cells: one pass drops the legacy cells and
        remembers the queued batches, whose index mapping stays intact. */
    method SnapshotCells(uri: string, cells: seq<TileCoord>)
      returns (legacy: seq<Job>, queued: seq<nat>, marked: seq<nat>)
      modifies this`queue
      ensures queue == Reject(old(queue), LegacyReached(uri, cells))
      ensures legacy == Select(old(queue), LegacyReached(uri, cells))
      ensures queued == Ids(Select(old(queue), QueuedBatchTest(uri)))
      ensures marked == RunningFor(running, uri)
    {
      legacy, queued := [], [];
      ghost var q := queue;
      ghost var k := 0;
      ghost var p, b := LegacyReached(uri, cells), QueuedBatchTest(uri);
      var it := 0;
      while it < |queue|
        invariant 0 <= k <= |q| && it <= |queue|
        invariant queue[..it] == Reject(q[..k], p) && queue[it..] == q[k..]
        invariant legacy == Select(q[..k], p) && queued == Ids(Select(q[..k], b))
        decreases |q| - k
      {
        var j := queue[it];
        EraseStep(queue, it, q, k, p);
        SplitNext(q, k, b);
        k := k + 1;
        if j.kind != EnsureTiles || j.uri != uri || j.pyramid {
          it := it + 1;
          continue;
        }
        if j.hasCells {
          queued := queued + [j.id];
          it := it + 1;
          continue;
        }
        if j.tileBatch == [] && j.at in cells {
          legacy := legacy + [j];
          queue := queue[..it] + queue[it + 1..];
        } else {
          it := it + 1;
        }
      }
      assert q[..k] == q && queue[..it] == queue;
      marked := RunningOf(uri);
    }

    method FirstMatch(p: JobTest, from: nat) returns (k: nat)
      requires from <= |queue|
      ensures k == FirstFrom(queue, p, from)
    {
      k := from;
      while k < |queue|
        invariant from <= k <= |queue|
        invariant FirstFrom(queue, p, from) == FirstFrom(queue, p, k)
      {
        if p(queue[k]) {
          return;
        }
        k := k + 1;
      }
    }

    method BringToFront(k: nat)
      requires k < |queue|
      modifies this`queue
      ensures queue == MoveToFront(old(queue), k)
    {
      var job := queue[k];
      queue := queue[..k] + queue[k + 1..];
      queue := [job] + queue;
    }

    /** The two searches of the claim priority, interactive tiles then size probes. */
    method PreferInteractive()
      requires queue != []
      modifies this`queue
      ensures queue == Prefer(old(queue))
    {
      var prefer := FirstMatch(IsTile(), 0);
      if prefer == |queue| {
        prefer := FirstMatch(IsProbe(), 0);
      }
      if prefer < |queue| && prefer != 0 {
        BringToFront(prefer);
      } else {
        assert MoveToFront(queue, 0) == queue;
      }
    }

    /** The coalescing loop: same-archive jobs join the batch and leave the queue. */
    method Coalesce(single: Job) returns (batch: seq<Job>)
      requires !Interactive(single) && archiveOf(single.uri).Some?
      modifies this`queue, this`inflight
      ensures batch == [single] + Select(old(queue), JoinTest(single, archiveOf))
      ensures queue == Reject(old(queue), JoinTest(single, archiveOf))
      ensures inflight == old(inflight) + |batch| - 1
    {
      var arch := archiveOf(single.uri).value;
      ghost var q, t := queue, JoinTest(single, archiveOf);
      ghost var k := 0;
      ghost var joined := [];
      batch := [single];
      var it := 0;
      while it < |queue|
        invariant 0 <= k <= |q| && it <= |queue|
        invariant queue[..it] == Reject(q[..k], t) && queue[it..] == q[k..]
        invariant batch == [single] + joined && joined == Select(q[..k], t)
        invariant inflight == old(inflight) + |joined|
        decreases |q| - k
      {
        var j := queue[it];
        EraseStep(queue, it, q, k, t);
        k := k + 1;
        if j.kind != single.kind || j.uri == "" {
          it := it + 1;
          continue;
        }
        var other := archiveOf(j.uri);
        if other.None? || other.value.member == "" || other.value.path != arch.path {
          it := it + 1;
          continue;
        }
        if j.epoch != batch[0].epoch {
          it := it + 1;
          continue;
        }
        if j.kind == EnsureTiles && j.pyramid {
          // The batch was started by a pyramid then, so the source always skips here; its
          // further cap test and focus increment are never reached.
          it := it + 1;
          continue;
        }
        inflight := inflight + 1;
        batch := batch + [j];
        joined := joined + [j];
        queue := queue[..it] + queue[it + 1..];
      }
      assert q[..k] == q && queue[..it] == queue;
    }

    /** The front pyramid is over the cap: it goes to the back, other work to the front. */
    method RotateBlocked()
      requires queue != []
      modifies this`queue
      ensures queue == Rotate(old(queue))
    {
      var blocked := queue[0];
      queue := queue[1..] + [blocked];
      var alt := FirstMatch(NotFocusFull(), 0);
      if alt < |queue| && alt != 0 {
        BringToFront(alt);
      } else {
        assert alt == 0 ==> MoveToFront(queue, 0) == queue;
      }
    }

    /** One pass of the locked section of worker_main. */
    method ClaimNext() returns (r: ClaimResult)
      modifies this
      ensures r == Claim(old(queue), stop, old(focus), epoch, remote, archiveOf)
      ensures r.Claimed? ==> r.jobs != []
      ensures View() == AfterClaim(old(View()), r)
    {
      if queue == [] {
        if stop {
          return Exit;
        }
        return Sleep;
      }
      var live := FirstMatch(FreshTest(epoch), 0);
      if live > 0 {
        r := Stale(queue[..live], queue[live..]);
        queue := queue[live..];
        return;
      }
      r := ClaimLive();
    }

    /** The pass once no stale job stands at the front. */
    method ClaimLive() returns (r: ClaimResult)
      requires queue != []
      modifies this
      ensures r == ClaimFront(Prefer(old(queue)), stop, old(focus), remote, archiveOf)
      ensures r.Claimed? ==> r.jobs != []
      ensures View() == AfterClaim(old(View()), r)
    {
      PreferInteractive();
      ghost var p := queue;
      r := ClaimPreferred();
      QueueIsReplaced(old(View()), p, r);
    }

    /** The pass after the claim priority: rotate, block, or take the front job. */
    method ClaimPreferred() returns (r: ClaimResult)
      requires queue != []
      modifies this`queue, this`inflight, this`focus, this`running
      ensures r == ClaimFront(old(queue), stop, old(focus), remote, archiveOf)
      ensures r.Claimed? ==> r.jobs != []
      ensures View() == AfterClaim(old(View()), r)
    {
      if queue[0].kind == EnsureTiles && queue[0].pyramid && focus >= FOCUS_FULL_MAX_CONCURRENT {
        var alt := FirstMatch(NotFocusFull(), 1);
        if alt < |queue| {
          RotateBlocked();
          return Rotated(queue);
        }
        return Blocked(queue);
      }
      r := TakeFront();
    }

    /** The claim proper: count the front job in, then let same-archive jobs join it. */
    method TakeFront() returns (r: ClaimResult)
      requires queue != [] && !(FocusFull(queue[0]) && focus >= FOCUS_FULL_MAX_CONCURRENT)
      modifies this`queue, this`inflight, this`focus, this`running
      ensures r == ClaimFront(old(queue), stop, old(focus), remote, archiveOf)
      ensures (r.Claimed? && r.jobs != []) || r.Abandoned?
      ensures View() == AfterClaim(old(View()), r)
    {
      ghost var g := View();
      var single := CountFrontIn();
      if stop && single.uri == "" {
        r := Abandoned(single, queue);
      } else {
        r := JoinFront(single);
      }
      FrontTaken(g, remote, archiveOf, r);
    }

    /** Same-archive jobs join the claimed one, unless it is interactive or a remote one. */
    method JoinFront(single: Job) returns (r: ClaimResult)
      modifies this`queue, this`inflight
      ensures r == if Coalesces(single, remote, archiveOf)
                   then Claimed([single] + Select(old(queue), JoinTest(single, archiveOf)), true,
                                Reject(old(queue), JoinTest(single, archiveOf)))
                   else Claimed([single], false, old(queue))
      ensures View() == old(View()).(queue := r.rest, inflight := old(inflight) + |r.jobs| - 1)
    {
      if !remote && single.uri != "" &&
         (single.kind == ProbeSize || single.kind == EnsurePixels || single.kind == EnsureLqip ||
          (single.kind == EnsureTiles && single.pyramid)) {
        var arch := archiveOf(single.uri);
        if arch.Some? && arch.value.member != "" {
          var batch := Coalesce(single);
          return Claimed(batch, true, queue);
        }
      }
      return Claimed([single], false, queue);
    }

    method CountFrontIn() returns (single: Job)
      requires queue != []
      modifies this`queue, this`inflight, this`focus, this`running
      ensures single == old(queue)[0]
      ensures View() == AfterTaking(old(View()), [single], old(queue)[1..])
    {
      single := queue[0];
      if single.uri != "" {
        inflight := inflight + 1;
      }
      if single.kind == EnsureTiles && single.pyramid {
        focus := focus + 1;
      }
      queue := queue[1..];
      if single.hasCells {
        running := running + [BatchRef(single.id, single.uri)];
      }
      CountSplit([], single);
      assert [single] + [] == [single];
    }

    method ReleaseInflight()
      modifies this`inflight
      ensures View() == Released(old(View()))
    {
      if inflight > 0 {
        inflight := inflight - 1;
      }
    }

    /** The last locked section of a single job. */
    method Finish(job: Job)
      modifies this
      ensures View() == FinishJob(old(View()), job)
    {
      if job.hasCells {
        var kept := [];
        for k := 0 to |running|
          invariant kept == WithoutBatch(running[..k], job.id) && View() == old(View())
        {
          assert running[..k + 1][..k] == running[..k];
          if running[k].id != job.id {
            kept := kept + [running[k]];
          }
        }
        assert running[..|running|] == running;
        running := kept;
      }
      if job.kind == EnsureTiles && job.pyramid {
        if focus > 0 {
          focus := focus - 1;
        }
      }
      ReleaseInflight();
    }
  }

  lemma SplitNext(q: seq<Job>, k: nat, p: JobTest)
    requires k < |q|
    ensures Reject(q[..k + 1], p) == Reject(q[..k], p) + if p(q[k]) then [] else [q[k]]
    ensures Select(q[..k + 1], p) == Select(q[..k], p) + if p(q[k]) then [q[k]] else []
  {
    assert q[..k + 1][..k] == q[..k];
  }

  /** One round of an erase loop: `it` stands where entry k of the old queue was. */
  lemma EraseStep(queue: seq<Job>, it: nat, q: seq<Job>, k: nat, p: JobTest)
    requires k <= |q| && it < |queue| && queue[..it] == Reject(q[..k], p) && queue[it..] == q[k..]
    ensures k < |q| && queue[it] == q[k] && queue[it + 1..] == q[k + 1..]
    ensures Select(q[..k + 1], p) == Select(q[..k], p) + if p(q[k]) then [q[k]] else []
    ensures p(q[k]) ==>
      var rest := queue[..it] + queue[it + 1..];
      rest[..it] == Reject(q[..k + 1], p) && rest[it..] == q[k + 1..]
    ensures !p(q[k]) ==> queue[..it + 1] == Reject(q[..k + 1], p)
  {
    assert queue[it] == queue[it..][0] == q[k..][0] == q[k];
    assert queue[it + 1..] == queue[it..][1..] == q[k..][1..] == q[k + 1..];
    SplitNext(q, k, p);
    assert queue[..it + 1] == queue[..it] + [queue[it]];
  }

  /** A pass that claims or rotates leaves its own queue behind. */
  lemma QueueIsReplaced(g: Guarded, p: seq<Job>, r: ClaimResult)
    requires !r.Exit? && !r.Sleep? && (r.Claimed? ==> r.jobs != [])
    ensures AfterClaim(g.(queue := p), r) == AfterClaim(g, r)
  {
  }

  lemma {:induction false} NothingSuperseded(q: seq<Job>, j: Job)
    requires !LegacyCell(j) && !FocusFull(j)
    ensures Reject(q, SupersededBy(j)) == q && Select(q, SupersededBy(j)) == []
  {
    if q != [] {
      NothingSuperseded(q[..|q| - 1], j);
    }
  }

  /** What the two halves of a claim amount to: the front job counted in, the others joined. */
  lemma FrontTaken(g: Guarded, remote: bool, arch: ArchiveOf, r: ClaimResult)
    requires g.queue != [] && !(FocusFull(g.queue[0]) && g.focus >= FOCUS_FULL_MAX_CONCURRENT)
    requires var a, rest := g.queue[0], g.queue[1..];
      r == if g.stop && a.uri == "" then Abandoned(a, rest)
           else if Coalesces(a, remote, arch)
           then Claimed([a] + Select(rest, JoinTest(a, arch)), true, Reject(rest, JoinTest(a, arch)))
           else Claimed([a], false, rest)
    ensures r == ClaimFront(g.queue, g.stop, g.focus, remote, arch)
    ensures var counted := AfterTaking(g, [g.queue[0]], g.queue[1..]);
      AfterClaim(g, r) == counted.(queue := r.rest, inflight := counted.inflight + |Taken(r)| - 1)
  {
    CountTaken(g.queue[1..], g.queue[0], arch);
  }

  lemma CountTaken(q: seq<Job>, front: Job, arch: ArchiveOf)
    ensures var s := Select(q, JoinTest(front, arch));
      && CountNamed([front] + s) == CountNamed([front]) + |s|
      && CountFocus([front] + s) == CountFocus([front])
  {
    var s := Select(q, JoinTest(front, arch));
    SelectMembers(q, JoinTest(front, arch));
    CountAllNamed(s);
    CountNoFocus(s);
    CountSplit(s, front);
    CountSplit([], front);
    assert [front] + [] == [front];
  }
}
