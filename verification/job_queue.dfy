// The job queue of Client (src/client.cpp): what each critical section under mu_ does to it.
module JobQueue {
  import opened Wrappers
  import opened TileCells

  const FOCUS_FULL_MAX_CONCURRENT: nat := 1
  const EPOCH_LIMIT: nat := 0x1_0000_0000_0000_0000

  datatype JobKind = ProbeSize | EnsurePixels | EnsureTiles | EnsureLqip

  /** parse_archive_uri of a uri; the parser itself is a parameter of this model. */
  datatype ArchiveRef = ArchiveRef(path: string, member: string)
  type ArchiveOf = string -> Option<ArchiveRef>

  /** `id` names the job (and its TileCellBatch when `hasCells`); `ledger` says that it
      was given an activity id. */
  datatype Job = Job(id: nat, kind: JobKind, uri: string, epoch: nat, at: TileCoord, pyramid: bool,
                     tileBatch: seq<TileCoord>, hasCells: bool, exempt: bool, ledger: bool)

  type JobTest = Job -> bool

  predicate FocusFull(j: Job) { j.kind == EnsureTiles && j.pyramid }

  predicate Interactive(j: Job) { j.kind == EnsureTiles && !j.pyramid }

  predicate LegacyCell(j: Job) { Interactive(j) && j.tileBatch == [] && !j.hasCells }

  /** A newly queued job replaces a queued one: same legacy cell, or pyramid of the same uri. */
  predicate Supersedes(j: Job, was: Job) {
    || (LegacyCell(j) && LegacyCell(was) && was.uri == j.uri && was.at == j.at)
    || (FocusFull(j) && FocusFull(was) && was.uri == j.uri)
  }

  // ---- The tests that the loops over queue_ apply ----

  function StaleTest(epoch: nat): JobTest { j => StaleAt(epoch, j) }

  function FreshTest(epoch: nat): JobTest { j => !StaleAt(epoch, j) }

  function SupersededBy(j: Job): JobTest { was => Supersedes(j, was) }

  function IsProbe(): JobTest { (j: Job) => j.kind == ProbeSize }

  function IsTile(): JobTest { j => Interactive(j) }

  function NotFocusFull(): JobTest { j => !FocusFull(j) }

  function JoinTest(front: Job, arch: ArchiveOf): JobTest { j => Joins(front, j, arch) }

  // ---- Sequence operations that the loops over queue_ compute ----

  function Select(q: seq<Job>, p: JobTest): seq<Job> {
    if q == [] then []
    else Select(q[..|q| - 1], p) + if p(q[|q| - 1]) then [q[|q| - 1]] else []
  }

  function Reject(q: seq<Job>, p: JobTest): seq<Job> {
    if q == [] then []
    else Reject(q[..|q| - 1], p) + if p(q[|q| - 1]) then [] else [q[|q| - 1]]
  }

  function FirstFrom(q: seq<Job>, p: JobTest, from: nat): (k: nat)
    requires from <= |q|
    ensures from <= k <= |q| && (k < |q| ==> p(q[k]))
    ensures forall i :: from <= i < k ==> !p(q[i])
    decreases |q| - from
  {
    if from == |q| || p(q[from]) then from else FirstFrom(q, p, from + 1)
  }

  function MoveToFront(q: seq<Job>, k: nat): seq<Job>
    requires k < |q|
  {
    [q[k]] + q[..k] + q[k + 1..]
  }

  // ---- The operations ----

  function NextEpoch(epoch: nat): nat {
    var e := (epoch + 1) % EPOCH_LIMIT;
    if e == 0 then 1 else e
  }

  predicate StaleAt(epoch: nat, j: Job) { j.epoch != 0 && j.epoch < epoch }

  function Stamp(j: Job, epoch: nat): Job {
    if j.epoch == 0 && !j.exempt then j.(epoch := epoch) else j
  }

  function Push(q: seq<Job>, j: Job, front: bool): seq<Job> {
    if front then [j] + q else q + [j]
  }

  function Enqueued(q: seq<Job>, j: Job, front: bool): seq<Job> {
    Push(Reject(q, SupersededBy(j)), j, front)
  }

  /** Interactive tiles first, then size probes, else the front stays. */
  function Preferred(q: seq<Job>): (k: nat)
    requires q != []
    ensures k < |q|
  {
    var tile := FirstFrom(q, IsTile(), 0);
    if tile < |q| then tile
    else
      var probe := FirstFrom(q, IsProbe(), 0);
      if probe < |q| then probe else 0
  }

  function Prefer(q: seq<Job>): seq<Job>
    requires q != []
  {
    MoveToFront(q, Preferred(q))
  }

  /** The blocked pyramid goes to the back, the first other job to the front. */
  function Rotate(q: seq<Job>): seq<Job>
    requires q != []
  {
    var r := q[1..] + [q[0]];
    var alt := FirstFrom(r, NotFocusFull(), 0);
    if alt < |r| then MoveToFront(r, alt) else r
  }

  predicate Coalesces(j: Job, remote: bool, arch: ArchiveOf) {
    && !remote && j.uri != "" && !Interactive(j)
    && arch(j.uri).Some? && arch(j.uri).value.member != ""
  }

  /** Which queued jobs join the archive batch started by `front`. */
  predicate Joins(front: Job, j: Job, arch: ArchiveOf) {
    && j.kind == front.kind && j.uri != ""
    && arch(front.uri).Some? && arch(j.uri).Some? && arch(j.uri).value.member != ""
    && arch(j.uri).value.path == arch(front.uri).value.path
    && j.epoch == front.epoch
    && !FocusFull(j)
  }

  /** One pass of the locked section of worker_main. */
  datatype ClaimResult =
    | Exit
    | Sleep
    | Stale(jobs: seq<Job>, rest: seq<Job>)
    | Rotated(rest: seq<Job>)
    | Blocked(rest: seq<Job>)
    | Abandoned(job: Job, rest: seq<Job>)
    | Claimed(jobs: seq<Job>, coalesced: bool, rest: seq<Job>)

  function Claim(q: seq<Job>, stop: bool, focus: int, epoch: nat, remote: bool, arch: ArchiveOf): ClaimResult {
    if q == [] then (if stop then Exit else Sleep)
    else
      var n := FirstFrom(q, FreshTest(epoch), 0);
      if n > 0 then Stale(q[..n], q[n..])
      else ClaimFront(Prefer(q), stop, focus, remote, arch)
  }

  /** The rest of the pass, once the preferred job is at the front. */
  function ClaimFront(p: seq<Job>, stop: bool, focus: int, remote: bool, arch: ArchiveOf): ClaimResult
    requires p != []
  {
    if FocusFull(p[0]) && focus >= FOCUS_FULL_MAX_CONCURRENT then
      if FirstFrom(p, NotFocusFull(), 1) < |p| then Rotated(Rotate(p)) else Blocked(p)
    else if stop && p[0].uri == "" then Abandoned(p[0], p[1..])
    else if Coalesces(p[0], remote, arch) then
      Claimed([p[0]] + Select(p[1..], JoinTest(p[0], arch)), true, Reject(p[1..], JoinTest(p[0], arch)))
    else Claimed([p[0]], false, p[1..])
  }

  function CountFocus(js: seq<Job>): nat {
    if js == [] then 0 else CountFocus(js[..|js| - 1]) + if FocusFull(js[|js| - 1]) then 1 else 0
  }

  function CountNamed(js: seq<Job>): nat {
    if js == [] then 0 else CountNamed(js[..|js| - 1]) + if js[|js| - 1].uri == "" then 0 else 1
  }

  // ---- Facts about the sequence operations ----

  /** How often a job occurs in a sequence. */
  function Occ(js: seq<Job>, j: Job): nat {
    if js == [] then 0 else Occ(js[..|js| - 1], j) + if js[|js| - 1] == j then 1 else 0
  }

  lemma {:induction false} OccConcat(a: seq<Job>, b: seq<Job>, j: Job)
    ensures Occ(a + b, j) == Occ(a, j) + Occ(b, j)
  {
    if b == [] {
      assert a + b == a;
    } else {
      OccConcat(a, b[..|b| - 1], j);
      assert (a + b)[..|a + b| - 1] == a + b[..|b| - 1];
    }
  }

  lemma {:induction false} OccMember(js: seq<Job>, j: Job)
    ensures j in js <==> Occ(js, j) > 0
  {
    if js != [] {
      OccMember(js[..|js| - 1], j);
      assert js == js[..|js| - 1] + [js[|js| - 1]];
    }
  }

  lemma OccOne(a: Job, j: Job)
    ensures Occ([a], j) == if a == j then 1 else 0
  {
    assert [a][..0] == [];
  }

  lemma {:induction false} SplitConserves(q: seq<Job>, p: JobTest, j: Job)
    ensures Occ(Select(q, p), j) + Occ(Reject(q, p), j) == Occ(q, j)
  {
    if q != [] {
      var n := |q| - 1;
      SplitConserves(q[..n], p, j);
      var a, b := Select(q[..n], p), Reject(q[..n], p);
      OccOne(q[n], j);
      if p(q[n]) {
        OccConcat(a, [q[n]], j);
        assert Reject(q, p) == b + [] == b;
      } else {
        OccConcat(b, [q[n]], j);
        assert Select(q, p) == a + [] == a;
      }
    }
  }

  lemma {:induction false} SplitMembers(q: seq<Job>, p: JobTest, j: Job)
    ensures j in Select(q, p) <==> j in q && p(j)
    ensures j in Reject(q, p) <==> j in q && !p(j)
  {
    if q != [] {
      SplitMembers(q[..|q| - 1], p, j);
      assert q == q[..|q| - 1] + [q[|q| - 1]];
    }
  }

  lemma RejectMembers(q: seq<Job>, p: JobTest)
    ensures forall j :: j in Reject(q, p) ==> j in q && !p(j)
  {
    forall j | j in Reject(q, p) ensures j in q && !p(j) { SplitMembers(q, p, j); }
  }

  lemma SelectMembers(q: seq<Job>, p: JobTest)
    ensures forall j :: j in Select(q, p) ==> j in q && p(j)
  {
    forall j | j in Select(q, p) ensures j in q && p(j) { SplitMembers(q, p, j); }
  }

  lemma FrontConserves(q: seq<Job>, k: nat, j: Job)
    requires k < |q|
    ensures Occ(MoveToFront(q, k), j) == Occ(q, j)
  {
    assert q == q[..k] + ([q[k]] + q[k + 1..]);
    assert MoveToFront(q, k) == [q[k]] + (q[..k] + q[k + 1..]);
    OccConcat(q[..k], [q[k]] + q[k + 1..], j);
    OccConcat([q[k]], q[k + 1..], j);
    OccConcat([q[k]], q[..k] + q[k + 1..], j);
    OccConcat(q[..k], q[k + 1..], j);
  }

  lemma FrontMembers(q: seq<Job>, k: nat)
    requires k < |q|
    ensures |MoveToFront(q, k)| == |q| && forall j :: j in MoveToFront(q, k) ==> j in q
  {
  }

  lemma RotateConserves(q: seq<Job>, j: Job)
    requires q != []
    ensures Occ(Rotate(q), j) == Occ(q, j)
  {
    var r := q[1..] + [q[0]];
    assert q == [q[0]] + q[1..];
    OccConcat([q[0]], q[1..], j);
    OccConcat(q[1..], [q[0]], j);
    var alt := FirstFrom(r, NotFocusFull(), 0);
    if alt < |r| {
      FrontConserves(r, alt, j);
    }
  }

  /** The jobs a claim takes off the queue. */
  function Taken(r: ClaimResult): seq<Job> {
    match r
    case Stale(js, _) => js
    case Abandoned(j, _) => [j]
    case Claimed(js, _, _) => js
    case _ => []
  }

  function Left(r: ClaimResult): seq<Job> {
    if r.Exit? || r.Sleep? then [] else r.rest
  }

  lemma ClaimFrontConserves(p: seq<Job>, stop: bool, focus: int, remote: bool, arch: ArchiveOf, j: Job)
    requires p != []
    ensures var r := ClaimFront(p, stop, focus, remote, arch);
      Occ(Taken(r), j) + Occ(Left(r), j) == Occ(p, j)
  {
    if FocusFull(p[0]) && focus >= FOCUS_FULL_MAX_CONCURRENT {
      var r := ClaimFront(p, stop, focus, remote, arch);
      assert Taken(r) == [] && (Left(r) == p || Left(r) == Rotate(p));
      RotateConserves(p, j);
    } else {
      TakeFrontConserves(p, stop, focus, remote, arch, j);
    }
  }

  lemma TakeFrontConserves(p: seq<Job>, stop: bool, focus: int, remote: bool, arch: ArchiveOf, j: Job)
    requires p != [] && !(FocusFull(p[0]) && focus >= FOCUS_FULL_MAX_CONCURRENT)
    ensures var r := ClaimFront(p, stop, focus, remote, arch);
      Occ(Taken(r), j) + Occ(Left(r), j) == Occ(p, j)
  {
    var r := ClaimFront(p, stop, focus, remote, arch);
    var a, rest, t := p[0], p[1..], JoinTest(p[0], arch);
    assert p == [a] + rest;
    if (stop && a.uri == "") || !Coalesces(a, remote, arch) {
      assert Taken(r) == [a] && Left(r) == rest;
    } else {
      assert Taken(r) == [a] + Select(rest, t) && Left(r) == Reject(rest, t);
    }
    JoinConserves(a, rest, t, j);
  }

  lemma JoinConserves(a: Job, rest: seq<Job>, t: JobTest, j: Job)
    ensures Occ([a] + Select(rest, t), j) + Occ(Reject(rest, t), j) == Occ([a] + rest, j)
    ensures Occ([a], j) + Occ(rest, j) == Occ([a] + rest, j)
  {
    SplitConserves(rest, t, j);
    OccConcat([a], rest, j);
    OccConcat([a], Select(rest, t), j);
  }

  /** No claim loses or duplicates a job, whatever it reorders. */
  lemma ClaimConserves(q: seq<Job>, stop: bool, focus: int, epoch: nat, remote: bool, arch: ArchiveOf, j: Job)
    ensures var r := Claim(q, stop, focus, epoch, remote, arch);
      Occ(Taken(r), j) + Occ(Left(r), j) == Occ(q, j)
  {
    if q != [] {
      var n := FirstFrom(q, FreshTest(epoch), 0);
      if n == 0 {
        FrontConserves(q, Preferred(q), j);
        ClaimFrontConserves(Prefer(q), stop, focus, remote, arch, j);
      } else {
        assert q == q[..n] + q[n..];
        OccConcat(q[..n], q[n..], j);
      }
    }
  }

  // ---- The queue invariant ----

  /** No two queued jobs where one supersedes the other. */
  ghost predicate NoDuplicates(q: seq<Job>) {
    forall i, k :: 0 <= i < k < |q| ==> !Supersedes(q[k], q[i])
  }

  /** Epoch order that the queue keeps in every run, even across the wrap of the counter. */
  ghost predicate NoneStale(q: seq<Job>, epoch: nat) {
    forall j :: j in q ==> !StaleAt(epoch, j)
  }

  /** What the comments of the source rely on: the epoch is 0 or the current one. */
  ghost predicate EpochsCurrent(q: seq<Job>, epoch: nat) {
    forall j :: j in q ==> j.epoch == 0 || j.epoch == epoch
  }

  ghost predicate QueueOk(q: seq<Job>, epoch: nat) {
    && NoDuplicates(q)
    && NoneStale(q, epoch)
    && forall j :: j in q && j.hasCells ==> Interactive(j) && j.tileBatch != []
  }

  lemma {:induction false} RejectKeepsNoDuplicates(q: seq<Job>, p: JobTest)
    requires NoDuplicates(q)
    ensures NoDuplicates(Reject(q, p))
  {
    if q != [] {
      var n := |q| - 1;
      RejectKeepsNoDuplicates(q[..n], p);
      RejectMembers(q[..n], p);
      var r := Reject(q[..n], p);
      forall i | 0 <= i < |r| ensures !Supersedes(q[n], r[i]) {
        assert r[i] in q[..n];
      }
    }
  }

  lemma FrontKeepsNoDuplicates(q: seq<Job>, k: nat)
    requires NoDuplicates(q) && k < |q|
    ensures NoDuplicates(MoveToFront(q, k))
  {
    var r := MoveToFront(q, k);
    forall a, b | 0 <= a < b < |r| ensures !Supersedes(r[b], r[a]) {
      var x := if a == 0 then k else if a <= k then a - 1 else a;
      var y := if b <= k then b - 1 else b;
      assert r[a] == q[x] && r[b] == q[y] && x != y;
      assert Supersedes(q[x], q[y]) <==> Supersedes(q[y], q[x]);
    }
  }

  lemma RotateKeepsNoDuplicates(q: seq<Job>)
    requires NoDuplicates(q) && q != []
    ensures NoDuplicates(Rotate(q))
  {
    var r := q[1..] + [q[0]];
    forall a, b | 0 <= a < b < |r| ensures !Supersedes(r[b], r[a]) {
      var y := if b == |q| - 1 then 0 else b + 1;
      assert r[a] == q[a + 1] && r[b] == q[y];
      assert Supersedes(r[b], r[a]) <==> Supersedes(r[a], r[b]);
    }
    var alt := FirstFrom(r, NotFocusFull(), 0);
    if alt < |r| {
      FrontKeepsNoDuplicates(r, alt);
    }
  }

  /** Enqueueing drops exactly the superseded jobs and keeps the queue duplicate free. */
  lemma EnqueueKeepsQueueOk(q: seq<Job>, j: Job, front: bool, epoch: nat)
    requires QueueOk(q, epoch) && !StaleAt(epoch, j)
    requires j.hasCells ==> Interactive(j) && j.tileBatch != []
    ensures QueueOk(Enqueued(q, j, front), epoch)
  {
    var p := SupersededBy(j);
    RejectMembers(q, p);
    RejectKeepsNoDuplicates(q, p);
    var r := Reject(q, p);
    forall i | 0 <= i < |r| ensures !Supersedes(j, r[i]) && !Supersedes(r[i], j) {
      assert r[i] in r;
      assert Supersedes(j, r[i]) <==> Supersedes(r[i], j);
    }
  }

  lemma PushKeepsQueueOk(q: seq<Job>, j: Job, front: bool, epoch: nat)
    requires QueueOk(q, epoch) && !StaleAt(epoch, j) && j.kind != EnsureTiles && !j.hasCells
    ensures QueueOk(Push(q, j, front), epoch)
  {
    forall i | 0 <= i < |q| ensures !Supersedes(j, q[i]) && !Supersedes(q[i], j) {}
  }

  lemma RejectKeepsQueueOk(q: seq<Job>, p: JobTest, epoch: nat)
    requires QueueOk(q, epoch)
    ensures QueueOk(Reject(q, p), epoch)
  {
    RejectKeepsNoDuplicates(q, p);
    RejectMembers(q, p);
  }

  /** Bumping the epoch drops the stale jobs, so the new epoch finds none, wrapped or not. */
  lemma BumpKeepsQueueOk(q: seq<Job>, epoch: nat)
    requires QueueOk(q, epoch)
    ensures QueueOk(Reject(q, StaleTest(NextEpoch(epoch))), NextEpoch(epoch))
  {
    RejectKeepsQueueOk(q, StaleTest(NextEpoch(epoch)), epoch);
    RejectMembers(q, StaleTest(NextEpoch(epoch)));
  }

  /** The stronger reading, every epoch 0 or current, survives a bump exactly when the
      64-bit counter did not wrap or nothing with an epoch was queued. */
  lemma BumpKeepsEpochsCurrentIff(q: seq<Job>, epoch: nat)
    requires EpochsCurrent(q, epoch) && 1 <= epoch < EPOCH_LIMIT
    ensures EpochsCurrent(Reject(q, StaleTest(NextEpoch(epoch))), NextEpoch(epoch))
       <==> (epoch + 1 < EPOCH_LIMIT || forall j :: j in q ==> j.epoch == 0)
  {
    var live := NextEpoch(epoch);
    var t := StaleTest(live);
    var r := Reject(q, t);
    forall j | j in q ensures j in r <==> !StaleAt(live, j) { SplitMembers(q, t, j); }
    RejectMembers(q, t);
    if epoch + 1 < EPOCH_LIMIT {
      assert live == epoch + 1;
      assert EpochsCurrent(r, live);
    } else {
      assert live == 1;
      if EpochsCurrent(r, live) {
        forall j | j in q ensures j.epoch == 0 { assert j in r; }
      }
    }
  }

  lemma PreferKeepsQueueOk(q: seq<Job>, epoch: nat)
    requires QueueOk(q, epoch) && q != []
    ensures QueueOk(Prefer(q), epoch)
  {
    FrontKeepsNoDuplicates(q, Preferred(q));
    FrontMembers(q, Preferred(q));
  }

  lemma RotateKeepsQueueOk(p: seq<Job>, epoch: nat)
    requires QueueOk(p, epoch) && p != []
    ensures QueueOk(Rotate(p), epoch)
  {
    RotateKeepsNoDuplicates(p);
    var r := p[1..] + [p[0]];
    var alt := FirstFrom(r, NotFocusFull(), 0);
    if alt < |r| {
      FrontMembers(r, alt);
    }
  }

  /** Whatever a claim does, the queue it leaves is still well formed. */
  lemma ClaimKeepsQueueOk(q: seq<Job>, stop: bool, focus: int, epoch: nat, remote: bool, arch: ArchiveOf)
    requires QueueOk(q, epoch)
    ensures QueueOk(Left(Claim(q, stop, focus, epoch, remote, arch)), epoch)
  {
    if q != [] && FirstFrom(q, FreshTest(epoch), 0) == 0 {
      PreferKeepsQueueOk(q, epoch);
      FrontKeepsQueueOk(Prefer(q), stop, focus, epoch, remote, arch);
    }
  }

  lemma FrontKeepsQueueOk(p: seq<Job>, stop: bool, focus: int, epoch: nat, remote: bool, arch: ArchiveOf)
    requires QueueOk(p, epoch) && p != []
    ensures QueueOk(Left(ClaimFront(p, stop, focus, remote, arch)), epoch)
  {
    RotateKeepsQueueOk(p, epoch);
    RestKeepsQueueOk(p, epoch);
    RejectKeepsQueueOk(p[1..], JoinTest(p[0], arch), epoch);
  }

  lemma RestKeepsQueueOk(p: seq<Job>, epoch: nat)
    requires QueueOk(p, epoch) && p != []
    ensures QueueOk(p[1..], epoch)
  {
  }

  /** So the loop that skips stale jobs at the front never finds one. */
  lemma NeverStale(q: seq<Job>, stop: bool, focus: int, epoch: nat, remote: bool, arch: ArchiveOf)
    requires QueueOk(q, epoch)
    ensures !Claim(q, stop, focus, epoch, remote, arch).Stale?
  {
    if q != [] {
      assert q[0] in q;
    }
  }

  // ---- What gets claimed ----

  /** Priority: the claimed job is the first interactive tile job if there is one, else the
      first size probe, else the front; a size flood cannot starve tiles. */
  lemma ClaimPriority(q: seq<Job>, stop: bool, focus: int, epoch: nat, remote: bool, arch: ArchiveOf)
    requires Claim(q, stop, focus, epoch, remote, arch).Claimed?
    ensures q != [] && Claim(q, stop, focus, epoch, remote, arch).jobs[0] == q[Preferred(q)]
    ensures var k := Preferred(q);
      if exists i :: 0 <= i < |q| && Interactive(q[i])
      then Interactive(q[k]) && forall i :: 0 <= i < k ==> !Interactive(q[i])
      else if exists i :: 0 <= i < |q| && q[i].kind == ProbeSize
      then q[k].kind == ProbeSize && forall i :: 0 <= i < k ==> q[i].kind != ProbeSize
      else k == 0
  {
    var tile := FirstFrom(q, IsTile(), 0);
    var probe := FirstFrom(q, IsProbe(), 0);
    assert forall i :: 0 <= i < tile ==> !IsTile()(q[i]);
    assert forall i :: 0 <= i < probe ==> !IsProbe()(q[i]);
    assert tile < |q| ==> IsTile()(q[tile]);
    assert probe < |q| ==> IsProbe()(q[probe]);
  }

  /** A claimed pyramid stays under the cap, is alone in its batch, and leaves no
      interactive tile job and no size probe behind. */
  lemma ClaimedPyramidIsAlone(q: seq<Job>, stop: bool, focus: int, epoch: nat, remote: bool, arch: ArchiveOf)
    requires var r := Claim(q, stop, focus, epoch, remote, arch); r.Claimed? && FocusFull(r.jobs[0])
    ensures var r := Claim(q, stop, focus, epoch, remote, arch);
      && r.jobs == [r.jobs[0]] && focus < FOCUS_FULL_MAX_CONCURRENT
      && forall j :: j in q ==> !Interactive(j) && j.kind != ProbeSize
  {
    var p := Prefer(q);
    NoPreferenceBefore(q);
    FrontMembers(q, Preferred(q));
    NoneJoins(p[1..], p[0], arch);
  }

  /** Nothing joins a pyramid but interactive jobs. */
  lemma {:induction false} NoneJoins(q: seq<Job>, front: Job, arch: ArchiveOf)
    requires FocusFull(front) && forall j :: j in q ==> !Interactive(j)
    ensures Select(q, JoinTest(front, arch)) == []
  {
    if q != [] {
      NoneJoins(q[..|q| - 1], front, arch);
      assert q[|q| - 1] in q;
    }
  }

  lemma NoPreferenceBefore(q: seq<Job>)
    requires q != [] && FocusFull(Prefer(q)[0])
    ensures forall j :: j in q ==> !Interactive(j) && j.kind != ProbeSize
  {
    var tile := FirstFrom(q, IsTile(), 0);
    var probe := FirstFrom(q, IsProbe(), 0);
    forall j | j in q ensures !Interactive(j) && j.kind != ProbeSize {
      var i :| 0 <= i < |q| && q[i] == j;
      assert !IsTile()(q[i]) && !IsProbe()(q[i]);
    }
  }

  /** A job with per-cell replies never enters a coalesced batch; members of a batch share
      kind, archive and epoch, and none of the joined ones is a pyramid. */
  lemma CoalescedBatch(q: seq<Job>, stop: bool, focus: int, epoch: nat, remote: bool, arch: ArchiveOf)
    requires QueueOk(q, epoch)
    requires var r := Claim(q, stop, focus, epoch, remote, arch); r.Claimed? && r.coalesced
    ensures var r := Claim(q, stop, focus, epoch, remote, arch);
      && (forall j :: j in r.jobs ==> !j.hasCells && j.uri != ""
                                      && j.kind == r.jobs[0].kind && j.epoch == r.jobs[0].epoch
                                      && arch(j.uri).Some? && arch(j.uri).value.path == arch(r.jobs[0].uri).value.path)
      && (forall k :: 1 <= k < |r.jobs| ==> !FocusFull(r.jobs[k]))
  {
    PreferKeepsQueueOk(q, epoch);
    FrontMembers(q, Preferred(q));
    if FocusFull(Prefer(q)[0]) {
      NoPreferenceBefore(q);
    }
    JoinedJobs(Prefer(q), epoch, remote, arch);
  }

  lemma JoinedJobs(p: seq<Job>, epoch: nat, remote: bool, arch: ArchiveOf)
    requires QueueOk(p, epoch) && p != [] && Coalesces(p[0], remote, arch)
    requires FocusFull(p[0]) ==> forall j :: j in p ==> !Interactive(j)
    ensures var js := [p[0]] + Select(p[1..], JoinTest(p[0], arch));
      && (forall j :: j in js ==> !j.hasCells && j.uri != "" && j.kind == p[0].kind && j.epoch == p[0].epoch
                                  && arch(j.uri).Some? && arch(j.uri).value.path == arch(p[0].uri).value.path)
      && (forall k :: 1 <= k < |js| ==> !FocusFull(js[k]))
  {
    assert p[0] in p;
    var t := Select(p[1..], JoinTest(p[0], arch));
    SelectMembers(p[1..], JoinTest(p[0], arch));
    forall j | j in t ensures Joins(p[0], j, arch) && !j.hasCells {
      assert j in p[1..] && j in p;
    }
    forall k | 1 <= k < |[p[0]] + t| ensures !FocusFull(([p[0]] + t)[k]) {
      assert t[k - 1] in t;
    }
  }

  /** A rotation really unblocks the worker: its next pass neither rotates nor blocks. */
  lemma RotationUnblocks(q: seq<Job>, stop: bool, focus: int, epoch: nat, remote: bool, arch: ArchiveOf)
    requires Claim(q, stop, focus, epoch, remote, arch).Rotated?
    ensures var rest := Claim(q, stop, focus, epoch, remote, arch).rest;
      && rest != [] && !FocusFull(rest[0])
      && var again := Claim(rest, stop, focus, epoch, remote, arch);
         again.Claimed? || again.Abandoned? || again.Stale?
  {
    var p := Prefer(q);
    RotateUnblocks(p);
    var rest := Rotate(p);
    PreferFrontIsNotFocusFull(rest);
  }

  lemma RotateUnblocks(p: seq<Job>)
    requires p != [] && FirstFrom(p, NotFocusFull(), 1) < |p|
    ensures !FocusFull(Rotate(p)[0])
  {
    var k := FirstFrom(p, NotFocusFull(), 1);
    var r := p[1..] + [p[0]];
    assert r[k - 1] == p[k];
  }

  lemma PreferFrontIsNotFocusFull(q: seq<Job>)
    requires q != [] && !FocusFull(q[0])
    ensures !FocusFull(Prefer(q)[0])
  {
    var tile := FirstFrom(q, IsTile(), 0);
    var probe := FirstFrom(q, IsProbe(), 0);
    if tile < |q| {
      assert IsTile()(q[tile]);
    } else if probe < |q| {
      assert IsProbe()(q[probe]);
    }
  }

  /** The counters a claim adds: one per named job, one per pyramid. */
  lemma {:induction false} CountSplit(js: seq<Job>, j: Job)
    ensures CountNamed([j] + js) == CountNamed(js) + (if j.uri == "" then 0 else 1)
    ensures CountFocus([j] + js) == CountFocus(js) + (if FocusFull(j) then 1 else 0)
  {
    var n := |js| - 1;
    if js == [] {
      assert [j] + js == [j] && [j][..0] == [];
    } else {
      CountSplit(js[..n], j);
      assert ([j] + js)[..n + 1] == [j] + js[..n];
    }
  }

  lemma {:induction false} CountAllNamed(js: seq<Job>)
    requires forall j :: j in js ==> j.uri != ""
    ensures CountNamed(js) == |js|
  {
    if js != [] {
      CountAllNamed(js[..|js| - 1]);
    }
  }

  lemma {:induction false} CountNoFocus(js: seq<Job>)
    requires forall j :: j in js ==> !FocusFull(j)
    ensures CountFocus(js) == 0
  {
    if js != [] {
      CountNoFocus(js[..|js| - 1]);
    }
  }
}
