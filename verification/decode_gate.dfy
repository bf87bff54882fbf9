// The single-flight decode gate of one image (src/pdf_mupdf.cpp, counting_get_pixmap).
module DecodeGate {
  import opened Wrappers

  datatype Rect = Rect(x0: int, y0: int, x1: int, y1: int)

  /** A subarea and a subsampling factor: what is asked for, or what a decode delivered. */
  datatype Key = Key(rect: Rect, l2: nat)

  /** `id` stands for the address of the list node; `again` is history: the flight was started
      by a thread whose shared attempt had failed. */
  datatype Flight = Flight(id: nat, key: Key, done: bool, waiters: nat, result: Option<nat>,
                           delivered: Key, again: bool)

  // ---- What is asked for ----

  const SIZE_LIMIT: nat := 0x1_0000_0000_0000_0000

  function Pow2(n: nat): (r: nat)
    ensures r > 0
  {
    if n == 0 then 1 else 2 * Pow2(n - 1)
  }

  function Decoded(w: nat, h: nat, n: nat, l2: nat): nat {
    var f := Pow2(l2);
    ((w + f - 1) / f) * ((h + f - 1) / f) * (if n < 1 then 1 else n) % SIZE_LIMIT
  }

  predicate Inside(a: Rect, w: nat, h: nat) {
    a.x0 > 0 || a.y0 > 0 || a.x1 < w || a.y1 < h
  }

  /** A part of an image that fits the budget is decoded as the whole image. */
  function Widened(key: Key, w: nat, h: nat, n: nat, budget: nat): Key {
    if Inside(key.rect, w, h) && Decoded(w, h, n, key.l2) <= budget then Key(Rect(0, 0, w, h), key.l2) else key
  }

  /** So all cells of an image that fits the budget share one flight a factor, except requests
      that reach beyond the image on some side and are cut on none. */
  lemma CellsShareAFlight(a: Rect, b: Rect, l2: nat, w: nat, h: nat, n: nat, budget: nat)
    requires Decoded(w, h, n, l2) <= budget
    requires a.x0 >= 0 && a.y0 >= 0 && a.x1 <= w && a.y1 <= h
    requires b.x0 >= 0 && b.y0 >= 0 && b.x1 <= w && b.y1 <= h
    ensures Widened(Key(a, l2), w, h, n, budget) == Widened(Key(b, l2), w, h, n, budget)
  {
  }

  // ---- The flights list ----

  function FindKey(fs: seq<Flight>, key: Key): (k: nat)
    ensures k <= |fs| && (k < |fs| ==> fs[k].key == key)
    ensures forall i :: 0 <= i < k ==> fs[i].key != key
  {
    if fs == [] || fs[0].key == key then 0 else 1 + FindKey(fs[1..], key)
  }

  function FindId(fs: seq<Flight>, id: nat): (k: nat)
    ensures k <= |fs| && (k < |fs| ==> fs[k].id == id)
    ensures forall i :: 0 <= i < k ==> fs[i].id != id
  {
    if fs == [] || fs[0].id == id then 0 else 1 + FindId(fs[1..], id)
  }

  function Started(id: nat, key: Key, again: bool): Flight {
    Flight(id, key, false, 0, None, key, again)
  }

  function Without(fs: seq<Flight>, k: nat): seq<Flight>
    requires k < |fs|
  {
    fs[..k] + fs[k + 1..]
  }

  /** A waiter leaves a flight; the last one takes it off the list. */
  function Left(fs: seq<Flight>, k: nat): seq<Flight>
    requires k < |fs| && fs[k].waiters > 0
  {
    if fs[k].waiters == 1 then Without(fs, k) else fs[k := fs[k].(waiters := fs[k].waiters - 1)]
  }

  function Landed(f: Flight, delivered: Key, snapshot: Option<nat>): Flight {
    f.(done := true, delivered := delivered,
       result := if f.waiters > 0 && snapshot.Some? then snapshot else f.result)
  }

  /** The owner publishes: without waiters the flight goes away at once. */
  function Published(fs: seq<Flight>, k: nat, delivered: Key, snapshot: Option<nat>): seq<Flight>
    requires k < |fs|
  {
    if fs[k].waiters == 0 then Without(fs, k) else fs[k := Landed(fs[k], delivered, snapshot)]
  }

  /** The gate's list as the critical sections change it in place. */
  class Gate {
    var flights: seq<Flight>
    var nextId: nat

    constructor ()
      ensures flights == [] && nextId == 0
    {
      flights, nextId := [], 0;
    }

    /** The scan: join the first flight for this key, or start one. */
    method Enter(key: Key) returns (joined: Option<nat>)
      modifies this
      ensures var k := FindKey(old(flights), key);
        if k < |old(flights)| then
          && joined == Some(old(flights)[k].id) && nextId == old(nextId)
          && flights == old(flights)[k := old(flights)[k].(waiters := old(flights)[k].waiters + 1)]
        else
          joined == None && nextId == old(nextId) + 1
          && flights == old(flights) + [Started(old(nextId), key, false)]
    {
      var i := 0;
      while i < |flights|
        invariant 0 <= i <= |flights| && flights == old(flights) && nextId == old(nextId)
        invariant FindKey(flights, key) == i + FindKey(flights[i..], key)
      {
        assert flights[i..][0] == flights[i] && flights[i..][1..] == flights[i + 1..];
        if flights[i].key.l2 != key.l2 || flights[i].key.rect != key.rect {
          i := i + 1;
          continue;
        }
        flights := flights[i := flights[i].(waiters := flights[i].waiters + 1)];
        return Some(flights[i].id);
      }
      Start(key, false);
      return None;
    }

    method Start(key: Key, again: bool)
      modifies this
      ensures flights == old(flights) + [Started(old(nextId), key, again)] && nextId == old(nextId) + 1
    {
      flights := flights + [Started(nextId, key, again)];
      nextId := nextId + 1;
    }

    /** The erase loop of both critical sections that remove a flight. */
    method Erase(id: nat)
      requires FindId(flights, id) < |flights|
      modifies this`flights
      ensures flights == Without(old(flights), FindId(old(flights), id))
    {
      var i := 0;
      while i < |flights|
        invariant 0 <= i <= |flights| && flights == old(flights)
        invariant FindId(flights, id) == i + FindId(flights[i..], id)
      {
        assert flights[i..][0] == flights[i] && flights[i..][1..] == flights[i + 1..];
        if flights[i].id == id {
          flights := flights[..i] + flights[i + 1..];
          return;
        }
        i := i + 1;
      }
    }

    /** A waiter after its flight is done: returns what it keeps and whether it was the last. */
    method Wake(id: nat) returns (shared: Option<nat>, delivered: Key, last: bool)
      requires var k := FindId(flights, id); k < |flights| && flights[k].done && flights[k].waiters > 0
      modifies this`flights
      ensures var k := FindId(old(flights), id);
        && flights == Left(old(flights), k) && last == (old(flights)[k].waiters == 1)
        && shared == old(flights)[k].result && delivered == old(flights)[k].delivered
    {
      var k := FindId(flights, id);
      shared, delivered := flights[k].result, flights[k].delivered;
      last := flights[k].waiters == 1;
      ghost var was := flights;
      flights := flights[k := flights[k].(waiters := flights[k].waiters - 1)];
      SameIds(was, flights, id);
      if last {
        Erase(id);
        assert flights == Without(was, k);
      }
    }

    /** The owner's second critical section. */
    method Publish(id: nat, delivered: Key, snapshot: Option<nat>) returns (taken: bool)
      requires FindId(flights, id) < |flights|
      modifies this`flights
      ensures var k := FindId(old(flights), id);
        && flights == Published(old(flights), k, delivered, snapshot)
        && taken == (old(flights)[k].waiters > 0 && snapshot.Some?)
    {
      var k := FindId(flights, id);
      ghost var was := flights;
      flights := flights[k := flights[k].(done := true, delivered := delivered)];
      SameIds(was, flights, id);
      taken := false;
      if flights[k].waiters > 0 && snapshot.Some? {
        flights := flights[k := flights[k].(result := snapshot)];
        taken := true;
      } else if flights[k].waiters == 0 {
        Erase(id);
        assert flights == Without(was, k);
      }
    }
  }

  lemma {:induction false} SameIds(a: seq<Flight>, b: seq<Flight>, id: nat)
    requires |a| == |b| && forall i :: 0 <= i < |a| ==> a[i].id == b[i].id
    ensures FindId(a, id) == FindId(b, id)
  {
    if a != [] {
      SameIds(a[1..], b[1..], id);
    }
  }

  // ---- Threads, pixmaps and their references ----

  /** `touched`: some consumer has subsampled the pixmap in place. */
  datatype Pixmap = Pixmap(refs: nat, touched: bool)

  /** Program counter of a rendering thread inside counting_get_pixmap and its caller. */
  datatype Pc =
    | Idle
    | Parked(fid: nat, key: Key)
    | Took(shared: Option<nat>, delivered: Key, key: Key)
    | Retrying(key: Key)
    | Decoding(fid: nat, key: Key)
    | Ready(fid: nat, pix: Option<nat>, delivered: Key)
    | Snapped(fid: nat, pix: Option<nat>, snapshot: Option<nat>, delivered: Key)
    | Leaving(pix: Option<nat>, unused: Option<nat>, delivered: Key)
    | Consuming(p: nat, delivered: Key)

  /** `erased` counts, for each flight ever started, how often it was taken off the list;
      `failures` counts failed decodes and copies. Both are history. */
  datatype State = State(flights: seq<Flight>, pcs: seq<Pc>, pixmaps: seq<Pixmap>, erased: seq<nat>, failures: nat)

  datatype Label =
    | Enter(t: nat, key: Key)
    | Wake(t: nat)
    | Copy(t: nat, ok: bool)
    | Restart(t: nat)
    | Decode(t: nat, ok: bool, delivered: Key)
    | Snapshot(t: nat, ok: bool)
    | Publish(t: nat)
    | Leave(t: nat)
    | Subsample(t: nat)
    | Finish(t: nat)

  predicate Enabled(s: State, l: Label) {
    l.t < |s.pcs| &&
    var pc := s.pcs[l.t];
    match l
    case Enter(_, _) => pc.Idle?
    case Wake(_) => pc.Parked? && FindId(s.flights, pc.fid) < |s.flights| && s.flights[FindId(s.flights, pc.fid)].done
    case Copy(_, _) => pc.Took?
    case Restart(_) => pc.Retrying?
    case Decode(_, _, _) => pc.Decoding?
    case Snapshot(_, _) => pc.Ready?
    case Publish(_) => pc.Snapped?
    case Leave(_) => pc.Leaving?
    case Subsample(_) => pc.Consuming? && pc.delivered.l2 > 0
    case Finish(_) => pc.Consuming?
  }

  function SetPc(s: State, t: nat, pc: Pc): State
    requires t < |s.pcs|
  {
    s.(pcs := s.pcs[t := pc])
  }

  function Keep(s: State, p: Option<nat>): State {
    if p.Some? && p.value < |s.pixmaps|
    then s.(pixmaps := s.pixmaps[p.value := s.pixmaps[p.value].(refs := s.pixmaps[p.value].refs + 1)]) else s
  }

  function Drop(s: State, p: Option<nat>): State {
    if p.Some? && p.value < |s.pixmaps| && s.pixmaps[p.value].refs > 0
    then s.(pixmaps := s.pixmaps[p.value := s.pixmaps[p.value].(refs := s.pixmaps[p.value].refs - 1)]) else s
  }

  function NewPixmap(s: State): State {
    s.(pixmaps := s.pixmaps + [Pixmap(1, false)])
  }

  function Failed(s: State): State { s.(failures := s.failures + 1) }

  function StartFlight(s: State, t: nat, key: Key, again: bool): State
    requires t < |s.pcs|
  {
    SetPc(s.(flights := s.flights + [Started(|s.erased|, key, again)], erased := s.erased + [0]),
          t, Decoding(|s.erased|, key))
  }

  function Erased(s: State, id: nat): State {
    if id < |s.erased| then s.(erased := s.erased[id := s.erased[id] + 1]) else s
  }

  /** The last critical section of a waiter. */
  function WakeStep(s: State, t: nat): State
    requires Enabled(s, Wake(t))
  {
    var pc := s.pcs[t];
    var k := FindId(s.flights, pc.fid);
    var f := s.flights[k];
    if f.waiters == 0 then s
    else
      var s1 := SetPc(Keep(s, f.result).(flights := Left(s.flights, k)), t, Took(f.result, f.delivered, pc.key));
      if f.waiters == 1 then Erased(Drop(s1, f.result), pc.fid) else s1
  }

  /** Copying what was shared, unlocked: a private copy when the caller will subsample. */
  function CopyStep(s: State, t: nat, ok: bool): State
    requires Enabled(s, Copy(t, ok))
  {
    var pc := s.pcs[t];
    if pc.shared.None? then SetPc(s, t, Retrying(pc.key))
    else if pc.delivered.l2 == 0 then SetPc(s, t, Consuming(pc.shared.value, pc.delivered))
    else if ok then SetPc(Drop(NewPixmap(s), pc.shared), t, Consuming(|s.pixmaps|, pc.delivered))
    else Failed(SetPc(Drop(s, pc.shared), t, Retrying(pc.key)))
  }

  function SnapshotStep(s: State, t: nat, ok: bool): State
    requires Enabled(s, Snapshot(t, ok))
  {
    var pc := s.pcs[t];
    if pc.pix.None? then SetPc(s, t, Snapped(pc.fid, None, None, pc.delivered))
    else if pc.delivered.l2 == 0 then SetPc(Keep(s, pc.pix), t, Snapped(pc.fid, pc.pix, pc.pix, pc.delivered))
    else if ok then SetPc(NewPixmap(s), t, Snapped(pc.fid, pc.pix, Some(|s.pixmaps|), pc.delivered))
    else Failed(SetPc(s, t, Snapped(pc.fid, pc.pix, None, pc.delivered)))
  }

  function PublishStep(s: State, t: nat): State
    requires Enabled(s, Publish(t))
  {
    var pc := s.pcs[t];
    var k := FindId(s.flights, pc.fid);
    if k == |s.flights| then s
    else
      var f := s.flights[k];
      var s1 := s.(flights := Published(s.flights, k, pc.delivered, pc.snapshot));
      if f.waiters == 0 then Erased(SetPc(s1, t, Leaving(pc.pix, pc.snapshot, pc.delivered)), pc.fid)
      else SetPc(s1, t, Leaving(pc.pix, None, pc.delivered))
  }

  function Step(s: State, l: Label): State
    requires Enabled(s, l)
  {
    var pc := s.pcs[l.t];
    match l
    case Enter(t, key) =>
      var k := FindKey(s.flights, key);
      if k < |s.flights| then
        SetPc(s.(flights := s.flights[k := s.flights[k].(waiters := s.flights[k].waiters + 1)]), t,
              Parked(s.flights[k].id, key))
      else StartFlight(s, t, key, false)
    case Wake(t) => WakeStep(s, t)
    case Copy(t, ok) => CopyStep(s, t, ok)
    case Restart(t) => StartFlight(s, t, pc.key, true)
    case Decode(t, ok, delivered) =>
      if ok then SetPc(NewPixmap(s), t, Ready(pc.fid, Some(|s.pixmaps|), delivered))
      else Failed(SetPc(s, t, Ready(pc.fid, None, delivered)))
    case Snapshot(t, ok) => SnapshotStep(s, t, ok)
    case Publish(t) => PublishStep(s, t)
    case Leave(t) =>
      SetPc(Drop(s, pc.unused), t, if pc.pix.Some? then Consuming(pc.pix.value, pc.delivered) else Idle)
    case Subsample(t) =>
      if pc.p < |s.pixmaps| then s.(pixmaps := s.pixmaps[pc.p := s.pixmaps[pc.p].(touched := true)]) else s
    case Finish(t) => SetPc(Drop(s, Some(pc.p)), t, Idle)
  }

  function Init(threads: nat): State {
    State([], seq(threads, i => Idle), [], [], 0)
  }

  /** A schedule names the thread and step to try next; a step that is not enabled is skipped. */
  function Run(threads: nat, schedule: seq<Label>): State {
    if schedule == [] then Init(threads)
    else
      var s := Run(threads, schedule[..|schedule| - 1]);
      var l := schedule[|schedule| - 1];
      if Enabled(s, l) then Step(s, l) else s
  }
}
