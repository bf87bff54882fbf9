// What the decode gate keeps over every interleaving of rendering threads.
module DecodeGateProof {
  import opened Wrappers
  import opened DecodeGate

  // ---- Counting over threads ----

  type Measure = Pc -> nat

  function Sum(pcs: seq<Pc>, m: Measure): nat {
    if pcs == [] then 0 else Sum(pcs[..|pcs| - 1], m) + m(pcs[|pcs| - 1])
  }

  lemma {:induction false} SumUpdate(pcs: seq<Pc>, t: nat, pc: Pc, m: Measure)
    requires t < |pcs|
    ensures Sum(pcs[t := pc], m) == Sum(pcs, m) - m(pcs[t]) + m(pc) && Sum(pcs, m) >= m(pcs[t])
  {
    var n := |pcs| - 1;
    if t == n {
      assert pcs[t := pc][..n] == pcs[..n];
    } else {
      SumUpdate(pcs[..n], t, pc, m);
      assert pcs[t := pc][..n] == pcs[..n][t := pc];
    }
  }

  lemma SumTwo(pcs: seq<Pc>, t: nat, u: nat, m: Measure)
    requires t < |pcs| && u < |pcs| && t != u && m(Idle) == 0
    ensures Sum(pcs, m) >= m(pcs[t]) + m(pcs[u])
  {
    SumUpdate(pcs, t, Idle, m);
    SumUpdate(pcs[t := Idle], u, Idle, m);
  }

  lemma {:induction false} SumPositive(pcs: seq<Pc>, m: Measure)
    ensures Sum(pcs, m) > 0 <==> exists t :: 0 <= t < |pcs| && m(pcs[t]) > 0
  {
    if pcs != [] {
      SumPositive(pcs[..|pcs| - 1], m);
    }
  }

  lemma {:induction false} SumIdle(pcs: seq<Pc>, m: Measure)
    requires (forall t :: 0 <= t < |pcs| ==> pcs[t] == Idle) && m(Idle) == 0
    ensures Sum(pcs, m) == 0
  {
    if pcs != [] {
      SumIdle(pcs[..|pcs| - 1], m);
    }
  }

  function ParkedAt(pc: Pc, fid: nat): nat { if pc.Parked? && pc.fid == fid then 1 else 0 }

  function OwnerAt(pc: Pc, fid: nat): nat {
    if (pc.Decoding? || pc.Ready? || pc.Snapped?) && pc.fid == fid then 1 else 0
  }

  function Same(a: Option<nat>, p: nat): nat { if a == Some(p) then 1 else 0 }

  /** How many references to pixmap p the thread owns. */
  function HeldAt(pc: Pc, p: nat): nat {
    match pc
    case Took(shared, _, _) => Same(shared, p)
    case Ready(_, pix, _) => Same(pix, p)
    case Snapped(_, pix, snapshot, _) => Same(pix, p) + Same(snapshot, p)
    case Leaving(pix, unused, _) => Same(pix, p) + Same(unused, p)
    case Consuming(q, _) => if q == p then 1 else 0
    case _ => 0
  }

  function Parking(fid: nat): Measure { pc => ParkedAt(pc, fid) }

  function Owning(fid: nat): Measure { pc => OwnerAt(pc, fid) }

  function Holding(p: nat): Measure { pc => HeldAt(pc, p) }

  // ---- Looking flights up ----

  function Lookup(fs: seq<Flight>, id: nat): Option<Flight> {
    if FindId(fs, id) < |fs| then Some(fs[FindId(fs, id)]) else None
  }

  ghost predicate Distinct(fs: seq<Flight>) {
    forall i, k :: 0 <= i < k < |fs| ==> fs[i].id != fs[k].id
  }

  lemma LookupAt(fs: seq<Flight>, k: nat)
    requires Distinct(fs) && k < |fs|
    ensures FindId(fs, fs[k].id) == k && Lookup(fs, fs[k].id) == Some(fs[k])
  {
  }

  lemma LookupUpdate(fs: seq<Flight>, k: nat, f: Flight, id: nat)
    requires Distinct(fs) && k < |fs| && f.id == fs[k].id
    ensures Distinct(fs[k := f])
    ensures Lookup(fs[k := f], id) == if id == f.id then Some(f) else Lookup(fs, id)
  {
    SameIds(fs, fs[k := f], id);
    LookupAt(fs, k);
  }

  lemma LookupAppend(fs: seq<Flight>, f: Flight, id: nat)
    requires Distinct(fs) && Lookup(fs, f.id) == None
    ensures Distinct(fs + [f])
    ensures Lookup(fs + [f], id) == if id == f.id then Some(f) else Lookup(fs, id)
  {
    var r := fs + [f];
    assert forall i :: 0 <= i < |fs| ==> r[i] == fs[i] && fs[i].id != f.id;
    if FindId(fs, id) < |fs| {
      LookupAt(r, FindId(fs, id));
    } else if id == f.id {
      LookupAt(r, |fs|);
    } else {
      assert forall i :: 0 <= i < |r| ==> r[i].id != id;
    }
  }

  lemma LookupWithout(fs: seq<Flight>, k: nat, id: nat)
    requires Distinct(fs) && k < |fs|
    ensures Distinct(Without(fs, k))
    ensures Lookup(Without(fs, k), id) == if id == fs[k].id then None else Lookup(fs, id)
  {
    var r := Without(fs, k);
    assert forall i :: 0 <= i < |r| ==> r[i] == fs[if i < k then i else i + 1];
    var n := FindId(fs, id);
    if id == fs[k].id || n == |fs| {
      assert forall i :: 0 <= i < |r| ==> r[i].id != id;
    } else {
      LookupAt(r, if n < k then n else n - 1);
    }
  }

  // ---- Flights and the threads on them ----

  /** A listed flight: its waiters are the parked threads, it has an owner exactly until it is
      done, and it stays only while somebody is on it. An unlisted one has nobody. */
  ghost predicate FlightOk(s: State, id: nat) {
    match Lookup(s.flights, id)
    case Some(f) =>
      && id < |s.erased| && s.erased[id] == 0
      && f.waiters == Sum(s.pcs, Parking(id))
      && Sum(s.pcs, Owning(id)) == (if f.done then 0 else 1)
      && (f.done ==> f.waiters > 0)
      && (f.result.Some? ==> f.done)
    case None =>
      && Sum(s.pcs, Parking(id)) == 0 && Sum(s.pcs, Owning(id)) == 0
      && (id < |s.erased| ==> s.erased[id] == 1)
  }

  /** Threads and flights agree on what is decoded. */
  ghost predicate PcOk(fs: seq<Flight>, pc: Pc) {
    pc.Parked? || pc.Decoding? ==> Lookup(fs, pc.fid).Some? && Lookup(fs, pc.fid).value.key == pc.key
  }

  ghost predicate FlightsOk(s: State) {
    && Distinct(s.flights)
    && (forall id :: FlightOk(s, id))
    && (forall t :: 0 <= t < |s.pcs| ==> PcOk(s.flights, s.pcs[t]))
  }

  /** A step of thread t that changes one flight and leaves every other alone. */
  lemma OneFlight(s: State, s': State, t: nat, fid: nat, now: Option<Flight>)
    requires FlightsOk(s) && t < |s.pcs| && |s'.pcs| == |s.pcs| && s'.pcs == s.pcs[t := s'.pcs[t]]
    requires Distinct(s'.flights)
    requires forall id :: Lookup(s'.flights, id) == if id == fid then now else Lookup(s.flights, id)
    requires FlightOk(s', fid) && PcOk(s'.flights, s'.pcs[t])
    requires forall id: nat :: id != fid ==>
               && ParkedAt(s'.pcs[t], id) == ParkedAt(s.pcs[t], id) && OwnerAt(s'.pcs[t], id) == OwnerAt(s.pcs[t], id)
               && (id < |s.erased| <==> id < |s'.erased|) && (id < |s.erased| ==> s'.erased[id] == s.erased[id])
    requires forall u :: 0 <= u < |s.pcs| && u != t
                         && (s.pcs[u].Parked? || s.pcs[u].Decoding?) && s.pcs[u].fid == fid ==>
               Lookup(s.flights, fid).Some? && now.Some? && now.value.key == Lookup(s.flights, fid).value.key
    ensures FlightsOk(s')
  {
    forall id ensures FlightOk(s', id) {
      if id != fid {
        assert FlightOk(s, id);
        SumUpdate(s.pcs, t, s'.pcs[t], Parking(id));
        SumUpdate(s.pcs, t, s'.pcs[t], Owning(id));
      }
    }
    forall u | 0 <= u < |s'.pcs| ensures PcOk(s'.flights, s'.pcs[u]) {
      if u != t { assert PcOk(s.flights, s.pcs[u]); }
    }
  }

  /** A step inside a thread that neither parks, owns nor touches the list. */
  lemma FlightsStay(s: State, s': State, t: nat)
    requires FlightsOk(s) && t < |s.pcs| && |s'.pcs| == |s.pcs|
    requires s'.flights == s.flights && s'.erased == s.erased && s'.pcs == s.pcs[t := s'.pcs[t]]
    requires !s'.pcs[t].Parked? && !s'.pcs[t].Decoding?
    requires forall id :: ParkedAt(s'.pcs[t], id) == ParkedAt(s.pcs[t], id)
    requires forall id :: OwnerAt(s'.pcs[t], id) == OwnerAt(s.pcs[t], id)
    ensures FlightsOk(s')
  {
    assert FlightOk(s, 0);
    SumUpdate(s.pcs, t, s'.pcs[t], Parking(0));
    SumUpdate(s.pcs, t, s'.pcs[t], Owning(0));
    forall u | 0 <= u < |s.pcs| && u != t && (s.pcs[u].Parked? || s.pcs[u].Decoding?) && s.pcs[u].fid == 0
      ensures Lookup(s.flights, 0).Some?
    {
      assert PcOk(s.flights, s.pcs[u]);
    }
    OneFlight(s, s', t, 0, Lookup(s.flights, 0));
  }

  lemma JoinKeeps(s: State, t: nat, key: Key)
    requires FlightsOk(s) && Enabled(s, Enter(t, key)) && FindKey(s.flights, key) < |s.flights|
    ensures FlightsOk(Step(s, Enter(t, key)))
  {
    var s' := Step(s, Enter(t, key));
    var k := FindKey(s.flights, key);
    var f := s.flights[k];
    var f' := f.(waiters := f.waiters + 1);
    LookupAt(s.flights, k);
    assert FlightOk(s, f.id);
    forall id ensures Lookup(s'.flights, id) == if id == f.id then Some(f') else Lookup(s.flights, id) {
      LookupUpdate(s.flights, k, f', id);
    }
    LookupUpdate(s.flights, k, f', f.id);
    SumUpdate(s.pcs, t, s'.pcs[t], Parking(f.id));
    SumUpdate(s.pcs, t, s'.pcs[t], Owning(f.id));
    OneFlight(s, s', t, f.id, Some(f'));
  }

  lemma StartKeeps(s: State, t: nat, key: Key, again: bool)
    requires FlightsOk(s) && t < |s.pcs| && (s.pcs[t].Idle? || s.pcs[t].Retrying?)
    ensures FlightsOk(StartFlight(s, t, key, again))
  {
    var s' := StartFlight(s, t, key, again);
    var f := Started(|s.erased|, key, again);
    assert FlightOk(s, f.id);
    forall id ensures Lookup(s'.flights, id) == if id == f.id then Some(f) else Lookup(s.flights, id) {
      LookupAppend(s.flights, f, id);
    }
    LookupAppend(s.flights, f, f.id);
    SumUpdate(s.pcs, t, s'.pcs[t], Parking(f.id));
    SumUpdate(s.pcs, t, s'.pcs[t], Owning(f.id));
    forall u | 0 <= u < |s.pcs| && (s.pcs[u].Parked? || s.pcs[u].Decoding?) ensures s.pcs[u].fid != f.id {
      assert PcOk(s.flights, s.pcs[u]);
    }
    OneFlight(s, s', t, f.id, Some(f));
  }

  /** Waking only concerns the flight of the waiter. */
  lemma WakeShape(s: State, t: nat)
    requires FlightsOk(s) && Enabled(s, Wake(t))
    ensures var s' := WakeStep(s, t); var pc := s.pcs[t];
      && Lookup(s.flights, pc.fid).Some? && var f := Lookup(s.flights, pc.fid).value;
      && f.waiters > 0 && f.id == pc.fid && FindId(s.flights, pc.fid) < |s.flights|
      && s'.pcs == s.pcs[t := Took(f.result, f.delivered, pc.key)]
      && s'.flights == Left(s.flights, FindId(s.flights, pc.fid))
      && s'.erased == (
           if f.waiters == 1 && pc.fid < |s.erased| then s.erased[pc.fid := s.erased[pc.fid] + 1] else s.erased)
      && s'.failures == s.failures
  {
    var pc := s.pcs[t];
    assert FlightOk(s, pc.fid);
    SumPositive(s.pcs, Parking(pc.fid));
    var f := Lookup(s.flights, pc.fid).value;
    KeepDropFrame(s, f.result);
  }

  lemma KeepDropFrame(s: State, p: Option<nat>)
    ensures Keep(s, p) == s.(pixmaps := Keep(s, p).pixmaps)
    ensures Drop(s, p) == s.(pixmaps := Drop(s, p).pixmaps)
  {
  }

  function AfterLeave(f: Flight): Option<Flight>
    requires f.waiters > 0
  {
    if f.waiters == 1 then None else Some(f.(waiters := f.waiters - 1))
  }

  lemma LookupLeft(fs: seq<Flight>, k: nat)
    requires Distinct(fs) && k < |fs| && fs[k].waiters > 0
    ensures Distinct(Left(fs, k))
    ensures forall id :: Lookup(Left(fs, k), id) == if id == fs[k].id then AfterLeave(fs[k]) else Lookup(fs, id)
  {
    var f := fs[k].(waiters := fs[k].waiters - 1);
    LookupWithout(fs, k, 0);
    LookupUpdate(fs, k, f, 0);
    forall id ensures Lookup(Left(fs, k), id) == if id == fs[k].id then AfterLeave(fs[k]) else Lookup(fs, id) {
      LookupWithout(fs, k, id);
      LookupUpdate(fs, k, f, id);
    }
  }

  lemma WakeFlightOk(s: State, t: nat)
    requires FlightsOk(s) && Enabled(s, Wake(t))
    ensures FlightOk(WakeStep(s, t), s.pcs[t].fid)
  {
    WakeShape(s, t);
    var s' := WakeStep(s, t);
    var fid := s.pcs[t].fid;
    LookupLeft(s.flights, FindId(s.flights, fid));
    assert FlightOk(s, fid);
    SumUpdate(s.pcs, t, s'.pcs[t], Parking(fid));
    SumUpdate(s.pcs, t, s'.pcs[t], Owning(fid));
  }

  lemma WakeKeeps(s: State, t: nat)
    requires FlightsOk(s) && Enabled(s, Wake(t))
    ensures FlightsOk(WakeStep(s, t))
  {
    WakeShape(s, t);
    WakeFlightOk(s, t);
    var k := FindId(s.flights, s.pcs[t].fid);
    LookupLeft(s.flights, k);
    LeaverAlone(s, t);
    OneFlight(s, WakeStep(s, t), t, s.pcs[t].fid, AfterLeave(s.flights[k]));
  }

  /** When the last waiter leaves a finished flight, nobody else refers to it. */
  lemma LeaverAlone(s: State, t: nat)
    requires FlightsOk(s) && Enabled(s, Wake(t))
    ensures var f := s.flights[FindId(s.flights, s.pcs[t].fid)];
      f.waiters == 1 ==> forall u :: 0 <= u < |s.pcs| && u != t ==>
        ParkedAt(s.pcs[u], s.pcs[t].fid) == 0 && OwnerAt(s.pcs[u], s.pcs[t].fid) == 0
  {
    var fid := s.pcs[t].fid;
    assert FlightOk(s, fid);
    forall u | 0 <= u < |s.pcs| && u != t && s.flights[FindId(s.flights, fid)].waiters == 1
      ensures ParkedAt(s.pcs[u], fid) == 0 && OwnerAt(s.pcs[u], fid) == 0
    {
      SumTwo(s.pcs, t, u, Parking(fid));
      SumUpdate(s.pcs, u, Idle, Owning(fid));
    }
  }

  lemma OwnerListed(s: State, t: nat)
    requires FlightsOk(s) && t < |s.pcs| && (s.pcs[t].Decoding? || s.pcs[t].Ready? || s.pcs[t].Snapped?)
    ensures var fid := s.pcs[t].fid;
      && Lookup(s.flights, fid).Some? && !Lookup(s.flights, fid).value.done
      && fid < |s.erased| && Lookup(s.flights, fid).value.id == fid
      && (forall u :: 0 <= u < |s.pcs| && u != t ==> OwnerAt(s.pcs[u], fid) == 0)
      && (Lookup(s.flights, fid).value.waiters == 0 ==> forall u :: 0 <= u < |s.pcs| ==> ParkedAt(s.pcs[u], fid) == 0)
  {
    var fid := s.pcs[t].fid;
    assert FlightOk(s, fid);
    SumUpdate(s.pcs, t, Idle, Owning(fid));
    forall u | 0 <= u < |s.pcs| && u != t ensures OwnerAt(s.pcs[u], fid) == 0 {
      SumTwo(s.pcs, t, u, Owning(fid));
    }
    forall u | 0 <= u < |s.pcs| && Lookup(s.flights, fid).value.waiters == 0 ensures ParkedAt(s.pcs[u], fid) == 0 {
      SumUpdate(s.pcs, u, Idle, Parking(fid));
    }
  }

  function AfterPublish(f: Flight, delivered: Key, snapshot: Option<nat>): Option<Flight> {
    if f.waiters == 0 then None else Some(Landed(f, delivered, snapshot))
  }

  lemma LookupPublished(fs: seq<Flight>, k: nat, delivered: Key, snapshot: Option<nat>)
    requires Distinct(fs) && k < |fs|
    ensures Distinct(Published(fs, k, delivered, snapshot))
    ensures var fs' := Published(fs, k, delivered, snapshot);
      forall id :: Lookup(fs', id)
        == if id == fs[k].id then AfterPublish(fs[k], delivered, snapshot) else Lookup(fs, id)
  {
    var f := Landed(fs[k], delivered, snapshot);
    LookupWithout(fs, k, 0);
    LookupUpdate(fs, k, f, 0);
    forall id ensures Lookup(Published(fs, k, delivered, snapshot), id) ==
      if id == fs[k].id then AfterPublish(fs[k], delivered, snapshot) else Lookup(fs, id)
    {
      LookupWithout(fs, k, id);
      LookupUpdate(fs, k, f, id);
    }
  }

  lemma PublishShape(s: State, t: nat)
    requires FlightsOk(s) && Enabled(s, Publish(t))
    ensures var s' := PublishStep(s, t); var pc := s.pcs[t]; var k := FindId(s.flights, pc.fid);
      && k < |s.flights| && s.flights[k].id == pc.fid && !s.flights[k].done && pc.fid < |s.erased|
      && s'.flights == Published(s.flights, k, pc.delivered, pc.snapshot)
      && s'.pcs == s.pcs[t := Leaving(pc.pix, if s.flights[k].waiters == 0 then pc.snapshot else None, pc.delivered)]
      && s'.erased == (if s.flights[k].waiters == 0 then s.erased[pc.fid := s.erased[pc.fid] + 1] else s.erased)
      && s'.pixmaps == s.pixmaps && s'.failures == s.failures
  {
    OwnerListed(s, t);
  }

  lemma PublishKeeps(s: State, t: nat)
    requires FlightsOk(s) && Enabled(s, Publish(t))
    ensures FlightsOk(PublishStep(s, t))
  {
    OwnerListed(s, t);
    PublishShape(s, t);
    var pc := s.pcs[t];
    var s' := PublishStep(s, t);
    var k := FindId(s.flights, pc.fid);
    LookupPublished(s.flights, k, pc.delivered, pc.snapshot);
    assert FlightOk(s, pc.fid);
    SumUpdate(s.pcs, t, s'.pcs[t], Parking(pc.fid));
    SumUpdate(s.pcs, t, s'.pcs[t], Owning(pc.fid));
    OneFlight(s, s', t, pc.fid, AfterPublish(s.flights[k], pc.delivered, pc.snapshot));
  }

  lemma InsideKeeps(s: State, l: Label)
    requires FlightsOk(s) && Enabled(s, l) && !l.Enter? && !l.Wake? && !l.Restart? && !l.Publish?
    ensures FlightsOk(Step(s, l))
  {
    FlightsStay(s, Step(s, l), l.t);
  }

  lemma StepKeepsFlights(s: State, l: Label)
    requires FlightsOk(s) && Enabled(s, l)
    ensures FlightsOk(Step(s, l))
  {
    match l
    case Enter(t, key) =>
      if FindKey(s.flights, key) < |s.flights| { JoinKeeps(s, t, key); } else { StartKeeps(s, t, key, false); }
    case Wake(t) => WakeKeeps(s, t);
    case Restart(t) => StartKeeps(s, t, s.pcs[t].key, true);
    case Publish(t) => PublishKeeps(s, t);
    case _ => InsideKeeps(s, l);
  }

  // ---- One decode at a time ----

  /** Of the flights listed for one key, all but the first were started by threads whose
      shared attempt had failed; without failures there is one. */
  ghost predicate KeysOk(s: State) {
    && OneFresh(s.flights)
    && (forall i :: 0 <= i < |s.flights| ==> FailuresSeen(s.flights[i], s.failures))
    && (forall t :: 0 <= t < |s.pcs| ==> MissSeen(s.pcs[t], s.failures))
  }

  /** A thread without a pixmap has seen a failure. */
  predicate MissSeen(pc: Pc, failures: nat) {
    match pc
    case Retrying(_) => failures > 0
    case Took(shared, _, _) => shared.None? ==> failures > 0
    case Ready(_, pix, _) => pix.None? ==> failures > 0
    case Snapped(_, _, snapshot, _) => snapshot.None? ==> failures > 0
    case _ => true
  }

  lemma EnterKeepsKeys(s: State, t: nat, key: Key)
    requires KeysOk(s) && Enabled(s, Enter(t, key))
    ensures KeysOk(Step(s, Enter(t, key)))
  {
  }

  /** A list with a flight gone or updated in place, its key and kind kept. */
  ghost predicate Thinned(fs: seq<Flight>, fs': seq<Flight>, k: nat)
    requires k < |fs|
  {
    if |fs'| == |fs| then
      && (forall i :: 0 <= i < |fs| && i != k ==> fs'[i] == fs[i])
      && fs'[k].key == fs[k].key && fs'[k].again == fs[k].again
    else fs' == Without(fs, k)
  }

  ghost predicate OneFresh(fs: seq<Flight>) {
    forall i, k :: 0 <= i < k < |fs| && fs[i].key == fs[k].key ==> fs[k].again
  }

  lemma ThinnedOneFresh(fs: seq<Flight>, fs': seq<Flight>, k: nat)
    requires k < |fs| && OneFresh(fs) && Thinned(fs, fs', k)
    ensures OneFresh(fs')
  {
    if |fs'| != |fs| {
      assert forall i :: 0 <= i < |fs'| ==> fs'[i] == fs[if i < k then i else i + 1];
    }
  }

  ghost predicate FailuresSeen(f: Flight, failures: nat) {
    (f.again ==> failures > 0) && (f.done && f.result.None? ==> failures > 0)
  }

  lemma ThinnedFailures(fs: seq<Flight>, fs': seq<Flight>, k: nat, failures: nat)
    requires k < |fs| && Thinned(fs, fs', k) && forall i :: 0 <= i < |fs| ==> FailuresSeen(fs[i], failures)
    requires |fs'| == |fs| ==> FailuresSeen(fs'[k], failures)
    ensures forall i :: 0 <= i < |fs'| ==> FailuresSeen(fs'[i], failures)
  {
    if |fs'| != |fs| {
      assert forall i :: 0 <= i < |fs'| ==> fs'[i] == fs[if i < k then i else i + 1];
    }
  }

  lemma WakeKeepsKeys(s: State, t: nat)
    requires KeysOk(s) && FlightsOk(s) && Enabled(s, Wake(t))
    ensures KeysOk(WakeStep(s, t))
  {
    WakeShape(s, t);
    var s' := WakeStep(s, t);
    var k := FindId(s.flights, s.pcs[t].fid);
    assert FailuresSeen(s.flights[k], s.failures);
    ThinnedOneFresh(s.flights, s'.flights, k);
    ThinnedFailures(s.flights, s'.flights, k, s.failures);
  }

  lemma PublishKeepsKeys(s: State, t: nat)
    requires KeysOk(s) && FlightsOk(s) && Enabled(s, Publish(t))
    ensures KeysOk(PublishStep(s, t))
  {
    PublishShape(s, t);
    var s' := PublishStep(s, t);
    var k := FindId(s.flights, s.pcs[t].fid);
    assert FailuresSeen(s.flights[k], s.failures);
    ThinnedOneFresh(s.flights, s'.flights, k);
    ThinnedFailures(s.flights, s'.flights, k, s.failures);
  }

  // ---- References ----

  function Results(fs: seq<Flight>, p: nat): nat {
    if fs == [] then 0 else Results(fs[..|fs| - 1], p) + Same(fs[|fs| - 1].result, p)
  }

  lemma {:induction false} ResultsUpdate(fs: seq<Flight>, k: nat, f: Flight, p: nat)
    requires k < |fs|
    ensures Results(fs[k := f], p) == Results(fs, p) - Same(fs[k].result, p) + Same(f.result, p)
    ensures Results(Without(fs, k), p) == Results(fs, p) - Same(fs[k].result, p)
    ensures Results(fs, p) >= Same(fs[k].result, p)
  {
    var n := |fs| - 1;
    if k == n {
      assert fs[k := f][..n] == fs[..n] && Without(fs, k) == fs[..n];
    } else {
      ResultsUpdate(fs[..n], k, f, p);
      assert fs[k := f][..n] == fs[..n][k := f];
      assert Without(fs, k)[..n - 1] == Without(fs[..n], k) && Without(fs, k)[n - 1] == fs[n];
    }
  }

  function Refs(s: State, p: nat): nat {
    if p < |s.pixmaps| then s.pixmaps[p].refs else 0
  }

  predicate Touched(s: State, p: nat) { p < |s.pixmaps| && s.pixmaps[p].touched }

  /** Every reference is owned by a thread or by a flight, and every owned one is counted. */
  ghost predicate RefsOk(s: State) {
    forall p :: Refs(s, p) == Sum(s.pcs, Holding(p)) + Results(s.flights, p)
  }

  /** The pixmap that the thread, and nobody else, may change: its caller subsamples it. */
  function Private(pc: Pc): Option<nat> {
    match pc
    case Ready(_, pix, _) => pix
    case Snapped(_, pix, _, d) => if d.l2 > 0 then pix else None
    case Leaving(pix, _, d) => if d.l2 > 0 then pix else None
    case Consuming(p, d) => if d.l2 > 0 then Some(p) else None
    case _ => None
  }

  ghost predicate PrivateOk(s: State) {
    && (forall t :: 0 <= t < |s.pcs| && Private(s.pcs[t]).Some? ==> Refs(s, Private(s.pcs[t]).value) == 1)
    && (forall t, p :: 0 <= t < |s.pcs| && HeldAt(s.pcs[t], p) > 0 && Touched(s, p) ==>
          s.pcs[t].Consuming? && s.pcs[t].delivered.l2 > 0)
    && (forall k, p :: 0 <= k < |s.flights| && s.flights[k].result == Some(p) ==> !Touched(s, p))
  }

  lemma StepKeepsKeys(s: State, l: Label)
    requires FlightsOk(s) && KeysOk(s) && Enabled(s, l)
    ensures KeysOk(Step(s, l))
  {
    match l
    case Wake(t) => WakeKeepsKeys(s, t);
    case Publish(t) => PublishKeepsKeys(s, t);
    case Enter(t, key) => EnterKeepsKeys(s, t, key);
    case _ =>
  }

  lemma KeepRefs(s: State, p: Option<nat>, q: nat)
    requires p.Some? ==> p.value < |s.pixmaps|
    ensures Refs(Keep(s, p), q) == Refs(s, q) + Same(p, q) && Touched(Keep(s, p), q) == Touched(s, q)
    ensures |Keep(s, p).pixmaps| == |s.pixmaps|
  {
  }

  lemma DropRefs(s: State, p: Option<nat>, q: nat)
    requires p.Some? ==> Refs(s, p.value) > 0
    ensures Refs(Drop(s, p), q) == Refs(s, q) - Same(p, q) && Touched(Drop(s, p), q) == Touched(s, q)
    ensures |Drop(s, p).pixmaps| == |s.pixmaps|
  {
  }

  lemma NewRefs(s: State, q: nat)
    ensures Refs(NewPixmap(s), q) == Refs(s, q) + (if q == |s.pixmaps| then 1 else 0)
    ensures Touched(NewPixmap(s), q) == Touched(s, q)
  {
  }

  /** What a thread holds is counted. */
  lemma HeldCounted(s: State, t: nat, p: nat)
    requires RefsOk(s) && t < |s.pcs|
    ensures HeldAt(s.pcs[t], p) <= Refs(s, p) && (HeldAt(s.pcs[t], p) > 0 ==> p < |s.pixmaps|)
  {
    SumUpdate(s.pcs, t, Idle, Holding(p));
    assert Refs(s, p) == Sum(s.pcs, Holding(p)) + Results(s.flights, p);
  }

  lemma ResultCounted(s: State, k: nat, p: nat)
    requires RefsOk(s) && k < |s.flights| && s.flights[k].result == Some(p)
    ensures 0 < Results(s.flights, p) <= Refs(s, p) && p < |s.pixmaps|
  {
    ResultsUpdate(s.flights, k, s.flights[k], p);
    assert Refs(s, p) == Sum(s.pcs, Holding(p)) + Results(s.flights, p);
  }

  /** The balance every step keeps. */
  lemma RefsShift(s: State, s': State, t: nat)
    requires RefsOk(s) && t < |s.pcs| && |s'.pcs| == |s.pcs| && s'.pcs == s.pcs[t := s'.pcs[t]]
    requires forall p :: Refs(s', p) - Refs(s, p)
               == HeldAt(s'.pcs[t], p) - HeldAt(s.pcs[t], p) + Results(s'.flights, p) - Results(s.flights, p)
    ensures RefsOk(s')
  {
    forall p ensures Refs(s', p) == Sum(s'.pcs, Holding(p)) + Results(s'.flights, p) {
      SumUpdate(s.pcs, t, s'.pcs[t], Holding(p));
    }
  }

  lemma AppendResults(fs: seq<Flight>, f: Flight, p: nat)
    ensures Results(fs + [f], p) == Results(fs, p) + Same(f.result, p)
  {
    assert (fs + [f])[..|fs|] == fs;
  }

  lemma JoinResults(fs: seq<Flight>, k: nat)
    requires k < |fs|
    ensures forall p :: Results(fs[k := fs[k].(waiters := fs[k].waiters + 1)], p) == Results(fs, p)
  {
    forall p ensures Results(fs[k := fs[k].(waiters := fs[k].waiters + 1)], p) == Results(fs, p) {
      ResultsUpdate(fs, k, fs[k].(waiters := fs[k].waiters + 1), p);
    }
  }

  lemma StartResults(fs: seq<Flight>, id: nat, key: Key, again: bool)
    ensures forall p :: Results(fs + [Started(id, key, again)], p) == Results(fs, p)
  {
    forall p ensures Results(fs + [Started(id, key, again)], p) == Results(fs, p) {
      AppendResults(fs, Started(id, key, again), p);
    }
  }

  /** A step that changes no reference and no count of results. */
  lemma RefsStay(s: State, s': State, t: nat)
    requires RefsOk(s) && t < |s.pcs| && |s'.pcs| == |s.pcs| && s'.pcs == s.pcs[t := s'.pcs[t]]
    requires s'.pixmaps == s.pixmaps && forall p :: Results(s'.flights, p) == Results(s.flights, p)
    requires forall p :: HeldAt(s'.pcs[t], p) == HeldAt(s.pcs[t], p)
    ensures RefsOk(s')
  {
    forall p ensures Refs(s', p) == Refs(s, p) {}
    RefsShift(s, s', t);
  }

  lemma EnterRefs(s: State, t: nat, key: Key)
    requires RefsOk(s) && Enabled(s, Enter(t, key))
    ensures RefsOk(Step(s, Enter(t, key)))
  {
    var k := FindKey(s.flights, key);
    if k < |s.flights| {
      JoinResults(s.flights, k);
    } else {
      StartResults(s.flights, |s.erased|, key, false);
    }
    RefsStay(s, Step(s, Enter(t, key)), t);
  }

  lemma RestartRefs(s: State, t: nat)
    requires RefsOk(s) && Enabled(s, Restart(t))
    ensures RefsOk(Step(s, Restart(t)))
  {
    StartResults(s.flights, |s.erased|, s.pcs[t].key, true);
    RefsStay(s, Step(s, Restart(t)), t);
  }

  lemma WakePixmaps(s: State, t: nat)
    requires FlightsOk(s) && RefsOk(s) && Enabled(s, Wake(t))
    ensures var f := s.flights[FindId(s.flights, s.pcs[t].fid)];
      && WakeStep(s, t).pixmaps == (
           if f.waiters == 1 then Drop(Keep(s, f.result), f.result).pixmaps else Keep(s, f.result).pixmaps)
      && (f.result.Some? ==> f.result.value < |s.pixmaps|)
  {
    var k := FindId(s.flights, s.pcs[t].fid);
    WakeShape(s, t);
    var f := s.flights[k];
    if f.result.Some? {
      ResultCounted(s, k, f.result.value);
    }
  }

  lemma WakeRefs(s: State, t: nat)
    requires FlightsOk(s) && RefsOk(s) && Enabled(s, Wake(t))
    ensures RefsOk(WakeStep(s, t))
    ensures forall p :: Refs(WakeStep(s, t), p) != Refs(s, p) ==> Results(s.flights, p) > 0
    ensures forall p :: Touched(WakeStep(s, t), p) == Touched(s, p)
  {
    WakeShape(s, t);
    WakePixmaps(s, t);
    var s' := WakeStep(s, t);
    var k := FindId(s.flights, s.pcs[t].fid);
    var f := s.flights[k];
    forall p
      ensures Results(s'.flights, p) == Results(s.flights, p) - (if f.waiters == 1 then Same(f.result, p) else 0)
      ensures Refs(s', p) == Refs(s, p) + (if f.waiters == 1 then 0 else Same(f.result, p))
      ensures Results(s.flights, p) >= Same(f.result, p)
      ensures Touched(s', p) == Touched(s, p)
    {
      ResultsUpdate(s.flights, k, f.(waiters := f.waiters - 1), p);
      KeepRefs(s, f.result, p);
      if f.result.Some? { KeepRefs(s, f.result, f.result.value); }
      DropRefs(Keep(s, f.result), f.result, p);
    }
    RefsShift(s, s', t);
  }

  lemma CopyRefs(s: State, t: nat, ok: bool)
    requires RefsOk(s) && Enabled(s, Copy(t, ok))
    ensures RefsOk(CopyStep(s, t, ok))
    ensures forall p :: Refs(CopyStep(s, t, ok), p) != Refs(s, p) ==> HeldAt(s.pcs[t], p) > 0 || p == |s.pixmaps|
    ensures forall p :: Touched(CopyStep(s, t, ok), p) == Touched(s, p)
    ensures CopyStep(s, t, ok).pcs[t].Consuming? && s.pcs[t].delivered.l2 > 0 ==>
      Refs(CopyStep(s, t, ok), |s.pixmaps|) == 1
  {
    var pc, s' := s.pcs[t], CopyStep(s, t, ok);
    if pc.shared.Some? && pc.delivered.l2 > 0 {
      HeldCounted(s, t, pc.shared.value);
      NewRefs(s, pc.shared.value);
      forall p
        ensures Refs(Drop(s, pc.shared), p) == Refs(s, p) - Same(pc.shared, p)
        ensures Refs(Drop(NewPixmap(s), pc.shared), p)
                == Refs(s, p) + (if p == |s.pixmaps| then 1 else 0) - Same(pc.shared, p)
        ensures Touched(s', p) == Touched(s, p)
      {
        NewRefs(s, p);
        DropRefs(s, pc.shared, p);
        DropRefs(NewPixmap(s), pc.shared, p);
      }
      HeldCounted(s, t, |s.pixmaps|);
    }
    RefsShift(s, s', t);
  }

  lemma SnapshotRefs(s: State, t: nat, ok: bool)
    requires RefsOk(s) && Enabled(s, Snapshot(t, ok))
    ensures RefsOk(SnapshotStep(s, t, ok))
    ensures forall p :: Refs(SnapshotStep(s, t, ok), p) != Refs(s, p) ==> HeldAt(s.pcs[t], p) > 0 || p == |s.pixmaps|
    ensures forall p :: Touched(SnapshotStep(s, t, ok), p) == Touched(s, p)
    ensures s.pcs[t].delivered.l2 > 0 && s.pcs[t].pix.Some? ==>
      Refs(SnapshotStep(s, t, ok), s.pcs[t].pix.value) == Refs(s, s.pcs[t].pix.value)
  {
    var pc, s' := s.pcs[t], SnapshotStep(s, t, ok);
    if pc.pix.Some? {
      HeldCounted(s, t, pc.pix.value);
      forall p
        ensures Refs(Keep(s, pc.pix), p) == Refs(s, p) + Same(pc.pix, p)
        ensures Refs(NewPixmap(s), p) == Refs(s, p) + (if p == |s.pixmaps| then 1 else 0)
        ensures Touched(s', p) == Touched(s, p)
      {
        KeepRefs(s, pc.pix, p);
        NewRefs(s, p);
      }
    }
    RefsShift(s, s', t);
  }

  lemma PublishRefs(s: State, t: nat)
    requires FlightsOk(s) && RefsOk(s) && Enabled(s, Publish(t))
    ensures RefsOk(PublishStep(s, t))
  {
    PublishShape(s, t);
    var pc, s' := s.pcs[t], PublishStep(s, t);
    var k := FindId(s.flights, pc.fid);
    assert FlightOk(s, pc.fid);
    forall p
      ensures Results(s'.flights, p) 
        == Results(s.flights, p) + if s.flights[k].waiters == 0 then 0 else Same(pc.snapshot, p)
    {
      ResultsUpdate(s.flights, k, Landed(s.flights[k], pc.delivered, pc.snapshot), p);
    }
    RefsShift(s, s', t);
  }

  lemma DropStepRefs(s: State, t: nat, gone: Option<nat>, pc: Pc)
    requires RefsOk(s) && t < |s.pcs|
    requires forall p :: HeldAt(s.pcs[t], p) == HeldAt(pc, p) + Same(gone, p)
    ensures RefsOk(SetPc(Drop(s, gone), t, pc))
    ensures forall p :: Refs(SetPc(Drop(s, gone), t, pc), p) == Refs(s, p) - Same(gone, p)
    ensures forall p :: Touched(SetPc(Drop(s, gone), t, pc), p) == Touched(s, p)
  {
    if gone.Some? { HeldCounted(s, t, gone.value); }
    forall p
      ensures Refs(Drop(s, gone), p) == Refs(s, p) - Same(gone, p) && Touched(Drop(s, gone), p) == Touched(s, p)
    {
      DropRefs(s, gone, p);
    }
    RefsShift(s, SetPc(Drop(s, gone), t, pc), t);
  }

  lemma DecodeRefs(s: State, t: nat, ok: bool, delivered: Key)
    requires RefsOk(s) && Enabled(s, Decode(t, ok, delivered))
    ensures var s' := Step(s, Decode(t, ok, delivered));
      && RefsOk(s') && (forall p :: Touched(s', p) == Touched(s, p))
      && (forall p :: Refs(s', p) != Refs(s, p) ==> p == |s.pixmaps|)
      && (ok ==> Refs(s', |s.pixmaps|) == 1)
  {
    var s' := Step(s, Decode(t, ok, delivered));
    forall p
      ensures Refs(NewPixmap(s), p) == Refs(s, p) + (if p == |s.pixmaps| then 1 else 0)
      ensures Touched(s', p) == Touched(s, p)
    {
      NewRefs(s, p);
    }
    RefsShift(s, s', t);
  }

  /** A private pixmap has no other holder. */
  lemma PrivateAlone(s: State, t: nat)
    requires RefsOk(s) && PrivateOk(s) && t < |s.pcs| && Private(s.pcs[t]).Some?
    ensures var p := Private(s.pcs[t]).value;
      && HeldAt(s.pcs[t], p) == 1 && Results(s.flights, p) == 0 && p < |s.pixmaps|
      && forall u :: 0 <= u < |s.pcs| && u != t ==> HeldAt(s.pcs[u], p) == 0
  {
    var p := Private(s.pcs[t]).value;
    HeldCounted(s, t, p);
    SumUpdate(s.pcs, t, Idle, Holding(p));
    assert Refs(s, p) == Sum(s.pcs, Holding(p)) + Results(s.flights, p);
    forall u | 0 <= u < |s.pcs| && u != t ensures HeldAt(s.pcs[u], p) == 0 {
      SumTwo(s.pcs, t, u, Holding(p));
    }
  }

  lemma PrivateShift(s: State, s': State, t: nat)
    requires RefsOk(s) && PrivateOk(s) && t < |s.pcs| && |s'.pcs| == |s.pcs| && s'.pcs == s.pcs[t := s'.pcs[t]]
    requires forall p: nat :: Refs(s', p) != Refs(s, p) ==>
               HeldAt(s.pcs[t], p) > 0 || Results(s.flights, p) > 0 || p >= |s.pixmaps|
    requires forall p :: Touched(s', p) == Touched(s, p)
    requires Private(s'.pcs[t]).Some? ==> Refs(s', Private(s'.pcs[t]).value) == 1
    requires forall p :: HeldAt(s'.pcs[t], p) > 0 && Touched(s, p) ==>
      s'.pcs[t].Consuming? && s'.pcs[t].delivered.l2 > 0
    requires forall k, p :: 0 <= k < |s'.flights| && s'.flights[k].result == Some(p) ==> !Touched(s, p)
    ensures PrivateOk(s')
  {
    forall u | 0 <= u < |s'.pcs| && Private(s'.pcs[u]).Some? ensures Refs(s', Private(s'.pcs[u]).value) == 1 {
      if u != t {
        PrivateAlone(s, u);
      }
    }
  }

  lemma SubsampleFrame(s: State, t: nat)
    requires RefsOk(s) && PrivateOk(s) && Enabled(s, Subsample(t))
    ensures var s' := Step(s, Subsample(t));
      && s'.pcs == s.pcs && s'.flights == s.flights
      && forall p :: Refs(s', p) == Refs(s, p) && Touched(s', p) == (Touched(s, p) || p == s.pcs[t].p)
  {
    PrivateAlone(s, t);
  }

  lemma SubsampleKeeps(s: State, t: nat)
    requires RefsOk(s) && PrivateOk(s) && Enabled(s, Subsample(t))
    ensures RefsOk(Step(s, Subsample(t))) && PrivateOk(Step(s, Subsample(t)))
  {
    var s' := Step(s, Subsample(t));
    SubsampleFrame(s, t);
    PrivateAlone(s, t);
    var q := s.pcs[t].p;
    forall u, p | 0 <= u < |s'.pcs| && HeldAt(s'.pcs[u], p) > 0 && Touched(s', p)
      ensures s'.pcs[u].Consuming? && s'.pcs[u].delivered.l2 > 0
    {
      if p == q { assert u == t; }
    }
    forall k, p | 0 <= k < |s'.flights| && s'.flights[k].result == Some(p) ensures !Touched(s', p) {
      ResultCounted(s, k, p);
    }
  }

  lemma WakePrivate(s: State, t: nat)
    requires FlightsOk(s) && RefsOk(s) && PrivateOk(s) && Enabled(s, Wake(t))
    ensures PrivateOk(WakeStep(s, t))
  {
    WakeRefs(s, t);
    WakeShape(s, t);
    var s' := WakeStep(s, t);
    var k := FindId(s.flights, s.pcs[t].fid);
    if s.flights[k].waiters == 1 {
      assert forall i :: 0 <= i < |s'.flights| ==> s'.flights[i] == s.flights[if i < k then i else i + 1];
    }
    PrivateShift(s, s', t);
  }

  lemma PublishPrivate(s: State, t: nat)
    requires FlightsOk(s) && RefsOk(s) && PrivateOk(s) && Enabled(s, Publish(t))
    ensures PrivateOk(PublishStep(s, t))
  {
    PublishShape(s, t);
    var s' := PublishStep(s, t);
    var k := FindId(s.flights, s.pcs[t].fid);
    if s.flights[k].waiters == 0 {
      assert forall i :: 0 <= i < |s'.flights| ==> s'.flights[i] == s.flights[if i < k then i else i + 1];
    }
    if s.pcs[t].snapshot.Some? {
      assert HeldAt(s.pcs[t], s.pcs[t].snapshot.value) > 0;
    }
    PrivateShift(s, s', t);
  }

  lemma EnterPrivate(s: State, l: Label)
    requires RefsOk(s) && PrivateOk(s) && Enabled(s, l) && (l.Enter? || l.Restart?)
    ensures PrivateOk(Step(s, l))
  {
    PrivateShift(s, Step(s, l), l.t);
  }

  lemma CopyPrivate(s: State, t: nat, ok: bool)
    requires RefsOk(s) && PrivateOk(s) && Enabled(s, Copy(t, ok))
    ensures PrivateOk(CopyStep(s, t, ok))
  {
    CopyRefs(s, t, ok);
    PrivateShift(s, CopyStep(s, t, ok), t);
  }

  lemma SnapshotPrivate(s: State, t: nat, ok: bool)
    requires RefsOk(s) && PrivateOk(s) && Enabled(s, Snapshot(t, ok))
    ensures PrivateOk(SnapshotStep(s, t, ok))
  {
    SnapshotRefs(s, t, ok);
    PrivateShift(s, SnapshotStep(s, t, ok), t);
  }

  lemma LeavePrivate(s: State, t: nat)
    requires RefsOk(s) && PrivateOk(s) && Enabled(s, Leave(t))
    ensures RefsOk(Step(s, Leave(t))) && PrivateOk(Step(s, Leave(t)))
  {
    var pc := s.pcs[t];
    var pc' := if pc.pix.Some? then Consuming(pc.pix.value, pc.delivered) else Idle;
    DropStepRefs(s, t, pc.unused, pc');
    if Private(pc).Some? { PrivateAlone(s, t); }
    PrivateShift(s, Step(s, Leave(t)), t);
  }

  lemma FinishPrivate(s: State, t: nat)
    requires RefsOk(s) && PrivateOk(s) && Enabled(s, Finish(t))
    ensures RefsOk(Step(s, Finish(t))) && PrivateOk(Step(s, Finish(t)))
  {
    DropStepRefs(s, t, Some(s.pcs[t].p), Idle);
    PrivateShift(s, Step(s, Finish(t)), t);
  }

  lemma DecodePrivate(s: State, t: nat, ok: bool, delivered: Key)
    requires RefsOk(s) && PrivateOk(s) && Enabled(s, Decode(t, ok, delivered))
    ensures PrivateOk(Step(s, Decode(t, ok, delivered)))
  {
    DecodeRefs(s, t, ok, delivered);
    PrivateShift(s, Step(s, Decode(t, ok, delivered)), t);
  }

  lemma StepKeepsRefs(s: State, l: Label)
    requires FlightsOk(s) && RefsOk(s) && PrivateOk(s) && Enabled(s, l)
    ensures RefsOk(Step(s, l)) && PrivateOk(Step(s, l))
  {
    match l
    case Enter(t, key) => EnterRefs(s, t, key); EnterPrivate(s, l);
    case Wake(t) => WakeRefs(s, t); WakePrivate(s, t);
    case Copy(t, ok) => CopyRefs(s, t, ok); CopyPrivate(s, t, ok);
    case Restart(t) => RestartRefs(s, t); EnterPrivate(s, l);
    case Decode(t, ok, delivered) => DecodeRefs(s, t, ok, delivered); DecodePrivate(s, t, ok, delivered);
    case Snapshot(t, ok) => SnapshotRefs(s, t, ok); SnapshotPrivate(s, t, ok);
    case Publish(t) => PublishRefs(s, t); PublishPrivate(s, t);
    case Leave(t) => LeavePrivate(s, t);
    case Subsample(t) => SubsampleKeeps(s, t);
    case Finish(t) => FinishPrivate(s, t);
  }

  // ---- Runs ----

  ghost predicate Inv(s: State) {
    FlightsOk(s) && KeysOk(s) && RefsOk(s) && PrivateOk(s)
  }

  lemma InitHolds(threads: nat)
    ensures Inv(Init(threads))
  {
    var s := Init(threads);
    forall id ensures FlightOk(s, id) {
      SumIdle(s.pcs, Parking(id));
      SumIdle(s.pcs, Owning(id));
    }
    forall p ensures Refs(s, p) == Sum(s.pcs, Holding(p)) + Results(s.flights, p) {
      SumIdle(s.pcs, Holding(p));
    }
  }

  lemma {:induction false} RunHolds(threads: nat, schedule: seq<Label>)
    ensures Inv(Run(threads, schedule)) && |Run(threads, schedule).pcs| == threads
  {
    if schedule == [] {
      InitHolds(threads);
    } else {
      var n := |schedule| - 1;
      RunHolds(threads, schedule[..n]);
      var s := Run(threads, schedule[..n]);
      if Enabled(s, schedule[n]) {
        StepKeepsFlights(s, schedule[n]);
        StepKeepsKeys(s, schedule[n]);
        StepKeepsRefs(s, schedule[n]);
      }
    }
  }

  // ---- What the gate promises ----

  /** The threads parked on a flight are its waiters; the flight stays listed while its owner
      runs or a waiter remains, and comes off the list exactly once. */
  lemma FlightLifetime(threads: nat, schedule: seq<Label>, id: nat)
    ensures var s := Run(threads, schedule); var f := Lookup(s.flights, id);
      && (f.Some? <==> Sum(s.pcs, Parking(id)) > 0 || Sum(s.pcs, Owning(id)) > 0)
      && (f.Some? ==>
            f.value.waiters == Sum(s.pcs, Parking(id)) && Sum(s.pcs, Owning(id)) == if f.value.done then 0 else 1)
      && (id < |s.erased| ==> s.erased[id] == if f.Some? then 0 else 1)
  {
    RunHolds(threads, schedule);
    assert FlightOk(Run(threads, schedule), id);
  }

  /** At most one listed flight a key was started by a thread that had not just failed; as long
      as nothing failed there is at most one flight, so at most one decode, a key. */
  lemma SingleFlight(threads: nat, schedule: seq<Label>, i: nat, k: nat)
    ensures var s := Run(threads, schedule);
      i < k < |s.flights| && s.flights[i].key == s.flights[k].key ==> s.flights[k].again && s.failures > 0
  {
    RunHolds(threads, schedule);
    var s := Run(threads, schedule);
    if i < k < |s.flights| {
      assert FailuresSeen(s.flights[k], s.failures);
    }
  }

  /** Two threads that decode the same thing at once: one of them is retrying after a failure. */
  lemma OneDecodeAtATime(threads: nat, schedule: seq<Label>, t: nat, u: nat)
    requires var s := Run(threads, schedule);
      t < |s.pcs| && u < |s.pcs| && t != u && s.pcs[t].Decoding? && s.pcs[u].Decoding? && s.pcs[t].key == s.pcs[u].key
    ensures Run(threads, schedule).failures > 0
  {
    RunHolds(threads, schedule);
    var s := Run(threads, schedule);
    OwnerListed(s, t);
    OwnerListed(s, u);
    assert PcOk(s.flights, s.pcs[t]) && PcOk(s.flights, s.pcs[u]);
    var i, k := FindId(s.flights, s.pcs[t].fid), FindId(s.flights, s.pcs[u].fid);
    assert i != k;
    SingleFlight(threads, schedule, if i < k then i else k, if i < k then k else i);
  }

  /** References are conserved: a pixmap is alive exactly while a thread or a flight holds it. */
  lemma ReferencesConserved(threads: nat, schedule: seq<Label>, p: nat)
    ensures var s := Run(threads, schedule);
      && Refs(s, p) == Sum(s.pcs, Holding(p)) + Results(s.flights, p)
      && ((forall t :: 0 <= t < |s.pcs| ==> s.pcs[t] == Idle) ==> Refs(s, p) == 0 && s.flights == [])
  {
    RunHolds(threads, schedule);
    var s := Run(threads, schedule);
    assert Refs(s, p) == Sum(s.pcs, Holding(p)) + Results(s.flights, p);
    if forall t :: 0 <= t < |s.pcs| ==> s.pcs[t] == Idle {
      SumIdle(s.pcs, Holding(p));
      if s.flights != [] {
        assert FlightOk(s, s.flights[0].id);
        SumIdle(s.pcs, Parking(s.flights[0].id));
        SumIdle(s.pcs, Owning(s.flights[0].id));
      }
    }
  }

  /** A consumer that is going to subsample in place shares its pixmap with nobody, so no
      consumer ever gets a pixmap that another one has changed. */
  lemma ConsumersDoNotInterfere(threads: nat, schedule: seq<Label>, t: nat, u: nat)
    requires var s := Run(threads, schedule);
      && t < |s.pcs| && u < |s.pcs| && t != u && s.pcs[t].Consuming? && s.pcs[u].Consuming?
    ensures var s := Run(threads, schedule);
      && (s.pcs[t].delivered.l2 > 0 ==> s.pcs[u].p != s.pcs[t].p && Refs(s, s.pcs[t].p) == 1)
      && (s.pcs[t].delivered.l2 == 0 ==> !Touched(s, s.pcs[t].p))
  {
    RunHolds(threads, schedule);
    var s := Run(threads, schedule);
    if s.pcs[t].delivered.l2 > 0 {
      PrivateAlone(s, t);
    } else {
      assert HeldAt(s.pcs[t], s.pcs[t].p) > 0;
    }
  }

  /** What a thread is about to hand to its caller has not been changed by anybody. */
  lemma HandedOutUntouched(threads: nat, schedule: seq<Label>, t: nat)
    requires var s := Run(threads, schedule); t < |s.pcs| && s.pcs[t].Leaving? && s.pcs[t].pix.Some?
    ensures var s := Run(threads, schedule); !Touched(s, s.pcs[t].pix.value)
  {
    RunHolds(threads, schedule);
    var s := Run(threads, schedule);
    assert HeldAt(s.pcs[t], s.pcs[t].pix.value) > 0;
  }

  /** Nobody waits for ever: a parked thread can wake, or some owner of its flight can step. */
  lemma ParkedCanGoOn(threads: nat, schedule: seq<Label>, t: nat)
    requires t < |Run(threads, schedule).pcs| && Run(threads, schedule).pcs[t].Parked?
    ensures var s := Run(threads, schedule);
      || Enabled(s, Wake(t))
      || exists u :: 0 <= u < |s.pcs| && OwnerAt(s.pcs[u], s.pcs[t].fid) > 0
  {
    RunHolds(threads, schedule);
    var s := Run(threads, schedule);
    var fid := s.pcs[t].fid;
    assert PcOk(s.flights, s.pcs[t]) && FlightOk(s, fid);
    if !Enabled(s, Wake(t)) {
      SumPositive(s.pcs, Owning(fid));
      var u :| 0 <= u < |s.pcs| && Owning(fid)(s.pcs[u]) > 0;
      assert OwnerAt(s.pcs[u], fid) > 0;
    }
  }

  /** A waiter gets the outcome of a flight for the very subarea and factor it asked for. */
  lemma WaiterGetsItsKey(threads: nat, schedule: seq<Label>, t: nat)
    requires Enabled(Run(threads, schedule), Wake(t))
    ensures var s := Run(threads, schedule);
      var f := s.flights[FindId(s.flights, s.pcs[t].fid)];
      && f.key == s.pcs[t].key
      && Step(s, Wake(t)).pcs[t] == Took(f.result, f.delivered, s.pcs[t].key)
  {
    RunHolds(threads, schedule);
    var s := Run(threads, schedule);
    WakeShape(s, t);
    assert PcOk(s.flights, s.pcs[t]);
  }
}
