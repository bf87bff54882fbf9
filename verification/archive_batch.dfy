// The size batch over a sequential archive: one pass over the archive delivers members, and
// each job of the batch has to be released exactly once (src/archive.cpp, src/client.cpp).
module ArchiveBatch {
  import opened Wrappers
  import opened Archive

  /** An archive entry as the reader sees it; `readable` when its bytes could be read. */
  datatype Entry = Entry(path: Option<string>, readable: bool)

  // ---- Counting by canonical path ----

  function CountWanted(wanted: seq<string>, key: string): nat {
    if wanted == [] then 0
    else CountWanted(wanted[..|wanted| - 1], key) + if Canon(wanted[|wanted| - 1]) == key then 1 else 0
  }

  predicate Usable(e: Entry, key: string) {
    e.path.Some? && e.readable && Canon(e.path.value) == key
  }

  function CountUsable(entries: seq<Entry>, key: string): nat {
    if entries == [] then 0
    else CountUsable(entries[..|entries| - 1], key) + if Usable(entries[|entries| - 1], key) then 1 else 0
  }

  function CountDone(wanted: seq<string>, done: seq<bool>, key: string): nat
    requires |done| == |wanted|
  {
    if wanted == [] then 0
    else
      var n := |wanted| - 1;
      CountDone(wanted[..n], done[..n], key) + if done[n] && Canon(wanted[n]) == key then 1 else 0
  }

  function CountTrue(done: seq<bool>): nat {
    if done == [] then 0 else CountTrue(done[..|done| - 1]) + if done[|done| - 1] then 1 else 0
  }

  function Min(a: nat, b: nat): nat { if a < b then a else b }

  function AllFalse(n: nat): (r: seq<bool>)
    ensures |r| == n && forall k :: 0 <= k < n ==> !r[k]
  {
    seq(n, k => false)
  }

  lemma {:induction false} MarkCounts(wanted: seq<string>, done: seq<bool>, i: nat, key: string)
    requires |done| == |wanted| && i < |done| && !done[i]
    ensures CountDone(wanted, done[i := true], key) 
      == CountDone(wanted, done, key) + if Canon(wanted[i]) == key then 1 else 0
    ensures CountTrue(done[i := true]) == CountTrue(done) + 1
  {
    var n := |done| - 1;
    if i == n {
      assert done[i := true][..n] == done[..n];
    } else {
      MarkCounts(wanted[..n], done[..n], i, key);
      assert done[i := true][..n] == done[..n][i := true];
    }
  }

  /** The done ones are all of the wanted ones exactly when none of that path is left. */
  lemma {:induction false} DoneCounts(wanted: seq<string>, done: seq<bool>, key: string)
    requires |done| == |wanted|
    ensures CountDone(wanted, done, key) <= CountWanted(wanted, key)
    ensures CountDone(wanted, done, key) == CountWanted(wanted, key)
      <==> forall i :: 0 <= i < |wanted| && Canon(wanted[i]) == key ==> done[i]
    ensures CountTrue(done) <= |done|
    ensures CountTrue(done) == |done| ==> forall i :: 0 <= i < |done| ==> done[i]
  {
    if wanted != [] {
      var n := |wanted| - 1;
      DoneCounts(wanted[..n], done[..n], key);
      assert forall i :: 0 <= i < n ==> wanted[..n][i] == wanted[i] && done[..n][i] == done[i];
    }
  }

  lemma {:induction false} UsablePrefix(entries: seq<Entry>, n: nat, key: string)
    requires n <= |entries|
    ensures CountUsable(entries[..n], key) <= CountUsable(entries, key)
  {
    if n < |entries| {
      var m := |entries| - 1;
      UsablePrefix(entries[..m], n, key);
      assert entries[..m][..n] == entries[..n];
    } else {
      assert entries[..n] == entries;
    }
  }

  lemma {:induction false} NoneDone(wanted: seq<string>, key: string)
    ensures CountDone(wanted, AllFalse(|wanted|), key) == 0 && CountTrue(AllFalse(|wanted|)) == 0
  {
    if wanted != [] {
      var n := |wanted| - 1;
      NoneDone(wanted[..n], key);
      assert AllFalse(|wanted|)[..n] == AllFalse(n);
    }
  }

  // ---- One pass over the archive ----

  /** How many requests of each path are served after some entries: as many as there are
      requests and usable entries. */
  ghost predicate Served(entries: seq<Entry>, wanted: seq<string>, done: seq<bool>) {
    && |done| == |wanted|
    && forall key :: CountDone(wanted, done, key) == Min(CountWanted(wanted, key), CountUsable(entries, key))
  }

  /** Of the requests for one path the earlier ones are served first. */
  ghost predicate InOrder(wanted: seq<string>, done: seq<bool>) {
    && |done| == |wanted|
    && forall i, k :: 0 <= i < k < |wanted| && done[k] && Canon(wanted[i]) == Canon(wanted[k]) ==> done[i]
  }

  /** visit_archive_members after the archive was opened. Each delivery serves one request,
      the earliest open one of its path; the deliveries are exactly the requests marked done,
      each once. */
  method Visit(entries: seq<Entry>, wanted: seq<string>) returns (delivered: seq<nat>, done: seq<bool>)
    ensures Served(entries, wanted, done) && InOrder(wanted, done)
    ensures forall i :: i in delivered <==> 0 <= i < |wanted| && done[i]
    ensures forall a, b :: 0 <= a < b < |delivered| ==> delivered[a] != delivered[b]
  {
    delivered := [];
    done := AllFalse(|wanted|);
    forall key ensures CountDone(wanted, done, key) == 0 { NoneDone(wanted, key); }
    NoneDone(wanted, "");
    var e := 0;
    while e < |entries| && |delivered| < |wanted|
      invariant 0 <= e <= |entries| && Served(entries[..e], wanted, done) && InOrder(wanted, done)
      invariant |delivered| == CountTrue(done)
      invariant forall i :: i in delivered <==> 0 <= i < |wanted| && done[i]
      invariant forall a, b :: 0 <= a < b < |delivered| ==> delivered[a] != delivered[b]
    {
      var entry := entries[e];
      assert entries[..e + 1][..e] == entries[..e];
      var hit := |wanted|;
      if entry.path.Some? {
        hit := FirstOpen(wanted, done, entry.path.value);
      }
      if hit < |wanted| && entry.readable {
        DeliverServes(entries, e, wanted, done, hit);
        done := done[hit := true];
        delivered := delivered + [hit];
      } else {
        SkipServes(entries, e, wanted, done);
      }
      e := e + 1;
    }
    StopServes(entries, e, wanted, done);
  }

  method FirstOpen(wanted: seq<string>, done: seq<bool>, path: string) returns (hit: nat)
    requires |done| == |wanted|
    ensures hit <= |wanted|
    ensures hit < |wanted| ==> !done[hit] && SamePath(path, wanted[hit])
    ensures forall i :: 0 <= i < hit ==> done[i] || !SamePath(path, wanted[i])
  {
    hit := |wanted|;
    for i := 0 to |wanted|
      invariant hit == |wanted| && forall k :: 0 <= k < i ==> done[k] || !SamePath(path, wanted[k])
    {
      if done[i] {
        continue;
      }
      var same := MemberPathsEqual(path, wanted[i]);
      if same {
        return i;
      }
    }
  }

  lemma DeliverServes(entries: seq<Entry>, e: nat, wanted: seq<string>, done: seq<bool>, hit: nat)
    requires e < |entries| && Served(entries[..e], wanted, done) && hit < |wanted| && !done[hit]
    requires entries[e].path.Some? && entries[e].readable && SamePath(entries[e].path.value, wanted[hit])
    ensures Served(entries[..e + 1], wanted, done[hit := true])
    ensures CountTrue(done[hit := true]) == CountTrue(done) + 1
  {
    assert entries[..e + 1][..e] == entries[..e];
    MarkCounts(wanted, done, hit, "");
    forall key
      ensures CountDone(wanted, done[hit := true], key)
        == Min(CountWanted(wanted, key), CountUsable(entries[..e + 1], key))
    {
      MarkCounts(wanted, done, hit, key);
      DoneCounts(wanted, done, key);
    }
  }

  lemma SkipServes(entries: seq<Entry>, e: nat, wanted: seq<string>, done: seq<bool>)
    requires e < |entries| && Served(entries[..e], wanted, done)
    requires entries[e].path.Some? && entries[e].readable ==>
               forall i :: 0 <= i < |wanted| ==> done[i] || !SamePath(entries[e].path.value, wanted[i])
    ensures Served(entries[..e + 1], wanted, done)
  {
    assert entries[..e + 1][..e] == entries[..e];
    forall key
      ensures CountDone(wanted, done, key) == Min(CountWanted(wanted, key), CountUsable(entries[..e + 1], key))
    {
      DoneCounts(wanted, done, key);
    }
  }

  /** Stopping early loses nothing: every request is served by then. */
  lemma StopServes(entries: seq<Entry>, e: nat, wanted: seq<string>, done: seq<bool>)
    requires e <= |entries| && Served(entries[..e], wanted, done)
    requires e == |entries| || CountTrue(done) >= |wanted|
    ensures Served(entries, wanted, done)
  {
    assert entries[..|entries|] == entries;
    if e < |entries| {
      forall key ensures CountDone(wanted, done, key) == Min(CountWanted(wanted, key), CountUsable(entries, key)) {
        DoneCounts(wanted, done, key);
        UsablePrefix(entries, e, key);
      }
    }
  }

  // ---- Releasing the jobs of the batch ----

  function CountName(names: seq<string>, m: string): nat {
    if names == [] then 0
    else CountName(names[..|names| - 1], m) + if names[|names| - 1] == m then 1 else 0
  }

  /** Releases of job i: once when warm or never delivered, else once a delivery. */
  function ReleasesOf(warm: bool, member: string, delivered: seq<string>): nat {
    if warm || member == "" || CountName(delivered, member) == 0 then 1 else CountName(delivered, member)
  }

  type Groups = map<string, seq<nat>>

  /** Which cold jobs asked for a member. */
  ghost predicate Grouped(members: seq<string>, cold: seq<bool>, n: nat, jobs: Groups)
    requires n <= |members| == |cold|
  {
    && (forall m :: m in jobs ==>
      Ascending(jobs[m]) && forall i :: i in jobs[m] ==> i < n && cold[i] && members[i] == m)
    && (forall i :: 0 <= i < n && cold[i] && members[i] != "" ==> members[i] in jobs && i in jobs[members[i]])
    && "" !in jobs
  }

  method GroupJobs(members: seq<string>, cold: seq<bool>) returns (jobs: Groups)
    requires |members| == |cold|
    ensures Grouped(members, cold, |members|, jobs)
  {
    jobs := map[];
    for i := 0 to |members|
      invariant Grouped(members, cold, i, jobs)
    {
      if !cold[i] || members[i] == "" {
        continue;
      }
      var known := if members[i] in jobs then jobs[members[i]] else [];
      assert forall k :: 0 <= k < |known| ==> known[k] in known;
      jobs := jobs[members[i] := known + [i]];
    }
  }

  /** One delivery: every job that asked for the member is released and needs no extract. */
  method Deliver(jobs: seq<nat>, releases: seq<nat>, need: seq<bool>)
    returns (releases': seq<nat>, need': seq<bool>)
    requires |releases| == |need| && Ascending(jobs) && forall i :: i in jobs ==> i < |releases|
    ensures |releases'| == |need'| == |releases|
    ensures forall k :: 0 <= k < |releases| ==>
      if k in jobs then releases'[k] == releases[k] + 1 && !need'[k]
      else releases'[k] == releases[k] && need'[k] == need[k]
  {
    releases', need' := releases, need;
    for q := 0 to |jobs|
      invariant |releases'| == |need'| == |releases|
      invariant forall k :: 0 <= k < |releases| ==>
        if k in jobs[..q] then releases'[k] == releases[k] + 1 && !need'[k]
        else releases'[k] == releases[k] && need'[k] == need[k]
    {
      assert jobs[q] in jobs && jobs[q] !in jobs[..q];
      assert jobs[..q + 1] == jobs[..q] + [jobs[q]];
      need' := need'[jobs[q] := false];
      releases' := releases'[jobs[q] := releases'[jobs[q]] + 1];
    }
    assert jobs[..|jobs|] == jobs;
  }

  /** How job k stands after some deliveries, when the visitor is at work. */
  ghost predicate Standing(warm: bool, member: string, delivered: seq<string>, release: nat, need: bool) {
    if warm then release == 1 && !need
    else if member == "" then release == 0 && need
    else release == CountName(delivered, member) && need == (release == 0)
  }

  method ReleaseWarm(warm: seq<bool>, members: seq<string>) returns (releases: seq<nat>, need: seq<bool>)
    requires |warm| == |members|
    ensures |releases| == |need| == |members|
    ensures forall k :: 0 <= k < |members| ==> Standing(warm[k], members[k], [], releases[k], need[k])
    ensures forall k :: 0 <= k < |members| ==> need[k] == !warm[k]
  {
    var n := |members|;
    releases := seq(n, i => 0);
    need := seq(n, i => true);
    for i := 0 to n
      invariant |releases| == |need| == n
      invariant forall k :: 0 <= k < n ==>
        if k < i && warm[k] then releases[k] == 1 && !need[k] else releases[k] == 0 && need[k]
    {
      if warm[i] {
        need := need[i := false];
        releases := releases[i := releases[i] + 1];
      }
    }
  }

  method ReleaseDelivered(warm: seq<bool>, members: seq<string>, delivered: seq<string>, start: seq<nat>,
                          cold: seq<bool>)
    returns (releases: seq<nat>, need: seq<bool>)
    requires |warm| == |members| == |start| == |cold|
    requires forall k :: 0 <= k < |members| ==> cold[k] == !warm[k]
    requires forall k :: 0 <= k < |members| ==> Standing(warm[k], members[k], [], start[k], cold[k])
    ensures |releases| == |need| == |members|
    ensures forall k :: 0 <= k < |members| ==> Standing(warm[k], members[k], delivered, releases[k], need[k])
  {
    var jobs := GroupJobs(members, cold);
    releases, need := start, cold;
    for d := 0 to |delivered|
      invariant |releases| == |need| == |members|
      invariant forall k :: 0 <= k < |members| ==> Standing(warm[k], members[k], delivered[..d], releases[k], need[k])
    {
      assert delivered[..d + 1][..d] == delivered[..d];
      if delivered[d] in jobs {
        releases, need := Deliver(jobs[delivered[d]], releases, need);
      }
    }
    assert delivered[..|delivered|] == delivered;
  }

  /** The three places of worker_main that release a job of a size batch: warm jobs at once,
      then in the visitor for every delivery of the member, then whatever is left. */
  method ReleaseBatch(warm: seq<bool>, members: seq<string>, delivered: seq<string>) returns (releases: seq<nat>)
    requires |warm| == |members|
    ensures |releases| == |members|
    ensures forall i :: 0 <= i < |members| ==> releases[i] == ReleasesOf(warm[i], members[i], delivered)
  {
    var need;
    releases, need := ReleaseWarm(warm, members);
    releases, need := ReleaseDelivered(warm, members, delivered, releases, need);
    ghost var before := releases;
    for i := 0 to |members|
      invariant |releases| == |members|
      invariant forall k :: 0 <= k < i ==> releases[k] == ReleasesOf(warm[k], members[k], delivered)
      invariant forall k :: i <= k < |members| ==> releases[k] == before[k]
    {
      assert Standing(warm[i], members[i], delivered, before[i], need[i]);
      if need[i] {
        releases := releases[i := releases[i] + 1];
      }
    }
  }

  // ---- When every job is released exactly once ----

  /** The names the visitor is called with. */
  function Names(wanted: seq<string>, delivered: seq<nat>): seq<string>
    requires forall i :: i in delivered ==> i < |wanted|
  {
    seq(|delivered|, k requires 0 <= k < |delivered| => assert delivered[k] in delivered; wanted[delivered[k]])
  }

  /** How many served requests asked for a member by this very spelling. */
  function CountServed(wanted: seq<string>, done: seq<bool>, m: string): nat
    requires |done| == |wanted|
  {
    if wanted == [] then 0
    else
      var n := |wanted| - 1;
      CountServed(wanted[..n], done[..n], m) + if done[n] && wanted[n] == m then 1 else 0
  }

  lemma {:induction false} ServedUpdate(wanted: seq<string>, done: seq<bool>, i: nat, m: string)
    requires |done| == |wanted| && i < |done| && !done[i]
    ensures CountServed(wanted, done[i := true], m) == CountServed(wanted, done, m) + if wanted[i] == m then 1 else 0
  {
    var n := |done| - 1;
    if i == n {
      assert done[i := true][..n] == done[..n];
    } else {
      ServedUpdate(wanted[..n], done[..n], i, m);
      assert done[i := true][..n] == done[..n][i := true];
    }
  }

  lemma {:induction false} ServedNone(wanted: seq<string>, done: seq<bool>, m: string)
    requires |done| == |wanted| && forall i :: 0 <= i < |done| ==> !done[i]
    ensures CountServed(wanted, done, m) == 0
  {
    if wanted != [] {
      ServedNone(wanted[..|wanted| - 1], done[..|wanted| - 1], m);
    }
  }

  /** Deliveries of a name, counted in delivery order or over the requests: the same number. */
  lemma {:induction false} NamesServed(wanted: seq<string>, delivered: seq<nat>, done: seq<bool>, m: string)
    requires |done| == |wanted| && forall i :: i in delivered <==> 0 <= i < |wanted| && done[i]
    requires forall a, b :: 0 <= a < b < |delivered| ==> delivered[a] != delivered[b]
    ensures CountName(Names(wanted, delivered), m) == CountServed(wanted, done, m)
  {
    if delivered == [] {
      forall i | 0 <= i < |done| ensures !done[i] { assert done[i] ==> i in delivered; }
      ServedNone(wanted, done, m);
    } else {
      var n := |delivered| - 1;
      var last, before := delivered[n], delivered[..n];
      assert last in delivered;
      var was := done[last := false];
      assert delivered == before + [last];
      forall i ensures i in before <==> 0 <= i < |wanted| && was[i] {
        assert i in delivered <==> i in before || i == last;
        assert last !in before;
      }
      NamesServed(wanted, before, was, m);
      ServedUpdate(wanted, was, last, m);
      assert was[last := true] == done;
      assert Names(wanted, delivered)[..n] == Names(wanted, before);
    }
  }

  /** Request i is served exactly if fewer requests of its path come before it than are served. */
  lemma {:induction false} ServedByRank(wanted: seq<string>, done: seq<bool>, key: string, i: nat)
    requires InOrder(wanted, done) && i < |wanted| && Canon(wanted[i]) == key
    ensures done[i] <==> CountWanted(wanted[..i], key) < CountDone(wanted, done, key)
  {
    var n := |wanted| - 1;
    DoneCounts(wanted[..n], done[..n], key);
    if done[n] && Canon(wanted[n]) == key {
      AllServed(wanted, done, key);
      RankGrows(wanted[..n], i, key);
      assert wanted[..n][..i] == wanted[..i];
    } else if i < n {
      assert wanted[..n][..i] == wanted[..i];
      assert InOrder(wanted[..n], done[..n]);
      ServedByRank(wanted[..n], done[..n], key, i);
    }
  }

  /** If the last request of a path is served, all are. */
  lemma AllServed(wanted: seq<string>, done: seq<bool>, key: string)
    requires InOrder(wanted, done) && wanted != []
    requires done[|wanted| - 1] && Canon(wanted[|wanted| - 1]) == key
    ensures var n := |wanted| - 1;
      && (forall k :: 0 <= k < n && Canon(wanted[k]) == key ==> done[k])
      && CountDone(wanted[..n], done[..n], key) == CountWanted(wanted[..n], key)
  {
    var n := |wanted| - 1;
    forall k | 0 <= k < n && Canon(wanted[k]) == key ensures done[k] {
      assert Canon(wanted[k]) == Canon(wanted[n]);
    }
    DoneCounts(wanted[..n], done[..n], key);
  }

  lemma {:induction false} RankGrows(wanted: seq<string>, i: nat, key: string)
    ensures i <= |wanted| ==> CountWanted(wanted[..i], key) <= CountWanted(wanted, key)
  {
    if i < |wanted| {
      var n := |wanted| - 1;
      RankGrows(wanted[..n], i, key);
      assert wanted[..n][..i] == wanted[..i];
    } else if i == |wanted| {
      assert wanted[..i] == wanted;
    }
  }

  /** How many of the first `usable` requests for the path of m are spelled m. */
  function CountEarly(wanted: seq<string>, m: string, usable: nat): nat {
    if wanted == [] then 0
    else
      var n := |wanted| - 1;
      CountEarly(wanted[..n], m, usable)
      + if wanted[n] == m && CountWanted(wanted[..n], Canon(m)) < usable then 1 else 0
  }

  lemma {:induction false} ServedEarly(wanted: seq<string>, done: seq<bool>, m: string, usable: nat)
    requires |done| == |wanted|
    requires forall i :: 0 <= i < |wanted| && wanted[i] == m ==>
      (done[i] <==> CountWanted(wanted[..i], Canon(m)) < usable)
    ensures CountServed(wanted, done, m) == CountEarly(wanted, m, usable)
  {
    if wanted != [] {
      var n := |wanted| - 1;
      forall i | 0 <= i < n && wanted[..n][i] == m
        ensures done[..n][i] <==> CountWanted(wanted[..n][..i], Canon(m)) < usable
      {
        assert wanted[..n][..i] == wanted[..i];
      }
      ServedEarly(wanted[..n], done[..n], m, usable);
    }
  }

  /** How often a cold job is released, whatever spellings the requests use: once for every
      request spelled like its own among the first requests of that path, as many as the archive
      has readable entries of it, and once at the end if there is none. So exactly once if and
      only if at most one of those first requests is spelled that way. */
  lemma ReleasesAreEarly(entries: seq<Entry>, wanted: seq<string>, delivered: seq<nat>, done: seq<bool>, m: string)
    requires Served(entries, wanted, done) && InOrder(wanted, done) && m in wanted && m != ""
    requires forall i :: i in delivered <==> 0 <= i < |wanted| && done[i]
    requires forall a, b :: 0 <= a < b < |delivered| ==> delivered[a] != delivered[b]
    ensures var early := CountEarly(wanted, m, CountUsable(entries, Canon(m)));
      && ReleasesOf(false, m, Names(wanted, delivered)) == (if early == 0 then 1 else early)
      && (ReleasesOf(false, m, Names(wanted, delivered)) == 1 <==> early <= 1)
  {
    var key, usable := Canon(m), CountUsable(entries, Canon(m));
    NamesServed(wanted, delivered, done, m);
    forall i | 0 <= i < |wanted| && wanted[i] == m
      ensures done[i] <==> CountWanted(wanted[..i], key) < usable
    {
      ServedByRank(wanted, done, key, i);
      RankGrows(wanted, i + 1, key);
      assert wanted[..i + 1][..i] == wanted[..i];
    }
    ServedEarly(wanted, done, m, usable);
  }

  /** No two spellings of one member among the requests. */
  ghost predicate OneSpelling(wanted: seq<string>) {
    forall a, b :: 0 <= a < |wanted| && 0 <= b < |wanted| && SamePath(wanted[a], wanted[b]) ==> wanted[a] == wanted[b]
  }

  lemma {:induction false} ServedOfPath(wanted: seq<string>, done: seq<bool>, m: string)
    requires |done| == |wanted|
    requires forall a :: 0 <= a < |wanted| && SamePath(wanted[a], m) ==> wanted[a] == m
    ensures CountServed(wanted, done, m) == CountDone(wanted, done, Canon(m))
  {
    if wanted != [] {
      var n := |wanted| - 1;
      forall a | 0 <= a < n && SamePath(wanted[..n][a], m)
        ensures wanted[..n][a] == m
      {
        assert SamePath(wanted[a], m);
      }
      ServedOfPath(wanted[..n], done[..n], m);
      assert SamePath(wanted[n], m) ==> wanted[n] == m;
    }
  }

  /** A cold job is released more than once exactly when its member was requested more than
      once and the archive holds more than one readable entry of that path. */
  lemma ReleasedOnceIff(entries: seq<Entry>, wanted: seq<string>, delivered: seq<nat>, done: seq<bool>, m: string)
    requires Served(entries, wanted, done) && OneSpelling(wanted) && m in wanted && m != ""
    requires forall i :: i in delivered <==> 0 <= i < |wanted| && done[i]
    requires forall a, b :: 0 <= a < b < |delivered| ==> delivered[a] != delivered[b]
    ensures ReleasesOf(false, m, Names(wanted, delivered)) == 1
       <==> CountWanted(wanted, Canon(m)) <= 1 || CountUsable(entries, Canon(m)) <= 1
    ensures ReleasesOf(true, m, Names(wanted, delivered)) == 1
  {
    NamesServed(wanted, delivered, done, m);
    var a :| 0 <= a < |wanted| && wanted[a] == m;
    ServedOfPath(wanted, done, m);
  }
}
