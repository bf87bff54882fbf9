// Archive members: path equality, the batch window planner with its resume cursor, and the
// one-pass visit (src/archive.cpp).
module Archive {
  import opened Wrappers

  // ---- Member paths ----

  function Strip(s: string): string {
    if |s| >= 2 && s[0] == '.' && s[1] == '/' then Strip(s[2..]) else s
  }

  function Slashed(s: string): (r: string)
    ensures |r| == |s| && forall k :: 0 <= k < |s| ==> r[k] == if s[k] == '\\' then '/' else s[k]
  {
    seq(|s|, k requires 0 <= k < |s| => if s[k] == '\\' then '/' else s[k])
  }

  /** What two spellings of the same member share. */
  function Canon(s: string): string { Slashed(Strip(s)) }

  predicate SamePath(a: string, b: string) { Canon(a) == Canon(b) }

  method StripDots(s: string) returns (r: string)
    ensures r == Strip(s)
  {
    r := s;
    while |r| >= 2 && r[..2] == "./"
      invariant Strip(r) == Strip(s)
      decreases |r|
    {
      r := r[2..];
    }
  }

  method Slash(s: string) returns (r: string)
    ensures r == Slashed(s)
  {
    r := "";
    for k := 0 to |s|
      invariant r == Slashed(s)[..k]
    {
      r := r + [if s[k] == '\\' then '/' else s[k]];
    }
  }

  /** member_paths_equal decides equality of the canonical forms, so it is an equivalence. */
  method MemberPathsEqual(a: string, b: string) returns (same: bool)
    ensures same <==> SamePath(a, b)
  {
    var x := StripDots(a);
    var y := StripDots(b);
    if x == y {
      return true;
    }
    var xx := Slash(x);
    var yy := Slash(y);
    return xx == yy;
  }

  // ---- Index in the table of contents ----

  function TocIndex(ordered: seq<string>, m: string): (r: Option<nat>)
    ensures r.Some? ==> r.value < |ordered| && SamePath(ordered[r.value], m)
    ensures r.Some? ==> forall k :: 0 <= k < r.value ==> !SamePath(ordered[k], m)
    ensures r.None? ==> forall k :: 0 <= k < |ordered| ==> !SamePath(ordered[k], m)
  {
    TocFrom(ordered, m, 0)
  }

  function TocFrom(ordered: seq<string>, m: string, from: nat): (r: Option<nat>)
    requires from <= |ordered|
    ensures r.Some? ==> from <= r.value < |ordered| && SamePath(ordered[r.value], m)
    ensures r.Some? ==> forall k :: from <= k < r.value ==> !SamePath(ordered[k], m)
    ensures r.None? ==> forall k :: from <= k < |ordered| ==> !SamePath(ordered[k], m)
    decreases |ordered| - from
  {
    if from == |ordered| then None
    else if SamePath(ordered[from], m) then Some(from)
    else TocFrom(ordered, m, from + 1)
  }

  method MemberTocIndex(ordered: seq<string>, m: string) returns (r: Option<nat>)
    ensures r == TocIndex(ordered, m)
  {
    for i := 0 to |ordered|
      invariant TocFrom(ordered, m, 0) == TocFrom(ordered, m, i)
    {
      var same := MemberPathsEqual(ordered[i], m);
      if same {
        return Some(i);
      }
    }
    return None;
  }

  // ---- The window planner ----

  ghost predicate Ascending(s: seq<nat>) {
    forall i, k :: 0 <= i < k < |s| ==> s[i] < s[k]
  }

  /** The indices of the interesting members. */
  ghost predicate IsInterest(ordered: seq<string>, interest: seq<string>, idxs: seq<nat>) {
    && Ascending(idxs)
    && (forall i :: i in idxs ==> i < |ordered| && exists m :: m in interest && TocIndex(ordered, m) == Some(i))
    && (forall m :: m in interest && TocIndex(ordered, m).Some? ==> TocIndex(ordered, m).value in idxs)
  }

  predicate Hit(ordered: seq<string>, interest: seq<string>, i: nat) {
    exists m :: m in interest && TocIndex(ordered, m) == Some(i)
  }

  /** The indices of the interesting members below n, ascending. */
  function InterestBelow(ordered: seq<string>, interest: seq<string>, n: nat): (idxs: seq<nat>)
    ensures Ascending(idxs) && forall i: nat :: i in idxs <==> i < n && Hit(ordered, interest, i)
  {
    if n == 0 then []
    else
      var before := InterestBelow(ordered, interest, n - 1);
      assert forall k :: 0 <= k < |before| ==> before[k] in before;
      if Hit(ordered, interest, n - 1) then before + [n - 1] else before
  }

  function InterestOf(ordered: seq<string>, interest: seq<string>): (idxs: seq<nat>)
    ensures Ascending(idxs) && forall i: nat :: i in idxs <==> i < |ordered| && Hit(ordered, interest, i)
  {
    InterestBelow(ordered, interest, |ordered|)
  }

  function Clamp(x: int, lo: int, hi: int): int {
    if x < lo then lo else if x > hi then hi else x
  }

  /** Where the window starts: the span if it fits, else the latest start that still ends at
      the cursor, pulled into the span. */
  function WindowLo(lo: int, hi: int, next: int, cap: int): int {
    if hi - lo + 1 <= cap || Clamp(next, lo, hi) + 1 - cap < lo then lo else Clamp(next, lo, hi) + 1 - cap
  }

  function WindowEnd(lo: int, hi: int, next: int, cap: int): int {
    var a := WindowLo(lo, hi, next, cap);
    if a + cap < hi + 1 then a + cap else hi + 1
  }

  /** The insertion that keeps an ascending sequence of distinct indices. */
  method Insert(s: seq<nat>, x: nat) returns (r: seq<nat>)
    requires Ascending(s)
    ensures Ascending(r) && forall i :: i in r <==> i in s || i == x
  {
    var k := 0;
    while k < |s| && s[k] < x
      invariant 0 <= k <= |s| && forall i :: 0 <= i < k ==> s[i] < x
    {
      k := k + 1;
    }
    if k < |s| && s[k] == x {
      return s;
    }
    Inserted(s, k, x);
    return s[..k] + [x] + s[k..];
  }

  lemma InsertedMembers(s: seq<nat>, k: nat, x: nat)
    requires k <= |s|
    ensures forall i :: i in s[..k] + [x] + s[k..] <==> i in s || i == x
  {
    assert s == s[..k] + s[k..];
  }

  lemma Inserted(s: seq<nat>, k: nat, x: nat)
    requires Ascending(s) && k <= |s| && (forall i :: 0 <= i < k ==> s[i] < x) && (k < |s| ==> x < s[k])
    ensures var r := s[..k] + [x] + s[k..];
      Ascending(r) && forall i :: i in r <==> i in s || i == x
  {
    var r := s[..k] + [x] + s[k..];
    InsertedMembers(s, k, x);
    forall a, b | 0 <= a < b < |r| ensures r[a] < r[b] {
      assert a != k ==> r[a] == s[if a < k then a else a - 1];
      assert b != k ==> r[b] == s[if b < k then b else b - 1];
    }
  }

  method InterestIndices(ordered: seq<string>, interest: seq<string>) returns (idxs: seq<nat>)
    ensures IsInterest(ordered, interest, idxs)
  {
    idxs := [];
    for k := 0 to |interest|
      invariant IsInterest(ordered, interest[..k], idxs)
    {
      assert interest[..k + 1] == interest[..k] + [interest[k]];
      var i := MemberTocIndex(ordered, interest[k]);
      if i.Some? {
        idxs := Insert(idxs, i.value);
      }
    }
    assert interest[..|interest|] == interest;
  }

  method Slice(ordered: seq<string>, from: nat, to: nat, cap: nat) returns (out: seq<string>)
    requires from <= to <= |ordered| && (to - from > cap ==> to == |ordered|)
    ensures out == ordered[from..if to - from > cap then from + cap else to]
  {
    out := [];
    var i := from;
    while i < to && |out| < cap
      invariant from <= i <= to && out == ordered[from..i] && |out| <= cap
    {
      out := out + [ordered[i]];
      i := i + 1;
    }
  }

  /** The interest index closest to the cursor when the cursor is outside the span. */
  method Closest(idxs: seq<nat>, next: nat) returns (best: nat)
    requires idxs != [] && Ascending(idxs)
    requires next < idxs[0] || next > idxs[|idxs| - 1]
    ensures best == Clamp(next, idxs[0], idxs[|idxs| - 1])
  {
    best := idxs[0];
    var bestDist := if best > next then best - next else next - best;
    for k := 0 to |idxs|
      invariant next < idxs[0] ==> best == idxs[0]
      invariant next > idxs[|idxs| - 1] ==> best == if k == 0 then idxs[0] else idxs[k - 1]
      invariant bestDist == if best > next then best - next else next - best
    {
      var ix := idxs[k];
      var d := if ix > next then ix - next else next - ix;
      if d < bestDist {
        bestDist := d;
        best := ix;
      }
    }
  }

  /** The branches of plan_archive_batch_window that choose where the window starts. */
  method ChooseStart(idxs: seq<nat>, next: nat, cap: nat) returns (winLo: nat)
    requires idxs != [] && Ascending(idxs) && cap > 0
    ensures winLo == WindowLo(idxs[0], idxs[|idxs| - 1], next, cap)
  {
    var lo := idxs[0];
    var hi := idxs[|idxs| - 1];
    winLo := lo;
    if hi - lo + 1 > cap {
      var anchor := lo;
      if next >= lo && next <= hi {
        anchor := next;
      } else {
        anchor := Closest(idxs, next);
      }
      if anchor + 1 >= cap {
        winLo := anchor + 1 - cap;
      } else {
        winLo := 0;
      }
      if winLo < lo {
        winLo := lo;
      }
      if winLo + cap - 1 > hi {
        // Never taken: the anchor is at most hi and the span exceeds the cap.
        assert false;
      }
    }
  }

  /** plan_archive_batch_window: always one contiguous slice, in closed form. */
  method PlanWindow(ordered: seq<string>, interest: seq<string>, next: nat, maxWindow: int)
    returns (out: seq<string>)
    ensures ordered == [] || maxWindow <= 0 ==> out == []
    ensures ordered != [] && maxWindow > 0 ==> out == Planned(ordered, InterestOf(ordered, interest), next, maxWindow)
  {
    if ordered == [] || maxWindow <= 0 {
      return [];
    }
    var idxs := InterestIndices(ordered, interest);
    InterestIsUnique(ordered, interest, idxs);
    out := PlanIndices(ordered, idxs, next, maxWindow);
  }

  method PlanIndices(ordered: seq<string>, idxs: seq<nat>, next: nat, cap: nat) returns (out: seq<string>)
    requires ordered != [] && cap > 0 && Ascending(idxs) && forall i :: i in idxs ==> i < |ordered|
    ensures out == Planned(ordered, idxs, next, cap)
  {
    var n := |ordered|;
    if idxs == [] {
      var start := if next < n then next else 0;
      out := Slice(ordered, start, n, cap);
      return;
    }
    var lo, hi := idxs[0], idxs[|idxs| - 1];
    AscendingBounds(idxs);
    WindowBounds(lo, hi, next, cap);
    var winLo := ChooseStart(idxs, next, cap);
    var winHi := if hi < winLo + cap - 1 then hi else winLo + cap - 1;
    out := Slice(ordered, winLo, winHi + 1, cap);
  }

  function Planned(ordered: seq<string>, idxs: seq<nat>, next: nat, cap: nat): seq<string>
    requires ordered != [] && cap > 0 && Ascending(idxs) && forall i :: i in idxs ==> i < |ordered|
  {
    if idxs == [] then
      var start := if next < |ordered| then next else 0;
      ordered[start..if |ordered| - start > cap then start + cap else |ordered|]
    else
      var lo, hi := idxs[0], idxs[|idxs| - 1];
      AscendingBounds(idxs);
      WindowBounds(lo, hi, next, cap);
      ordered[WindowLo(lo, hi, next, cap)..WindowEnd(lo, hi, next, cap)]
  }

  lemma AscendingBounds(idxs: seq<nat>)
    requires Ascending(idxs)
    ensures idxs != [] ==> idxs[0] in idxs && idxs[|idxs| - 1] in idxs
    ensures forall i :: i in idxs ==> idxs[0] <= i <= idxs[|idxs| - 1]
  {
  }

  /** Inside the interest span, at most cap long; all of a span that fits, else exactly cap
      members around the cursor, or around the end of the span nearest to it. */
  lemma WindowBounds(lo: int, hi: int, next: int, cap: int)
    requires lo <= hi && cap > 0
    ensures var a, b := WindowLo(lo, hi, next, cap), WindowEnd(lo, hi, next, cap);
      && lo <= a < b <= hi + 1 && b - a <= cap
      && (hi - lo + 1 <= cap ==> a == lo && b == hi + 1)
      && (hi - lo + 1 > cap ==> b - a == cap && a <= Clamp(next, lo, hi) < b)
      && (hi - lo + 1 > cap && next <= lo ==> a == lo)
      && (hi - lo + 1 > cap && next >= hi ==> b == hi + 1)
  {
  }

  lemma InterestIsUnique(ordered: seq<string>, interest: seq<string>, idxs: seq<nat>)
    requires IsInterest(ordered, interest, idxs)
    ensures idxs == InterestOf(ordered, interest)
  {
    var all := InterestOf(ordered, interest);
    forall i | i in idxs ensures i in all { assert Hit(ordered, interest, i); }
    forall i | i in all ensures i in idxs {
      var m :| m in interest && TocIndex(ordered, m) == Some(i);
    }
    SameAscending(idxs, all);
  }

  lemma SameLast(a: seq<nat>, b: seq<nat>)
    requires Ascending(a) && Ascending(b) && a != [] && b != [] && forall i :: i in a <==> i in b
    ensures a[|a| - 1] == b[|b| - 1]
  {
    AscendingBounds(a);
    AscendingBounds(b);
    assert a[|a| - 1] in b && b[|b| - 1] in a;
  }

  lemma {:induction false} SameAscending(a: seq<nat>, b: seq<nat>)
    requires Ascending(a) && Ascending(b) && forall i :: i in a <==> i in b
    ensures a == b
  {
    assert (a != [] ==> a[0] in a) && (b != [] ==> b[0] in b);
    if a != [] {
      SameLast(a, b);
      var x := a[|a| - 1];
      var a', b' := a[..|a| - 1], b[..|b| - 1];
      assert a == a' + [x] && b == b' + [x];
      forall i | i in a' ensures i in b' { assert i in a && i < x; }
      forall i | i in b' ensures i in a' { assert i in b && i < x; }
      SameAscending(a', b');
    }
  }

  /** The plan holds an interesting member unless the cursor sits between interest indices
      that are all out of reach: exactly then the window may be all filler. */
  lemma PlanServesInterest(ordered: seq<string>, idxs: seq<nat>, next: nat, cap: nat)
    requires ordered != [] && cap > 0 && Ascending(idxs) && idxs != [] && forall i :: i in idxs ==> i < |ordered|
    ensures var lo, hi := idxs[0], idxs[|idxs| - 1];
      var a, b := WindowLo(lo, hi, next, cap), WindowEnd(lo, hi, next, cap);
      (exists i :: i in idxs && a <= i < b)
      <==> hi - lo + 1 <= cap || next <= lo + cap - 1 || next >= hi
           || exists i :: i in idxs && next - cap < i <= next
  {
    var lo, hi := idxs[0], idxs[|idxs| - 1];
    AscendingBounds(idxs);
    WindowBounds(lo, hi, next, cap);
    var a, b := WindowLo(lo, hi, next, cap), WindowEnd(lo, hi, next, cap);
    if exists i :: i in idxs && a <= i < b {
      var i :| i in idxs && a <= i < b;
      if hi - lo + 1 > cap && lo + cap - 1 < next < hi {
        assert next - cap < i <= next;
      }
    }
    if hi - lo + 1 <= cap || next <= lo + cap - 1 {
      assert lo in idxs && a <= lo < b;
    } else if next >= hi {
      assert hi in idxs && a <= hi < b;
    } else if exists i :: i in idxs && next - cap < i <= next {
      var i :| i in idxs && next - cap < i <= next;
      assert a <= i < b;
    }
  }

  // ---- The resume cursor ----

  /** One archive's cursor: the table of contents it was made for and the next index. */
  class ArchiveCursor {
    var ordered: seq<string>
    var next: nat

    ghost predicate Valid()
      reads this
    {
      next <= |ordered|
    }

    constructor ()
      ensures Valid() && ordered == [] && next == 0
    {
      ordered, next := [], 0;
    }

    /** The first locked section of ensure_archive_cursor finds a known table; otherwise the
        table is read and the second section installs it. */
    method Ensure(toc: seq<string>)
      requires Valid()
      modifies this
      ensures Valid()
      ensures ordered == if old(ordered) != [] then old(ordered) else toc
      ensures next == if old(ordered) != [] || toc == [] then old(next) else 0
    {
      if ordered == [] {
        Install(toc);
      }
    }

    /** The second locked section, where another thread may have been faster: a first or a
        changed table restarts the cursor, an empty one changes nothing. */
    method Install(toc: seq<string>)
      requires Valid()
      modifies this
      ensures Valid()
      ensures ordered == if toc == [] then old(ordered) else toc
      ensures next == if toc == [] || old(ordered) == toc then old(next) else 0
    {
      if ordered == [] && toc != [] {
        ordered := toc;
        next := 0;
      } else if toc != [] && ordered != toc {
        ordered := toc;
        next := 0;
      }
    }

    /** The cursor goes past an index, and never past the table, which may have changed. */
    method Advance(last: nat)
      modifies this`next
      ensures Valid() && next == if last + 1 > |ordered| then |ordered| else last + 1
    {
      next := last + 1;
      if next > |ordered| {
        next := |ordered|;
      }
    }

    /** plan_and_maybe_advance_cursor: the window is planned from the cursor, which then moves
        past the last member of interest. */
    method PlanAndAdvance(toc: seq<string>, interest: seq<string>, maxWindow: int, advance: bool)
      returns (planned: seq<string>)
      requires Valid()
      modifies this
      ensures Valid() && ordered == if old(ordered) != [] then old(ordered) else toc
      ensures ordered != [] && maxWindow > 0 ==>
        planned == Planned(ordered, InterestOf(ordered, interest),
                           if old(ordered) != [] || toc == [] then old(next) else 0, maxWindow)
      ensures var idxs := InterestOf(ordered, interest);
        next == if advance && idxs != [] then idxs[|idxs| - 1] + 1
                else if old(ordered) != [] || toc == [] then old(next) else 0
    {
      Ensure(toc);
      planned := PlanWindow(ordered, interest, next, maxWindow);
      var last: Option<nat> := None;
      if advance && interest != [] {
        last := LastIndex(ordered, interest);
      }
      AscendingBounds(InterestOf(ordered, interest));
      if last.Some? {
        Advance(last.value);
      }
    }
  }

  method LastIndex(ordered: seq<string>, interest: seq<string>) returns (last: Option<nat>)
    ensures var idxs := InterestOf(ordered, interest);
      last == if idxs != [] then Some(idxs[|idxs| - 1]) else None
  {
    last := None;
    for k := 0 to |interest|
      invariant last.Some? ==> exists m :: m in interest[..k] && TocIndex(ordered, m) == last
      invariant forall m :: m in interest[..k] && TocIndex(ordered, m).Some? ==>
                  last.Some? && TocIndex(ordered, m).value <= last.value
    {
      assert interest[..k + 1] == interest[..k] + [interest[k]];
      var idx := MemberTocIndex(ordered, interest[k]);
      if idx.Some? && (last.None? || idx.value > last.value) {
        last := idx;
      }
    }
    assert interest[..|interest|] == interest;
    LastInterest(ordered, interest, last);
  }

  lemma LastInterest(ordered: seq<string>, interest: seq<string>, last: Option<nat>)
    requires last.Some? ==> exists m :: m in interest && TocIndex(ordered, m) == last
    requires forall m :: m in interest && TocIndex(ordered, m).Some? ==>
               last.Some? && TocIndex(ordered, m).value <= last.value
    ensures var idxs := InterestOf(ordered, interest);
      last == if idxs != [] then Some(idxs[|idxs| - 1]) else None
  {
    var idxs := InterestOf(ordered, interest);
    AscendingBounds(idxs);
    if last.Some? {
      assert Hit(ordered, interest, last.value) && last.value in idxs;
    }
  }
}
