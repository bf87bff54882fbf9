// The reply state of one request_tile_cells batch (src/client.cpp, TileCellBatch).
module TileCells {

  datatype TileCoord = TileCoord(scale: int, x: int, y: int)

  datatype CellState = Pending | CancelRequested | Replied

  datatype TileStatus = Ok | Cancelled | Failed | Unavailable

  /** What a worker saw when it looked at a cell before producing it. */
  datatype Seen = Unseen | SawPending | SawCancel

  /** Value view of a TileCellBatch. `log` and `seen` are history: the results posted
      for each cell, and what the worker's check of the cell found. */
  datatype Cells = Cells(coords: seq<TileCoord>, state: seq<CellState>, replied: nat,
                         log: seq<seq<TileStatus>>, seen: seq<Seen>)

  function Fresh(coords: seq<TileCoord>): Cells {
    Cells(coords, seq(|coords|, i => Pending), 0, seq(|coords|, i => []), seq(|coords|, i => Unseen))
  }

  function CountReplied(state: seq<CellState>): nat {
    if state == [] then 0
    else CountReplied(state[..|state| - 1]) + if state[|state| - 1] == Replied then 1 else 0
  }

  ghost predicate Shaped(b: Cells) {
    |b.state| == |b.coords| == |b.log| == |b.seen|
  }

  /** Exactly-once: a cell has one posted result when it is Replied and none before,
      and the counter counts the Replied cells. */
  ghost predicate ExactlyOnce(b: Cells) {
    && Shaped(b)
    && (forall i :: 0 <= i < |b.state| ==> |b.log[i]| == if b.state[i] == Replied then 1 else 0)
    && b.replied == CountReplied(b.state)
  }

  ghost predicate AllReplied(b: Cells) {
    forall i :: 0 <= i < |b.state| ==> b.state[i] == Replied
  }

  ghost predicate NoneIn(b: Cells, st: CellState) {
    forall i :: 0 <= i < |b.state| ==> b.state[i] != st
  }

  /** reply_tile_cell: the first reply wins, later ones are ignored. */
  function ReplyCell(b: Cells, i: nat, st: TileStatus): Cells
    requires Shaped(b)
  {
    if i >= |b.coords| || b.state[i] == Replied then b
    else b.(state := b.state[i := Replied], replied := b.replied + 1, log := b.log[i := b.log[i] + [st]])
  }

  /** The cells a cancel request reaches: pending ones whose coordinate was asked for.
      An empty request asks for every cell. */
  predicate Reaches(b: Cells, want: seq<TileCoord>, i: nat)
    requires Shaped(b) && i < |b.coords|
  {
    b.state[i] == Pending && (want == [] || b.coords[i] in want)
  }

  function Reached(b: Cells, want: seq<TileCoord>, n: nat): (r: seq<nat>)
    requires Shaped(b) && n <= |b.coords|
    ensures forall i: nat :: i in r <==> i < n && Reaches(b, want, i)
  {
    if n == 0 then []
    else Reached(b, want, n - 1) + if Reaches(b, want, n - 1) then [n - 1] else []
  }

  /** The marking half of cancel_cells_in_batch for a batch that a worker runs. */
  function MarkRunning(b: Cells, want: seq<TileCoord>): Cells
    requires Shaped(b)
  {
    b.(state := seq(|b.state|, i requires 0 <= i < |b.state| =>
                    if Reaches(b, want, i) then CancelRequested else b.state[i]))
  }

  function Unanswered(b: Cells, n: nat): (r: seq<nat>)
    requires n <= |b.state|
    ensures forall i: nat :: i in r <==> i < n && b.state[i] != Replied
  {
    if n == 0 then []
    else Unanswered(b, n - 1) + if b.state[n - 1] != Replied then [n - 1] else []
  }

  lemma {:induction false} CountUpdate(s: seq<CellState>, i: nat, v: CellState)
    requires i < |s|
    ensures CountReplied(s[i := v]) == CountReplied(s)
            - (if s[i] == Replied then 1 else 0) + (if v == Replied then 1 else 0)
  {
    var n := |s| - 1;
    if i == n {
      assert s[i := v][..n] == s[..n];
    } else {
      CountUpdate(s[..n], i, v);
      assert s[i := v][..n] == s[..n][i := v];
    }
  }

  lemma {:induction false} CountAgrees(s: seq<CellState>, t: seq<CellState>)
    requires |s| == |t|
    requires forall i :: 0 <= i < |s| ==> (s[i] == Replied <==> t[i] == Replied)
    ensures CountReplied(s) == CountReplied(t)
  {
    if s != [] {
      CountAgrees(s[..|s| - 1], t[..|t| - 1]);
    }
  }

  /** The counter reaches the cell count exactly when every cell is answered. */
  lemma {:induction false} CountFull(s: seq<CellState>)
    ensures CountReplied(s) <= |s|
    ensures CountReplied(s) == |s| <==> forall i :: 0 <= i < |s| ==> s[i] == Replied
  {
    if s != [] {
      var n := |s| - 1;
      CountFull(s[..n]);
      assert forall i :: 0 <= i < n ==> s[..n][i] == s[i];
    }
  }

  lemma {:induction false} CountNone(s: seq<CellState>)
    requires forall i :: 0 <= i < |s| ==> s[i] != Replied
    ensures CountReplied(s) == 0
  {
    if s != [] {
      CountNone(s[..|s| - 1]);
    }
  }

  lemma FreshIsExactlyOnce(coords: seq<TileCoord>)
    ensures ExactlyOnce(Fresh(coords)) && NoneIn(Fresh(coords), CancelRequested) && NoneIn(Fresh(coords), Replied)
  {
    CountNone(Fresh(coords).state);
  }

  /** A reply keeps the exactly-once contract whoever sends it. */
  lemma ReplyKeepsExactlyOnce(b: Cells, i: nat, st: TileStatus)
    requires ExactlyOnce(b)
    ensures ExactlyOnce(ReplyCell(b, i, st))
    ensures i < |b.coords| ==> ReplyCell(b, i, st).state[i] == Replied
    ensures ReplyCell(b, i, st).coords == b.coords
  {
    if i < |b.coords| && b.state[i] != Replied {
      CountUpdate(b.state, i, Replied);
    }
  }

  /** Marking posts nothing and answers nothing: it only turns pending cells to CancelRequested. */
  lemma MarkKeepsExactlyOnce(b: Cells, want: seq<TileCoord>)
    requires ExactlyOnce(b)
    ensures ExactlyOnce(MarkRunning(b, want))
    ensures MarkRunning(b, want).log == b.log && MarkRunning(b, want).replied == b.replied
    ensures forall i :: 0 <= i < |b.state| ==> (MarkRunning(b, want).state[i] == Replied <==> b.state[i] == Replied)
  {
    CountAgrees(b.state, MarkRunning(b, want).state);
  }

  /** The cell states once the marking loop has passed n cells. */
  function MarkedFirst(b: Cells, want: seq<TileCoord>, n: nat): (r: seq<CellState>)
    requires Shaped(b) && n <= |b.coords|
    ensures |r| == |b.state|
  {
    if n == 0 then b.state
    else
      var r := MarkedFirst(b, want, n - 1);
      if Reaches(b, want, n - 1) then r[n - 1 := CancelRequested] else r
  }

  lemma {:induction false} MarkedAt(b: Cells, want: seq<TileCoord>, n: nat, k: nat)
    requires Shaped(b) && n <= |b.coords| && k < |b.state|
    ensures MarkedFirst(b, want, n)[k] == if k < n && Reaches(b, want, k) then CancelRequested else b.state[k]
  {
    if n > 0 {
      MarkedAt(b, want, n - 1, k);
    }
  }

  lemma ReachedNext(b: Cells, want: seq<TileCoord>, n: nat)
    requires Shaped(b) && n < |b.coords|
    ensures Reached(b, want, n + 1) == Reached(b, want, n) + if Reaches(b, want, n) then [n] else []
  {
  }

  lemma MarkedAll(b: Cells, want: seq<TileCoord>)
    requires Shaped(b)
    ensures b.(state := MarkedFirst(b, want, |b.coords|)) == MarkRunning(b, want)
  {
    forall k | 0 <= k < |b.state| ensures MarkedFirst(b, want, |b.coords|)[k] == MarkRunning(b, want).state[k] {
      MarkedAt(b, want, |b.coords|, k);
    }
  }

  /** The same reply to several cells, one after the other. */
  function ReplyEach(b: Cells, ids: seq<nat>, st: TileStatus): (r: Cells)
    requires Shaped(b)
    ensures Shaped(r) && r.coords == b.coords
  {
    if ids == [] then b else ReplyCell(ReplyEach(b, ids[..|ids| - 1], st), ids[|ids| - 1], st)
  }

  lemma {:induction false} ReplyEachAt(b: Cells, ids: seq<nat>, st: TileStatus, i: nat)
    requires ExactlyOnce(b) && i < |b.coords|
    requires forall k :: 0 <= k < |ids| ==> ids[k] < |b.coords| && b.log[ids[k]] == []
    ensures var r := ReplyEach(b, ids, st);
      && ExactlyOnce(r)
      && r.state[i] == (if i in ids then Replied else b.state[i])
      && r.log[i] == (if i in ids then [st] else b.log[i])
  {
    if ids != [] {
      var front, last := ids[..|ids| - 1], ids[|ids| - 1];
      assert ids == front + [last];
      ReplyEachAt(b, front, st, i);
      ReplyEachAt(b, front, st, last);
      ReplyKeepsExactlyOnce(ReplyEach(b, front, st), last, st);
      assert [] + [st] == [st];
    }
  }

  /** Answering all reached cells answers exactly those, each once. */
  lemma ReplyEachReached(b: Cells, want: seq<TileCoord>)
    requires ExactlyOnce(b)
    ensures var r := ReplyEach(b, Reached(b, want, |b.coords|), Cancelled);
      forall i: nat :: i < |b.coords| ==>
        && r.state[i] == (if Reaches(b, want, i) then Replied else b.state[i])
        && r.log[i] == (if Reaches(b, want, i) then [Cancelled] else b.log[i])
  {
    var ids := Reached(b, want, |b.coords|);
    forall k | 0 <= k < |ids| ensures ids[k] < |b.coords| && b.log[ids[k]] == [] {
      assert ids[k] in ids && Reaches(b, want, ids[k]);
    }
    forall i: nat | i < |b.coords|
      ensures ReplyEach(b, ids, Cancelled).state[i] == (if Reaches(b, want, i) then Replied else b.state[i])
      ensures ReplyEach(b, ids, Cancelled).log[i] == (if Reaches(b, want, i) then [Cancelled] else b.log[i])
    {
      ReplyEachAt(b, ids, Cancelled, i);
    }
  }

  /** The mutable batch itself. `posts` stands for the executor's queue of callbacks. */
  class TileCellBatch {
    const coords: seq<TileCoord>
    var state: seq<CellState>
    var replied: nat
    var posts: seq<(nat, TileStatus)>
    ghost var log: seq<seq<TileStatus>>
    ghost var seen: seq<Seen>

    ghost function View(): Cells
      reads this
    {
      Cells(coords, state, replied, log, seen)
    }

    constructor (coords: seq<TileCoord>)
      ensures View() == Fresh(coords) && ExactlyOnce(View()) && posts == []
    {
      this.coords := coords;
      this.state := seq(|coords|, i => Pending);
      this.replied := 0;
      this.posts := [];
      this.log := seq(|coords|, i => []);
      this.seen := seq(|coords|, i => Unseen);
      new;
      FreshIsExactlyOnce(coords);
    }

    method Reply(i: nat, st: TileStatus)
      requires ExactlyOnce(View())
      modifies this
      ensures View() == ReplyCell(old(View()), i, st) && ExactlyOnce(View())
      ensures posts == old(posts) + if i < |coords| && old(state)[i] != Replied then [(i, st)] else []
    {
      ReplyKeepsExactlyOnce(View(), i, st);
      if i >= |coords| || state[i] == Replied {
        return;
      }
      state := state[i := Replied];
      replied := replied + 1;
      posts := posts + [(i, st)];
      log := log[i := log[i] + [st]];
    }

    /** Whether a cancel request reaches a cell in this state: the tests and the inner loop of
        cancel_cells_in_batch. */
    static method Hits(st: CellState, c: TileCoord, want: seq<TileCoord>) returns (hit: bool)
      ensures hit <==> st == Pending && (want == [] || c in want)
    {
      if st != Pending {
        return false;
      }
      if want == [] {
        return true;
      }
      for k := 0 to |want|
        invariant c !in want[..k]
      {
        if want[k] == c {
          return true;
        }
      }
      assert want[..|want|] == want;
      return false;
    }

    /** cancel_cells_in_batch up to the release of the batch mutex. */
    method Mark(want: seq<TileCoord>, running: bool) returns (affected: nat, toReply: seq<nat>)
      requires ExactlyOnce(View())
      modifies this`state
      ensures View() == (if running then MarkRunning(old(View()), want) else old(View()))
      ensures ExactlyOnce(View())
      ensures toReply == if running then [] else Reached(old(View()), want, |coords|)
      ensures affected == |Reached(old(View()), want, |coords|)|
    {
      ghost var b := View();
      affected, toReply := MarkLoop(want, running);
      MarkKeepsExactlyOnce(b, want);
      MarkedAll(b, want);
    }

    /** The loop over the cells. */
    method MarkLoop(want: seq<TileCoord>, running: bool) returns (affected: nat, toReply: seq<nat>)
      requires Shaped(View())
      modifies this`state
      ensures state == if running then MarkedFirst(old(View()), want, |coords|) else old(state)
      ensures toReply == if running then [] else Reached(old(View()), want, |coords|)
      ensures affected == |Reached(old(View()), want, |coords|)|
    {
      ghost var b := View();
      toReply := [];
      affected := 0;
      for i := 0 to |coords|
        invariant state == if running then MarkedFirst(b, want, i) else b.state
        invariant toReply == if running then [] else Reached(b, want, i)
        invariant affected == |Reached(b, want, i)|
      {
        MarkedAt(b, want, i, i);
        var hit := Hits(state[i], coords[i], want);
        ReachedNext(b, want, i);
        if hit {
          affected := affected + 1;
          if running {
            state := state[i := CancelRequested];
          } else {
            toReply := toReply + [i];
          }
        }
      }
    }

    /** cancel_cells_in_batch as one thread runs it when no other thread interferes:
        a queued batch answers the reached cells at once, a running one only marks them. */
    method CancelCells(want: seq<TileCoord>, running: bool) returns (affected: nat)
      requires ExactlyOnce(View())
      modifies this
      ensures ExactlyOnce(View())
      ensures affected == |Reached(old(View()), want, |coords|)|
      ensures running ==> View() == MarkRunning(old(View()), want)
      ensures !running ==> forall i: nat :: i < |coords| ==>
        && View().state[i] == (if Reaches(old(View()), want, i) then Replied else old(View()).state[i])
        && View().log[i] == (if Reaches(old(View()), want, i) then [Cancelled] else old(View()).log[i])
    {
      var toReply;
      ghost var b := View();
      affected, toReply := Mark(want, running);
      ReplyAll(toReply);
      if !running {
        ReplyEachReached(b, want);
      }
    }

    /** The loop behind the release of the batch mutex. */
    method ReplyAll(ids: seq<nat>)
      requires ExactlyOnce(View())
      modifies this
      ensures View() == ReplyEach(old(View()), ids, Cancelled) && ExactlyOnce(View())
    {
      ghost var b := View();
      for k := 0 to |ids|
        invariant View() == ReplyEach(b, ids[..k], Cancelled) && ExactlyOnce(View())
      {
        assert ids[..k + 1][..k] == ids[..k];
        Reply(ids[k], Cancelled);
      }
      assert ids[..|ids|] == ids;
    }

    /** The scan of the worker's backstop. */
    method Orphans() returns (todo: seq<nat>)
      ensures todo == Unanswered(View(), |state|)
    {
      todo := [];
      for i := 0 to |state|
        invariant todo == Unanswered(View(), i)
      {
        if state[i] != Replied {
          todo := todo + [i];
        }
      }
    }
  }
}
