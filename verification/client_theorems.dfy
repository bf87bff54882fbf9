// What the client promises, over every run of any number of workers and host threads.
module ClientTheorems {
  import opened TileCells
  import opened ClientProtocol
  import opened ClientJobsProof
  import opened ClientCellsProof
  import opened ClientStepsProof
  import opened ClientRuns

  lemma AfterHolds(c: Config, workers: nat, hosts: nat, schedule: seq<Label>)
    ensures Inv(After(c, workers, hosts, schedule))
  {
    InitHolds(workers, hosts);
    RunKeeps(c, Init(workers, hosts), schedule);
  }

  /** A job of the client is in exactly one place: the place that history names holds it once,
      every other place does not hold it at all. */
  lemma JobInOnePlace(c: Config, workers: nat, hosts: nat, schedule: seq<Label>, i: nat, x: Loc)
    requires i < |After(c, workers, hosts, schedule).jobs| && Live(x)
    ensures var s := After(c, workers, hosts, schedule);
      i < |s.loc| && Held(s, x, s.jobs[i]) == if s.loc[i] == x then 1 else 0
  {
    AfterHolds(c, workers, hosts, schedule);
    assert Exact(After(c, workers, hosts, schedule), x);
  }

  /** Exactly-once replies. A cell is answered at most once in every run. Once its batch is
      neither queued nor held by a thread it has been answered, unless a worker gave the batch
      up while shutting down: then the unanswered cells are exactly those still marked
      CancelRequested. Only batches that a worker claimed ever have such cells. */
  lemma ExactlyOnceReplies(c: Config, workers: nat, hosts: nat, schedule: seq<Label>, id: nat, i: nat)
    requires id in After(c, workers, hosts, schedule).cells
    requires i < |After(c, workers, hosts, schedule).cells[id].coords|
    ensures var s := After(c, workers, hosts, schedule); var b := s.cells[id];
      && Shaped(b) && id < |s.loc| && b.replied == CountReplied(b.state)
      && |b.log[i]| == (if b.state[i] == Replied then 1 else 0)
      && (b.state[i] == CancelRequested ==> ClaimedAt(s.loc[id]))
      && (s.loc[id] == Dropped || s.loc[id] == Completed ==> |b.log[i]| == 1)
      && (s.loc[id] == Aborted ==> s.g.stop && (b.log[i] == [] <==> b.state[i] == CancelRequested))
  {
    AfterHolds(c, workers, hosts, schedule);
    assert CellOk(After(c, workers, hosts, schedule), id);
  }

  /** A cell that the worker found cancelled is answered Cancelled and nothing else; a cell
      answered Ok was found pending. */
  lemma CancelHonoured(c: Config, workers: nat, hosts: nat, schedule: seq<Label>, id: nat, i: nat)
    requires id in After(c, workers, hosts, schedule).cells
    requires i < |After(c, workers, hosts, schedule).cells[id].coords|
    ensures var b := After(c, workers, hosts, schedule).cells[id];
      && Shaped(b)
      && (b.seen[i] == SawCancel ==> b.log[i] == [] || b.log[i] == [Cancelled])
      && (b.log[i] == [Ok] ==> b.seen[i] == SawPending)
  {
    AfterHolds(c, workers, hosts, schedule);
    assert CellOk(After(c, workers, hosts, schedule), id);
  }

  // ---- Replies are final ----

  /** Answered cells keep their answer. */
  ghost predicate Kept(b: Cells, b': Cells) {
    && Shaped(b) && Shaped(b') && b'.coords == b.coords
    && forall i :: 0 <= i < |b.state| && b.state[i] == Replied ==> b'.state[i] == Replied && b'.log[i] == b.log[i]
  }

  ghost predicate AllKept(cells: map<nat, Cells>, cells': map<nat, Cells>) {
    forall id :: id in cells ==> id in cells' && Kept(cells[id], cells'[id])
  }

  lemma OpKeepsReplies(s: State, op: Op, me: Loc)
    requires AllShaped(s.cells)
    ensures AllKept(s.cells, OpState(s, op, me).cells)
  {
  }

  lemma ActKeepsReplies(s: State, w: nat, choice: Choice)
    requires AllShaped(s.cells) && w < |s.workers|
    ensures AllKept(s.cells, WorkerAct(s, w, choice).cells)
  {
    var pc := s.workers[w];
    if pc.Unwinding? && pc.ops != [] {
      OpKeepsReplies(s, pc.ops[0], AtWorker(w));
    } else if AtCell(pc) {
      CellStepKeepsReplies(s, w, choice);
    }
  }

  lemma ReplyIsKept(b: Cells, i: nat, st: TileStatus)
    requires Shaped(b)
    ensures Kept(b, ReplyCell(b, i, st))
  {
  }

  lemma LookIsKept(b: Cells, i: nat)
    requires Shaped(b) && i < |b.coords|
    ensures Kept(b, Look(b, i))
  {
  }

  lemma SetIsKept(cells: map<nat, Cells>, id: nat, b: Cells)
    requires AllShaped(cells) && id in cells && Kept(cells[id], b)
    ensures AllKept(cells, cells[id := b])
  {
  }

  lemma SameIsKept(cells: map<nat, Cells>)
    requires AllShaped(cells)
    ensures AllKept(cells, cells)
  {
  }

  lemma CellStepKeepsReplies(s: State, w: nat, choice: Choice)
    requires AllShaped(s.cells) && w < |s.workers| && AtCell(s.workers[w])
    ensures AllKept(s.cells, WorkerAct(s, w, choice).cells)
  {
    var pc := s.workers[w];
    SameIsKept(s.cells);
    if pc.job.id in s.cells {
      var b := s.cells[pc.job.id];
      match pc
      case Checking(j, i) =>
        if i < |b.coords| {
          LookIsKept(b, i);
          SetIsKept(s.cells, j.id, Look(b, i));
        }
      case Cancelling(j, i) =>
        ReplyIsKept(b, i, Cancelled);
        SetIsKept(s.cells, j.id, ReplyCell(b, i, Cancelled));
      case Answering(j, i, st) =>
        ReplyIsKept(b, i, st);
        SetIsKept(s.cells, j.id, ReplyCell(b, i, st));
      case Orphaning(j, todo) =>
        if todo != [] {
          ReplyIsKept(b, todo[0], Failed);
          SetIsKept(s.cells, j.id, ReplyCell(b, todo[0], Failed));
        }
      case _ =>
    }
  }

  lemma RequestKeepsReplies(c: Config, s: State, l: Label)
    requires Inv(s) && AllShaped(s.cells) && Enabled(s, l) && !l.HostStep? && !l.WorkerStep? && !l.ClaimStep?
    ensures forall id :: id in s.cells ==> id in Step(c, s, l).cells && Step(c, s, l).cells[id] == s.cells[id]
  {
    if l.RequestCells? {
      NewIdHasNoCells(s);
    } else {
      QuietCells(c, s, l);
    }
  }

  lemma QuietCells(c: Config, s: State, l: Label)
    requires AllShaped(s.cells) && Enabled(s, l)
    requires !l.HostStep? && !l.WorkerStep? && !l.ClaimStep? && !l.RequestCells?
    ensures Step(c, s, l).cells == s.cells
  {
  }

  lemma ClaimKeepsReplies(c: Config, s: State, w: nat)
    requires w < |s.workers|
    ensures ClaimBy(c, s, w).cells == s.cells
  {
    ClaimedSingle(c, s);
  }

  lemma StepKeepsReplies(c: Config, s: State, l: Label)
    requires Inv(s) && AllShaped(s.cells) && Enabled(s, l)
    ensures AllKept(s.cells, Step(c, s, l).cells)
  {
    if l.HostStep? {
      OpKeepsReplies(s, s.hosts[l.h][0], AtHost(l.h));
    } else if l.WorkerStep? {
      ActKeepsReplies(s, l.w, l.choice);
    } else if l.ClaimStep? {
      ClaimKeepsReplies(c, s, l.w);
    } else {
      RequestKeepsReplies(c, s, l);
    }
  }

  /** A posted reply never changes and is never withdrawn, however the run goes on. */
  lemma {:induction false} RepliesAreFinal(c: Config, s: State, schedule: seq<Label>)
    requires Inv(s)
    ensures AllKept(s.cells, Run(c, s, schedule).cells)
  {
    InvShaped(s);
    if schedule != [] {
      var n := |schedule| - 1;
      var s1 := Run(c, s, schedule[..n]);
      RepliesAreFinal(c, s, schedule[..n]);
      RunKeeps(c, s, schedule[..n]);
      if Enabled(s1, schedule[n]) {
        StepKeepsReplies(c, s1, schedule[n]);
        KeptTwice(s.cells, s1.cells, Run(c, s, schedule).cells);
      }
    }
  }

  lemma KeptTwice(a: map<nat, Cells>, b: map<nat, Cells>, d: map<nat, Cells>)
    requires AllKept(a, b) && AllKept(b, d)
    ensures AllKept(a, d)
  {
    forall id | id in a ensures id in d && Kept(a[id], d[id]) {
      assert Kept(a[id], b[id]) && Kept(b[id], d[id]);
    }
  }
}
