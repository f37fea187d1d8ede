/** The asynchronous pipeline: branches run by workers, driven by a scheduler and by finished branches. */
module AsyncProtocol {
  import opened Graph
  import opened Options
  import opened Pipeline

  // ---------------------------------------------------------------- state

  /** Frames are numbered in the order in which the pipeline accepted them. */
  type Frame = nat

  datatype Policy = ParallelWait | ParallelNoWait

  datatype Status = Ready | Running | Finished

  datatype Slot = Slot(data: Option<Frame>, status: Status)

  const EMPTY := Slot(None, Finished)

  datatype Worker = Worker(queue: seq<Frame>, busy: Option<Frame>, exceptions: nat)

  /** How a branch ended with a frame. */
  datatype Outcome = Done(frame: Frame) | Threw(frame: Frame)

  /** Which branches take over from which. */
  datatype Tree = Tree(root: Id, kids: map<Id, seq<Id>>)

  /** The last two fields record history: what each branch did, and how many frames were accepted. */
  datatype State = State(slots: map<Id, Slot>, workers: map<Id, Worker>, log: map<Id, seq<Outcome>>, accepted: nat)

  ghost predicate IsKid(t: Tree, p: Id, b: Id) {
    p in t.kids && b in t.kids[p]
  }

  ghost predicate IsTree(t: Tree) {
    && t.root in t.kids
    && (forall p, b :: IsKid(t, p, b) ==> b in t.kids && b != t.root && b != p)
    && (forall p, q, b :: IsKid(t, p, b) && IsKid(t, q, b) ==> p == q)
  }

  ghost predicate Shape(t: Tree, s: State) {
    t.root in t.kids && s.slots.Keys == t.kids.Keys && s.workers.Keys == t.kids.Keys && s.log.Keys == t.kids.Keys
  }

  /** The branches of a graph form a tree when no node has two parents. */
  lemma BranchesFormTree(nodes: Nodes, heads: set<Id>, branches: map<Id, seq<Id>>, root: Id, t: Tree)
    requires Mirrored(nodes) && Acyclic(nodes) && AtMostOneParent(nodes) && AreBranches(nodes, heads, branches)
    requires root in nodes && nodes[root].parents == []
    requires t.root == root && t.kids.Keys == heads
    requires forall b {:trigger t.kids[b]} :: b in heads ==>
               branches[b] != [] && branches[b][|branches[b]| - 1] in nodes
               && t.kids[b] == nodes[branches[b][|branches[b]| - 1]].children
    ensures IsTree(t)
  {
    assert IsHead(nodes, root);
    ChainsPartition(nodes, heads, branches);
    forall p, b | IsKid(t, p, b)
      ensures b in t.kids && b != root && b != p
    {
      KidOfChain(nodes, heads, branches, p, b);
    }
    forall p, q, b | IsKid(t, p, b) && IsKid(t, q, b)
      ensures p == q
    {
      KidOfChain(nodes, heads, branches, p, b);
      KidOfChain(nodes, heads, branches, q, b);
      assert nodes[b].parents[0] == branches[p][|branches[p]| - 1] == branches[q][|branches[q]| - 1];
      assert OnChain(branches, p, |branches[p]| - 1, nodes[b].parents[0]);
      assert OnChain(branches, q, |branches[q]| - 1, nodes[b].parents[0]);
    }
  }

  lemma KidOfChain(nodes: Nodes, heads: set<Id>, branches: map<Id, seq<Id>>, p: Id, b: Id)
    requires Mirrored(nodes) && Acyclic(nodes) && AtMostOneParent(nodes) && AreBranches(nodes, heads, branches)
    requires p in heads && branches[p] != [] && branches[p][|branches[p]| - 1] in nodes
    requires b in nodes[branches[p][|branches[p]| - 1]].children
    ensures b in heads && b != p && b in nodes && nodes[b].parents == [branches[p][|branches[p]| - 1]]
  {
    var c := branches[p];
    assert IsChain(nodes, heads, c, p);
    LastChildrenAreHeads(nodes, heads, c, p, b);
    KidHasOneParent(nodes, c[|c| - 1], b);
    var rank :| Ranked(nodes, rank);
    KidIsAbove(nodes, heads, rank, c, p, b);
  }

  lemma KidHasOneParent(nodes: Nodes, last: Id, b: Id)
    requires Mirrored(nodes) && AtMostOneParent(nodes) && last in nodes && b in nodes[last].children
    ensures b in nodes && nodes[b].parents == [last]
  {
    assert last in nodes[b].parents && |nodes[b].parents| <= 1;
  }

  lemma KidIsAbove(nodes: Nodes, heads: set<Id>, rank: map<Id, nat>, c: seq<Id>, p: Id, b: Id)
    requires Ranked(nodes, rank) && IsChain(nodes, heads, c, p) && b in nodes && b in nodes[c[|c| - 1]].children
    ensures b != p
  {
    if |c| > 1 {
      ChainClimbs(nodes, heads, rank, c, p, 0, |c| - 1);
    }
    assert rank[c[0]] <= rank[c[|c| - 1]] < rank[b];
  }

  // ---------------------------------------------------------------- steps

  datatype Step = Submit(present: bool) | Iterate | Take(id: Id) | Finish(id: Id) | Throw(id: Id)

  function Initial(t: Tree): State {
    State(map b | b in t.kids :: EMPTY, map b | b in t.kids :: Worker([], None, 0), map b | b in t.kids :: [], 0)
  }

  ghost predicate Enabled(t: Tree, s: State, a: Step) {
    match a
    case Submit(_) => true
    case Iterate => true
    case Take(id) => id in s.workers && s.workers[id].queue != [] && s.workers[id].busy.None?
    case Finish(id) => id in s.workers && s.workers[id].busy.Some?
    case Throw(id) => id in s.workers && s.workers[id].busy.Some?
  }

  function Next(t: Tree, policy: Policy, s: State, a: Step): State
    requires IsTree(t) && Shape(t, s) && Enabled(t, s, a)
  {
    match a
    case Submit(present) => AfterSubmit(t, s, present)
    case Iterate => AfterStart(t, policy, AfterHandling(s))
    case Take(id) => AfterTake(s, id)
    case Finish(id) => AfterFinish(t, s, id)
    case Throw(id) => AfterThrow(s, id)
  }

  /** Rejected unless the root is idle; a null frame is accepted all the same. */
  function AfterSubmit(t: Tree, s: State, present: bool): State
    requires IsTree(t) && Shape(t, s)
  {
    if s.slots[t.root].status != Finished then s
    else if present then s.(slots := s.slots[t.root := Slot(Some(s.accepted), Ready)], accepted := s.accepted + 1)
    else s.(slots := s.slots[t.root := Slot(None, Ready)])
  }

  /** The scheduler first empties the slots of branches that threw. */
  function AfterHandling(s: State): (r: State)
    requires s.slots.Keys == s.workers.Keys
  {
    s.(slots := map b | b in s.slots :: if s.workers[b].exceptions > 0 then EMPTY else s.slots[b],
       workers := map b | b in s.workers :: s.workers[b].(exceptions := 0))
  }

  predicate RootMayStart(t: Tree, policy: Policy, s: State) {
    policy == ParallelNoWait ||
    forall b :: b in s.slots ==> s.slots[b].status == if b == t.root then Ready else Finished
  }

  predicate Starts(t: Tree, slot: Slot, b: Id, rootMayStart: bool) {
    slot.data.Some? && slot.status == Ready && (b != t.root || rootMayStart)
  }

  function StartedSlot(t: Tree, slot: Slot, b: Id, rootMayStart: bool): Slot {
    if Starts(t, slot, b, rootMayStart) then Slot(None, Running) else slot
  }

  function StartedWorker(t: Tree, slot: Slot, worker: Worker, b: Id, rootMayStart: bool): Worker {
    if Starts(t, slot, b, rootMayStart) then worker.(queue := worker.queue + [slot.data.value]) else worker
  }

  /** Then it hands the data of every branch that may start to the branch's worker. */
  function StartAll(t: Tree, s: State, rootMayStart: bool): State
    requires s.slots.Keys == s.workers.Keys
  {
    s.(slots := map b | b in s.slots :: StartedSlot(t, s.slots[b], b, rootMayStart),
       workers := map b | b in s.workers :: StartedWorker(t, s.slots[b], s.workers[b], b, rootMayStart))
  }

  function AfterStart(t: Tree, policy: Policy, s: State): State
    requires s.slots.Keys == s.workers.Keys
  {
    StartAll(t, s, RootMayStart(t, policy, s))
  }

  function AfterTake(s: State, id: Id): State
    requires id in s.workers && s.workers[id].queue != []
  {
    var w := s.workers[id];
    s.(workers := s.workers[id := Worker(w.queue[1..], Some(w.queue[0]), w.exceptions)])
  }

  function AfterThrow(s: State, id: Id): State
    requires id in s.workers && id in s.log && s.workers[id].busy.Some?
  {
    var w := s.workers[id];
    s.(workers := s.workers[id := Worker(w.queue, None, w.exceptions + 1)],
       log := s.log[id := s.log[id] + [Threw(w.busy.value)]])
  }

  /** A finished branch passes a copy of its data to each of its idle children. */
  function AfterFinish(t: Tree, s: State, id: Id): State
    requires Shape(t, s) && id in s.workers && s.workers[id].busy.Some?
  {
    var w := s.workers[id];
    State(map b | b in s.slots ::
            if b == id then EMPTY
            else if b in t.kids[id] && s.slots[b].status == Finished then Slot(Some(w.busy.value), Ready)
            else s.slots[b],
          s.workers[id := Worker(w.queue, None, w.exceptions)],
          s.log[id := s.log[id] + [Done(w.busy.value)]],
          s.accepted)
  }

  // ---------------------------------------------------------------- what holds in every state

  function Frames(h: seq<Outcome>): (r: seq<Frame>)
    ensures |r| == |h|
  {
    if h == [] then [] else Frames(h[..|h| - 1]) + [h[|h| - 1].frame]
  }

  /** The frames a branch finished without throwing. */
  function Passed(h: seq<Outcome>): seq<Frame> {
    if h == [] then []
    else Passed(h[..|h| - 1]) + if h[|h| - 1].Done? then [h[|h| - 1].frame] else []
  }

  function Optional(o: Option<Frame>): seq<Frame> {
    if o.Some? then [o.value] else []
  }

  /** What a branch has been given and has not ended yet. */
  function Pending(s: State, b: Id): seq<Frame>
    requires b in s.slots && b in s.workers
  {
    Optional(s.workers[b].busy) + s.workers[b].queue + Optional(s.slots[b].data)
  }

  /** Everything a branch was ever given, in order. */
  function Line(s: State, b: Id): seq<Frame>
    requires b in s.slots && b in s.workers && b in s.log
  {
    Frames(s.log[b]) + Pending(s, b)
  }

  ghost predicate Increasing(f: seq<Frame>) {
    forall i, j :: 0 <= i < j < |f| ==> f[i] < f[j]
  }

  ghost predicate Upto(f: seq<Frame>, n: nat) {
    |f| == n && forall i :: 0 <= i < n ==> f[i] == i
  }

  /** Ready exactly when it holds data (a root that took a null frame aside), running exactly when
      its worker owes one item. */
  ghost predicate SlotOk(t: Tree, s: State, b: Id)
    requires Shape(t, s) && b in t.kids
  {
    var w := s.workers[b];
    && (s.slots[b].data.Some? ==> s.slots[b].status == Ready)
    && (s.slots[b].status == Ready && s.slots[b].data.None? ==> b == t.root)
    && |w.queue| + |Optional(w.busy)| + w.exceptions == if s.slots[b].status == Running then 1 else 0
  }

  /** The frame the tree of branches is working on, plus one. */
  function Current(t: Tree, s: State): int
    requires t.root in s.slots
  {
    if s.slots[t.root].data.Some? then s.accepted - 1 else s.accepted
  }

  ghost predicate LineOk(t: Tree, policy: Policy, s: State, b: Id)
    requires Shape(t, s) && b in t.kids
  {
    GoodLine(t, policy, s.log, s.accepted, b, Line(s, b))
  }

  ghost predicate GoodLine(t: Tree, policy: Policy, log: map<Id, seq<Outcome>>, accepted: nat, b: Id, line: seq<Frame>)
    requires log.Keys == t.kids.Keys
  {
    && Increasing(line)
    && (b == t.root ==> Upto(line, accepted))
    && (forall p {:trigger IsKid(t, p, b)} :: IsKid(t, p, b) ==> Fed(policy, log[p], line))
    && (b != t.root && (forall p :: !IsKid(t, p, b)) ==> line == [])
  }

  /** What a branch was given is what its parent finished: all of it when waiting, some of it when not. */
  ghost predicate Fed(policy: Policy, parent: seq<Outcome>, line: seq<Frame>) {
    if policy == ParallelWait then line == Passed(parent) else forall f :: f in line ==> f in Passed(parent)
  }

  /** When waiting, every branch below the root that is not finished is at the current frame. */
  ghost predicate InStep(t: Tree, s: State, b: Id)
    requires Shape(t, s) && b in t.kids
  {
    b != t.root && s.slots[b].status != Finished ==>
      Line(s, b) != [] && Line(s, b)[|Line(s, b)| - 1] + 1 == Current(t, s)
  }

  ghost predicate BranchOk(t: Tree, policy: Policy, s: State, b: Id)
    requires Shape(t, s) && b in t.kids
  {
    SlotOk(t, s, b) && LineOk(t, policy, s, b) && (policy == ParallelWait ==> InStep(t, s, b))
  }

  ghost predicate Ok(t: Tree, policy: Policy, s: State) {
    IsTree(t) && Shape(t, s)
    && forall b {:trigger BranchOk(t, policy, s, b)} :: b in t.kids ==> BranchOk(t, policy, s, b)
  }

  // ---------------------------------------------------------------- sequences of frames

  lemma FramesGrow(h: seq<Outcome>, o: Outcome)
    ensures Frames(h + [o]) == Frames(h) + [o.frame]
    ensures Passed(h + [o]) == Passed(h) + if o.Done? then [o.frame] else []
  {
    assert (h + [o])[..|h|] == h;
  }

  lemma {:induction false} PassedAreFrames(h: seq<Outcome>, f: Frame)
    ensures f in Passed(h) ==> f in Frames(h)
  {
    if h != [] {
      PassedAreFrames(h[..|h| - 1], f);
    }
  }

  lemma GrowIncreasing(a: seq<Frame>, f: Frame)
    requires Increasing(a) && forall g :: g in a ==> g < f
    ensures Increasing(a + [f])
  {
    forall i, j | 0 <= i < j < |a + [f]|
      ensures (a + [f])[i] < (a + [f])[j]
    {
      assert a[i] in a;
    }
  }

  /** The last of an increasing line is above the rest. */
  lemma LastIsAbove(h: seq<Frame>, f: Frame, g: Frame)
    requires Increasing(h + [f]) && g in h
    ensures g < f
  {
    var i :| 0 <= i < |h| && h[i] == g;
    assert (h + [f])[i] == g && (h + [f])[|h|] == f;
  }

  // ---------------------------------------------------------------- every step keeps it

  lemma InitialOk(t: Tree, policy: Policy)
    requires IsTree(t)
    ensures Ok(t, policy, Initial(t))
  {
    var s := Initial(t);
    forall b | b in t.kids
      ensures BranchOk(t, policy, s, b)
    {
      assert Line(s, b) == [];
    }
  }

  lemma SubmitOk(t: Tree, policy: Policy, s: State, present: bool)
    requires Ok(t, policy, s)
    ensures Ok(t, policy, AfterSubmit(t, s, present))
  {
    assert BranchOk(t, policy, s, t.root);
    forall b | b in t.kids
      ensures BranchOk(t, policy, AfterSubmit(t, s, present), b)
    {
      assert BranchOk(t, policy, s, b);
      SubmitBranchOk(t, policy, s, present, b);
    }
  }

  lemma SubmitBranchOk(t: Tree, policy: Policy, s: State, present: bool, b: Id)
    requires IsTree(t) && Shape(t, s) && b in t.kids && BranchOk(t, policy, s, b) && SlotOk(t, s, t.root)
    ensures BranchOk(t, policy, AfterSubmit(t, s, present), b)
  {
    if b == t.root {
      SubmitRootOk(t, policy, s, present);
    } else {
      assert Pending(AfterSubmit(t, s, present), b) == Pending(s, b);
    }
  }

  lemma SubmitRootOk(t: Tree, policy: Policy, s: State, present: bool)
    requires IsTree(t) && Shape(t, s) && BranchOk(t, policy, s, t.root)
    ensures BranchOk(t, policy, AfterSubmit(t, s, present), t.root)
  {
    var r := AfterSubmit(t, s, present);
    if s.slots[t.root].status == Finished && present {
      assert Pending(r, t.root) == Pending(s, t.root) + [s.accepted];
      assert Line(r, t.root) == Line(s, t.root) + [s.accepted];
      RootLineGrows(t, policy, s.log, s.accepted, Line(s, t.root));
    } else {
      assert Pending(r, t.root) == Pending(s, t.root);
    }
  }

  lemma RootLineGrows(t: Tree, policy: Policy, log: map<Id, seq<Outcome>>, n: nat, line: seq<Frame>)
    requires IsTree(t) && log.Keys == t.kids.Keys && GoodLine(t, policy, log, n, t.root, line)
    ensures GoodLine(t, policy, log, n + 1, t.root, line + [n])
  {
    assert forall p :: !IsKid(t, p, t.root);
  }

  /** A step that only moves frames between the places of one branch changes no line. */
  lemma TakeOk(t: Tree, policy: Policy, s: State, id: Id)
    requires Ok(t, policy, s) && Enabled(t, s, Take(id))
    ensures Ok(t, policy, AfterTake(s, id))
  {
    var r := AfterTake(s, id);
    forall b | b in t.kids
      ensures BranchOk(t, policy, r, b)
    {
      assert BranchOk(t, policy, s, b);
      assert Pending(r, b) == Pending(s, b) by {
        assert [s.workers[id].queue[0]] + s.workers[id].queue[1..] == s.workers[id].queue;
      }
    }
  }

  /** A busy branch owes that one frame, the last of its line. */
  lemma BusyLine(t: Tree, policy: Policy, s: State, id: Id)
    requires Ok(t, policy, s) && id in t.kids && s.workers[id].busy.Some?
    ensures s.slots[id] == Slot(None, Running) && s.workers[id].queue == [] && s.workers[id].exceptions == 0
    ensures Line(s, id) == Frames(s.log[id]) + [s.workers[id].busy.value]
    ensures forall g :: g in Passed(s.log[id]) ==> g < s.workers[id].busy.value
    ensures policy == ParallelWait ==> s.workers[id].busy.value + 1 == Current(t, s)
  {
    assert BranchOk(t, policy, s, id);
    var f := s.workers[id].busy.value;
    assert |Optional(s.workers[id].busy)| == 1;
    assert Pending(s, id) == [f];
    forall g | g in Passed(s.log[id])
      ensures g < f
    {
      PassedAreFrames(s.log[id], g);
      LastIsAbove(Frames(s.log[id]), f, g);
    }
  }

  lemma ThrowOk(t: Tree, policy: Policy, s: State, id: Id)
    requires Ok(t, policy, s) && Enabled(t, s, Throw(id))
    ensures Ok(t, policy, AfterThrow(s, id))
  {
    ThrowKeepsShape(t, s, id);
    forall b | b in t.kids
      ensures BranchOk(t, policy, AfterThrow(s, id), b)
    {
      ThrowBranchOk(t, policy, s, id, b);
    }
  }

  lemma ThrowKeepsShape(t: Tree, s: State, id: Id)
    requires Shape(t, s) && id in t.kids && s.workers[id].busy.Some?
    ensures Shape(t, AfterThrow(s, id))
  {
  }

  lemma ThrowBranchOk(t: Tree, policy: Policy, s: State, id: Id, b: Id)
    requires Ok(t, policy, s) && Enabled(t, s, Throw(id)) && b in t.kids
    ensures BranchOk(t, policy, AfterThrow(s, id), b)
  {
    BusyLine(t, policy, s, id);
    assert BranchOk(t, policy, s, b);
    MovedByThrow(t, policy, s, id, b);
  }

  lemma MovedByThrow(t: Tree, policy: Policy, s: State, id: Id, b: Id)
    requires IsTree(t) && Shape(t, s) && b in t.kids && id in t.kids && BranchOk(t, policy, s, b)
    requires s.workers[id].busy.Some? && s.workers[id].queue == [] && s.slots[id].data.None?
    ensures BranchOk(t, policy, AfterThrow(s, id), b)
  {
    var r := AfterThrow(s, id);
    FramesGrow(s.log[id], Threw(s.workers[id].busy.value));
    assert Line(r, b) == Line(s, b);
    ThrowKeepsLine(t, policy, s.log, s.accepted, b, Line(s, b), id, s.workers[id].busy.value);
  }

  /** A frame on which a branch threw is not passed on. */
  lemma ThrowKeepsLine(t: Tree, policy: Policy, log: map<Id, seq<Outcome>>, n: nat, b: Id, line: seq<Frame>, id: Id,
                       f: Frame)
    requires id in log && log.Keys == t.kids.Keys && GoodLine(t, policy, log, n, b, line)
    ensures GoodLine(t, policy, log[id := log[id] + [Threw(f)]], n, b, line)
  {
    FramesGrow(log[id], Threw(f));
    forall p | IsKid(t, p, b)
      ensures Fed(policy, log[id := log[id] + [Threw(f)]][p], line)
    {
      assert Fed(policy, log[p], line);
    }
  }

  lemma HandlingOk(t: Tree, policy: Policy, s: State)
    requires Ok(t, policy, s)
    ensures Ok(t, policy, AfterHandling(s))
    ensures Current(t, AfterHandling(s)) == Current(t, s)
  {
    var r := AfterHandling(s);
    assert BranchOk(t, policy, s, t.root);
    forall b | b in t.kids
      ensures BranchOk(t, policy, r, b)
    {
      assert BranchOk(t, policy, s, b);
      assert Pending(r, b) == Pending(s, b);
    }
  }

  lemma StartOk(t: Tree, policy: Policy, s: State)
    requires Ok(t, policy, s)
    ensures Ok(t, policy, AfterStart(t, policy, s))
  {
    assert BranchOk(t, policy, s, t.root);
    forall b | b in t.kids
      ensures BranchOk(t, policy, AfterStart(t, policy, s), b)
    {
      assert BranchOk(t, policy, s, b);
      StartBranchOk(t, policy, s, b);
    }
  }

  lemma StartBranchOk(t: Tree, policy: Policy, s: State, b: Id)
    requires IsTree(t) && Shape(t, s) && b in t.kids && BranchOk(t, policy, s, b) && SlotOk(t, s, t.root)
    ensures BranchOk(t, policy, AfterStart(t, policy, s), b)
  {
    var r := AfterStart(t, policy, s);
    StartMoves(t, policy, s, b);
    assert Line(r, b) == Line(s, b);
    assert SlotOk(t, r, b);
    if Starts(t, s.slots[t.root], t.root, RootMayStart(t, policy, s)) {
      assert policy == ParallelWait && b != t.root ==> s.slots[b].status == Finished;
    } else {
      assert Current(t, r) == Current(t, s);
    }
  }

  /** Starting a branch moves its frame from the slot to the worker. */
  lemma StartMoves(t: Tree, policy: Policy, s: State, b: Id)
    requires IsTree(t) && Shape(t, s) && b in t.kids && SlotOk(t, s, b)
    ensures Pending(AfterStart(t, policy, s), b) == Pending(s, b)
  {
  }

  // ---------------------------------------------------------------- a branch finishes

  /** When waiting, a branch that finishes finds all its children idle. */
  lemma FinishSkipsNone(t: Tree, s: State, id: Id, b: Id)
    requires Ok(t, ParallelWait, s) && Enabled(t, s, Finish(id)) && IsKid(t, id, b)
    ensures s.slots[b].status == Finished
    ensures AfterFinish(t, s, id).slots[b] == Slot(Some(s.workers[id].busy.value), Ready)
  {
    BusyLine(t, ParallelWait, s, id);
    assert BranchOk(t, ParallelWait, s, b);
    var line := Line(s, b);
    assert Fed(ParallelWait, s.log[id], line);
    assert line != [] ==> line[|line| - 1] in line;
  }

  lemma IdleLine(t: Tree, policy: Policy, s: State, b: Id)
    requires Ok(t, policy, s) && b in t.kids && s.slots[b].status == Finished
    ensures Pending(s, b) == [] && Line(s, b) == Frames(s.log[b])
  {
    assert BranchOk(t, policy, s, b);
    assert Optional(s.workers[b].busy) == [];
  }

  /** The child of a finishing branch takes the frame over at the end of its line. */
  lemma FinishFeeds(t: Tree, policy: Policy, s: State, id: Id, b: Id)
    requires Ok(t, policy, s) && Enabled(t, s, Finish(id)) && IsKid(t, id, b) && s.slots[b].status == Finished
    ensures Line(AfterFinish(t, s, id), b) == Line(s, b) + [s.workers[id].busy.value]
    ensures Increasing(Line(AfterFinish(t, s, id), b))
  {
    var f := s.workers[id].busy.value;
    BusyLine(t, policy, s, id);
    IdleLine(t, policy, s, b);
    assert BranchOk(t, policy, s, b);
    assert Fed(policy, s.log[id], Line(s, b));
    assert forall g :: g in Line(s, b) ==> g in Passed(s.log[id]);
    GrowIncreasing(Line(s, b), f);
  }

  lemma FinishKeepsLine(t: Tree, policy: Policy, s: State, id: Id, b: Id)
    requires Ok(t, policy, s) && Enabled(t, s, Finish(id)) && b in t.kids
    requires !IsKid(t, id, b) || s.slots[b].status != Finished
    ensures Line(AfterFinish(t, s, id), b) == Line(s, b)
  {
    var f := s.workers[id].busy.value;
    BusyLine(t, policy, s, id);
    FramesGrow(s.log[id], Done(f));
  }

  lemma FinishBranchOk(t: Tree, policy: Policy, s: State, id: Id, b: Id)
    requires Ok(t, policy, s) && Enabled(t, s, Finish(id)) && b in t.kids
    ensures BranchOk(t, policy, AfterFinish(t, s, id), b)
  {
    BusyLine(t, policy, s, id);
    assert BranchOk(t, policy, s, b) && BranchOk(t, policy, s, t.root);
    if IsKid(t, id, b) && policy == ParallelWait {
      FinishSkipsNone(t, s, id, b);
    }
    if IsKid(t, id, b) && s.slots[b].status == Finished {
      IdleLine(t, policy, s, b);
      FinishFeeds(t, policy, s, id, b);
      FinishedKidOk(t, policy, s, id, b);
    } else {
      FinishKeepsLine(t, policy, s, id, b);
      FinishedOtherOk(t, policy, s, id, b);
    }
  }

  lemma FinishedKidOk(t: Tree, policy: Policy, s: State, id: Id, b: Id)
    requires IsTree(t) && Shape(t, s) && IsKid(t, id, b) && id in t.kids && BranchOk(t, policy, s, b)
    requires s.workers[id].busy.Some? && s.slots[id].data.None? && s.slots[b].status == Finished
    requires policy == ParallelWait ==> s.workers[id].busy.value + 1 == Current(t, s)
    requires Line(AfterFinish(t, s, id), b) == Line(s, b) + [s.workers[id].busy.value]
    requires Increasing(Line(AfterFinish(t, s, id), b))
    ensures BranchOk(t, policy, AfterFinish(t, s, id), b)
  {
    var r := AfterFinish(t, s, id);
    FramesGrow(s.log[id], Done(s.workers[id].busy.value));
    assert Fed(policy, s.log[id], Line(s, b));
    assert Fed(policy, r.log[id], Line(r, b));
    FinishKeepsCurrent(t, s, id);
    assert IsKid(t, id, b);
  }

  lemma FinishKeepsCurrent(t: Tree, s: State, id: Id)
    requires IsTree(t) && Shape(t, s) && id in t.kids && s.workers[id].busy.Some? && s.slots[id].data.None?
    ensures Current(t, AfterFinish(t, s, id)) == Current(t, s)
  {
    assert !IsKid(t, id, t.root);
  }

  lemma FinishedOtherOk(t: Tree, policy: Policy, s: State, id: Id, b: Id)
    requires IsTree(t) && Shape(t, s) && b in t.kids && id in t.kids && BranchOk(t, policy, s, b)
    requires s.workers[id].busy.Some? && s.slots[id].data.None? && s.workers[id].queue == []
             && s.workers[id].exceptions == 0
    requires IsKid(t, id, b) ==> policy == ParallelNoWait && s.slots[b].status != Finished
    requires Line(AfterFinish(t, s, id), b) == Line(s, b)
    ensures BranchOk(t, policy, AfterFinish(t, s, id), b)
  {
    var r := AfterFinish(t, s, id);
    FramesGrow(s.log[id], Done(s.workers[id].busy.value));
    forall p | IsKid(t, p, b)
      ensures Fed(policy, r.log[p], Line(r, b))
    {
      assert Fed(policy, s.log[p], Line(s, b));
    }
    FinishKeepsCurrent(t, s, id);
    assert !IsKid(t, id, id);
  }

  lemma FinishOk(t: Tree, policy: Policy, s: State, id: Id)
    requires Ok(t, policy, s) && Enabled(t, s, Finish(id))
    ensures Ok(t, policy, AfterFinish(t, s, id))
  {
    forall b | b in t.kids
      ensures BranchOk(t, policy, AfterFinish(t, s, id), b)
    {
      FinishBranchOk(t, policy, s, id, b);
    }
  }

  // ---------------------------------------------------------------- runs

  lemma StepOk(t: Tree, policy: Policy, s: State, a: Step)
    requires Ok(t, policy, s) && Enabled(t, s, a)
    ensures Ok(t, policy, Next(t, policy, s, a))
  {
    match a
    case Submit(present) => SubmitOk(t, policy, s, present);
    case Iterate =>
      HandlingOk(t, policy, s);
      StartOk(t, policy, AfterHandling(s));
    case Take(id) => TakeOk(t, policy, s, id);
    case Finish(id) => FinishOk(t, policy, s, id);
    case Throw(id) => ThrowOk(t, policy, s, id);
  }

  // ---------------------------------------------------------------- what one turn of the scheduler does

  /** All branches but the root are finished, or have thrown, which the turn takes as finished. */
  ghost predicate RestIsIdle(t: Tree, s: State)
    requires Shape(t, s)
  {
    forall c :: c in t.kids && c != t.root ==> s.slots[c].status == Finished || s.workers[c].exceptions > 0
  }

  /** Data is handed to the worker at once, except that the root waits for the rest if the policy says so. A branch that
      threw is free again. All others are left alone. */
  ghost predicate TurnMeans(t: Tree, policy: Policy, s: State, r: State, b: Id)
    requires Shape(t, s) && Shape(t, r) && b in t.kids
  {
    var w := s.workers[b];
    if w.exceptions > 0 then
      r.slots[b] == Slot(None, Finished) && r.workers[b] == Worker(w.queue, w.busy, 0)
    else if s.slots[b].data.Some? && (b == t.root && policy == ParallelWait ==> RestIsIdle(t, s)) then
      r.slots[b] == Slot(None, Running) && r.workers[b] == Worker([s.slots[b].data.value], None, 0)
    else
      r.slots[b] == s.slots[b] && r.workers[b] == w
  }

  lemma RootMayStartMeans(t: Tree, s: State)
    requires Shape(t, s) && s.slots[t.root].status == Ready && s.workers[t.root].exceptions == 0
    ensures RootMayStart(t, ParallelWait, AfterHandling(s)) <==> RestIsIdle(t, s)
  {
    var h := AfterHandling(s);
    assert forall c :: c in t.kids ==> h.slots[c] == if s.workers[c].exceptions > 0 then EMPTY else s.slots[c];
  }

  lemma TurnOfBranch(t: Tree, policy: Policy, s: State, b: Id)
    requires Shape(t, s) && b in t.kids && SlotOk(t, s, b)
    ensures TurnMeans(t, policy, s, AfterStart(t, policy, AfterHandling(s)), b)
  {
    if b == t.root && s.slots[b].data.Some? {
      RootMayStartMeans(t, s);
    }
  }

  lemma IterateMeans(t: Tree, policy: Policy, s: State, b: Id)
    requires Ok(t, policy, s) && b in t.kids
    ensures TurnMeans(t, policy, s, Next(t, policy, s, Iterate), b)
  {
    assert BranchOk(t, policy, s, b);
    TurnOfBranch(t, policy, s, b);
  }

  /** The state after a run; nothing for a run in which some step was not possible. */
  ghost function After(t: Tree, policy: Policy, run: seq<Step>): (r: Option<State>)
    requires IsTree(t)
    ensures r.Some? ==> Shape(t, r.value)
  {
    if run == [] then Some(Initial(t))
    else
      var s := After(t, policy, run[..|run| - 1]);
      if s.Some? && Enabled(t, s.value, run[|run| - 1]) then Some(Next(t, policy, s.value, run[|run| - 1])) else None
  }

  lemma OneMoreStep(t: Tree, policy: Policy, run: seq<Step>, s: State, a: Step)
    requires IsTree(t) && After(t, policy, run) == Some(s) && Enabled(t, s, a)
    ensures After(t, policy, run + [a]) == Some(Next(t, policy, s, a))
  {
    assert (run + [a])[..|run|] == run;
  }

  /** In every interleaving. */
  lemma {:induction false} EveryRunOk(t: Tree, policy: Policy, run: seq<Step>)
    requires IsTree(t) && After(t, policy, run).Some?
    ensures Ok(t, policy, After(t, policy, run).value)
  {
    if run == [] {
      InitialOk(t, policy);
    } else {
      EveryRunOk(t, policy, run[..|run| - 1]);
      StepOk(t, policy, After(t, policy, run[..|run| - 1]).value, run[|run| - 1]);
    }
  }
}
