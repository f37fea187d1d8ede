/** The asynchronous pipeline as an object: one slot and one worker per branch, changed step by step. */
module AsyncPipeline {
  import opened AsyncProtocol
  import opened Graph
  import opened Options

  class Pipeline {
    const tree: Tree
    const policy: Policy
    var branchesData: map<Id, Slot>
    var threads: map<Id, Worker>
    ghost var log: map<Id, seq<Outcome>>
    ghost var accepted: nat

    ghost function Now(): State
      reads this
    {
      State(branchesData, threads, log, accepted)
    }

    ghost predicate Valid()
      reads this
    {
      Ok(tree, policy, Now())
    }

    /** Every branch starts out idle (create_branch). */
    constructor (tree: Tree, policy: Policy)
      requires IsTree(tree)
      ensures this.tree == tree && this.policy == policy
      ensures Valid() && Now() == Initial(tree)
    {
      this.tree, this.policy := tree, policy;
      branchesData := map b | b in tree.kids :: EMPTY;
      threads := map b | b in tree.kids :: Worker([], None, 0);
      log := map b | b in tree.kids :: [];
      accepted := 0;
      InitialOk(tree, policy);
    }

    /** Takes a frame for the root if the root is idle; frames are numbered as they are accepted. */
    method AddProcessData(data: Option<Frame>) returns (ok: bool)
      requires Valid() && (data.Some? ==> data.value == accepted)
      modifies this
      ensures Valid() && Now() == Next(tree, policy, old(Now()), Submit(data.Some?))
      ensures ok <==> old(branchesData[tree.root].status) == Finished
      ensures branchesData == if ok then old(branchesData)[tree.root := Slot(data, Ready)] else old(branchesData)
      ensures accepted == (if ok && data.Some? then old(accepted) + 1 else old(accepted)) && threads == old(threads)
    {
      SubmitOk(tree, policy, Now(), data.Some?);
      if branchesData[tree.root].status != Finished {
        return false;
      }
      branchesData := branchesData[tree.root := Slot(data, Ready)];
      accepted := if data.Some? then accepted + 1 else accepted;
      return true;
    }

    /** One turn of the scheduler (thread_pool_iteration). */
    method Iteration()
      requires Valid()
      modifies this
      ensures Valid() && Now() == Next(tree, policy, old(Now()), Iterate)
      ensures forall b :: b in tree.kids ==> TurnMeans(tree, policy, old(Now()), Now(), b)
    {
      forall b | b in tree.kids
        ensures TurnMeans(tree, policy, Now(), Next(tree, policy, Now(), Iterate), b)
      {
        IterateMeans(tree, policy, Now(), b);
      }
      StepOk(tree, policy, Now(), Iterate);
      ghost var next := Next(tree, policy, Now(), Iterate);
      branchesData, threads := Turn(tree, policy, branchesData, threads, Now());
      assert Now() == next;
    }

    /** A worker takes the item it is owed. */
    method TakeData(id: Id)
      requires Valid() && Enabled(tree, Now(), Take(id))
      modifies this
      ensures Valid() && Now() == Next(tree, policy, old(Now()), Take(id))
      ensures threads[id].busy == Some(old(threads[id].queue)[0]) && branchesData == old(branchesData)
    {
      StepOk(tree, policy, Now(), Take(id));
      var w := threads[id];
      threads := threads[id := Worker(w.queue[1..], Some(w.queue[0]), w.exceptions)];
    }

    /** A worker's nodes throw. */
    method KeepException(id: Id)
      requires Valid() && Enabled(tree, Now(), Throw(id))
      modifies this
      ensures Valid() && Now() == Next(tree, policy, old(Now()), Throw(id))
      ensures threads[id].busy == None && threads[id].exceptions == old(threads[id].exceptions) + 1
      ensures branchesData == old(branchesData)
    {
      StepOk(tree, policy, Now(), Throw(id));
      var w := threads[id];
      log := log[id := log[id] + [Threw(w.busy.value)]];
      threads := threads[id := Worker(w.queue, None, w.exceptions + 1)];
    }

    /** A worker is done with its item and reports it (on_finished). */
    method OnFinished(id: Id)
      requires Valid() && Enabled(tree, Now(), Finish(id))
      modifies this
      ensures Valid() && Now() == Next(tree, policy, old(Now()), Finish(id))
      ensures branchesData[id] == EMPTY && threads[id].busy == None
      ensures forall b :: b in tree.kids && b != id ==>
                branchesData[b] == if b in tree.kids[id] && old(branchesData[b].status) == Finished
                                   then Slot(old(threads[id].busy), Ready) else old(branchesData[b])
    {
      StepOk(tree, policy, Now(), Finish(id));
      ghost var next := Next(tree, policy, Now(), Finish(id));
      var data := threads[id].busy.value;
      branchesData := FinishBranch(tree, branchesData, id, data, Now());
      log := log[id := log[id] + [Done(data)]];
      threads := threads[id := threads[id].(busy := None)];
      assert Now() == next;
    }
  }

  /** Frees the slot of a finished branch and feeds its children. */
  method FinishBranch(tree: Tree, slots: map<Id, Slot>, id: Id, data: Frame, ghost s: State) returns (r: map<Id, Slot>)
    requires IsTree(tree) && Shape(tree, s) && Enabled(tree, s, Finish(id))
    requires slots == s.slots && s.workers[id].busy == Some(data)
    ensures r == AfterFinish(tree, s, id).slots
  {
    var children := tree.kids[id];
    forall b | b in children
      ensures b in slots && b != id
    {
      assert IsKid(tree, id, b);
    }
    r := FeedChildren(children, slots[id := EMPTY], data);
  }

  /** Passes a copy of the data to each idle child. */
  method FeedChildren(children: seq<Id>, slots: map<Id, Slot>, data: Frame) returns (r: map<Id, Slot>)
    requires forall b :: b in children ==> b in slots
    ensures r.Keys == slots.Keys
    ensures forall b :: b in slots ==>
                          r[b] == if b in children && slots[b].status == Finished
                                  then Slot(Some(data), Ready) else slots[b]
  {
    r := slots;
    for i := 0 to |children|
      invariant r.Keys == slots.Keys
      invariant forall b :: b in slots ==>
                              r[b] == if b in children[..i] && slots[b].status == Finished
                                      then Slot(Some(data), Ready) else slots[b]
    {
      var child := children[i];
      assert children[..i + 1] == children[..i] + [child];
      if r[child].status == Finished {
        r := r[child := Slot(Some(data), Ready)];
      }
    }
    assert children[..|children|] == children;
  }

  /** Handles exceptions, decides whether the root may start, and starts what is ready. */
  method Turn(tree: Tree, policy: Policy, slots: map<Id, Slot>, threads: map<Id, Worker>, ghost s: State)
    returns (slots': map<Id, Slot>, threads': map<Id, Worker>)
    requires IsTree(tree) && Shape(tree, s) && s.slots == slots && s.workers == threads
    ensures s.(slots := slots', workers := threads') == Next(tree, policy, s, Iterate)
  {
    slots', threads' := HandleExceptions(slots, threads, s);
    ghost var h := s.(slots := slots', workers := threads');
    var ready := true;
    if policy == ParallelWait {
      ready := AllStopped(slots', tree.root);
    }
    assert ready == RootMayStart(tree, policy, h);
    slots', threads' := StartBranches(tree, slots', threads', ready, h);
  }

  method HandleExceptions(slots: map<Id, Slot>, threads: map<Id, Worker>, ghost s: State)
    returns (slots': map<Id, Slot>, threads': map<Id, Worker>)
    requires slots.Keys == threads.Keys && s.slots == slots && s.workers == threads
    ensures s.(slots := slots', workers := threads') == AfterHandling(s)
  {
    slots', threads' := slots, threads;
    var todo := threads.Keys;
    while todo != {}
      invariant todo <= threads.Keys && slots'.Keys == slots.Keys && threads'.Keys == threads.Keys
      invariant forall b :: b in slots ==>
                              slots'[b] == if b !in todo && threads[b].exceptions > 0 then EMPTY else slots[b]
      invariant forall b :: b in threads ==>
                              threads'[b] == if b !in todo then threads[b].(exceptions := 0) else threads[b]
      decreases todo
    {
      var id :| id in todo;
      todo := todo - {id};
      if threads'[id].exceptions > 0 {
        slots' := slots'[id := EMPTY];
        threads' := threads'[id := threads'[id].(exceptions := 0)];
      }
    }
  }

  /** Starts every branch that is ready, the root only if `rootMayStart`. */
  method StartBranches(tree: Tree, slots: map<Id, Slot>, threads: map<Id, Worker>, rootMayStart: bool, ghost s: State)
    returns (slots': map<Id, Slot>, threads': map<Id, Worker>)
    requires slots.Keys == threads.Keys && s.slots == slots && s.workers == threads
    ensures s.(slots := slots', workers := threads') == StartAll(tree, s, rootMayStart)
  {
    slots', threads' := slots, threads;
    var todo := slots.Keys;
    while todo != {}
      invariant todo <= threads.Keys && slots'.Keys == slots.Keys && threads'.Keys == threads.Keys
      invariant forall b :: b in slots ==>
                              slots'[b] == if b in todo then slots[b] else StartedSlot(tree, slots[b], b, rootMayStart)
      invariant forall b :: b in threads ==>
                              threads'[b] == if b in todo then threads[b]
                                             else StartedWorker(tree, slots[b], threads[b], b, rootMayStart)
      decreases todo
    {
      var id :| id in todo;
      todo := todo - {id};
      if slots'[id].status != Running {
        var slot, thread := StartOne(tree, id, slots'[id], threads'[id], rootMayStart);
        slots' := slots'[id := slot];
        threads' := threads'[id := thread];
      }
    }
  }

  method StartOne(tree: Tree, id: Id, slot: Slot, thread: Worker, rootMayStart: bool)
    returns (slot': Slot, thread': Worker)
    requires slot.status != Running
    ensures slot' == StartedSlot(tree, slot, id, rootMayStart)
    ensures thread' == StartedWorker(tree, slot, thread, id, rootMayStart)
  {
    slot', thread' := slot, thread;
    var ready := slot.data.Some? && slot.status == Ready;
    if ready && (id != tree.root || rootMayStart) {
      thread' := thread.(queue := thread.queue + [slot.data.value]);
      slot' := Slot(None, Running);
    }
  }

  /** The root is ready and all other branches are finished. */
  method AllStopped(slots: map<Id, Slot>, root: Id) returns (all: bool)
    ensures all <==> forall b :: b in slots ==> slots[b].status == if b == root then Ready else Finished
  {
    var todo := slots.Keys;
    all := true;
    while todo != {}
      invariant todo <= slots.Keys
      invariant all <==> forall b :: b in slots && b !in todo ==>
                                       slots[b].status == if b == root then Ready else Finished
      decreases todo
    {
      var id :| id in todo;
      todo := todo - {id};
      all := all && slots[id].status == if id == root then Ready else Finished;
    }
  }
}
