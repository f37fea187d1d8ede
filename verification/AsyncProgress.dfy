/** The asynchronous pipeline can always come to rest, unless it was handed a null frame. */
module AsyncProgress {
  import opened AsyncGuarantees
  import opened AsyncProtocol
  import opened Graph
  import opened Options
  import opened Pipeline

  /** A numbering in which children lie above their parents. */
  ghost predicate Climbs(t: Tree, rank: map<Id, nat>) {
    && t.kids.Keys <= rank.Keys
    && forall p, b :: IsKid(t, p, b) && b in rank && p in rank ==> rank[p] < rank[b]
  }

  /** The branches of an acyclic graph have one. */
  lemma BranchesClimb(nodes: Nodes, heads: set<Id>, branches: map<Id, seq<Id>>, t: Tree)
    requires Mirrored(nodes) && Acyclic(nodes) && AreBranches(nodes, heads, branches) && t.kids.Keys == heads
    requires forall b {:trigger t.kids[b]} :: b in heads ==>
               branches[b] != [] && branches[b][|branches[b]| - 1] in nodes
               && t.kids[b] == nodes[branches[b][|branches[b]| - 1]].children
    ensures exists rank :: Climbs(t, rank)
  {
    var rank :| Ranked(nodes, rank);
    forall p, b | IsKid(t, p, b) && b in rank && p in rank
      ensures rank[p] < rank[b]
    {
      var c := branches[p];
      assert IsChain(nodes, heads, c, p);
      if |c| > 1 {
        ChainClimbs(nodes, heads, rank, c, p, 0, |c| - 1);
      }
      assert rank[c[0]] <= rank[c[|c| - 1]] < rank[b];
    }
    assert Climbs(t, rank);
  }

  // ---------------------------------------------------------------- continuing a run

  /** No frame is submitted and no branch throws. */
  ghost predicate Quiet(run: seq<Step>) {
    forall i :: 0 <= i < |run| ==> !run[i].Submit? && !run[i].Throw?
  }

  ghost predicate AllFinished(t: Tree, s: State)
    requires Shape(t, s)
  {
    forall b :: b in t.kids ==> s.slots[b].status == Finished
  }

  /** The run goes on quietly with `more` and then is in state `s`. */
  ghost predicate Leads(t: Tree, policy: Policy, run: seq<Step>, more: seq<Step>, s: State)
    requires IsTree(t)
  {
    Quiet(more) && After(t, policy, run + more) == Some(s) && Ok(t, policy, s) && !Jammed(t, s)
  }

  lemma LeadsStep(t: Tree, policy: Policy, run: seq<Step>, more: seq<Step>, s: State, a: Step)
    requires IsTree(t) && Leads(t, policy, run, more, s) && Enabled(t, s, a) && !a.Submit? && !a.Throw?
    ensures Leads(t, policy, run, more + [a], Next(t, policy, s, a))
  {
    assert run + (more + [a]) == (run + more) + [a];
    OneMoreStep(t, policy, run + more, s, a);
    StaysFree(t, policy, s, a);
    StaysQuiet(more, a);
  }

  lemma StaysFree(t: Tree, policy: Policy, s: State, a: Step)
    requires Ok(t, policy, s) && Enabled(t, s, a) && !a.Submit? && !Jammed(t, s)
    ensures Ok(t, policy, Next(t, policy, s, a)) && !Jammed(t, Next(t, policy, s, a))
  {
    StepOk(t, policy, s, a);
    JamStep(t, policy, s, a);
  }

  lemma StaysQuiet(more: seq<Step>, a: Step)
    requires Quiet(more) && !a.Submit? && !a.Throw?
    ensures Quiet(more + [a])
  {
  }

  /** Branch `b` has come to rest, and so have all that were at rest and are not its children. */
  ghost predicate Rests(t: Tree, s: State, r: State, b: Id)
    requires Shape(t, s) && Shape(t, r)
  {
    && b in t.kids && r.slots[b].status == Finished
    && forall c :: c in t.kids && s.slots[c].status == Finished && !IsKid(t, b, c) ==> r.slots[c].status == Finished
  }

  ghost predicate RestKept(t: Tree, s: State, r: State)
    requires Shape(t, s) && Shape(t, r)
  {
    forall c :: c in t.kids && s.slots[c].status == Finished ==> r.slots[c].status == Finished
  }

  /** The scheduler's turn leaves finished branches alone. */
  lemma IterateKeepsRest(t: Tree, policy: Policy, s: State)
    requires Ok(t, policy, s)
    ensures RestKept(t, s, Next(t, policy, s, Iterate))
  {
    forall c | c in t.kids && s.slots[c].status == Finished
      ensures Next(t, policy, s, Iterate).slots[c].status == Finished
    {
      assert BranchOk(t, policy, s, c);
    }
  }

  /** A branch may be started: it is not the root, or nothing else is at work. */
  ghost predicate MayStart(t: Tree, s: State, b: Id)
    requires Shape(t, s)
  {
    b != t.root || forall c :: c in t.kids && c != t.root ==> s.slots[c].status == Finished
  }

  lemma IterateStarts(t: Tree, policy: Policy, s: State, b: Id)
    requires Ok(t, policy, s) && !Jammed(t, s) && b in t.kids && s.slots[b].status == Ready && MayStart(t, s, b)
    ensures Next(t, policy, s, Iterate).slots[b].status == Running
  {
    assert BranchOk(t, policy, s, b);
    var u := AfterHandling(s);
    assert u.slots[b] == s.slots[b];
    if b == t.root && policy == ParallelWait {
      forall c | c in u.slots
        ensures u.slots[c].status == if c == t.root then Ready else Finished
      {
        assert c in t.kids;
      }
    }
    assert Starts(t, u.slots[b], b, RootMayStart(t, policy, u));
  }

  /** A running branch can be brought to its end. */
  lemma RunBranch(t: Tree, policy: Policy, run: seq<Step>, more: seq<Step>, s: State, b: Id)
    returns (further: seq<Step>, r: State)
    requires IsTree(t) && Leads(t, policy, run, more, s) && b in t.kids && s.slots[b].status == Running
    ensures Leads(t, policy, run, further, r) && Rests(t, s, r, b)
  {
    assert BranchOk(t, policy, s, b);
    if s.workers[b].exceptions > 0 {
      further, r := more + [Iterate], Next(t, policy, s, Iterate);
      LeadsStep(t, policy, run, more, s, Iterate);
      IterateKeepsRest(t, policy, s);
    } else if s.workers[b].busy.Some? {
      further, r := EndBranch(t, policy, run, more, s, b);
    } else {
      var u := Next(t, policy, s, Take(b));
      LeadsStep(t, policy, run, more, s, Take(b));
      further, r := EndBranch(t, policy, run, more + [Take(b)], u, b);
      assert u.slots == s.slots;
    }
  }

  lemma EndBranch(t: Tree, policy: Policy, run: seq<Step>, more: seq<Step>, s: State, b: Id)
    returns (further: seq<Step>, r: State)
    requires IsTree(t) && Leads(t, policy, run, more, s) && b in t.kids && s.workers[b].busy.Some?
    ensures Leads(t, policy, run, further, r) && Rests(t, s, r, b)
  {
    further, r := more + [Finish(b)], Next(t, policy, s, Finish(b));
    LeadsStep(t, policy, run, more, s, Finish(b));
    assert !IsKid(t, b, b);
  }

  /** So can one that is ready and may be started. */
  lemma SettleBranch(t: Tree, policy: Policy, run: seq<Step>, more: seq<Step>, s: State, b: Id)
    returns (further: seq<Step>, r: State)
    requires IsTree(t) && Leads(t, policy, run, more, s) && b in t.kids && s.slots[b].status != Finished
    requires MayStart(t, s, b) || s.slots[b].status == Running
    ensures Leads(t, policy, run, further, r) && Rests(t, s, r, b)
  {
    if s.slots[b].status == Ready {
      var u := Next(t, policy, s, Iterate);
      LeadsStep(t, policy, run, more, s, Iterate);
      IterateKeepsRest(t, policy, s);
      IterateStarts(t, policy, s, b);
      further, r := RunBranch(t, policy, run, more + [Iterate], u, b);
    } else {
      further, r := RunBranch(t, policy, run, more, s, b);
    }
  }

  // ---------------------------------------------------------------- level by level

  /** The branches of rank `d` below the root that are at work. */
  ghost function AtWork(t: Tree, rank: map<Id, nat>, s: State, d: nat): set<Id>
    requires Shape(t, s) && t.kids.Keys <= rank.Keys
  {
    set b | b in t.kids && b != t.root && rank[b] == d && s.slots[b].status != Finished
  }

  /** Below the root, branches of rank less than `d` are at rest. */
  ghost predicate RestBelow(t: Tree, rank: map<Id, nat>, s: State, d: nat)
    requires Shape(t, s) && t.kids.Keys <= rank.Keys
  {
    forall b :: b in t.kids && b != t.root && rank[b] < d ==> s.slots[b].status == Finished
  }

  ghost predicate RootKept(t: Tree, s: State, r: State)
    requires Shape(t, s) && Shape(t, r)
  {
    s.slots[t.root].status == Finished ==> r.slots[t.root].status == Finished
  }

  lemma {:induction false} SettleLevel(t: Tree, policy: Policy, rank: map<Id, nat>, run: seq<Step>, more: seq<Step>,
                                       s: State, d: nat)
    returns (further: seq<Step>, r: State)
    requires IsTree(t) && Climbs(t, rank) && Leads(t, policy, run, more, s) && RestBelow(t, rank, s, d)
    ensures Leads(t, policy, run, further, r) && RestBelow(t, rank, r, d + 1) && RootKept(t, s, r)
    decreases |AtWork(t, rank, s, d)|
  {
    if AtWork(t, rank, s, d) == {} {
      further, r := more, s;
      forall b | b in t.kids && b != t.root && rank[b] < d + 1
        ensures s.slots[b].status == Finished
      {
        assert b !in AtWork(t, rank, s, d);
      }
    } else {
      var b :| b in AtWork(t, rank, s, d);
      var between, u := SettleBranch(t, policy, run, more, s, b);
      LessAtWork(t, rank, s, u, d, b);
      further, r := SettleLevel(t, policy, rank, run, between, u, d);
    }
  }

  lemma LessAtWork(t: Tree, rank: map<Id, nat>, s: State, u: State, d: nat, b: Id)
    requires IsTree(t) && Climbs(t, rank) && Shape(t, s) && Shape(t, u) && RestBelow(t, rank, s, d)
    requires b in AtWork(t, rank, s, d) && Rests(t, s, u, b)
    ensures |AtWork(t, rank, u, d)| < |AtWork(t, rank, s, d)| && RestBelow(t, rank, u, d) && RootKept(t, s, u)
  {
    var before, after := AtWork(t, rank, s, d), AtWork(t, rank, u, d);
    forall c | c in after
      ensures c in before - {b}
    {
      assert !IsKid(t, b, c);
    }
    assert after <= before - {b};
    assert before == (before - {b}) + {b};
    assert before - {b} == after + (before - {b} - after);
    forall c | c in t.kids && c != t.root && rank[c] < d
      ensures u.slots[c].status == Finished
    {
      assert !IsKid(t, b, c);
    }
    assert !IsKid(t, b, t.root);
  }

  lemma {:induction false} SettleLevels(t: Tree, policy: Policy, rank: map<Id, nat>, run: seq<Step>, more: seq<Step>,
                                        s: State, d: nat, top: nat)
    returns (further: seq<Step>, r: State)
    requires IsTree(t) && Climbs(t, rank) && Leads(t, policy, run, more, s) && RestBelow(t, rank, s, d) && d <= top
    ensures Leads(t, policy, run, further, r) && RestBelow(t, rank, r, top) && RootKept(t, s, r)
    decreases top - d
  {
    if d == top {
      further, r := more, s;
    } else {
      var between, u := SettleLevel(t, policy, rank, run, more, s, d);
      further, r := SettleLevels(t, policy, rank, run, between, u, d + 1, top);
    }
  }

  /** All branches below the root can be brought to rest. */
  lemma SettleBelowRoot(t: Tree, policy: Policy, rank: map<Id, nat>, run: seq<Step>, more: seq<Step>, s: State)
    returns (further: seq<Step>, r: State)
    requires IsTree(t) && Climbs(t, rank) && Leads(t, policy, run, more, s)
    ensures Leads(t, policy, run, further, r) && RootKept(t, s, r)
    ensures forall b :: b in t.kids && b != t.root ==> r.slots[b].status == Finished
  {
    var top := RankBound(rank);
    further, r := SettleLevels(t, policy, rank, run, more, s, 0, top + 1);
  }

  /** Unless the root is jammed, a run can be continued, without new frames and without exceptions, until all branches
      are finished. */
  lemma CanFinish(t: Tree, policy: Policy, rank: map<Id, nat>, run: seq<Step>) returns (more: seq<Step>, r: State)
    requires IsTree(t) && Climbs(t, rank) && After(t, policy, run).Some? && !Jammed(t, After(t, policy, run).value)
    ensures Leads(t, policy, run, more, r) && AllFinished(t, r)
  {
    var s := After(t, policy, run).value;
    EveryRunOk(t, policy, run);
    assert run + [] == run;
    more, r := SettleBelowRoot(t, policy, rank, run, [], s);
    if r.slots[t.root].status != Finished {
      var u := r;
      more, u := SettleBranch(t, policy, run, more, r, t.root);
      more, r := SettleBelowRoot(t, policy, rank, run, more, u);
    }
  }

  /** The run can be continued until all branches are finished. */
  ghost predicate MayRest(t: Tree, policy: Policy, run: seq<Step>)
    requires IsTree(t)
  {
    exists more :: ComesToRest(t, policy, run + more)
  }

  ghost predicate ComesToRest(t: Tree, policy: Policy, run: seq<Step>)
    requires IsTree(t)
  {
    After(t, policy, run).Some? && AllFinished(t, After(t, policy, run).value)
  }

  /** A run can come to rest exactly if no null frame was accepted. */
  lemma MayRestIff(t: Tree, policy: Policy, rank: map<Id, nat>, run: seq<Step>)
    requires IsTree(t) && Climbs(t, rank) && After(t, policy, run).Some?
    ensures MayRest(t, policy, run) <==> !NullEver(t, policy, run)
  {
    JammedIffNullAccepted(t, policy, run);
    if !NullEver(t, policy, run) {
      var more, r := CanFinish(t, policy, rank, run);
      assert ComesToRest(t, policy, run + more);
    }
    if more :| ComesToRest(t, policy, run + more) {
      JammedIffNullAccepted(t, policy, run + more);
      assert !NullEver(t, policy, run + more);
      NullStays(t, policy, run, more);
    }
  }

  lemma NullStays(t: Tree, policy: Policy, run: seq<Step>, more: seq<Step>)
    requires IsTree(t)
    ensures NullEver(t, policy, run) ==> NullEver(t, policy, run + more)
  {
    if i :| NullAccepted(t, policy, run, i) {
      assert (run + more)[..i] == run[..i];
      assert NullAccepted(t, policy, run + more, i);
    }
  }

  /** One null frame handed to a new pipeline is enough. */
  lemma NullFrameJams(t: Tree, policy: Policy)
    requires IsTree(t)
    ensures var s := After(t, policy, [Submit(false)]); s.Some? && Jammed(t, s.value)
  {
    assert [Submit(false)][..0] == [];
    assert After(t, policy, []) == Some(Initial(t));
  }
}
