/**
The plan as a whole: what every recommended move keeps, over every plan the planner can give.
*/
module LoadPlan {
  import opened Wrappers
  import opened Sorting
  import opened AffinityRules
  import opened ClusterLoad
  import opened LoadPlanner

  /** The cluster as the moves made so far leave it. */
  datatype Snapshot = Snapshot(c: Cluster, where: Placement)

  /** Every VM of the placement is on the node it says. */
  ghost predicate Located(c: Cluster, where: Placement)
  {
    forall v | v in where :: where[v] in c.nodes && v in c.nodes[where[v]].vms
  }

  /** The placement has every VM that a node shows. */
  ghost predicate Placed(c: Cluster, where: Placement)
  {
    forall n, v | n in c.nodes && v in c.nodes[n].vms :: v in where
  }

  ghost predicate Good(s: Snapshot)
  {
    Valid(s.c) && Located(s.c, s.where) && Placed(s.c, s.where)
  }

  ghost predicate CanStep(s: Snapshot, m: Move)
  {
    CanMove(s.c, m.vm, m.source, m.target) && m.vm in s.where
  }

  function Next(s: Snapshot, m: Move): Snapshot
    requires CanMove(s.c, m.vm, m.source, m.target)
  {
    Snapshot(After(s.c, m.vm, m.source, m.target), s.where[m.vm := m.target])
  }

  lemma NextIsGood(s: Snapshot, m: Move)
    requires Good(s) && CanStep(s, m)
    ensures Good(Next(s, m)) && Next(s, m).c.order == s.c.order && Next(s, m).c.nodes.Keys == s.c.nodes.Keys
    ensures Runs(s.c, s.where) ==> Runs(Next(s, m).c, Next(s, m).where)
  {
    AfterIsValid(s.c, m.vm, m.source, m.target);
    if Runs(s.c, s.where) {
      AfterRuns(s.c, s.where, m.vm, m.source, m.target);
    }
    var next := Next(s, m);
    forall v | v in next.where
      ensures next.where[v] in next.c.nodes && v in next.c.nodes[next.where[v]].vms
    {
      assert v in s.where ==> s.where[v] in s.c.nodes;
    }
  }

  function Vms(moves: seq<Move>): set<Vm>
  {
    if moves == [] then {} else Vms(moves[..|moves| - 1]) + {moves[|moves| - 1].vm}
  }

  lemma {:induction false} VmsHold(moves: seq<Move>, i: nat)
    requires i < |moves|
    ensures moves[i].vm in Vms(moves)
    decreases |moves|
  {
    if i < |moves| - 1 {
      VmsHold(moves[..|moves| - 1], i);
    }
  }

  // ---- The steps of a plan ----

  /** A VM that breaks a rule, moved to the least loaded of the nodes where it has room and breaks none. */
  ghost predicate FixStep(x: Context, c: Cluster, where: Placement, m: Move)
  {
    && m.vm in where && m.source == where[m.vm] && m.source in c.nodes && m.vm in c.nodes[m.source].vms
    && m.gain == None
    && var load := c.nodes[m.source].vms[m.vm];
       && !Keeps(x.rules, m.vm, m.source, where, ALL) && Movable(x, m.vm, load)
       && Eligible(x, c, where, m.vm, load, m.source, m.target)
       && forall n | n in c.order && Eligible(x, c, where, m.vm, load, m.source, n) ::
            n in c.nodes && c.nodes[m.target].score <= c.nodes[n].score
  }

  /** A VM moved from the most loaded node, the cluster being uneven or the node hot: no move from there lowers the
  spread more, none as much moves less memory, and it lowers the spread by a quarter of the threshold. */
  ghost predicate LoadStep(x: Context, s: Snapshot, taken: set<Vm>, threshold: real, m: Move)
  {
    && Known(s.c, s.c.order) && |s.c.order| >= 2 && m.source == Hottest(s.c, s.c.order)
    && (Spread(s.c) >= threshold || s.c.nodes[m.source].score >= HOT_PCT)
    && Candidate(x, s.c, s.where, taken, m.vm, m.source, m.target)
    && CanMove(s.c, m.vm, m.source, m.target)
    && m.gain == Some(Gain(s.c, m.vm, m.source, m.target)) && m.gain.value >= threshold / 4.0
    && forall vm, target | Candidate(x, s.c, s.where, taken, vm, m.source, target) ::
         !Better(WorthOf(s.c, vm, m.source, target), WorthOf(s.c, m.vm, m.source, m.target))
  }

  /** Nothing left to do: even enough, or no move from the most loaded node is worth it, or enough moves. */
  ghost predicate Finished(x: Context, s: Snapshot, taken: set<Vm>, count: nat, threshold: Option<real>)
  {
    || threshold.None? || count >= MAX_MOVES || |s.c.order| < 2
    || (Known(s.c, s.c.order)
        && var source := Hottest(s.c, s.c.order);
           || (Spread(s.c) < threshold.value && s.c.nodes[source].score < HOT_PCT)
           || forall vm, target | Candidate(x, s.c, s.where, taken, vm, source, target) ::
                WorthOf(s.c, vm, source, target).gain < threshold.value / 4.0)
  }

  ghost predicate StepAt(states: seq<Snapshot>, moves: seq<Move>, k: nat)
    requires |states| == |moves| + 1 && k < |moves|
  {
    CanStep(states[k], moves[k]) && states[k + 1] == Next(states[k], moves[k])
  }

  ghost predicate Traced(states: seq<Snapshot>, moves: seq<Move>)
  {
    |states| == |moves| + 1 && Good(states[0]) && forall k | 0 <= k < |moves| :: StepAt(states, moves, k)
  }

  ghost predicate LoadStepAt(
    x: Context, threshold: Option<real>, states: seq<Snapshot>, moves: seq<Move>, k: nat)
    requires |states| == |moves| + 1 && k < |moves|
  {
    threshold.Some? && LoadStep(x, states[k], Vms(moves[..k]), threshold.value, moves[k])
  }

  ghost predicate FixStepAt(x: Context, states: seq<Snapshot>, moves: seq<Move>, k: nat)
    requires |states| == |moves| + 1 && k < |moves|
  {
    FixStep(x, states[0].c, states[k].where, moves[k])
  }

  /** A plan: its first `fixes` moves mend rules, judged on the loads from before the plan; the others even the load. */
  ghost predicate IsPlan(x: Context, threshold: Option<real>, states: seq<Snapshot>, moves: seq<Move>, fixes: nat)
  {
    && Traced(states, moves) && fixes <= |moves|
    && (forall k | 0 <= k < fixes :: FixStepAt(x, states, moves, k))
    && (forall j, k | 0 <= j < k < fixes :: moves[j].vm < moves[k].vm)
    && (forall k | fixes <= k < |moves| :: LoadStepAt(x, threshold, states, moves, k))
    && (fixes < |moves| ==> |moves| <= MAX_MOVES)
  }

  // ---- What every plan keeps ----

  lemma {:induction false} StatesAreGood(states: seq<Snapshot>, moves: seq<Move>, k: nat)
    requires Traced(states, moves) && k <= |moves|
    ensures Good(states[k]) && states[k].c.order == states[0].c.order
    ensures states[k].c.nodes.Keys == states[0].c.nodes.Keys
  {
    if k > 0 {
      assert StepAt(states, moves, k - 1);
      StatesAreGood(states, moves, k - 1);
      NextIsGood(states[k - 1], moves[k - 1]);
    }
  }

  /** No move of a plan makes any VM break a rule it kept; every rule fix leaves fewer broken. */
  lemma PlanBreaksNoRule(
    x: Context, threshold: Option<real>, states: seq<Snapshot>, moves: seq<Move>, fixes: nat, k: nat)
    requires IsPlan(x, threshold, states, moves, fixes) && k < |moves|
    ensures var before := Violations(x.rules, states[k].where, ALL);
      var after := Violations(x.rules, states[k + 1].where, ALL);
      after <= before && (k < fixes ==> after < before)
  {
    assert StepAt(states, moves, k);
    assert if k < fixes then FixStepAt(x, states, moves, k) else LoadStepAt(x, threshold, states, moves, k);
    MoveShrinksViolations(x.rules, states[k].where, moves[k].vm, moves[k].target, ALL);
  }

  ghost predicate SameTotals(a: Cluster, b: Cluster)
  {
    && a.order == b.order && Known(a, a.order) && Known(b, b.order)
    && Sum(MemoryUsed(a), a.order) == Sum(MemoryUsed(b), b.order)
    && Sum(CpuUsed(a), a.order) == Sum(CpuUsed(b), b.order)
  }

  lemma StepConserves(s: Snapshot, m: Move)
    requires Good(s) && CanStep(s, m)
    ensures SameTotals(Next(s, m).c, s.c) && Next(s, m).where.Keys == s.where.Keys
  {
    KnownOrder(s.c);
    MoveConserves(s.c, m.vm, m.source, m.target);
  }

  /** VMs that are each on one node stay each on one node, and the memory and the CPU in use of the whole cluster stay
  what they were. */
  lemma {:induction false} PlanConserves(states: seq<Snapshot>, moves: seq<Move>, k: nat)
    requires Traced(states, moves) && k <= |moves|
    ensures Good(states[k]) && states[k].where.Keys == states[0].where.Keys
    ensures Runs(states[0].c, states[0].where) ==> Runs(states[k].c, states[k].where)
    ensures SameTotals(states[k].c, states[0].c)
  {
    KnownOrder(states[0].c);
    if k > 0 {
      assert StepAt(states, moves, k - 1);
      PlanConserves(states, moves, k - 1);
      StepConserves(states[k - 1], moves[k - 1]);
      NextIsGood(states[k - 1], moves[k - 1]);
    }
  }

  lemma NoVmTwice(
    x: Context, threshold: Option<real>, states: seq<Snapshot>, moves: seq<Move>, fixes: nat, j: nat, k: nat)
    requires IsPlan(x, threshold, states, moves, fixes) && j < k < |moves|
    ensures moves[j].vm != moves[k].vm
  {
    if k >= fixes {
      assert LoadStepAt(x, threshold, states, moves, k);
      assert moves[..k][j] == moves[j];
      VmsHold(moves[..k], j);
    }
  }

  /** A plan moves no VM whose disks are not shared, none that is excluded, and none within its cool-down. */
  lemma PlanMovesOnlyMovable(
    x: Context, threshold: Option<real>, states: seq<Snapshot>, moves: seq<Move>, fixes: nat, k: nat)
    requires IsPlan(x, threshold, states, moves, fixes) && k < |moves|
    ensures (moves[k].vm, Excluded) !in x.behaviours.Items
    ensures moves[k].vm in x.moved ==> x.moved[moves[k].vm] + COOLDOWN_S <= x.now
    ensures var c, m := if k < fixes then states[0].c else states[k].c, moves[k];
      m.source in c.nodes && m.vm in c.nodes[m.source].vms && c.nodes[m.source].vms[m.vm].shared
  {
    assert if k < fixes then FixStepAt(x, states, moves, k) else LoadStepAt(x, threshold, states, moves, k);
  }

  lemma LoadStepStaysWithin(x: Context, s: Snapshot, taken: set<Vm>, threshold: real, m: Move, n: Node)
    requires Good(s) && LoadStep(x, s, taken, threshold, m)
    requires n in s.c.nodes && (n == m.target || WithinMemory(s.c.nodes[n]))
    ensures n in Next(s, m).c.nodes && WithinMemory(Next(s, m).c.nodes[n])
  {
    MoveStaysWithin(s.c, m.vm, m.source, m.target, n);
  }

  /** A load move's target is within its memory once the VM is there, and stays so to the end of the plan. */
  lemma {:induction false} TargetsStayWithin(
    x: Context, threshold: Option<real>, states: seq<Snapshot>, moves: seq<Move>, fixes: nat, j: nat, k: nat)
    requires IsPlan(x, threshold, states, moves, fixes) && fixes <= j < k <= |moves|
    ensures moves[j].target in states[k].c.nodes && WithinMemory(states[k].c.nodes[moves[j].target])
    decreases k
  {
    StatesAreGood(states, moves, k - 1);
    assert StepAt(states, moves, k - 1) && LoadStepAt(x, threshold, states, moves, k - 1);
    if j < k - 1 {
      TargetsStayWithin(x, threshold, states, moves, fixes, j, k - 1);
    }
    LoadStepStaysWithin(x, states[k - 1], Vms(moves[..k - 1]), threshold.value, moves[k - 1], moves[j].target);
  }

  lemma LoadStepLowersSpread(
    x: Context, threshold: real, states: seq<Snapshot>, moves: seq<Move>, fixes: nat, k: nat)
    requires IsPlan(x, Some(threshold), states, moves, fixes) && fixes <= k < |moves|
    ensures Known(states[k].c, states[k].c.order) && Known(states[k + 1].c, states[k + 1].c.order)
    ensures Spread(states[k + 1].c) <= Spread(states[k].c) - threshold / 4.0
  {
    assert StepAt(states, moves, k) && LoadStepAt(x, Some(threshold), states, moves, k);
  }

  lemma OneMore(first: real, before: real, after: real, n: nat, q: real)
    requires before <= first - n as real * q && after <= before - q
    ensures after <= first - (n + 1) as real * q
  {
    assert (n + 1) as real * q == n as real * q + q by {
      assert (n + 1) as real == n as real + 1.0;
    }
  }

  /** Each load move lowers the spread by a quarter of the threshold at least. */
  lemma {:induction false} SpreadFalls(
    x: Context, threshold: real, states: seq<Snapshot>, moves: seq<Move>, fixes: nat, k: nat)
    requires IsPlan(x, Some(threshold), states, moves, fixes) && fixes <= k <= |moves|
    ensures Known(states[k].c, states[k].c.order) && Known(states[fixes].c, states[fixes].c.order)
    ensures Spread(states[k].c) <= Spread(states[fixes].c) - (k - fixes) as real * (threshold / 4.0)
    decreases k
  {
    if k == fixes {
      StatesAreGood(states, moves, k);
      KnownOrder(states[k].c);
    } else {
      SpreadFalls(x, threshold, states, moves, fixes, k - 1);
      LoadStepLowersSpread(x, threshold, states, moves, fixes, k - 1);
      OneMore(Spread(states[fixes].c), Spread(states[k - 1].c), Spread(states[k].c), k - 1 - fixes, threshold / 4.0);
    }
  }

  lemma KnownOrder(c: Cluster)
    requires Valid(c)
    ensures Known(c, c.order)
  {
    assert forall i | 0 <= i < |c.order| :: c.order[i] in c.order;
  }

  // ---- The planner gives a plan ----

  ghost predicate FixPlan(x: Context, c: Cluster, where: Placement, moves: seq<Move>)
    decreases |moves|
  {
    moves == [] || (FixStep(x, c, where, moves[0]) && FixPlan(x, c, where[moves[0].vm := moves[0].target], moves[1..]))
  }

  lemma FixOfIsFixStep(x: Context, c: Cluster, where: Placement, vm: Vm)
    requires vm in where && where[vm] in c.nodes && vm in c.nodes[where[vm]].vms
    ensures var fix := FixOf(x, c, where, vm); fix.Some? ==> FixStep(x, c, where, fix.value)
  {
  }

  /** Each VM in turn, so in ascending order. */
  ghost predicate InTurn(moves: seq<Move>, vms: seq<Vm>)
  {
    && (forall k | 0 <= k < |moves| :: moves[k].vm in vms)
    && (forall j, k | 0 <= j < k < |moves| :: moves[j].vm < moves[k].vm)
  }

  lemma {:induction false} FixesAreAPlan(x: Context, c: Cluster, where: Placement, vms: seq<Vm>)
    requires StrictlyAscending(vms) && Unmoved(c, where, vms)
    ensures FixPlan(x, c, where, Fixes(x, c, where, vms)) && InTurn(Fixes(x, c, where, vms), vms)
    decreases |vms|
  {
    if vms != [] {
      var fix := FixOf(x, c, where, vms[0]);
      var next := if fix.Some? then where[vms[0] := fix.value.target] else where;
      NextFix(x, c, where, vms);
      FixOfIsFixStep(x, c, where, vms[0]);
      FixesAreAPlan(x, c, next, vms[1..]);
      FirstInTurn(fix, Fixes(x, c, next, vms[1..]), vms);
    }
  }

  lemma FirstInTurn(fix: Option<Move>, rest: seq<Move>, vms: seq<Vm>)
    requires vms != [] && StrictlyAscending(vms) && InTurn(rest, vms[1..]) && (fix.Some? ==> fix.value.vm == vms[0])
    ensures InTurn((if fix.Some? then [fix.value] else []) + rest, vms)
  {
    forall k | 0 <= k < |rest|
      ensures rest[k].vm in vms && vms[0] < rest[k].vm
    {
      var i :| 0 <= i < |vms[1..]| && vms[1..][i] == rest[k].vm;
      assert vms[i + 1] == rest[k].vm;
    }
  }

  ghost predicate Partitioned(c: Cluster)
  {
    forall m, n, v | m in c.nodes && n in c.nodes && v in c.nodes[m].vms && v in c.nodes[n].vms :: m == n
  }

  predicate Shows(c: Cluster, i: nat, v: Vm)
    requires Known(c, c.order) && i < |c.order|
  {
    v in c.nodes[c.order[i]].vms
  }

  /** Of the first `count` nodes, the last one that shows the VM. */
  ghost predicate LastToShow(c: Cluster, count: nat, v: Vm, n: Node)
    requires Known(c, c.order) && count <= |c.order|
  {
    exists i: nat | i < count ::
      c.order[i] == n && Shows(c, i, v) && forall j: nat | i < j < count :: !Shows(c, j, v)
  }

  /** Each VM where the last node that shows it is. */
  ghost predicate IsPlacement(c: Cluster, where: Placement)
  {
    && Known(c, c.order) && Placed(c, where)
    && forall v | v in where :: LastToShow(c, |c.order|, v, where[v])
  }

  lemma LastIsPlaced(c: Cluster, i: nat, where: Placement, v: Vm)
    requires Known(c, c.order) && i < |c.order| && v in where && !Shows(c, i, v) && LastToShow(c, i, v, where[v])
    ensures LastToShow(c, i + 1, v, where[v])
  {
  }

  method WhereOf(c: Cluster) returns (where: Placement)
    requires Valid(c)
    ensures IsPlacement(c, where)
  {
    where := map[];
    KnownOrder(c);
    for i := 0 to |c.order|
      invariant forall v | v in where :: LastToShow(c, i, v, where[v])
      invariant forall j: nat, v | j < i && Shows(c, j, v) :: v in where
    {
      var here := map v | v in c.nodes[c.order[i]].vms :: c.order[i];
      forall v | v in where + here
        ensures LastToShow(c, i + 1, v, (where + here)[v])
      {
        if v in here {
          assert Shows(c, i, v);
        } else {
          LastIsPlaced(c, i, where, v);
        }
      }
      where := where + here;
    }
    forall n, v | n in c.nodes && v in c.nodes[n].vms
      ensures v in where
    {
      assert n in c.order;
      var j :| 0 <= j < |c.order| && c.order[j] == n;
      assert Shows(c, j, v);
    }
  }

  lemma PlacementIsGood(c: Cluster, where: Placement)
    requires Valid(c) && IsPlacement(c, where)
    ensures Good(Snapshot(c, where)) && (Partitioned(c) ==> Runs(c, where))
  {
    forall v | v in where
      ensures where[v] in c.nodes && v in c.nodes[where[v]].vms
    {
      assert LastToShow(c, |c.order|, v, where[v]);
    }
  }

  lemma ExtendTrace(states: seq<Snapshot>, moves: seq<Move>, m: Move)
    requires Traced(states, moves) && CanStep(states[|moves|], m)
    ensures Traced(states + [Next(states[|moves|], m)], moves + [m])
  {
    var further, more := states + [Next(states[|moves|], m)], moves + [m];
    forall k | 0 <= k < |more|
      ensures StepAt(further, more, k)
    {
      assert k < |moves| ==> StepAt(states, moves, k);
    }
  }

  lemma EarlierStepsStay(
    x: Context, threshold: Option<real>, states: seq<Snapshot>, moves: seq<Move>, m: Move, s: Snapshot, k: nat)
    requires |states| == |moves| + 1 && k < |moves|
    ensures FixStepAt(x, states + [s], moves + [m], k) == FixStepAt(x, states, moves, k)
    ensures LoadStepAt(x, threshold, states + [s], moves + [m], k) == LoadStepAt(x, threshold, states, moves, k)
  {
    assert (moves + [m])[..k] == moves[..k];
  }

  lemma ExtendByFix(x: Context, threshold: Option<real>, states: seq<Snapshot>, moves: seq<Move>, m: Move)
    requires IsPlan(x, threshold, states, moves, |moves|) && CanStep(states[|moves|], m)
    requires FixStep(x, states[0].c, states[|moves|].where, m) && forall j | 0 <= j < |moves| :: moves[j].vm < m.vm
    ensures IsPlan(x, threshold, states + [Next(states[|moves|], m)], moves + [m], |moves| + 1)
  {
    var s := Next(states[|moves|], m);
    ExtendTrace(states, moves, m);
    forall k | 0 <= k < |moves| + 1
      ensures FixStepAt(x, states + [s], moves + [m], k)
    {
      if k < |moves| {
        EarlierStepsStay(x, threshold, states, moves, m, s, k);
      }
    }
  }

  lemma ExtendByLoad(
    x: Context, threshold: real, states: seq<Snapshot>, moves: seq<Move>, fixes: nat, m: Move)
    requires IsPlan(x, Some(threshold), states, moves, fixes) && CanStep(states[|moves|], m) && |moves| < MAX_MOVES
    requires LoadStep(x, states[|moves|], Vms(moves), threshold, m)
    ensures IsPlan(x, Some(threshold), states + [Next(states[|moves|], m)], moves + [m], fixes)
  {
    var s := Next(states[|moves|], m);
    ExtendTrace(states, moves, m);
    assert (moves + [m])[..|moves|] == moves;
    forall k | 0 <= k < |moves|
      ensures FixStepAt(x, states + [s], moves + [m], k) == FixStepAt(x, states, moves, k)
      ensures LoadStepAt(x, Some(threshold), states + [s], moves + [m], k)
           == LoadStepAt(x, Some(threshold), states, moves, k)
    {
      EarlierStepsStay(x, Some(threshold), states, moves, m, s, k);
    }
  }

  lemma FixCanStep(x: Context, c: Cluster, s: Snapshot, m: Move)
    requires Good(s) && FixStep(x, c, s.where, m) && s.c.nodes.Keys == c.nodes.Keys
    ensures CanStep(s, m)
  {
    assert m.target in s.c.nodes && ValidNode(s.c.nodes[m.source]) && ValidNode(s.c.nodes[m.target]);
  }

  method ApplyFixes(x: Context, threshold: Option<real>, start: Snapshot, fixes: seq<Move>, ghost vms: seq<Vm>)
    returns (current: Snapshot, ghost states: seq<Snapshot>)
    requires Good(start) && FixPlan(x, start.c, start.where, fixes) && InTurn(fixes, vms)
    ensures IsPlan(x, threshold, states, fixes, |fixes|) && states[0] == start && states[|fixes|] == current
  {
    current := start;
    states := [start];
    ghost var done: seq<Move> := [];
    for i := 0 to |fixes|
      invariant done == fixes[..i] && Applying(x, threshold, start, current, states, done, fixes[i..])
    {
      NextOnes(fixes, i);
      current, states := ApplyOne(x, threshold, start, current, states, done, fixes[i..], fixes[i], vms);
      done := done + [fixes[i]];
    }
    assert done == fixes;
  }

  lemma NextOnes(fixes: seq<Move>, i: nat)
    requires i < |fixes|
    ensures fixes[i..][0] == fixes[i] && fixes[i..][1..] == fixes[i + 1..] && fixes[..i] + fixes[i..] == fixes
    ensures fixes[..i] + [fixes[i]] == fixes[..i + 1]
  {
  }

  /** The fixes in `done` have led to `current`; those in `rest` are still to be applied. */
  ghost predicate Applying(x: Context, threshold: Option<real>, start: Snapshot, current: Snapshot,
                           states: seq<Snapshot>, done: seq<Move>, rest: seq<Move>)
  {
    && IsPlan(x, threshold, states, done, |done|) && states[0] == start && states[|done|] == current
    && FixPlan(x, start.c, current.where, rest)
  }

  method ApplyOne(x: Context, threshold: Option<real>, start: Snapshot, current: Snapshot,
                  ghost states: seq<Snapshot>, ghost done: seq<Move>, ghost rest: seq<Move>, m: Move,
                  ghost vms: seq<Vm>)
    returns (next: Snapshot, ghost further: seq<Snapshot>)
    requires Applying(x, threshold, start, current, states, done, rest) && rest != [] && rest[0] == m
    requires InTurn(done + rest, vms)
    ensures Applying(x, threshold, start, next, further, done + [m], rest[1..])
  {
    StatesAreGood(states, done, |done|);
    FixCanStep(x, start.c, current, m);
    forall j | 0 <= j < |done|
      ensures done[j].vm < m.vm
    {
      assert (done + rest)[j] == done[j] && (done + rest)[|done|] == m;
    }
    ExtendByFix(x, threshold, states, done, m);
    next := Next(current, m);
    further := states + [next];
  }

  /** The best move from the most loaded node, when there is reason for one and it is worth it. */
  method NextLoadMove(x: Context, s: Snapshot, taken: set<Vm>, count: nat, threshold: real) returns (m: Option<Move>)
    requires Good(s) && |s.c.order| >= 2 && count < MAX_MOVES
    ensures m.Some? ==> LoadStep(x, s, taken, threshold, m.value) && CanStep(s, m.value)
    ensures m.None? ==> Finished(x, s, taken, count, Some(threshold))
  {
    KnownOrder(s.c);
    var source := Hottest(s.c, s.c.order);
    if Spread(s.c) < threshold && s.c.nodes[source].score < HOT_PCT {
      return None;
    }
    var best := BestMove(x, s.c, s.where, taken, source);
    if best.None? || best.value.worth.gain < threshold / 4.0 {
      NotWorthIt(x, s, taken, count, threshold, source, best);
      return None;
    }
    var b := best.value;
    m := Some(Move(b.vm, source, b.target, Some(b.worth.gain)));
    BestIsLoadStep(x, s, taken, threshold, source, best);
  }

  lemma NotWorthIt(
    x: Context, s: Snapshot, taken: set<Vm>, count: nat, threshold: real, source: Node, best: Option<Best>)
    requires Known(s.c, s.c.order) && |s.c.order| >= 2 && source == Hottest(s.c, s.c.order)
    requires forall vm, target :: Covered(x, s.c, s.where, taken, source, best, vm, target)
    requires best.None? || best.value.worth.gain < threshold / 4.0
    ensures Finished(x, s, taken, count, Some(threshold))
  {
    forall vm, target | Candidate(x, s.c, s.where, taken, vm, source, target)
      ensures WorthOf(s.c, vm, source, target).gain < threshold / 4.0
    {
      assert Covered(x, s.c, s.where, taken, source, best, vm, target);
    }
  }

  lemma BestIsLoadStep(
    x: Context, s: Snapshot, taken: set<Vm>, threshold: real, source: Node, best: Option<Best>)
    requires Good(s) && |s.c.order| >= 2 && Known(s.c, s.c.order) && source == Hottest(s.c, s.c.order)
    requires Spread(s.c) >= threshold || s.c.nodes[source].score >= HOT_PCT
    requires best.Some? && best.value.worth.gain >= threshold / 4.0 && Sound(x, s.c, s.where, taken, source, best)
    requires forall vm, target :: Covered(x, s.c, s.where, taken, source, best, vm, target)
    ensures var m := Move(best.value.vm, source, best.value.target, Some(best.value.worth.gain));
      LoadStep(x, s, taken, threshold, m) && CanStep(s, m)
  {
    var b := best.value;
    CandidateCanMove(x, s.c, s.where, taken, b.vm, source, b.target);
    forall vm, target | Candidate(x, s.c, s.where, taken, vm, source, target)
      ensures !Better(WorthOf(s.c, vm, source, target), WorthOf(s.c, b.vm, source, b.target))
    {
      assert Covered(x, s.c, s.where, taken, source, best, vm, target);
    }
    assert b.vm in s.c.nodes[source].vms;
  }

  method AddLoadMove(x: Context, threshold: real, current: Snapshot, moves: seq<Move>, ghost states: seq<Snapshot>,
                     ghost fixes: nat)
    returns (m: Option<Move>)
    requires IsPlan(x, Some(threshold), states, moves, fixes) && states[|moves|] == current
    requires |moves| < MAX_MOVES && |current.c.order| >= 2
    ensures m.Some? ==>
      && CanStep(current, m.value)
      && IsPlan(x, Some(threshold), states + [Next(current, m.value)], moves + [m.value], fixes)
    ensures m.None? ==> Finished(x, current, Vms(moves), |moves|, Some(threshold))
  {
    StatesAreGood(states, moves, |moves|);
    m := NextLoadMove(x, current, Vms(moves), |moves|, threshold);
    if m.Some? {
      ExtendByLoad(x, threshold, states, moves, fixes, m.value);
    }
  }

  method EvenLoad(x: Context, threshold: Option<real>, start: Snapshot, mends: seq<Move>, ghost trace: seq<Snapshot>)
    returns (moves: seq<Move>, ghost states: seq<Snapshot>)
    requires IsPlan(x, threshold, trace, mends, |mends|) && trace[|mends|] == start
    ensures IsPlan(x, threshold, states, moves, |mends|) && states[0] == trace[0] && mends <= moves
    ensures Finished(x, states[|moves|], Vms(moves), |moves|, threshold)
  {
    moves, states := mends, trace;
    var current := start;
    while threshold.Some? && |moves| < MAX_MOVES && |current.c.order| >= 2
      invariant IsPlan(x, threshold, states, moves, |mends|) && states[0] == trace[0] && mends <= moves
      invariant states[|moves|] == current
      decreases MAX_MOVES - |moves|
    {
      var m := AddLoadMove(x, threshold.value, current, moves, states, |mends|);
      if m.None? {
        break;
      }
      current := Next(current, m.value);
      moves, states := moves + [m.value], states + [current];
    }
  }

  ghost predicate IsMended(x: Context, c: Cluster, where: Placement, mends: seq<Move>)
  {
    Unmoved(c, where, Ascending(where.Keys)) && mends == Fixes(x, c, where, Ascending(where.Keys))
  }

  method Mend(x: Context, threshold: Option<real>, c: Cluster)
    returns (mends: seq<Move>, current: Snapshot, ghost trace: seq<Snapshot>)
    requires Valid(c)
    ensures IsPlan(x, threshold, trace, mends, |mends|) && trace[|mends|] == current && trace[0].c == c
    ensures IsPlacement(c, trace[0].where) && IsMended(x, c, trace[0].where, mends)
  {
    var where := WhereOf(c);
    PlacementIsGood(c, where);
    ghost var vms := Ascending(where.Keys);
    AllUnmoved(c, where, vms);
    mends := RuleFixes(x, c, where);
    FixesAreAPlan(x, c, where, vms);
    var start := Snapshot(c, where);
    current, trace := ApplyFixes(x, threshold, start, mends, vms);
  }

  lemma AllUnmoved(c: Cluster, where: Placement, vms: seq<Vm>)
    requires Located(c, where) && forall v | v in vms :: v in where
    ensures Unmoved(c, where, vms)
  {
    forall i | 0 <= i < |vms|
      ensures vms[i] in where && where[vms[i]] in c.nodes && vms[i] in c.nodes[where[vms[i]]].vms
    {
      var v := vms[i];
      assert v in vms && v in where;
    }
  }

  /** The moves are a plan of the cluster: the fixes in turn, then load moves until there is nothing left to do. */
  ghost predicate PlanOf(
    x: Context, level: int, c: Cluster, moves: seq<Move>, states: seq<Snapshot>, fixes: nat)
  {
    && IsPlan(x, Threshold(level), states, moves, fixes) && states[0].c == c && IsPlacement(c, states[0].where)
    && IsMended(x, c, states[0].where, moves[..fixes])
    && Finished(x, states[|moves|], Vms(moves), |moves|, Threshold(level))
  }

  method Recommend(x: Context, level: int, c: Cluster) returns (moves: seq<Move>)
    requires Valid(c)
    ensures exists states, fixes :: PlanOf(x, level, c, moves, states, fixes)
  {
    var mends, current, trace := Mend(x, Threshold(level), c);
    ghost var states;
    moves, states := EvenLoad(x, Threshold(level), current, mends, trace);
    MendedThenEven(x, level, c, mends, moves, states);
  }

  lemma MendedThenEven(
    x: Context, level: int, c: Cluster, mends: seq<Move>, moves: seq<Move>, states: seq<Snapshot>)
    requires IsPlan(x, Threshold(level), states, moves, |mends|) && mends <= moves
    requires states[0].c == c && IsPlacement(c, states[0].where) && IsMended(x, c, states[0].where, mends)
    requires Finished(x, states[|moves|], Vms(moves), |moves|, Threshold(level))
    ensures PlanOf(x, level, c, moves, states, |mends|)
  {
    FirstOnes(mends, moves);
  }

  lemma FirstOnes(some: seq<Move>, all: seq<Move>)
    requires some <= all
    ensures all[..|some|] == some
  {
  }
}
