/**
The recommended moves: first those that mend a broken rule, then, from the most loaded node, the ones that even the
load. */
module LoadPlanner {
  import opened Wrappers
  import opened Sorting
  import opened AffinityRules
  import opened ClusterLoad

  datatype Behaviour = Manual | Excluded

  /** What the plan depends on beside the loads: rules, behaviours, and the last moves by load balancing. */
  datatype Context = Context(rules: seq<Rule>, behaviours: map<Vm, Behaviour>, moved: map<Vm, real>, now: real)

  datatype Move = Move(vm: Vm, source: Node, target: Node, gain: Option<real>)

  const HOT_PCT := 90.0
  const MAX_MOVES := 4
  const COOLDOWN_S := 3600.0

  function Threshold(level: int): Option<real>
  {
    if level == 2 then Some(40.0)
    else if level == 3 then Some(25.0)
    else if level == 4 then Some(15.0)
    else if level == 5 then Some(10.0)
    else None
  }

  /** The levels: none, then ever less spread put up with. */
  lemma Levels(level: int)
    ensures Threshold(level) == match level
      case 2 => Some(40.0) case 3 => Some(25.0) case 4 => Some(15.0) case 5 => Some(10.0) case _ => None
    ensures 2 <= level < 5 ==> Threshold(level).value > Threshold(level + 1).value
  {
  }

  predicate Movable(x: Context, vm: Vm, load: VmLoad)
  {
    && load.shared
    && !(vm in x.behaviours && x.behaviours[vm] == Excluded)
    && (vm in x.moved ==> x.now - x.moved[vm] >= COOLDOWN_S)
  }

  /** A VM never moves when its disks are not shared, when it is excluded, or within the cool-down of its last move;
  else it may, a VM in manual like any other. */
  lemma MayMove(x: Context, vm: Vm, load: VmLoad)
    ensures !load.shared || (vm, Excluded) in x.behaviours.Items ==> !Movable(x, vm, load)
    ensures vm in x.moved && x.now < x.moved[vm] + COOLDOWN_S ==> !Movable(x, vm, load)
    ensures load.shared && (vm, Excluded) !in x.behaviours.Items && vm !in x.moved ==> Movable(x, vm, load)
    ensures load.shared && (vm, Excluded) !in x.behaviours.Items && vm in x.moved && x.now - x.moved[vm] >= COOLDOWN_S
      ==> Movable(x, vm, load)
  {
  }

  /** A node other than its own, with room for it, where it keeps all the rules. */
  predicate Eligible(x: Context, c: Cluster, where: Placement, vm: Vm, load: VmLoad, source: Node, target: Node)
  {
    && target in c.nodes && target != source
    && Fits(load, c.nodes[target]) && Keeps(x.rules, vm, target, where, ALL)
  }

  /** Before the first `i` nodes, none has the score of node `i`. */
  ghost predicate FirstOfItsScore(c: Cluster, nodes: seq<Node>, i: nat)
    requires Known(c, nodes) && i < |nodes|
  {
    forall j | 0 <= j < i :: c.nodes[nodes[j]].score != c.nodes[nodes[i]].score
  }

  // ---- Rule fixes ----

  function Targets(
    x: Context, c: Cluster, where: Placement, vm: Vm, load: VmLoad, source: Node, order: seq<Node>): (r: seq<Node>)
    ensures Known(c, r) && forall n :: n in r <==> n in order && Eligible(x, c, where, vm, load, source, n)
  {
    if order == [] then []
    else if Eligible(x, c, where, vm, load, source, order[0])
    then [order[0]] + Targets(x, c, where, vm, load, source, order[1..])
    else Targets(x, c, where, vm, load, source, order[1..])
  }

  /** The first of the nodes of the lowest score. */
  function Lowest(c: Cluster, nodes: seq<Node>): (r: Node)
    requires nodes != [] && Known(c, nodes)
    ensures r in nodes && r in c.nodes && forall n | n in nodes :: n in c.nodes && c.nodes[r].score <= c.nodes[n].score
  {
    if |nodes| == 1 then nodes[0]
    else
      var rest := Lowest(c, nodes[1..]);
      if c.nodes[nodes[0]].score <= c.nodes[rest].score then nodes[0] else rest
  }

  /** Of several, the first in the nodes' order. */
  lemma {:induction false} LowestIsFirst(c: Cluster, nodes: seq<Node>) returns (i: nat)
    requires nodes != [] && Known(c, nodes)
    ensures i < |nodes| && nodes[i] == Lowest(c, nodes) && FirstOfItsScore(c, nodes, i)
  {
    i := 0;
    if |nodes| > 1 {
      var k := LowestIsFirst(c, nodes[1..]);
      if c.nodes[nodes[0]].score > c.nodes[nodes[1..][k]].score {
        i := k + 1;
        assert forall j | 0 < j < i :: nodes[j] == nodes[1..][j - 1];
      }
    }
  }

  /** The move that mends the rules a VM breaks where it runs, if there is one. */
  function FixOf(x: Context, c: Cluster, where: Placement, vm: Vm): (r: Option<Move>)
    requires vm in where && where[vm] in c.nodes && vm in c.nodes[where[vm]].vms
    ensures r.Some? ==> r.value.vm == vm
  {
    var source := where[vm];
    var load := c.nodes[source].vms[vm];
    var targets := Targets(x, c, where, vm, load, source, c.order);
    if Keeps(x.rules, vm, source, where, ALL) || !Movable(x, vm, load) || targets == [] then None
    else
      Some(Move(vm, source, Lowest(c, targets), None))
  }

  ghost predicate Unmoved(c: Cluster, where: Placement, vms: seq<Vm>)
  {
    forall i | 0 <= i < |vms| :: vms[i] in where && where[vms[i]] in c.nodes && vms[i] in c.nodes[where[vms[i]]].vms
  }

  /** The fixes of the VMs in turn, each where the ones before it left the others. */
  function Fixes(x: Context, c: Cluster, where: Placement, vms: seq<Vm>): seq<Move>
    requires StrictlyAscending(vms) && Unmoved(c, where, vms)
    decreases |vms|
  {
    if vms == [] then []
    else
      match FixOf(x, c, where, vms[0])
      case Some(m) => [m] + Fixes(x, c, where[m.vm := m.target], vms[1..])
      case None => Fixes(x, c, where, vms[1..])
  }

  method FindFix(x: Context, c: Cluster, where: Placement, vm: Vm) returns (fix: Option<Move>)
    requires vm in where && where[vm] in c.nodes && vm in c.nodes[where[vm]].vms
    ensures fix == FixOf(x, c, where, vm)
  {
    var source := where[vm];
    var load := c.nodes[source].vms[vm];
    var broken := BrokenRules(x.rules, vm, source, where, ALL);
    if broken == [] || !Movable(x, vm, load) {
      return None;
    }
    var targets := Targets(x, c, where, vm, load, source, c.order);
    fix := if targets == [] then None else Some(Move(vm, source, Lowest(c, targets), None));
  }

  method RuleFixes(x: Context, c: Cluster, where: Placement) returns (fixes: seq<Move>)
    requires Unmoved(c, where, Ascending(where.Keys))
    ensures fixes == Fixes(x, c, where, Ascending(where.Keys))
  {
    fixes := FixInTurn(x, c, where, Ascending(where.Keys));
  }

  method FixInTurn(x: Context, c: Cluster, where: Placement, vms: seq<Vm>) returns (fixes: seq<Move>)
    requires StrictlyAscending(vms) && Unmoved(c, where, vms)
    ensures fixes == Fixes(x, c, where, vms)
  {
    fixes := [];
    var now := where;
    ghost var plan, rest := Fixes(x, c, where, vms), vms;
    for i := 0 to |vms|
      invariant rest == vms[i..]
      invariant Planned(x, c, plan, fixes, now, rest)
    {
      fixes, now := FixNext(x, c, plan, fixes, now, vms[i], rest);
      rest := rest[1..];
    }
  }

  /** The fixes found so far, and those of the rest of the VMs, are the plan. */
  ghost predicate Planned(
    x: Context, c: Cluster, plan: seq<Move>, fixes: seq<Move>, now: Placement, rest: seq<Vm>)
  {
    StrictlyAscending(rest) && Unmoved(c, now, rest) && plan == fixes + Fixes(x, c, now, rest)
  }

  method FixNext(x: Context, c: Cluster, ghost plan: seq<Move>, fixes: seq<Move>, now: Placement, vm: Vm,
                 ghost rest: seq<Vm>)
    returns (more: seq<Move>, next: Placement)
    requires rest != [] && rest[0] == vm && Planned(x, c, plan, fixes, now, rest)
    ensures Planned(x, c, plan, more, next, rest[1..])
  {
    NextFix(x, c, now, rest);
    var fix := FindFix(x, c, now, vm);
    more, next := fixes, now;
    if fix.Some? {
      more := fixes + [fix.value];
      next := now[vm := fix.value.target];
    }
  }

  lemma NextFix(x: Context, c: Cluster, where: Placement, vms: seq<Vm>)
    requires StrictlyAscending(vms) && Unmoved(c, where, vms) && vms != []
    ensures var fix := FixOf(x, c, where, vms[0]);
      var next := if fix.Some? then where[vms[0] := fix.value.target] else where;
      && Unmoved(c, next, vms[1..])
      && Fixes(x, c, where, vms) == (if fix.Some? then [fix.value] else []) + Fixes(x, c, next, vms[1..])
  {
  }

  // ---- Load moves ----

  /** The first of the nodes of the highest score. */
  function Hottest(c: Cluster, nodes: seq<Node>): (r: Node)
    requires nodes != [] && Known(c, nodes)
    ensures r in nodes && r in c.nodes && forall n | n in nodes :: n in c.nodes && c.nodes[n].score <= c.nodes[r].score
  {
    if |nodes| == 1 then nodes[0]
    else
      var rest := Hottest(c, nodes[1..]);
      if c.nodes[nodes[0]].score >= c.nodes[rest].score then nodes[0] else rest
  }

  lemma {:induction false} HottestIsFirst(c: Cluster, nodes: seq<Node>) returns (i: nat)
    requires nodes != [] && Known(c, nodes)
    ensures i < |nodes| && nodes[i] == Hottest(c, nodes) && FirstOfItsScore(c, nodes, i)
  {
    i := 0;
    if |nodes| > 1 {
      var k := HottestIsFirst(c, nodes[1..]);
      if c.nodes[nodes[0]].score < c.nodes[nodes[1..][k]].score {
        i := k + 1;
        assert forall j | 0 < j < i :: nodes[j] == nodes[1..][j - 1];
      }
    }
  }

  predicate Candidate(x: Context, c: Cluster, where: Placement, taken: set<Vm>, vm: Vm, source: Node, target: Node)
  {
    && source in c.nodes && vm in c.nodes[source].vms && vm !in taken
    && Movable(x, vm, c.nodes[source].vms[vm])
    && Eligible(x, c, where, vm, c.nodes[source].vms[vm], source, target)
  }

  /** How much the move lowers the spread. */
  function Gain(c: Cluster, vm: Vm, source: Node, target: Node): real
    requires Known(c, c.order) && CanMove(c, vm, source, target)
  {
    Spread(c) - Spread(After(c, vm, source, target))
  }

  /** A move's gain and its VM's memory: more gain is better, then less memory. */
  datatype Worth = Worth(gain: real, memory: real)

  predicate Better(a: Worth, b: Worth)
  {
    a.gain > b.gain || (a.gain == b.gain && a.memory < b.memory)
  }

  ghost function WorthOf(c: Cluster, vm: Vm, source: Node, target: Node): Worth
  {
    if Known(c, c.order) && CanMove(c, vm, source, target)
    then Worth(Gain(c, vm, source, target), Memory(c.nodes[source].vms[vm]))
    else Worth(0.0, 0.0)
  }

  lemma CandidateCanMove(x: Context, c: Cluster, where: Placement, taken: set<Vm>, vm: Vm, source: Node, target: Node)
    requires Valid(c) && Candidate(x, c, where, taken, vm, source, target)
    ensures CanMove(c, vm, source, target) && Known(c, c.order)
  {
    assert ValidNode(c.nodes[source]) && ValidNode(c.nodes[target]);
    assert forall i | 0 <= i < |c.order| :: c.order[i] in c.order;
  }

  datatype Best = Best(worth: Worth, vm: Vm, target: Node)

  /** No move of `vm` to `target` is better than the best so far. */
  ghost predicate Covered(
    x: Context, c: Cluster, where: Placement, taken: set<Vm>, source: Node, best: Option<Best>, vm: Vm, target: Node)
  {
    Candidate(x, c, where, taken, vm, source, target) ==>
      best.Some? && !Better(WorthOf(c, vm, source, target), best.value.worth)
  }

  /** The best so far is a move that may be made, with its own worth. */
  ghost predicate Sound(
    x: Context, c: Cluster, where: Placement, taken: set<Vm>, source: Node, best: Option<Best>)
  {
    best.Some? ==> var b := best.value;
      Candidate(x, c, where, taken, b.vm, source, b.target) && b.worth == WorthOf(c, b.vm, source, b.target)
  }

  ghost predicate AtLeast(best: Option<Best>, before: Option<Best>)
  {
    before.Some? ==> best.Some? && !Better(before.value.worth, best.value.worth)
  }

  method TryMove(x: Context, c: Cluster, where: Placement, taken: set<Vm>, source: Node, before: Option<Best>,
                 vm: Vm, target: Node)
    returns (best: Option<Best>)
    requires Valid(c) && Sound(x, c, where, taken, source, before)
    ensures Sound(x, c, where, taken, source, best) && AtLeast(best, before)
    ensures Covered(x, c, where, taken, source, best, vm, target)
  {
    best := before;
    if Candidate(x, c, where, taken, vm, source, target) {
      CandidateCanMove(x, c, where, taken, vm, source, target);
      var worth := Worth(Spread(c) - Spread(After(c, vm, source, target)), Memory(c.nodes[source].vms[vm]));
      if before.None? || Better(worth, before.value.worth) {
        best := Some(Best(worth, vm, target));
      }
    }
  }

  ghost predicate CoveredAll(
    x: Context, c: Cluster, where: Placement, taken: set<Vm>, source: Node, best: Option<Best>, vms: seq<Vm>,
    targets: seq<Node>)
  {
    forall vm, target | vm in vms && target in targets :: Covered(x, c, where, taken, source, best, vm, target)
  }

  lemma StillCovered(
    x: Context, c: Cluster, where: Placement, taken: set<Vm>, source: Node, before: Option<Best>, best: Option<Best>,
    vms: seq<Vm>, targets: seq<Node>)
    requires CoveredAll(x, c, where, taken, source, before, vms, targets) && AtLeast(best, before)
    ensures CoveredAll(x, c, where, taken, source, best, vms, targets)
  {
    forall vm, target | vm in vms && target in targets
      ensures Covered(x, c, where, taken, source, best, vm, target)
    {
      assert Covered(x, c, where, taken, source, before, vm, target);
    }
  }

  method TryVm(x: Context, c: Cluster, where: Placement, taken: set<Vm>, source: Node, before: Option<Best>, vm: Vm)
    returns (best: Option<Best>)
    requires Valid(c) && Sound(x, c, where, taken, source, before)
    ensures Sound(x, c, where, taken, source, best) && AtLeast(best, before)
    ensures CoveredAll(x, c, where, taken, source, best, [vm], c.order)
  {
    best := before;
    for i := 0 to |c.order|
      invariant Sound(x, c, where, taken, source, best) && AtLeast(best, before)
      invariant CoveredAll(x, c, where, taken, source, best, [vm], c.order[..i])
    {
      var next := TryMove(x, c, where, taken, source, best, vm, c.order[i]);
      StillCovered(x, c, where, taken, source, best, next, [vm], c.order[..i]);
      best := next;
    }
    assert c.order[..|c.order|] == c.order;
  }

  method BestMove(x: Context, c: Cluster, where: Placement, taken: set<Vm>, source: Node) returns (best: Option<Best>)
    requires Valid(c) && source in c.nodes
    ensures Sound(x, c, where, taken, source, best)
    ensures forall vm, target :: Covered(x, c, where, taken, source, best, vm, target)
  {
    best := None;
    var vms := Ascending(c.nodes[source].vms.Keys);
    for i := 0 to |vms|
      invariant Sound(x, c, where, taken, source, best)
      invariant CoveredAll(x, c, where, taken, source, best, vms[..i], c.order)
    {
      var next := TryVm(x, c, where, taken, source, best, vms[i]);
      StillCovered(x, c, where, taken, source, best, next, vms[..i], c.order);
      assert forall vm | vm in vms[..i + 1] :: vm in vms[..i] || vm in [vms[i]];
      best := next;
    }
    assert vms[..|vms|] == vms;
  }
}
