/**
The rules that keep VMs together, apart, on nodes or off nodes, and what a move does to the rules that are broken in the
whole placement. VM and node names are numbered in their alphabetical order.
*/
module AffinityRules {

  type Vm = int
  type Node = int

  datatype Kind = Together | Apart | OnNodes | NotOnNodes
  datatype Strength = Must | Should
  datatype Rule = Rule(name: string, kind: Kind, strength: Strength, vms: set<Vm>, nodes: set<Node>, enabled: bool)

  type Placement = map<Vm, Node>

  /** Whether `vm` on `node` breaks the rule, given where the others run. */
  predicate Breaks(rule: Rule, vm: Vm, node: Node, where: Placement)
  {
    vm in rule.vms
    && match rule.kind
       case Together => exists v | v in where :: v in rule.vms && v != vm && where[v] != node
       case Apart => exists v | v in where :: v in rule.vms && v != vm && where[v] == node
       case OnNodes => node !in rule.nodes
       case NotOnNodes => node in rule.nodes
  }

  /** A placement in which no VM breaks the rule: the rule's VMs that run are all on one node, no two of them share a
  node, each is on a named node, or none is. */
  lemma KeptPlacement(rule: Rule, where: Placement)
    ensures (forall vm | vm in where :: !Breaks(rule, vm, where[vm], where)) <==>
      match rule.kind
      case Together => forall v, x | v in where && x in where && v in rule.vms && x in rule.vms :: where[v] == where[x]
      case Apart =>
        forall v, x | v in where && x in where && v in rule.vms && x in rule.vms && v != x :: where[v] != where[x]
      case OnNodes => forall v | v in where && v in rule.vms :: where[v] in rule.nodes
      case NotOnNodes => forall v | v in where && v in rule.vms :: where[v] !in rule.nodes
  {
  }

  /** What a VM on a node breaks is what it breaks once it is there: where it runs now does not matter. */
  lemma BreaksOnceThere(rule: Rule, vm: Vm, node: Node, where: Placement)
    ensures Breaks(rule, vm, node, where) <==> Breaks(rule, vm, node, where[vm := node])
    ensures vm !in rule.vms ==> !Breaks(rule, vm, node, where)
  {
    var moved := where[vm := node];
    assert forall v | v != vm :: (v in where <==> v in moved) && (v in where ==> moved[v] == where[v]);
  }

  /** By the nodes the rule's other VMs run on: a VM of the rule breaks it on a node exactly when they are not all that
  one, when they hold that one, or when that one is not, or is, a named one. */
  lemma BreaksIff(rule: Rule, vm: Vm, node: Node, where: Placement)
    requires vm in rule.vms
    ensures var others := set v | v in where && v in rule.vms && v != vm :: where[v];
      match rule.kind
      case Together => Breaks(rule, vm, node, where) <==> !(others <= {node})
      case Apart => Breaks(rule, vm, node, where) <==> node in others
      case OnNodes => Breaks(rule, vm, node, where) <==> node !in rule.nodes
      case NotOnNodes => Breaks(rule, vm, node, where) <==> node in rule.nodes
  {
    var others := set v | v in where && v in rule.vms && v != vm :: where[v];
    assert forall v | v in where && v in rule.vms && v != vm :: where[v] in others;
  }

  predicate Counts(rule: Rule, strengths: set<Strength>)
  {
    rule.enabled && rule.strength in strengths
  }

  const ALL: set<Strength> := {Must, Should}

  /** The rules of `strengths` that `vm` on `node` would break, in their order. */
  function Broken(rules: seq<Rule>, vm: Vm, node: Node, where: Placement, strengths: set<Strength>): seq<Rule>
  {
    if rules == [] then []
    else if Counts(rules[0], strengths) && Breaks(rules[0], vm, node, where)
    then [rules[0]] + Broken(rules[1..], vm, node, where, strengths)
    else Broken(rules[1..], vm, node, where, strengths)
  }

  lemma {:induction false} BrokenMeans(
    rules: seq<Rule>, vm: Vm, node: Node, where: Placement, strengths: set<Strength>)
    ensures forall r :: r in Broken(rules, vm, node, where, strengths) <==>
      r in rules && r.enabled && r.strength in strengths && Breaks(r, vm, node, where)
  {
    if rules != [] {
      BrokenMeans(rules[1..], vm, node, where, strengths);
      assert rules == [rules[0]] + rules[1..];
    }
  }

  method BrokenRules(rules: seq<Rule>, vm: Vm, node: Node, where: Placement, strengths: set<Strength>)
    returns (found: seq<Rule>)
    ensures found == Broken(rules, vm, node, where, strengths)
    ensures forall r :: r in found <==> r in rules && r.enabled && r.strength in strengths && Breaks(r, vm, node, where)
  {
    BrokenMeans(rules, vm, node, where, strengths);
    found := [];
    for i := 0 to |rules|
      invariant Broken(rules, vm, node, where, strengths) == found + Broken(rules[i..], vm, node, where, strengths)
    {
      assert rules[i..][1..] == rules[i + 1..];
      if Counts(rules[i], strengths) && Breaks(rules[i], vm, node, where) {
        found := found + [rules[i]];
      }
    }
  }

  /** No rule of `strengths` broken. */
  predicate Keeps(rules: seq<Rule>, vm: Vm, node: Node, where: Placement, strengths: set<Strength>)
  {
    Broken(rules, vm, node, where, strengths) == []
  }

  lemma {:induction false} KeepsEach(
    rules: seq<Rule>, vm: Vm, node: Node, where: Placement, strengths: set<Strength>)
    ensures Keeps(rules, vm, node, where, strengths) <==>
      forall i | 0 <= i < |rules| :: Counts(rules[i], strengths) ==> !Breaks(rules[i], vm, node, where)
  {
    if rules != [] {
      KeepsEach(rules[1..], vm, node, where, strengths);
      assert forall i | 0 < i < |rules| :: rules[i] == rules[1..][i - 1];
    }
  }

  /** The rule is of `strengths`, and the VM breaks it where it runs. */
  ghost predicate Violates(rules: seq<Rule>, where: Placement, strengths: set<Strength>, i: nat, vm: Vm)
  {
    i < |rules| && vm in where && Counts(rules[i], strengths) && Breaks(rules[i], vm, where[vm], where)
  }

  ghost function Violations(rules: seq<Rule>, where: Placement, strengths: set<Strength>): set<(nat, Vm)>
  {
    set i, vm | 0 <= i < |rules| && vm in where && Violates(rules, where, strengths, i, vm) :: (i, vm)
  }

  lemma MoveBreaksNothing(rule: Rule, where: Placement, vm: Vm, target: Node, other: Vm)
    requires !Breaks(rule, vm, target, where) && other in where[vm := target]
    requires var moved := where[vm := target]; Breaks(rule, other, moved[other], moved)
    ensures other != vm && Breaks(rule, other, where[other], where)
  {
  }

  /**
  Putting a VM where it keeps the rules breaks none for any VM of the cluster, moved or not: the broken pairs of a rule
  and a VM only become fewer, and lose all of the VM's own.
  */
  lemma MoveShrinksViolations(rules: seq<Rule>, where: Placement, vm: Vm, target: Node, strengths: set<Strength>)
    requires Keeps(rules, vm, target, where, strengths)
    ensures var moved := where[vm := target];
      && Violations(rules, moved, strengths) <= Violations(rules, where, strengths)
      && (forall i :: (i, vm) !in Violations(rules, moved, strengths))
      && (vm in where && !Keeps(rules, vm, where[vm], where, strengths)
          ==> Violations(rules, moved, strengths) < Violations(rules, where, strengths))
  {
    var moved := where[vm := target];
    KeepsEach(rules, vm, target, where, strengths);
    forall i: nat, other | Violates(rules, moved, strengths, i, other)
      ensures other != vm && Violates(rules, where, strengths, i, other)
    {
      MoveBreaksNothing(rules[i], where, vm, target, other);
    }
    if vm in where {
      KeepsEach(rules, vm, where[vm], where, strengths);
      if !Keeps(rules, vm, where[vm], where, strengths) {
        var i :| 0 <= i < |rules| && Counts(rules[i], strengths) && Breaks(rules[i], vm, where[vm], where);
        assert Violates(rules, where, strengths, i, vm);
        assert (i, vm) in Violations(rules, where, strengths);
      }
    }
  }
}
