/**
Where a VM goes: the members that have room for it and keep its rules, best first; a drained member's VMs, one after the
other; and the members a new VM may go to.
*/
module Placing {
  import opened Wrappers
  import opened Sorting
  import opened AffinityRules
  import opened ClusterLoad

  ghost predicate Placeable(c: Cluster)
  {
    Distinct(c.order) && (forall n :: n in c.order <==> n in c.nodes) && Sized(c)
  }

  predicate Sized(c: Cluster)
  {
    forall n | n in c.nodes :: c.nodes[n].cpus > 0.0 && c.nodes[n].memTotal > 0.0
  }

  /** What is asked of a member: the rules, where the VMs run, and the VM. */
  datatype Request = Request(rules: seq<Rule>, where: Placement, vm: Vm, load: VmLoad)

  /** Room for the VM, and no rule of `strengths` broken by it. */
  predicate Takes(q: Request, c: Cluster, n: Node, strengths: set<Strength>)
  {
    n in c.nodes && Fits(q.load, c.nodes[n]) && Keeps(q.rules, q.vm, n, q.where, strengths)
  }

  function Taking(q: Request, c: Cluster, strengths: set<Strength>, order: seq<Node>): (r: seq<Node>)
    ensures Known(c, r) && forall n :: n in r <==> n in order && Takes(q, c, n, strengths)
  {
    if order == [] then []
    else if Takes(q, c, order[0], strengths) then [order[0]] + Taking(q, c, strengths, order[1..])
    else Taking(q, c, strengths, order[1..])
  }

  /** The score once it holds the VM, then the name. */
  predicate Before(q: Request, c: Cluster, a: Node, b: Node)
    requires Sized(c) && a in c.nodes && b in c.nodes
  {
    var s, t := Holding(c.nodes[a], q.vm, q.load).score, Holding(c.nodes[b], q.vm, q.load).score;
    s < t || (s == t && a < b)
  }

  function First(q: Request, c: Cluster, nodes: seq<Node>): (r: Node)
    requires Sized(c) && nodes != [] && Known(c, nodes)
    ensures r in nodes && r in c.nodes
    ensures forall n | n in nodes && n != r :: n in c.nodes && Before(q, c, r, n)
  {
    if |nodes| == 1 then nodes[0]
    else
      var rest := First(q, c, nodes[1..]);
      if rest != nodes[0] && Before(q, c, rest, nodes[0]) then rest else nodes[0]
  }

  /** The best of those that keep every rule, else of those that keep the "must" rules. */
  function Place(q: Request, c: Cluster): Option<Node>
    requires Sized(c)
  {
    var keeping, allowed := Taking(q, c, ALL, c.order), Taking(q, c, {Must}, c.order);
    if keeping != [] then Some(First(q, c, keeping))
    else if allowed != [] then Some(First(q, c, allowed))
    else None
  }

  lemma KeepsAllKeepsMust(rules: seq<Rule>, vm: Vm, node: Node, where: Placement)
    requires Keeps(rules, vm, node, where, ALL)
    ensures Keeps(rules, vm, node, where, {Must})
  {
    KeepsEach(rules, vm, node, where, ALL);
    KeepsEach(rules, vm, node, where, {Must});
  }

  /** Whether `a` is offered before `b`: one that keeps every rule before one that does not, then by score and name. */
  predicate Precedes(q: Request, c: Cluster, a: Node, b: Node)
    requires Sized(c) && a in c.nodes && b in c.nodes
  {
    var all, both := Keeps(q.rules, q.vm, a, q.where, ALL), Keeps(q.rules, q.vm, b, q.where, ALL);
    (all && !both) || (all == both && Before(q, c, a, b))
  }

  /** Of two members the one is offered before the other, and not both ways: first by whether it keeps every rule, then
  by its score once it holds the VM, then by name. */
  lemma PrecedesIsAnOrder(q: Request, c: Cluster, a: Node, b: Node)
    requires Sized(c) && a in c.nodes && b in c.nodes && a != b
    ensures Precedes(q, c, a, b) <==> !Precedes(q, c, b, a)
    ensures var all, both := Broken(q.rules, q.vm, a, q.where, ALL) == [], Broken(q.rules, q.vm, b, q.where, ALL) == [];
      var s := With(c, a, q.vm, q.load).nodes[a].score;
      var t := With(c, b, q.vm, q.load).nodes[b].score;
      && (all && !both ==> Precedes(q, c, a, b))
      && (all == both && s < t ==> Precedes(q, c, a, b))
      && (all == both && s == t && a < b ==> Precedes(q, c, a, b))
  {
  }

  /** A VM is placed exactly when a member has room for it and keeps its "must" rules, and then on the one that precedes
  all of those. */
  lemma PlaceIsFirst(q: Request, c: Cluster)
    requires Placeable(c)
    ensures var r := Place(q, c);
      && (r.None? <==> forall n | n in c.nodes :: !Takes(q, c, n, {Must}))
      && (r.Some? ==> Takes(q, c, r.value, {Must}))
      && (r.Some? ==> forall n | n in c.nodes && n != r.value && Takes(q, c, n, {Must}) :: Precedes(q, c, r.value, n))
  {
    var keeping, allowed := Taking(q, c, ALL, c.order), Taking(q, c, {Must}, c.order);
    forall n | Takes(q, c, n, ALL)
      ensures Takes(q, c, n, {Must})
    {
      KeepsAllKeepsMust(q.rules, q.vm, n, q.where);
    }
    if keeping == [] {
      forall n | n in c.nodes
        ensures !Takes(q, c, n, ALL)
      {
        assert n !in keeping;
      }
    }
    if allowed == [] {
      forall n | n in c.nodes
        ensures !Takes(q, c, n, {Must})
      {
        assert n !in allowed;
      }
    }
  }

  // ---- A new VM ----

  function Dropped(c: Cluster, n: Node): Cluster
  {
    Cluster(Others(c.order, n), c.nodes - {n})
  }

  function Others(order: seq<Node>, n: Node): (r: seq<Node>)
    ensures forall m :: m in r <==> m in order && m != n
    ensures |r| <= |order| && (n in order ==> |r| < |order|)
  {
    if order == [] then [] else (if order[0] == n then [] else [order[0]]) + Others(order[1..], n)
  }

  lemma {:induction false} OthersDistinct(order: seq<Node>, n: Node)
    requires Distinct(order)
    ensures Distinct(Others(order, n))
  {
    if order != [] {
      OthersDistinct(order[1..], n);
      assert order[0] !in order[1..];
      assert order[0] !in Others(order[1..], n);
    }
  }

  /** The members a new VM may go to, best first: placed, and again without the one found. */
  function Initial(q: Request, c: Cluster): seq<Node>
    requires Placeable(c)
    decreases |c.order|
  {
    PlaceIsFirst(q, c);
    OthersStayPlaceable(c);
    match Place(q, c)
    case None => []
    case Some(n) => [n] + Initial(q, Dropped(c, n))
  }

  lemma OthersStayPlaceable(c: Cluster)
    requires Placeable(c)
    ensures forall n :: Placeable(Dropped(c, n))
  {
    forall n
      ensures Placeable(Dropped(c, n))
    {
      OthersDistinct(c.order, n);
    }
  }

  lemma InitialStep(q: Request, c: Cluster, n: Node)
    requires Placeable(c) && Place(q, c) == Some(n)
    ensures var left := Dropped(c, n);
      Placeable(left) && |left.order| < |c.order| && Initial(q, c) == [n] + Initial(q, left)
  {
    PlaceIsFirst(q, c);
    OthersStayPlaceable(c);
  }

  /** The members found, and those still to be found among `left`, are all of them. */
  ghost predicate Found(q: Request, whole: seq<Node>, ranked: seq<Node>, left: Cluster)
  {
    Placeable(left) && whole == ranked + Initial(q, left)
  }

  lemma FindOne(q: Request, whole: seq<Node>, ranked: seq<Node>, left: Cluster, n: Node)
    requires Found(q, whole, ranked, left) && Place(q, left) == Some(n)
    ensures Found(q, whole, ranked + [n], Dropped(left, n)) && |Dropped(left, n).order| < |left.order|
  {
    InitialStep(q, left, n);
    assert ranked + ([n] + Initial(q, Dropped(left, n))) == ranked + [n] + Initial(q, Dropped(left, n));
  }

  lemma FindNone(q: Request, whole: seq<Node>, ranked: seq<Node>, left: Cluster)
    requires Found(q, whole, ranked, left) && Place(q, left) == None
    ensures whole == ranked
  {
  }

  method InitialMembers(q: Request, c: Cluster) returns (ranked: seq<Node>)
    requires Placeable(c)
    ensures ranked == Initial(q, c) && Ranked(q, c, ranked)
  {
    InitialIsRanked(q, c);
    ghost var whole := Initial(q, c);
    ranked := MembersOf(q, c, whole);
  }

  method MembersOf(q: Request, c: Cluster, ghost whole: seq<Node>) returns (ranked: seq<Node>)
    requires Found(q, whole, [], c)
    ensures ranked == whole
  {
    ranked := [];
    var left := c;
    while true
      invariant Found(q, whole, ranked, left)
      decreases |left.order|
    {
      var best := Place(q, left);
      if best.None? {
        FindNone(q, whole, ranked, left);
        return;
      }
      FindOne(q, whole, ranked, left, best.value);
      ranked, left := ranked + [best.value], Dropped(left, best.value);
    }
  }

  ghost predicate Ranked(q: Request, c: Cluster, r: seq<Node>)
    requires Sized(c)
  {
    && (forall n :: n in r <==> Takes(q, c, n, {Must}))
    && forall i, j | 0 <= i < j < |r| :: r[i] in c.nodes && r[j] in c.nodes && Precedes(q, c, r[i], r[j])
  }

  /**
  Every member with room that keeps the "must" rules is offered, once: first those that keep every rule, by score and
  name, then the others, by score and name.
  */
  lemma {:induction false} InitialIsRanked(q: Request, c: Cluster)
    requires Placeable(c)
    ensures Ranked(q, c, Initial(q, c))
    decreases |c.order|
  {
    PlaceIsFirst(q, c);
    var best := Place(q, c);
    if best.Some? {
      var left := Dropped(c, best.value);
      OthersStayPlaceable(c);
      InitialIsRanked(q, left);
      RankedAfter(q, c, best.value, Initial(q, left));
    }
  }

  lemma RankedAfter(q: Request, c: Cluster, best: Node, rest: seq<Node>)
    requires Placeable(c) && Takes(q, c, best, {Must})
    requires Placeable(Dropped(c, best)) && Ranked(q, Dropped(c, best), rest)
    requires forall n | n in c.nodes && n != best && Takes(q, c, n, {Must}) :: Precedes(q, c, best, n)
    ensures Ranked(q, c, [best] + rest)
  {
    var left, r := Dropped(c, best), [best] + rest;
    forall n
      ensures n in r <==> Takes(q, c, n, {Must})
    {
      assert n in rest <==> Takes(q, left, n, {Must});
    }
    forall i, j | 0 <= i < j < |r|
      ensures r[i] in c.nodes && r[j] in c.nodes && Precedes(q, c, r[i], r[j])
    {
      assert r[j] in rest;
      assert Takes(q, left, r[j], {Must}) && Takes(q, c, r[j], {Must});
      if i > 0 {
        assert Precedes(q, left, rest[i - 1], rest[j - 1]);
      }
    }
  }

  // ---- A drained member ----

  const NO_LOAD := VmLoad(None, None, None, None, false)

  /** A load not read yet counts as none. */
  function LoadOf(loads: map<Vm, VmLoad>, vm: Vm): VmLoad
  {
    if vm in loads then loads[vm] else NO_LOAD
  }

  predicate Larger(loads: map<Vm, VmLoad>, a: Vm, b: Vm)
  {
    var m, n := Memory(LoadOf(loads, a)), Memory(LoadOf(loads, b));
    m > n || (m == n && a < b)
  }

  function InsertByMemory(loads: map<Vm, VmLoad>, vm: Vm, names: seq<Vm>): (r: seq<Vm>)
    ensures forall v :: v in r <==> v == vm || v in names
  {
    if names == [] || Larger(loads, vm, names[0]) then [vm] + names
    else [names[0]] + InsertByMemory(loads, vm, names[1..])
  }

  function LargestFirst(loads: map<Vm, VmLoad>, vms: seq<Vm>): (r: seq<Vm>)
    ensures forall v :: v in r <==> v in vms
  {
    if vms == [] then [] else InsertByMemory(loads, vms[0], LargestFirst(loads, vms[1..]))
  }

  ghost predicate Descending(loads: map<Vm, VmLoad>, names: seq<Vm>)
  {
    forall i, j | 0 <= i < j < |names| :: Larger(loads, names[i], names[j])
  }

  lemma {:induction false} InsertDescending(loads: map<Vm, VmLoad>, vm: Vm, names: seq<Vm>)
    requires Descending(loads, names) && vm !in names
    ensures Descending(loads, InsertByMemory(loads, vm, names))
  {
    if names != [] && !Larger(loads, vm, names[0]) {
      assert names[0] in names && Larger(loads, names[0], vm);
      InsertDescending(loads, vm, names[1..]);
      var r := InsertByMemory(loads, vm, names[1..]);
      forall j | 0 <= j < |r|
        ensures Larger(loads, names[0], r[j])
      {
        assert r[j] in r;
        if r[j] != vm {
          var k :| 0 <= k < |names[1..]| && names[1..][k] == r[j];
          assert names[k + 1] == r[j];
        }
      }
    }
  }

  /** The largest first, each once. */
  lemma {:induction false} LargestFirstSorts(loads: map<Vm, VmLoad>, vms: seq<Vm>)
    requires StrictlyAscending(vms)
    ensures Descending(loads, LargestFirst(loads, vms))
  {
    if vms != [] {
      LargestFirstSorts(loads, vms[1..]);
      assert vms[0] !in vms[1..];
      InsertDescending(loads, vms[0], LargestFirst(loads, vms[1..]));
    }
  }

  /** The members' loads and the placement as the VMs are placed, and where each goes. */
  datatype Drain = Drain(c: Cluster, where: Placement, out: map<Vm, Option<Node>>)

  function DrainOne(rules: seq<Rule>, d: Drain, vm: Vm, load: VmLoad): Drain
    requires Sized(d.c)
  {
    match Place(Request(rules, d.where, vm, load), d.c)
    case None => d.(out := d.out[vm := None])
    case Some(n) => Drain(With(d.c, n, vm, load), d.where[vm := n], d.out[vm := Some(n)])
  }

  function DrainAll(rules: seq<Rule>, d: Drain, loads: map<Vm, VmLoad>, names: seq<Vm>): Drain
    requires Placeable(d.c)
    decreases |names|
  {
    if names == [] then d
    else
      PlaceableAfter(rules, d, names[0], LoadOf(loads, names[0]));
      DrainAll(rules, DrainOne(rules, d, names[0], LoadOf(loads, names[0])), loads, names[1..])
  }

  lemma PlaceableAfter(rules: seq<Rule>, d: Drain, vm: Vm, load: VmLoad)
    requires Placeable(d.c)
    ensures var next := DrainOne(rules, d, vm, load); Placeable(next.c) && next.c.nodes.Keys == d.c.nodes.Keys
  {
    PlaceIsFirst(Request(rules, d.where, vm, load), d.c);
  }

  ghost predicate Settled(d: Drain, vm: Vm)
  {
    vm in d.out && (d.out[vm].Some? ==>
      && d.out[vm].value in d.c.nodes && WithinMemory(d.c.nodes[d.out[vm].value])
      && vm in d.where && d.where[vm] == d.out[vm].value)
  }

  /** Every VM has an answer and its member is within its memory, the placement adds no broken "must" rule for any VM of
  the cluster, no member is taken beyond its memory, and the other VMs stay where they run. */
  ghost predicate SafelyDrained(rules: seq<Rule>, d: Drain, end: Drain, vms: seq<Vm>)
  {
    && Violations(rules, end.where, {Must}) <= Violations(rules, d.where, {Must})
    && end.c.nodes.Keys == d.c.nodes.Keys
    && (forall n | n in d.c.nodes && WithinMemory(d.c.nodes[n]) :: WithinMemory(end.c.nodes[n]))
    && (forall vm | vm in vms :: Settled(end, vm))
    && (forall v | v !in vms :: (v in end.where <==> v in d.where) && (v in d.where ==> end.where[v] == d.where[v]))
    && (forall v | v !in vms :: (v in end.out <==> v in d.out) && (v in d.out ==> end.out[v] == d.out[v]))
  }

  /** Placing one VM breaks no "must" rule for any VM, and takes no member beyond its memory. */
  lemma DrainOneIsSafe(rules: seq<Rule>, d: Drain, vm: Vm, load: VmLoad)
    requires Placeable(d.c) && Memory(load) >= 0.0
    ensures var next := DrainOne(rules, d, vm, load); Placeable(next.c) && SafelyDrained(rules, d, next, [vm])
  {
    var q := Request(rules, d.where, vm, load);
    PlaceIsFirst(q, d.c);
    PlaceableAfter(rules, d, vm, load);
    var r := Place(q, d.c);
    if r.Some? {
      MoveShrinksViolations(rules, d.where, vm, r.value, {Must});
    }
  }

  lemma SafelyOneThenRest(rules: seq<Rule>, d: Drain, next: Drain, end: Drain, names: seq<Vm>)
    requires names != [] && names[0] !in names[1..]
    requires SafelyDrained(rules, d, next, [names[0]]) && SafelyDrained(rules, next, end, names[1..])
    ensures SafelyDrained(rules, d, end, names)
  {
    assert forall v :: v in names <==> v in [names[0]] || v in names[1..];
    assert Settled(next, names[0]);
  }

  lemma {:induction false} DrainIsSafe(rules: seq<Rule>, d: Drain, loads: map<Vm, VmLoad>, names: seq<Vm>)
    requires Placeable(d.c) && Distinct(names) && forall v | v in loads :: Memory(loads[v]) >= 0.0
    ensures SafelyDrained(rules, d, DrainAll(rules, d, loads, names), names)
    decreases |names|
  {
    if names != [] {
      var next := DrainOne(rules, d, names[0], LoadOf(loads, names[0]));
      DrainOneIsSafe(rules, d, names[0], LoadOf(loads, names[0]));
      DrainIsSafe(rules, next, loads, names[1..]);
      SafelyOneThenRest(rules, d, next, DrainAll(rules, next, loads, names[1..]), names);
    }
  }

  lemma SafeForTheSame(rules: seq<Rule>, d: Drain, end: Drain, a: seq<Vm>, b: seq<Vm>)
    requires SafelyDrained(rules, d, end, a) && forall v :: v in a <==> v in b
    ensures SafelyDrained(rules, d, end, b)
  {
  }

  lemma LargestFirstDistinct(loads: map<Vm, VmLoad>, vms: seq<Vm>)
    requires StrictlyAscending(vms)
    ensures Distinct(LargestFirst(loads, vms))
  {
    LargestFirstSorts(loads, vms);
    var names := LargestFirst(loads, vms);
    forall i, j | 0 <= i < j < |names|
      ensures names[i] != names[j]
    {
      assert Larger(loads, names[i], names[j]);
    }
  }

  lemma SpreadIsSafe(rules: seq<Rule>, d: Drain, vms: set<Vm>, loads: map<Vm, VmLoad>, end: Drain)
    requires Placeable(d.c) && end == DrainAll(rules, d, loads, LargestFirst(loads, Ascending(vms)))
    requires forall v | v in loads :: Memory(loads[v]) >= 0.0
    ensures SafelyDrained(rules, d, end, Ascending(vms))
  {
    LargestFirstDistinct(loads, Ascending(vms));
    DrainIsSafe(rules, d, loads, LargestFirst(loads, Ascending(vms)));
    SafeForTheSame(rules, d, end, LargestFirst(loads, Ascending(vms)), Ascending(vms));
  }

  /** Draining a member: its VMs are placed the largest first, each once. As long as no load is negative, the placement
  is a safe one for them. */
  method SpreadOver(rules: seq<Rule>, c: Cluster, where: Placement, vms: set<Vm>, loads: map<Vm, VmLoad>)
    returns (out: map<Vm, Option<Node>>, ghost end: Drain)
    requires Placeable(c)
    ensures end == DrainAll(rules, Drain(c, where, map[]), loads, LargestFirst(loads, Ascending(vms)))
    ensures out == end.out
    ensures (forall v | v in loads :: Memory(loads[v]) >= 0.0) ==>
      SafelyDrained(rules, Drain(c, where, map[]), end, Ascending(vms))
  {
    var names := LargestFirst(loads, Ascending(vms));
    var d := Drain(c, where, map[]);
    end := DrainAll(rules, d, loads, names);
    if forall v | v in loads :: Memory(loads[v]) >= 0.0 {
      SpreadIsSafe(rules, d, vms, loads, end);
    }
    ghost var rest := names;
    for i := 0 to |names|
      invariant rest == names[i..] && Placeable(d.c) && end == DrainAll(rules, d, loads, rest)
    {
      PlaceableAfter(rules, d, names[i], LoadOf(loads, names[i]));
      d := DrainOne(rules, d, names[i], LoadOf(loads, names[i]));
      rest := rest[1..];
    }
    out := d.out;
  }
}
