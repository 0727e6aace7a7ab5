/**
The load of a cluster's nodes and VMs, and what moving a VM does to it. Loads are real numbers; the order of the nodes
is that of the table they are read from.
*/
module ClusterLoad {
  import opened Wrappers
  import opened AffinityRules

  datatype VmLoad = VmLoad(
    memUsed: Option<real>, memTotal: Option<real>, cpuPct: Option<real>, vcpus: Option<real>, shared: bool)

  datatype NodeLoad = NodeLoad(
    cpu: real, mem: real, score: real, cpus: real, memTotal: real, memUsed: real, vms: map<Vm, VmLoad>)

  datatype Cluster = Cluster(order: seq<Node>, nodes: map<Node, NodeLoad>)

  const MEM_MARGIN := 1.10

  /** A figure missing or zero counts as `otherwise`. */
  function Or(x: Option<real>, otherwise: real): (r: real)
    ensures x.None? || x == Some(0.0) ==> r == otherwise
    ensures x.Some? && x != Some(0.0) ==> x == Some(r)
  {
    if x.None? || x.value == 0.0 then otherwise else x.value
  }

  /** What it uses, or else all it has. */
  function Memory(vm: VmLoad): (memory: real)
    ensures vm.memUsed.Some? && vm.memUsed.value != 0.0 ==> memory == vm.memUsed.value
    ensures vm.memUsed in {None, Some(0.0)} && vm.memTotal.Some? ==> memory == vm.memTotal.value
    ensures vm.memUsed in {None, Some(0.0)} && vm.memTotal.None? ==> memory == 0.0
  {
    Or(vm.memUsed, Or(vm.memTotal, 0.0))
  }

  /** The VM's CPU as points of the CPU of a node of `cpus` CPUs. */
  function CpuPoints(vm: VmLoad, cpus: real): real
    requires cpus > 0.0
  {
    Or(vm.cpuPct, 0.0) * Or(vm.vcpus, 1.0) / cpus
  }

  /** The percents of CPUs that the VM uses are the same on any node; a figure missing or zero counts as no use, or as
  one vCPU. */
  lemma CpuPointsMean(vm: VmLoad, cpus: real)
    requires cpus > 0.0
    ensures vm.cpuPct in {None, Some(0.0)} ==> CpuPoints(vm, cpus) == 0.0
    ensures vm.cpuPct.Some? && vm.vcpus in {None, Some(0.0)} ==> CpuPoints(vm, cpus) * cpus == vm.cpuPct.value
    ensures vm.cpuPct.Some? && vm.vcpus.Some? && vm.vcpus.value != 0.0 ==>
      CpuPoints(vm, cpus) * cpus == vm.cpuPct.value * vm.vcpus.value
  {
    var used := Or(vm.cpuPct, 0.0) * Or(vm.vcpus, 1.0);
    assert used / cpus * cpus == used;
  }

  function Max(a: real, b: real): real
  {
    if a < b then b else a
  }

  /** The node with its shares worked out again from its CPU and memory. */
  function Scored(n: NodeLoad): NodeLoad
    requires n.memTotal > 0.0
  {
    var mem := 100.0 * n.memUsed / n.memTotal;
    n.(mem := mem, score := Max(n.cpu, mem))
  }

  predicate ValidNode(n: NodeLoad)
  {
    n.cpus > 0.0 && n.memTotal > 0.0 && forall v | v in n.vms :: Memory(n.vms[v]) >= 0.0
  }

  predicate Distinct(s: seq<Node>)
  {
    forall i, j | 0 <= i < j < |s| :: s[i] != s[j]
  }

  ghost predicate Valid(c: Cluster)
  {
    && Distinct(c.order)
    && (forall n :: n in c.order <==> n in c.nodes)
    && forall n | n in c.nodes :: ValidNode(c.nodes[n])
  }

  /** Every VM of the placement runs on the node it says, and on that one only. */
  ghost predicate Runs(c: Cluster, where: Placement)
  {
    forall v, n | n in c.nodes :: v in c.nodes[n].vms <==> v in where && where[v] == n
  }

  // ---- Spread ----

  predicate Known(c: Cluster, order: seq<Node>)
  {
    forall i | 0 <= i < |order| :: order[i] in c.nodes
  }

  function MaxScore(c: Cluster, order: seq<Node>): real
    requires order != [] && Known(c, order)
  {
    if |order| == 1 then c.nodes[order[0]].score else Max(c.nodes[order[0]].score, MaxScore(c, order[1..]))
  }

  function MinScore(c: Cluster, order: seq<Node>): real
    requires order != [] && Known(c, order)
  {
    if |order| == 1 then c.nodes[order[0]].score
    else
      var least := MinScore(c, order[1..]);
      if c.nodes[order[0]].score < least then c.nodes[order[0]].score else least
  }

  function Spread(c: Cluster): real
    requires Known(c, c.order)
  {
    if |c.order| < 2 then 0.0 else MaxScore(c, c.order) - MinScore(c, c.order)
  }

  lemma {:induction false} ScoresBetween(c: Cluster, order: seq<Node>, n: Node)
    requires n in order && Known(c, order)
    ensures MinScore(c, order) <= c.nodes[n].score <= MaxScore(c, order)
  {
    if |order| > 1 && n != order[0] {
      ScoresBetween(c, order[1..], n);
    }
  }

  lemma {:induction false} ScoresReached(c: Cluster, order: seq<Node>) returns (low: Node, high: Node)
    requires order != [] && Known(c, order)
    ensures low in order && c.nodes[low].score == MinScore(c, order)
    ensures high in order && c.nodes[high].score == MaxScore(c, order)
  {
    if |order| == 1 {
      low, high := order[0], order[0];
    } else {
      low, high := ScoresReached(c, order[1..]);
      low := if c.nodes[order[0]].score < MinScore(c, order[1..]) then order[0] else low;
      high := if c.nodes[order[0]].score < MaxScore(c, order[1..]) then high else order[0];
    }
  }

  /** The spread is the largest difference of two nodes' scores. */
  lemma SpreadIsLargest(c: Cluster) returns (high: Node, low: Node)
    requires Valid(c) && |c.order| >= 2
    ensures high in c.nodes && low in c.nodes && Spread(c) == c.nodes[high].score - c.nodes[low].score
    ensures forall a, b | a in c.nodes && b in c.nodes :: c.nodes[a].score - c.nodes[b].score <= Spread(c)
  {
    low, high := ScoresReached(c, c.order);
    forall n | n in c.nodes
      ensures MinScore(c, c.order) <= c.nodes[n].score <= MaxScore(c, c.order)
    {
      ScoresBetween(c, c.order, n);
    }
  }

  // ---- Moving and adding a VM ----

  function Left(n: NodeLoad, vm: Vm): NodeLoad
    requires n.cpus > 0.0 && n.memTotal > 0.0 && vm in n.vms
  {
    var load := n.vms[vm];
    Scored(n.(cpu := n.cpu - CpuPoints(load, n.cpus), memUsed := n.memUsed - Memory(load), vms := n.vms - {vm}))
  }

  /** The VM's CPU points come from the source's, scaled by the two nodes' CPUs. */
  function Joined(n: NodeLoad, vm: Vm, load: VmLoad, points: real, cpus: real): NodeLoad
    requires n.cpus > 0.0 && n.memTotal > 0.0
  {
    Scored(n.(cpu := n.cpu + points * (cpus / n.cpus), memUsed := n.memUsed + Memory(load), vms := n.vms[vm := load]))
  }

  predicate CanMove(c: Cluster, vm: Vm, source: Node, target: Node)
  {
    && source in c.nodes && target in c.nodes && source != target && vm in c.nodes[source].vms
    && c.nodes[source].cpus > 0.0 && c.nodes[source].memTotal > 0.0
    && c.nodes[target].cpus > 0.0 && c.nodes[target].memTotal > 0.0
  }

  function After(c: Cluster, vm: Vm, source: Node, target: Node): Cluster
    requires CanMove(c, vm, source, target)
  {
    var src, dst := c.nodes[source], c.nodes[target];
    var load := src.vms[vm];
    c.(nodes := c.nodes[source := Left(src, vm)]
                       [target := Joined(dst, vm, load, CpuPoints(load, src.cpus), src.cpus)])
  }

  /** The node once it holds one more VM. */
  function Holding(n: NodeLoad, vm: Vm, load: VmLoad): NodeLoad
    requires n.cpus > 0.0 && n.memTotal > 0.0
  {
    Scored(n.(
      cpu := n.cpu + CpuPoints(load, n.cpus), memUsed := n.memUsed + Memory(load), vms := n.vms[vm := load]))
  }

  function With(c: Cluster, target: Node, vm: Vm, load: VmLoad): Cluster
    requires target in c.nodes && c.nodes[target].cpus > 0.0 && c.nodes[target].memTotal > 0.0
  {
    c.(nodes := c.nodes[target := Holding(c.nodes[target], vm, load)])
  }

  /** Its memory free there, with the margin. */
  predicate Fits(load: VmLoad, target: NodeLoad)
  {
    target.memTotal - target.memUsed >= Memory(load) * MEM_MARGIN
  }

  lemma AfterIsValid(c: Cluster, vm: Vm, source: Node, target: Node)
    requires Valid(c) && CanMove(c, vm, source, target)
    ensures Valid(After(c, vm, source, target))
  {
    var after := After(c, vm, source, target);
    forall n | n in after.nodes
      ensures ValidNode(after.nodes[n])
    {
      assert ValidNode(c.nodes[n]) && ValidNode(c.nodes[source]);
    }
  }

  lemma AfterRuns(c: Cluster, where: Placement, vm: Vm, source: Node, target: Node)
    requires Runs(c, where) && CanMove(c, vm, source, target)
    ensures Runs(After(c, vm, source, target), where[vm := target])
  {
    var after := After(c, vm, source, target);
    forall v, n | n in after.nodes
      ensures v in after.nodes[n].vms <==> v in where[vm := target] && where[vm := target][v] == n
    {
      assert v in c.nodes[n].vms <==> v in where && where[v] == n;
      assert vm in c.nodes[source].vms <==> vm in where && where[vm] == source;
    }
  }

  /** The node's figures agree: its share of memory, and its score, the larger of its two shares. */
  ghost predicate Figured(n: NodeLoad)
  {
    && n.mem * n.memTotal == 100.0 * n.memUsed
    && n.cpu <= n.score && n.mem <= n.score && (n.score == n.cpu || n.score == n.mem)
  }

  lemma ScoredIsFigured(n: NodeLoad)
    requires n.memTotal > 0.0
    ensures Figured(Scored(n)) && Scored(n) == n.(mem := Scored(n).mem, score := Scored(n).score)
  {
    var used := 100.0 * n.memUsed;
    assert used / n.memTotal * n.memTotal == used;
  }

  lemma LeftIsFigured(n: NodeLoad, vm: Vm)
    requires n.cpus > 0.0 && n.memTotal > 0.0 && vm in n.vms
    ensures Figured(Left(n, vm))
  {
    var load := n.vms[vm];
    ScoredIsFigured(n.(cpu := n.cpu - CpuPoints(load, n.cpus), memUsed := n.memUsed - Memory(load),
                       vms := n.vms - {vm}));
  }

  lemma JoinedIsFigured(n: NodeLoad, vm: Vm, load: VmLoad, points: real, cpus: real)
    requires n.cpus > 0.0 && n.memTotal > 0.0
    ensures Figured(Joined(n, vm, load, points, cpus)) && Figured(Holding(n, vm, load))
  {
    ScoredIsFigured(n.(cpu := n.cpu + points * (cpus / n.cpus), memUsed := n.memUsed + Memory(load),
                       vms := n.vms[vm := load]));
    ScoredIsFigured(n.(cpu := n.cpu + CpuPoints(load, n.cpus), memUsed := n.memUsed + Memory(load),
                       vms := n.vms[vm := load]));
  }

  /** Figures that agree go on agreeing, whichever VM moves or comes. */
  lemma MovesKeepFigures(c: Cluster, vm: Vm, source: Node, target: Node, n: Node)
    requires CanMove(c, vm, source, target) && n in c.nodes && Figured(c.nodes[n])
    ensures Figured(After(c, vm, source, target).nodes[n])
    ensures Figured(With(c, target, vm, c.nodes[source].vms[vm]).nodes[n])
  {
    var src := c.nodes[source];
    MovedNodes(c, vm, source, target);
    LeftIsFigured(src, vm);
    JoinedIsFigured(c.nodes[target], vm, src.vms[vm], CpuPoints(src.vms[vm], src.cpus), src.cpus);
  }

  lemma HoldingUses(n: NodeLoad, vm: Vm, load: VmLoad, points: real)
    requires n.cpus > 0.0 && n.memTotal > 0.0 && points == CpuPoints(load, n.cpus)
    ensures Grown(n, Holding(n, vm, load), vm, load, points)
  {
    assert (n.cpu + points) * n.cpus == n.cpu * n.cpus + points * n.cpus;
  }

  /** The node holds one VM more, and uses that much more memory and that many more points of its CPUs. */
  ghost predicate Grown(n: NodeLoad, held: NodeLoad, vm: Vm, load: VmLoad, points: real)
  {
    && held.vms == n.vms[vm := load] && held.memUsed == n.memUsed + Memory(load)
    && held.cpu * held.cpus == n.cpu * n.cpus + points * n.cpus
  }

  /** A VM put on a node adds what it uses to that node's memory and CPU, and nothing to any other node. */
  lemma WithAdds(c: Cluster, target: Node, vm: Vm, load: VmLoad, points: real)
    requires target in c.nodes && c.nodes[target].cpus > 0.0 && c.nodes[target].memTotal > 0.0
    requires points == CpuPoints(load, c.nodes[target].cpus)
    ensures var after := With(c, target, vm, load);
      && after.order == c.order && after.nodes.Keys == c.nodes.Keys
      && (forall n | n in c.nodes && n != target :: after.nodes[n] == c.nodes[n])
      && Grown(c.nodes[target], after.nodes[target], vm, load, points)
  {
    HoldingUses(c.nodes[target], vm, load, points);
  }

  /** A VM fits when a tenth more than its memory is free. */
  lemma FitsIff(load: VmLoad, target: NodeLoad)
    ensures Fits(load, target) <==> 10.0 * target.memUsed + 11.0 * Memory(load) <= 10.0 * target.memTotal
  {
  }

  // ---- What a move conserves ----

  function Sum(amounts: map<Node, real>, order: seq<Node>): real
    requires forall i | 0 <= i < |order| :: order[i] in amounts
  {
    if order == [] then 0.0 else amounts[order[0]] + Sum(amounts, order[1..])
  }

  function MemoryUsed(c: Cluster): map<Node, real>
  {
    map n | n in c.nodes :: c.nodes[n].memUsed
  }

  /** CPU in use, in CPUs. */
  function CpuUsed(c: Cluster): map<Node, real>
  {
    map n | n in c.nodes :: c.nodes[n].cpu * c.nodes[n].cpus
  }

  lemma ScaledPoints(cpu: real, points: real, from: real, to: real)
    requires to > 0.0
    ensures (cpu + points * (from / to)) * to == cpu * to + points * from
  {
    assert points * (from / to) * to == points * (from / to * to);
  }

  lemma LeftUses(n: NodeLoad, vm: Vm, points: real)
    requires n.cpus > 0.0 && n.memTotal > 0.0 && vm in n.vms && points == CpuPoints(n.vms[vm], n.cpus)
    ensures var left := Left(n, vm); left.cpu * left.cpus == n.cpu * n.cpus - points * n.cpus
  {
    assert (n.cpu - points) * n.cpus == n.cpu * n.cpus - points * n.cpus;
  }

  lemma JoinedUses(n: NodeLoad, vm: Vm, load: VmLoad, points: real, cpus: real)
    requires n.cpus > 0.0 && n.memTotal > 0.0
    ensures var joined := Joined(n, vm, load, points, cpus); joined.cpu * joined.cpus == n.cpu * n.cpus + points * cpus
  {
    ScaledPoints(n.cpu, points, cpus, n.cpus);
  }

  lemma UsedAt(c: Cluster, n: Node, load: NodeLoad, used: real)
    requires n in c.nodes && c.nodes[n] == load && load.cpu * load.cpus == used
    ensures CpuUsed(c)[n] == used
  {
  }

  lemma MovedNodes(c: Cluster, vm: Vm, source: Node, target: Node)
    requires CanMove(c, vm, source, target)
    ensures var after, src := After(c, vm, source, target), c.nodes[source];
      && after.nodes[source] == Left(src, vm)
      && after.nodes[target] ==
           Joined(c.nodes[target], vm, src.vms[vm], CpuPoints(src.vms[vm], src.cpus), src.cpus)
  {
  }

  lemma CpuGivenAndTaken(c: Cluster, vm: Vm, source: Node, target: Node, points: real)
    requires CanMove(c, vm, source, target) && points == CpuPoints(c.nodes[source].vms[vm], c.nodes[source].cpus)
    ensures var after, cpu := After(c, vm, source, target), points * c.nodes[source].cpus;
      && CpuUsed(after)[source] == CpuUsed(c)[source] - cpu
      && CpuUsed(after)[target] == CpuUsed(c)[target] + cpu
  {
    var after, src, dst := After(c, vm, source, target), c.nodes[source], c.nodes[target];
    var cpu, given, held := points * src.cpus, src.cpu * src.cpus, dst.cpu * dst.cpus;
    MovedNodes(c, vm, source, target);
    LeftUses(src, vm, points);
    JoinedUses(dst, vm, src.vms[vm], points, src.cpus);
    UsedAt(c, source, src, given);
    UsedAt(c, target, dst, held);
    UsedAt(after, source, Left(src, vm), given - cpu);
    UsedAt(after, target, Joined(dst, vm, src.vms[vm], points, src.cpus), held + cpu);
  }

  /** What the move takes of the source's memory and CPU, it gives to the target's. */
  lemma Exchanged(c: Cluster, vm: Vm, source: Node, target: Node) returns (memory: real, cpu: real)
    requires CanMove(c, vm, source, target)
    ensures memory == Memory(c.nodes[source].vms[vm])
    ensures cpu == CpuPoints(c.nodes[source].vms[vm], c.nodes[source].cpus) * c.nodes[source].cpus
    ensures var after := After(c, vm, source, target);
      && MemoryUsed(after)[source] == MemoryUsed(c)[source] - memory
      && MemoryUsed(after)[target] == MemoryUsed(c)[target] + memory
      && CpuUsed(after)[source] == CpuUsed(c)[source] - cpu
      && CpuUsed(after)[target] == CpuUsed(c)[target] + cpu
  {
    var src := c.nodes[source];
    var points := CpuPoints(src.vms[vm], src.cpus);
    memory, cpu := Memory(src.vms[vm]), points * src.cpus;
    CpuGivenAndTaken(c, vm, source, target, points);
  }

  /** How far a part of the nodes is from its sum before the move. */
  function Share(order: seq<Node>, source: Node, target: Node, amount: real): real
  {
    (if target in order then amount else 0.0) - (if source in order then amount else 0.0)
  }

  lemma {:induction false} SumShifts(
    before: map<Node, real>, after: map<Node, real>, source: Node, target: Node, amount: real, order: seq<Node>)
    requires Distinct(order) && source != target && before.Keys == after.Keys
    requires forall i | 0 <= i < |order| :: order[i] in before
    requires source in before && after[source] == before[source] - amount
    requires target in before && after[target] == before[target] + amount
    requires forall n | n in before && n != source && n != target :: after[n] == before[n]
    ensures Sum(after, order) == Sum(before, order) + Share(order, source, target, amount)
  {
    if order != [] {
      SumShifts(before, after, source, target, amount, order[1..]);
      assert forall n :: n in order <==> n == order[0] || n in order[1..];
    }
  }

  /** The memory in use and the CPU in use of the whole cluster stay the same. */
  lemma MoveConserves(c: Cluster, vm: Vm, source: Node, target: Node)
    requires Valid(c) && CanMove(c, vm, source, target)
    ensures var after := After(c, vm, source, target);
      && Sum(MemoryUsed(after), c.order) == Sum(MemoryUsed(c), c.order)
      && Sum(CpuUsed(after), c.order) == Sum(CpuUsed(c), c.order)
  {
    var memory, cpu := Exchanged(c, vm, source, target);
    Conserved(c, After(c, vm, source, target), source, target, memory, cpu);
  }

  lemma Conserved(c: Cluster, after: Cluster, source: Node, target: Node, memory: real, cpu: real)
    requires Valid(c) && source != target && source in c.nodes && target in c.nodes && after.nodes.Keys == c.nodes.Keys
    requires forall n | n in c.nodes && n != source && n != target :: after.nodes[n] == c.nodes[n]
    requires MemoryUsed(after)[source] == MemoryUsed(c)[source] - memory
    requires MemoryUsed(after)[target] == MemoryUsed(c)[target] + memory
    requires CpuUsed(after)[source] == CpuUsed(c)[source] - cpu
    requires CpuUsed(after)[target] == CpuUsed(c)[target] + cpu
    ensures Sum(MemoryUsed(after), c.order) == Sum(MemoryUsed(c), c.order)
    ensures Sum(CpuUsed(after), c.order) == Sum(CpuUsed(c), c.order)
  {
    SumShifts(MemoryUsed(c), MemoryUsed(after), source, target, memory, c.order);
    SumShifts(CpuUsed(c), CpuUsed(after), source, target, cpu, c.order);
  }

  predicate WithinMemory(n: NodeLoad)
  {
    n.memUsed <= n.memTotal
  }

  /** A target the VM fits is within its memory once it holds it, and no node comes to be beyond its own. */
  lemma MoveStaysWithin(c: Cluster, vm: Vm, source: Node, target: Node, n: Node)
    requires Valid(c) && CanMove(c, vm, source, target) && Fits(c.nodes[source].vms[vm], c.nodes[target])
    requires n in c.nodes && (n == target || WithinMemory(c.nodes[n]))
    ensures WithinMemory(After(c, vm, source, target).nodes[n])
  {
    assert ValidNode(c.nodes[source]);
  }
}
