/**
Automatic mode of load balancing on one leader: the requested moves under way, their outcomes, the cool-down of a VM
that was moved, and the pause after failures in a row.
*/
module AutomaticMoves {
  import opened Wrappers
  import opened AffinityRules
  import opened ClusterLoad
  import opened LoadPlanner
  import opened LoadPlan

  const MAX_RUNNING := 2
  const FAILURES_TO_PAUSE := 2
  const PICKUP_S := 300.0
  const SUSTAINED := 3

  /** A request a member carries out. */
  datatype Running = Running(id: nat, vm: Vm, source: Node, target: Node, at: real)

  /** What a request's row says; a row may be gone. */
  datatype Answer = Gone | Pending | Started | Succeeds | Fails

  datatype Event =
    | Requested(vm: Vm, source: Node, target: Node, at: real)
    | Succeeded
    | Failed
    | Resumed

  // ---- What the log says ----

  function FailuresAfter(before: nat, e: Event): nat
  {
    match e
    case Requested(_, _, _, _) => before
    case Succeeded => 0
    case Failed => before + 1
    case Resumed => 0
  }

  /** Failures in a row, up to now. */
  function FailuresOf(log: seq<Event>): nat
  {
    if log == [] then 0 else FailuresAfter(FailuresOf(log[..|log| - 1]), log[|log| - 1])
  }

  function PausedAfter(before: bool, failures: nat, e: Event): bool
  {
    match e
    case Resumed => false
    case Failed => before || failures + 1 >= FAILURES_TO_PAUSE
    case _ => before
  }

  function PausedBy(log: seq<Event>): bool
  {
    if log == [] then false
    else PausedAfter(PausedBy(log[..|log| - 1]), FailuresOf(log[..|log| - 1]), log[|log| - 1])
  }

  ghost predicate HeedsPauseAt(log: seq<Event>, k: nat)
  {
    k < |log| && log[k].Requested? ==> !PausedBy(log[..k])
  }

  /** Nothing requested while paused. */
  ghost predicate HeedsPause(log: seq<Event>)
  {
    forall k :: HeedsPauseAt(log, k)
  }

  ghost predicate CoolsDownAt(log: seq<Event>, j: nat, k: nat)
  {
    j < k < |log| && log[j].Requested? && log[k].Requested? && log[j].vm == log[k].vm ==>
      log[k].at - log[j].at >= COOLDOWN_S
  }

  /** Two requests for one VM are a cool-down apart. */
  ghost predicate CoolsDown(log: seq<Event>)
  {
    forall j, k :: CoolsDownAt(log, j, k)
  }

  // ---- What a round does ----

  /** How a request ended, if it has. */
  function Outcome(r: Running, answer: Answer, now: real): Option<Event>
  {
    match answer
    case Gone => Some(Failed)
    case Pending => if now - r.at >= PICKUP_S then Some(Failed) else None
    case Started => None
    case Succeeds => Some(Succeeded)
    case Fails => Some(Failed)
  }

  function Still(running: seq<Running>, answers: nat -> Answer, now: real): seq<Running>
  {
    if running == [] then []
    else
      var rest := Still(running[1..], answers, now);
      if Outcome(running[0], answers(running[0].id), now).None? then [running[0]] + rest else rest
  }

  function Outcomes(running: seq<Running>, answers: nat -> Answer, now: real): seq<Event>
  {
    if running == [] then []
    else
      var rest := Outcomes(running[1..], answers, now);
      match Outcome(running[0], answers(running[0].id), now)
      case Some(e) => [e] + rest
      case None => rest
  }

  function Busy(running: seq<Running>): set<Node>
  {
    if running == [] then {} else {running[0].source, running[0].target} + Busy(running[1..])
  }

  /** The moves of a plan a round asks for: not those of a VM in manual, one per member, as many as there is room. */
  function Picks(moves: seq<Move>, behaviours: map<Vm, Behaviour>, busy: set<Node>, room: int): seq<Move>
  {
    if moves == [] || room <= 0 then []
    else
      var m := moves[0];
      if (m.vm in behaviours && behaviours[m.vm] == Manual) || m.source in busy || m.target in busy
      then Picks(moves[1..], behaviours, busy, room)
      else [m] + Picks(moves[1..], behaviours, busy + {m.source, m.target}, room - 1)
  }

  /** No two requests under way have a member in common. */
  predicate OnePerMember(running: seq<Running>)
  {
    running == []
    || var busy := Busy(running[1..]);
       running[0].source !in busy && running[0].target !in busy && OnePerMember(running[1..])
  }

  /** Each VM in the log was moved when it says or later, and no move is in the future. */
  ghost predicate Recent(log: seq<Event>, moved: map<Vm, real>, clock: real)
  {
    && (forall k | 0 <= k < |log| && log[k].Requested? :: log[k].vm in moved && moved[log[k].vm] >= log[k].at)
    && (forall vm | vm in moved :: moved[vm] <= clock)
  }

  /** What the balancer keeps is what its log says, and the log heeds the pause and the cool-down. */
  ghost predicate Says(log: seq<Event>, failures: nat, paused: bool, moved: map<Vm, real>, clock: real)
  {
    && failures == FailuresOf(log) && paused == PausedBy(log)
    && Recent(log, moved, clock) && HeedsPause(log) && CoolsDown(log)
  }

  /** Moves of a plan: each VM once, and cooled down when the plan was made. */
  ghost predicate Cooled(moves: seq<Move>, moved: map<Vm, real>, now: real)
  {
    && (forall j, k | 0 <= j < k < |moves| :: moves[j].vm != moves[k].vm)
    && (forall k | 0 <= k < |moves| && moves[k].vm in moved :: now - moved[moves[k].vm] >= COOLDOWN_S)
  }

  ghost predicate ReadyFor(vm: Vm, log: seq<Event>, now: real)
  {
    forall k | 0 <= k < |log| && log[k].Requested? && log[k].vm == vm :: now - log[k].at >= COOLDOWN_S
  }

  /** Moves a round may be given: each VM once, and not requested within the cool-down. */
  ghost predicate Ready(moves: seq<Move>, log: seq<Event>, now: real)
  {
    && (forall j, k | 0 <= j < k < |moves| :: moves[j].vm != moves[k].vm)
    && (forall k | 0 <= k < |moves| :: ReadyFor(moves[k].vm, log, now))
  }

  method Choose(x: Context, level: int, c: Cluster, sustained: bool, ghost log: seq<Event>, ghost clock: real,
                ghost later: real)
    returns (moves: seq<Move>)
    requires Valid(c) && Recent(log, x.moved, clock) && x.now <= later
    ensures Chosen(x, level, c, sustained, moves) && Ready(moves, log, later)
  {
    var plan := Recommend(x, level, c);
    moves := if sustained then plan else WithoutGain(plan);
    ChosenIsReady(x, level, c, sustained, plan, moves, log, clock, later);
  }

  class Balancer {
    var running: seq<Running>
    var failures: nat
    var paused: bool
    var moved: map<Vm, real>
    var nextId: nat
    var unbalanced: nat
    ghost var log: seq<Event>
    ghost var clock: real

    ghost predicate Valid()
      reads this
    {
      |running| <= MAX_RUNNING && OnePerMember(running) && Says(log, failures, paused, moved, clock)
    }

    constructor ()
      ensures Valid() && running == [] && moved == map[] && log == [] && clock == 0.0 && unbalanced == 0
    {
      running, failures, paused, moved, nextId, unbalanced := [], 0, false, map[], 0, 0;
      log, clock := [], 0.0;
    }

    /** One request that ended. */
    method Count(e: Event)
      requires Valid() && (e == Succeeded || e == Failed)
      modifies this`failures, this`paused, this`log
      ensures Valid() && log == old(log) + [e]
    {
      LogGrows(log, failures, paused, moved, clock, e, moved, clock);
      log := log + [e];
      if e == Succeeded {
        failures := 0;
      } else {
        failures := failures + 1;
        if failures >= FAILURES_TO_PAUSE {
          paused := true;
        }
      }
    }

    method SettleOne(r: Running, answers: nat -> Answer, now: real, kept: seq<Running>,
                     ghost rest: seq<Running>, ghost still: seq<Running>, ghost settled: seq<Event>)
      returns (more: seq<Running>)
      requires Valid() && rest != [] && rest[0] == r
      requires still == kept + Still(rest, answers, now) && settled == log + Outcomes(rest, answers, now)
      modifies this`failures, this`paused, this`log
      ensures Valid()
      ensures still == more + Still(rest[1..], answers, now) && settled == log + Outcomes(rest[1..], answers, now)
    {
      var outcome := Outcome(r, answers(r.id), now);
      more := kept;
      if outcome.Some? {
        Count(outcome.value);
      } else {
        more := kept + [r];
      }
    }

    method Settle(answers: nat -> Answer, now: real)
      requires Valid()
      modifies this`running, this`failures, this`paused, this`log
      ensures Valid() && running == Still(old(running), answers, now)
      ensures log == old(log) + Outcomes(old(running), answers, now)
    {
      var all, kept := running, [];
      ghost var rest, still, settled := all, Still(all, answers, now), log + Outcomes(all, answers, now);
      for i := 0 to |all|
        invariant Valid() && running == all
        invariant rest == all[i..] && still == kept + Still(rest, answers, now)
        invariant settled == log + Outcomes(rest, answers, now)
      {
        kept := SettleOne(all[i], answers, now, kept, rest, still, settled);
        rest := rest[1..];
      }
      assert rest == [] && kept == still;
      StillIsApart(all, answers, now);
      running := kept;
    }

    method Ask(m: Move, now: real)
      requires Valid() && !paused && |running| < MAX_RUNNING && clock <= now
      requires m.source !in Busy(running) && m.target !in Busy(running) && ReadyFor(m.vm, log, now)
      modifies this`running, this`nextId, this`moved, this`log, this`clock
      ensures Valid() && running == old(running) + [Running(old(nextId), m.vm, m.source, m.target, now)]
      ensures log == old(log) + [Requested(m.vm, m.source, m.target, now)]
      ensures moved == old(moved)[m.vm := now] && clock == now && nextId == old(nextId) + 1
    {
      AskKeeps(running, log, failures, moved, clock, m, nextId, now);
      running := running + [Running(nextId, m.vm, m.source, m.target, now)];
      nextId, moved := nextId + 1, moved[m.vm := now];
      log, clock := log + [Requested(m.vm, m.source, m.target, now)], now;
    }

    /** A round: the requests that ended are settled; then, unless paused, more are asked for. */
    method Round(moves: seq<Move>, behaviours: map<Vm, Behaviour>, answers: nat -> Answer, now: real)
      requires Valid() && clock <= now && Ready(moves, log, now)
      modifies this`running, this`failures, this`paused, this`nextId, this`moved, this`log, this`clock
      ensures Valid() && Rounded(old(log), old(running), old(nextId), moves, behaviours, answers, now, log, running)
    {
      Settle(answers, now);
      StillReady(moves, old(log), old(running), answers, now);
      if !paused {
        AskFor(moves, behaviours, now);
      }
    }

    method AskFor(moves: seq<Move>, behaviours: map<Vm, Behaviour>, now: real)
      requires Valid() && !paused && clock <= now && Ready(moves, log, now)
      modifies this`running, this`nextId, this`moved, this`log, this`clock
      ensures Valid()
      ensures var picks := Picks(moves, behaviours, Busy(old(running)), MAX_RUNNING - |old(running)|);
        log == old(log) + Requests(picks, now) && running == old(running) + Asked(picks, old(nextId), now)
    {
      var busy, room := Busy(running), MAX_RUNNING - |running|;
      ghost var rest, picks := moves, Picks(moves, behaviours, busy, room);
      ghost var goal, asked := log + Requests(picks, now), running + Asked(picks, nextId, now);
      for i := 0 to |moves|
        invariant rest == moves[i..] && Asking(rest, behaviours, busy, room, now, goal, asked)
      {
        if room <= 0 {
          break;
        }
        busy, room := Consider(moves[i], behaviours, busy, room, now, rest, goal, asked);
        rest := rest[1..];
      }
      assert Picks(rest, behaviours, busy, room) == [];
    }

    /** The moves in `rest` are still to be considered; in the end the log is `goal` and `asked` are under way. */
    ghost predicate Asking(rest: seq<Move>, behaviours: map<Vm, Behaviour>, busy: set<Node>, room: int, now: real,
                           goal: seq<Event>, asked: seq<Running>)
      reads this
    {
      && Valid() && !paused && clock <= now && Ready(rest, log, now)
      && busy == Busy(running) && room == MAX_RUNNING - |running|
      && goal == log + Requests(Picks(rest, behaviours, busy, room), now)
      && asked == running + Asked(Picks(rest, behaviours, busy, room), nextId, now)
    }

    method Consider(m: Move, behaviours: map<Vm, Behaviour>, busy: set<Node>, room: int, now: real,
                    ghost rest: seq<Move>, ghost goal: seq<Event>, ghost asked: seq<Running>)
      returns (busyNow: set<Node>, roomNow: int)
      requires Asking(rest, behaviours, busy, room, now, goal, asked) && room > 0 && rest != [] && rest[0] == m
      modifies this`running, this`nextId, this`moved, this`log, this`clock
      ensures Asking(rest[1..], behaviours, busyNow, roomNow, now, goal, asked)
    {
      busyNow, roomNow := busy, room;
      ReadyAfter(rest, log, now);
      if (m.vm in behaviours && behaviours[m.vm] == Manual) || m.source in busy || m.target in busy {
        return;
      }
      ApartWith(running, Running(nextId, m.vm, m.source, m.target, now));
      PickFirst(rest, behaviours, busy, room, nextId, now);
      Ask(m, now);
      busyNow := busy + {m.source, m.target};
      roomNow := room - 1;
    }

    /** The moves for the next round: a plan on the loads as they are, all of it once the load was uneven long enough,
    and until then the rule fixes alone. They are ready for a round at any `later` time, as long as the log stays what
    it is: VMs moved by hand in between do not matter. Switched off, or outside a cluster, there are none and the count
    begins anew. */
    method Evaluate(on: bool, x: Context, level: int, c: Cluster, ghost later: real) returns (moves: seq<Move>)
      requires ClusterLoad.Valid(c) && x.moved == moved && Recent(log, moved, clock) && x.now <= later
      modifies this`unbalanced
      ensures Known(c, c.order)
      ensures unbalanced ==
        if on && (|| (exists n | n in c.nodes :: c.nodes[n].score >= HOT_PCT)
                  || (Threshold(level).Some? && Spread(c) >= Threshold(level).value))
        then old(unbalanced) + 1 else 0
      ensures if on then Chosen(x, level, c, unbalanced >= SUSTAINED, moves) else moves == []
      ensures Ready(moves, log, later)
    {
      KnownOrder(c);
      if !on {
        unbalanced := 0;
        return [];
      }
      unbalanced := if Uneven(c, Threshold(level)) then unbalanced + 1 else 0;
      moves := Choose(x, level, c, unbalanced >= SUSTAINED, log, clock, later);
    }

    /** An administrator saved the settings. */
    method Resume()
      requires Valid()
      modifies this`failures, this`paused, this`log
      ensures Valid() && !paused && log == old(log) + [Resumed]
    {
      LogGrows(log, failures, paused, moved, clock, Resumed, moved, clock);
      log := log + [Resumed];
      paused, failures := false, 0;
    }

    /** An administrator's own move: the VM is left alone for as long. */
    method MovedByHand(vm: Vm, now: real)
      requires Valid() && clock <= now
      modifies this`moved, this`clock
      ensures Valid() && moved == old(moved)[vm := now] && clock == now
    {
      moved := moved[vm := now];
      clock := now;
    }
  }

  function Requests(picks: seq<Move>, now: real): seq<Event>
  {
    if picks == [] then []
    else [Requested(picks[0].vm, picks[0].source, picks[0].target, now)] + Requests(picks[1..], now)
  }

  function Asked(picks: seq<Move>, id: nat, now: real): seq<Running>
  {
    if picks == [] then []
    else [Running(id, picks[0].vm, picks[0].source, picks[0].target, now)] + Asked(picks[1..], id + 1, now)
  }

  /** What a round makes of the log and of the requests under way. */
  ghost predicate Rounded(before: seq<Event>, had: seq<Running>, id: nat, moves: seq<Move>,
                          behaviours: map<Vm, Behaviour>, answers: nat -> Answer, now: real,
                          log: seq<Event>, running: seq<Running>)
  {
    var settled, still := before + Outcomes(had, answers, now), Still(had, answers, now);
    var picks := if PausedBy(settled) then [] else Picks(moves, behaviours, Busy(still), MAX_RUNNING - |still|);
    log == settled + Requests(picks, now) && running == still + Asked(picks, id, now)
  }

  /** Hot somewhere, or spread by the threshold. */
  predicate Uneven(c: Cluster, threshold: Option<real>)
    requires Known(c, c.order)
  {
    || (exists n | n in c.nodes :: c.nodes[n].score >= HOT_PCT)
    || (threshold.Some? && Spread(c) >= threshold.value)
  }

  function WithoutGain(moves: seq<Move>): seq<Move>
  {
    if moves == [] then []
    else (if moves[0].gain.None? then [moves[0]] else []) + WithoutGain(moves[1..])
  }

  /** A plan of the cluster, or the rule fixes of one. */
  ghost predicate Chosen(x: Context, level: int, c: Cluster, sustained: bool, moves: seq<Move>)
  {
    exists plan, states, fixes ::
      && PlanOf(x, level, c, plan, states, fixes)
      && moves == if sustained then plan else plan[..fixes]
  }

  // ---- Lemmas ----

  lemma ReadyAfter(moves: seq<Move>, log: seq<Event>, now: real)
    requires moves != [] && Ready(moves, log, now)
    ensures ReadyFor(moves[0].vm, log, now) && Ready(moves[1..], log, now)
    ensures forall e: Event | e.Requested? && e.vm == moves[0].vm :: Ready(moves[1..], log + [e], now)
  {
    forall e: Event, k | e.Requested? && e.vm == moves[0].vm && 0 <= k < |moves[1..]|
      ensures ReadyFor(moves[1..][k].vm, log + [e], now)
    {
      assert moves[1..][k] == moves[k + 1] && ReadyFor(moves[k + 1].vm, log, now);
    }
  }

  lemma {:induction false} OutcomesRequestNothing(running: seq<Running>, answers: nat -> Answer, now: real)
    ensures forall k | 0 <= k < |Outcomes(running, answers, now)| :: !Outcomes(running, answers, now)[k].Requested?
  {
    if running != [] {
      OutcomesRequestNothing(running[1..], answers, now);
    }
  }

  lemma StillReady(moves: seq<Move>, log: seq<Event>, running: seq<Running>, answers: nat -> Answer, now: real)
    requires Ready(moves, log, now)
    ensures Ready(moves, log + Outcomes(running, answers, now), now)
  {
    OutcomesRequestNothing(running, answers, now);
    forall k | 0 <= k < |moves|
      ensures ReadyFor(moves[k].vm, log + Outcomes(running, answers, now), now)
    {
      assert ReadyFor(moves[k].vm, log, now);
    }
  }

  lemma PickFirst(moves: seq<Move>, behaviours: map<Vm, Behaviour>, busy: set<Node>, room: int, id: nat, now: real)
    requires moves != [] && room > 0
    requires var m := moves[0];
      !((m.vm in behaviours && behaviours[m.vm] == Manual) || m.source in busy || m.target in busy)
    ensures var m, picks := moves[0], Picks(moves, behaviours, busy, room);
      var later := Picks(moves[1..], behaviours, busy + {m.source, m.target}, room - 1);
      && Requests(picks, now) == [Requested(m.vm, m.source, m.target, now)] + Requests(later, now)
      && Asked(picks, id, now) == [Running(id, m.vm, m.source, m.target, now)] + Asked(later, id + 1, now)
  {
    var later := Picks(moves[1..], behaviours, busy + {moves[0].source, moves[0].target}, room - 1);
    assert ([moves[0]] + later)[1..] == later;
  }

  lemma LastEvent(log: seq<Event>, e: Event)
    ensures (log + [e])[..|log|] == log
    ensures FailuresOf(log + [e]) == FailuresAfter(FailuresOf(log), e)
    ensures PausedBy(log + [e]) == PausedAfter(PausedBy(log), FailuresOf(log), e)
  {
    assert (log + [e])[..|log|] == log;
  }

  lemma LogHeedsPause(log: seq<Event>, e: Event)
    requires HeedsPause(log) && (e.Requested? ==> !PausedBy(log))
    ensures HeedsPause(log + [e])
  {
    var more := log + [e];
    forall k: nat
      ensures HeedsPauseAt(more, k)
    {
      if k < |log| {
        assert more[..k] == log[..k] && HeedsPauseAt(log, k);
      } else if k == |log| {
        assert more[..k] == log;
      }
    }
  }

  lemma LogCoolsDown(log: seq<Event>, e: Event)
    requires CoolsDown(log) && (e.Requested? ==> ReadyFor(e.vm, log, e.at))
    ensures CoolsDown(log + [e])
  {
    forall j: nat, k: nat
      ensures CoolsDownAt(log + [e], j, k)
    {
      assert CoolsDownAt(log, j, k);
    }
  }

  /** What the log says with one event more. */
  lemma LogGrows(log: seq<Event>, failures: nat, paused: bool, before: map<Vm, real>, clock: real, e: Event,
                 moved: map<Vm, real>, now: real)
    requires Says(log, failures, paused, before, clock)
    requires e.Requested? ==> !paused && ReadyFor(e.vm, log, e.at)
    requires if e.Requested? then clock <= now == e.at && moved == before[e.vm := now]
             else moved == before && now == clock
    ensures Says(log + [e], FailuresAfter(failures, e), PausedAfter(paused, failures, e), moved, now)
  {
    LastEvent(log, e);
    LogHeedsPause(log, e);
    LogCoolsDown(log, e);
  }

  lemma AskKeeps(running: seq<Running>, log: seq<Event>, failures: nat, moved: map<Vm, real>, clock: real, m: Move,
                 id: nat, now: real)
    requires OnePerMember(running) && m.source !in Busy(running) && m.target !in Busy(running)
    requires Says(log, failures, false, moved, clock) && clock <= now && ReadyFor(m.vm, log, now)
    ensures OnePerMember(running + [Running(id, m.vm, m.source, m.target, now)])
    ensures Says(log + [Requested(m.vm, m.source, m.target, now)], failures, false, moved[m.vm := now], now)
  {
    LogGrows(log, failures, false, moved, clock, Requested(m.vm, m.source, m.target, now), moved[m.vm := now], now);
    ApartWith(running, Running(id, m.vm, m.source, m.target, now));
  }

  lemma {:induction false} BusyOfConcat(a: seq<Running>, b: seq<Running>)
    ensures Busy(a + b) == Busy(a) + Busy(b)
  {
    if a == [] {
      assert a + b == b;
    } else {
      assert (a + b)[1..] == a[1..] + b;
      BusyOfConcat(a[1..], b);
    }
  }

  lemma {:induction false} BusyMeans(running: seq<Running>, n: Node)
    ensures n in Busy(running) <==> exists i | 0 <= i < |running| :: n == running[i].source || n == running[i].target
  {
    if running != [] {
      BusyMeans(running[1..], n);
      if n in Busy(running[1..]) {
        var i :| 0 <= i < |running[1..]| && (n == running[1..][i].source || n == running[1..][i].target);
        assert running[i + 1] == running[1..][i];
      }
      if i :| 0 <= i < |running| && (n == running[i].source || n == running[i].target) {
        assert i > 0 ==> running[i] == running[1..][i - 1];
      }
    }
  }

  ghost predicate Share(a: Running, b: Running)
  {
    {a.source, a.target} * {b.source, b.target} != {}
  }

  /** No two requests under way share a source or target member. */
  lemma {:induction false} NoMemberShared(running: seq<Running>, i: nat, j: nat)
    requires OnePerMember(running) && i < j < |running|
    ensures !Share(running[i], running[j])
  {
    if i == 0 {
      assert running[1..][j - 1] == running[j];
      BusyMeans(running[1..], running[0].source);
      BusyMeans(running[1..], running[0].target);
    } else {
      NoMemberShared(running[1..], i - 1, j - 1);
    }
  }

  lemma {:induction false} ApartWith(running: seq<Running>, r: Running)
    requires OnePerMember(running) && r.source !in Busy(running) && r.target !in Busy(running)
    ensures OnePerMember(running + [r]) && Busy(running + [r]) == Busy(running) + {r.source, r.target}
  {
    BusyOfConcat(running, [r]);
    if running != [] {
      assert (running + [r])[1..] == running[1..] + [r];
      ApartWith(running[1..], r);
    }
  }

  lemma {:induction false} StillIsApart(running: seq<Running>, answers: nat -> Answer, now: real)
    requires OnePerMember(running)
    ensures var still := Still(running, answers, now);
      OnePerMember(still) && |still| <= |running| && Busy(still) <= Busy(running)
  {
    if running != [] {
      StillIsApart(running[1..], answers, now);
      var rest := Still(running[1..], answers, now);
      assert ([running[0]] + rest)[1..] == rest;
    }
  }

  // ---- Over every run ----

  lemma {:induction false} PauseLasts(log: seq<Event>, i: nat, j: nat)
    requires i <= j <= |log| && PausedBy(log[..i]) && forall r | i <= r < j :: !log[r].Resumed?
    ensures PausedBy(log[..j])
    decreases j
  {
    if i < j {
      PauseLasts(log, i, j - 1);
      assert log[..j][..j - 1] == log[..j - 1] && log[..j][j - 1] == log[j - 1];
    }
  }

  lemma {:induction false} FailuresAddUp(log: seq<Event>, i: nat, j: nat)
    requires i < j <= |log| && log[i] == Failed && forall r | i < r < j :: !log[r].Succeeded? && !log[r].Resumed?
    ensures FailuresOf(log[..j]) >= 1
    decreases j
  {
    assert log[..j][..j - 1] == log[..j - 1] && log[..j][j - 1] == log[j - 1];
    if i < j - 1 {
      FailuresAddUp(log, i, j - 1);
    }
  }

  /** After two failures with no success and no resume between them, nothing is requested before a resume. */
  lemma NothingUntilResumed(log: seq<Event>, i: nat, j: nat, k: nat)
    requires HeedsPause(log) && i < j < k < |log|
    requires log[i] == Failed && log[j] == Failed && forall r | i < r < j :: !log[r].Succeeded? && !log[r].Resumed?
    requires log[k].Requested?
    ensures exists r :: j < r < k && log[r].Resumed?
  {
    FailuresAddUp(log, i, j);
    assert log[..j + 1][..j] == log[..j] && log[..j + 1][j] == log[j];
    assert HeedsPauseAt(log, k);
    if forall r | j < r < k :: !log[r].Resumed? {
      PauseLasts(log, j + 1, k);
    }
  }

  // ---- What the answers come to ----

  /** The request failed: its row says so or is gone, or no member took it up in time. */
  ghost predicate FailedNow(r: Running, answers: nat -> Answer, now: real)
  {
    var answer := answers(r.id);
    answer == Fails || answer == Gone || (answer == Pending && r.at + PICKUP_S <= now)
  }

  /** The request is still under way: a member carries it out, or may yet take it up. */
  ghost predicate UnderWay(r: Running, answers: nat -> Answer, now: real)
  {
    var answer := answers(r.id);
    answer == Started || (answer == Pending && now < r.at + PICKUP_S)
  }

  /** What one request makes of a round: it stays and says nothing, or it goes and its outcome is counted. */
  lemma OneRequest(r: Running, answers: nat -> Answer, now: real)
    ensures Still([r], answers, now) == if UnderWay(r, answers, now) then [r] else []
    ensures Outcomes([r], answers, now) ==
      if UnderWay(r, answers, now) then [] else if FailedNow(r, answers, now) then [Failed] else [Succeeded]
    ensures !UnderWay(r, answers, now) && !FailedNow(r, answers, now) <==> answers(r.id) == Succeeds
  {
    assert [r][1..] == [];
  }

  lemma {:induction false} RequestsInTurn(a: seq<Running>, b: seq<Running>, answers: nat -> Answer, now: real)
    ensures Still(a + b, answers, now) == Still(a, answers, now) + Still(b, answers, now)
    ensures Outcomes(a + b, answers, now) == Outcomes(a, answers, now) + Outcomes(b, answers, now)
  {
    if a == [] {
      assert a + b == b;
    } else {
      assert (a + b)[1..] == a[1..] + b;
      RequestsInTurn(a[1..], b, answers, now);
    }
  }

  lemma {:induction false} NoSuccess(running: seq<Running>, answers: nat -> Answer, now: real)
    ensures forall k | 0 <= k < |Outcomes(running, answers, now)| :: !Outcomes(running, answers, now)[k].Resumed?
    ensures (forall r | r in running :: answers(r.id) != Succeeds) ==>
      forall k | 0 <= k < |Outcomes(running, answers, now)| :: !Outcomes(running, answers, now)[k].Succeeded?
  {
    if running != [] {
      OneRequest(running[0], answers, now);
      assert running == [running[0]] + running[1..];
      RequestsInTurn([running[0]], running[1..], answers, now);
      NoSuccess(running[1..], answers, now);
    }
  }

  /** Two failures, no success and no resume between them. */
  ghost predicate InARow(log: seq<Event>, i: nat, j: nat)
  {
    && i < j < |log| && log[i] == Failed && log[j] == Failed
    && forall r | i < r < j :: !log[r].Succeeded? && !log[r].Resumed?
  }

  ghost predicate NotResumedSince(log: seq<Event>, j: nat)
  {
    forall r | j < r < |log| :: !log[r].Resumed?
  }

  ghost predicate Standing(log: seq<Event>, i: nat)
  {
    i < |log| && log[i] == Failed && forall r | i < r < |log| :: !log[r].Succeeded? && !log[r].Resumed?
  }

  lemma {:induction false} SomeFailureStands(log: seq<Event>)
    ensures FailuresOf(log) >= 1 <==> exists i :: Standing(log, i)
  {
    if log != [] {
      var n := |log| - 1;
      SomeFailureStands(log[..n]);
      if log[n] == Failed {
        assert Standing(log, n);
      }
      if i: nat :| Standing(log[..n], i) {
        assert log[n].Requested? ==> Standing(log, i);
      }
      if i: nat :| Standing(log, i) {
        assert i < n ==> Standing(log[..n], i);
      }
    }
  }

  /** Automatic mode is paused exactly when two failures came in a row and nobody resumed it since. */
  lemma {:induction false} PausedIff(log: seq<Event>)
    ensures PausedBy(log) <==> exists i, j :: InARow(log, i, j) && NotResumedSince(log, j)
  {
    if log != [] {
      var n := |log| - 1;
      var before := log[..n];
      PausedIff(before);
      SomeFailureStands(before);
      if i: nat, j: nat :| InARow(before, i, j) && NotResumedSince(before, j) {
        assert InARow(log, i, j) && (!log[n].Resumed? ==> NotResumedSince(log, j));
      }
      if i: nat :| Standing(before, i) {
        assert log[n] == Failed ==> InARow(log, i, n) && NotResumedSince(log, n);
      }
      if i: nat, j: nat :| InARow(log, i, j) && NotResumedSince(log, j) {
        if j < n {
          assert InARow(before, i, j) && NotResumedSince(before, j);
        } else {
          assert Standing(before, i);
        }
      }
    }
  }

  /** Two requests that failed, settled with no success between them, pause automatic mode. */
  lemma TwoFailuresPause(
    log: seq<Event>, first: seq<Running>, a: Running, between: seq<Running>, b: Running, last: seq<Running>,
    answers: nat -> Answer, now: real)
    requires FailedNow(a, answers, now) && FailedNow(b, answers, now)
    requires forall r | r in between :: answers(r.id) != Succeeds
    ensures PausedBy(log + Outcomes(first + [a] + between + [b] + last, answers, now))
  {
    OutcomesAround(first, a, between, b, last, answers, now);
    NoSuccess(between, answers, now);
    NoSuccess(last, answers, now);
    RowOfFailures(log, Outcomes(first, answers, now), Outcomes(between, answers, now), Outcomes(last, answers, now));
  }

  lemma OutcomesAround(
    first: seq<Running>, a: Running, between: seq<Running>, b: Running, last: seq<Running>, answers: nat -> Answer,
    now: real)
    requires FailedNow(a, answers, now) && FailedNow(b, answers, now)
    ensures Outcomes(first + [a] + between + [b] + last, answers, now) ==
      Outcomes(first, answers, now) + [Failed] + Outcomes(between, answers, now) + [Failed]
      + Outcomes(last, answers, now)
  {
    RequestsInTurn(first + [a] + between + [b], last, answers, now);
    RequestsInTurn(first + [a] + between, [b], answers, now);
    RequestsInTurn(first + [a], between, answers, now);
    RequestsInTurn(first, [a], answers, now);
    OneRequest(a, answers, now);
    OneRequest(b, answers, now);
  }

  lemma RowOfFailures(log: seq<Event>, before: seq<Event>, between: seq<Event>, after: seq<Event>)
    requires forall k | 0 <= k < |between| :: !between[k].Succeeded? && !between[k].Resumed?
    requires forall k | 0 <= k < |after| :: !after[k].Resumed?
    ensures PausedBy(log + (before + [Failed] + between + [Failed] + after))
  {
    var all := log + (before + [Failed] + between + [Failed] + after);
    PausedIff(all);
    var i := |log| + |before|;
    assert InARow(all, i, i + 1 + |between|) && NotResumedSince(all, i + 1 + |between|);
  }

  /** And the round that settles them asks for nothing. */
  lemma NothingAskedAfterTwoFailures(
    before: seq<Event>, had: seq<Running>, id: nat, moves: seq<Move>, behaviours: map<Vm, Behaviour>,
    answers: nat -> Answer, now: real, log: seq<Event>, running: seq<Running>, i: nat, j: nat)
    requires Rounded(before, had, id, moves, behaviours, answers, now, log, running) && i < j < |had|
    requires FailedNow(had[i], answers, now) && FailedNow(had[j], answers, now)
    requires forall k | i < k < j :: answers(had[k].id) != Succeeds
    ensures PausedBy(log) && log == before + Outcomes(had, answers, now) && running == Still(had, answers, now)
  {
    FailuresAmongRequests(before, had, answers, now, i, j);
    assert before + Outcomes(had, answers, now) + [] == before + Outcomes(had, answers, now);
    assert Still(had, answers, now) + [] == Still(had, answers, now);
  }

  lemma FailuresAmongRequests(
    log: seq<Event>, had: seq<Running>, answers: nat -> Answer, now: real, i: nat, j: nat)
    requires i < j < |had| && FailedNow(had[i], answers, now) && FailedNow(had[j], answers, now)
    requires forall k | i < k < j :: answers(had[k].id) != Succeeds
    ensures PausedBy(log + Outcomes(had, answers, now))
  {
    SplitAtTwo(had, i, j);
    forall r | r in had[i + 1..j]
      ensures answers(r.id) != Succeeds
    {
      var k :| 0 <= k < j - i - 1 && had[i + 1..j][k] == r;
      assert had[i + 1 + k] == r;
    }
    TwoFailuresPause(log, had[..i], had[i], had[i + 1..j], had[j], had[j + 1..], answers, now);
  }

  lemma SplitAtTwo(had: seq<Running>, i: nat, j: nat)
    requires i < j < |had|
    ensures had == had[..i] + [had[i]] + had[i + 1..j] + [had[j]] + had[j + 1..]
  {
  }

  /** A plan's moves are fit for a round: so are its rule fixes alone. */
  lemma PlanIsCooled(x: Context, threshold: Option<real>, states: seq<Snapshot>, moves: seq<Move>, fixes: nat)
    requires IsPlan(x, threshold, states, moves, fixes)
    ensures Cooled(moves, x.moved, x.now) && Cooled(moves[..fixes], x.moved, x.now)
  {
    forall j, k | 0 <= j < k < |moves|
      ensures moves[j].vm != moves[k].vm
    {
      NoVmTwice(x, threshold, states, moves, fixes, j, k);
    }
    forall k | 0 <= k < |moves| && moves[k].vm in x.moved
      ensures x.now - x.moved[moves[k].vm] >= COOLDOWN_S
    {
      assert if k < fixes then FixStepAt(x, states, moves, k) else LoadStepAt(x, threshold, states, moves, k);
    }
  }

  /** Moves cooled down when planned are ready for a round, whatever was moved by hand since. */
  lemma CooledIsReady(
    moves: seq<Move>, planned: map<Vm, real>, plannedAt: real, log: seq<Event>, clock: real, now: real)
    requires Cooled(moves, planned, plannedAt) && Recent(log, planned, clock) && plannedAt <= now
    ensures Ready(moves, log, now)
  {
  }

  lemma {:induction false} FixesHaveNoGain(moves: seq<Move>, fixes: nat)
    requires fixes <= |moves|
    requires forall k | 0 <= k < |moves| :: moves[k].gain.None? <==> k < fixes
    ensures WithoutGain(moves) == moves[..fixes]
    decreases |moves|
  {
    if moves != [] {
      FixesHaveNoGain(moves[1..], if fixes == 0 then 0 else fixes - 1);
      if fixes > 0 {
        assert moves[..fixes] == [moves[0]] + moves[1..][..fixes - 1];
      }
    }
  }

  lemma ChosenIsReady(x: Context, level: int, c: Cluster, sustained: bool, plan: seq<Move>, moves: seq<Move>,
                      log: seq<Event>, clock: real, later: real)
    requires exists states, fixes :: PlanOf(x, level, c, plan, states, fixes)
    requires moves == if sustained then plan else WithoutGain(plan)
    requires Recent(log, x.moved, clock) && x.now <= later
    ensures Chosen(x, level, c, sustained, moves) && Ready(moves, log, later)
  {
    var states, fixes :| PlanOf(x, level, c, plan, states, fixes);
    forall k | 0 <= k < |plan|
      ensures plan[k].gain.None? <==> k < fixes
    {
      assert if k < fixes then FixStepAt(x, states, plan, k) else LoadStepAt(x, Threshold(level), states, plan, k);
    }
    FixesHaveNoGain(plan, fixes);
    PlanIsCooled(x, Threshold(level), states, plan, fixes);
    CooledIsReady(moves, x.moved, x.now, log, clock, later);
  }
}
