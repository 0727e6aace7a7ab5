/**
The leader's lease: services of several nodes take and renew one lock in their node's name, and count themselves leaders
for a little less than the lock lasts. Time is that of the lock service; a service reads its own clock, which runs at
the same rate.
*/
module LeaderLease {
  import opened Wrappers

  type Node = int

  /** A service of a node, such as its API or its scheduler: each keeps the lead of its own. */
  datatype Service = Service(node: Node, name: int)

  const TTL_S := 60.0
  const RENEW_S := 15.0

  /** What asking for the lock came to: held, held by another, or no answer of use. */
  datatype Answer = Held | Locked | Error

  /** When a service stops counting itself leader, as it sets it on its clock once the answer is in. */
  function LeadUntil(answer: Answer, clock: real): real
  {
    if answer == Held then clock + TTL_S - 2.0 * RENEW_S else 0.0
  }

  /** One service's own part. */
  class Lead {
    var leadingUntil: real

    constructor ()
      ensures leadingUntil == 0.0
    {
      leadingUntil := 0.0;
    }

    predicate IsLeader(clock: real)
      reads this
    {
      clock < leadingUntil
    }

    /** One renewal: `answer` and `clock` are read once the lock service has answered. Rounds that stopped are not
        renewed. */
    method Renew(healthy: bool, answer: Answer, clock: real) returns (held: bool)
      modifies this
      ensures held == (healthy && answer == Held)
      ensures leadingUntil == LeadUntil(if healthy then answer else Error, clock)
      ensures forall later :: later >= 0.0 ==> IsLeader(later) == (held && later < clock + TTL_S - 2.0 * RENEW_S)
    {
      if !healthy {
        leadingUntil := 0.0;
        return false;
      }
      held := answer == Held;
      leadingUntil := if held then clock + TTL_S - 2.0 * RENEW_S else 0.0;
    }
  }

  // ---- The protocol ----

  /** The lock, and when its holder last took it. */
  datatype Lock = Lock(owner: Node, at: real)

  /** A request on its way: not yet at the lock service, or its answer on the way back. */
  datatype Flight = Asked | Answered(answer: Answer, at: real)

  /** `strays`: the requests given up on that have not reached the lock service yet. */
  datatype State = State(
    time: real,
    lock: Option<Lock>,
    flights: map<Service, Flight>,
    until: map<Service, real>,
    strays: multiset<Service>)

  datatype Step =
    | Ask(s: Service)
    | Serve(s: Service)  // the request reaches the lock service
    | Receive(s: Service)  // its answer reaches the service
    | Give(s: Service)  // an error, a time-out, rounds that stopped, or a restart: no answer is used
    | ServeStray(s: Service)  // a request given up on reaches the lock service all the same

  /** A service's clock, and the time within which an answer is received. */
  datatype Setting = Setting(offset: Service -> real, window: real)

  function Clock(c: Setting, s: Service, time: real): real
  {
    time + c.offset(s)
  }

  predicate MayTake(lock: Option<Lock>, node: Node, time: real)
  {
    lock.None? || lock.value.owner == node || time - lock.value.at >= TTL_S
  }

  predicate Enabled(c: Setting, st: State, step: Step, time: real)
  {
    && st.time <= time && Clock(c, step.s, time) >= 0.0
    && match step
       case Ask(s) => s !in st.flights
       case Serve(s) => s in st.flights && st.flights[s] == Asked
       case Receive(s) => s in st.flights && st.flights[s].Answered? && time - st.flights[s].at <= c.window
       case Give(s) => true
       case ServeStray(s) => s in st.strays
  }

  function Apply(c: Setting, st: State, step: Step, time: real): State
    requires Enabled(c, st, step, time)
  {
    var now := st.(time := time);
    match step
    case Ask(s) => now.(flights := st.flights[s := Asked])
    case Serve(s) =>
      if MayTake(st.lock, s.node, time)
      then now.(lock := Some(Lock(s.node, time)), flights := st.flights[s := Answered(Held, time)])
      else now.(flights := st.flights[s := Answered(Locked, time)])
    case Receive(s) =>
      now.(flights := st.flights - {s},
           until := st.until[s := LeadUntil(st.flights[s].answer, Clock(c, s, time))])
    case Give(s) =>
      now.(flights := st.flights - {s}, until := st.until[s := LeadUntil(Error, Clock(c, s, time))],
           strays := if s in st.flights && st.flights[s] == Asked then st.strays + multiset{s} else st.strays)
    case ServeStray(s) =>
      now.(lock := if MayTake(st.lock, s.node, time) then Some(Lock(s.node, time)) else st.lock,
           strays := st.strays - multiset{s})
  }

  const START := State(0.0, None, map[], map[], multiset{})

  datatype Timed = Timed(step: Step, time: real)

  ghost predicate Runs(c: Setting, st: State, steps: seq<Timed>, end: State)
    decreases |steps|
  {
    if steps == [] then st == end
    else
      && Enabled(c, st, steps[0].step, steps[0].time)
      && Runs(c, Apply(c, st, steps[0].step, steps[0].time), steps[1..], end)
  }

  /** The service counts itself leader at `time`. */
  predicate Leads(c: Setting, st: State, s: Service, time: real)
  {
    s in st.until && Clock(c, s, time) < st.until[s]
  }

  // ---- The invariant ----

  /** The node's lock is taken at `since` or later. */
  ghost predicate HoldsSince(st: State, node: Node, since: real)
  {
    st.lock.Some? && st.lock.value.owner == node && st.lock.value.at >= since
  }

  /** A Held answer on its way: until the lock could have gone to another, it is still the node's. */
  ghost predicate AnswerBacked(st: State, s: Service)
  {
    s in st.flights && st.flights[s].Answered? && st.flights[s].answer == Held && st.time < st.flights[s].at + TTL_S ==>
      HoldsSince(st, s.node, st.flights[s].at)
  }

  /** A service that leads: the lock is its node's for as long as it will lead. */
  ghost predicate LeadBacked(c: Setting, st: State, s: Service)
  {
    Leads(c, st, s, st.time) ==> HoldsSince(st, s.node, st.until[s] - c.offset(s) - TTL_S)
  }

  ghost predicate Invariant(c: Setting, st: State)
  {
    && (st.lock.Some? ==> st.lock.value.at <= st.time)
    && (forall s :: AnswerBacked(st, s)) && (forall s :: LeadBacked(c, st, s))
  }

  lemma AnswersStayBacked(c: Setting, st: State, step: Step, time: real, s: Service)
    requires Invariant(c, st) && Enabled(c, st, step, time)
    ensures AnswerBacked(Apply(c, st, step, time), s)
  {
    assert AnswerBacked(st, s);
  }

  lemma LeadsStayBacked(c: Setting, st: State, step: Step, time: real, s: Service)
    requires Invariant(c, st) && Enabled(c, st, step, time) && c.window <= 2.0 * RENEW_S
    ensures LeadBacked(c, Apply(c, st, step, time), s)
  {
    assert LeadBacked(c, st, s) && AnswerBacked(st, s);
  }

  lemma StepKeepsInvariant(c: Setting, st: State, step: Step, time: real)
    requires Invariant(c, st) && Enabled(c, st, step, time) && c.window <= 2.0 * RENEW_S
    ensures Invariant(c, Apply(c, st, step, time))
  {
    forall s
      ensures AnswerBacked(Apply(c, st, step, time), s) && LeadBacked(c, Apply(c, st, step, time), s)
    {
      AnswersStayBacked(c, st, step, time, s);
      LeadsStayBacked(c, st, step, time, s);
    }
  }

  lemma {:induction false} RunKeepsInvariant(c: Setting, st: State, steps: seq<Timed>, end: State)
    requires Invariant(c, st) && Runs(c, st, steps, end) && c.window <= 2.0 * RENEW_S
    ensures Invariant(c, end)
    decreases |steps|
  {
    if steps != [] {
      StepKeepsInvariant(c, st, steps[0].step, steps[0].time);
      RunKeepsInvariant(c, Apply(c, st, steps[0].step, steps[0].time), steps[1..], end);
    }
  }

  /**
  At no instant of any run do services of two nodes both count themselves leaders, whatever requests hang, fail, are
  never answered or reach the lock service after they were given up on, when every answer that is used comes within
  2 RENEW_S.
  */
  lemma OneNodeLeads(c: Setting, steps: seq<Timed>, end: State, time: real, a: Service, b: Service)
    requires Runs(c, START, steps, end) && c.window <= 2.0 * RENEW_S
    requires end.time <= time && Leads(c, end, a, time) && Leads(c, end, b, time)
    ensures a.node == b.node
  {
    assert Invariant(c, START);
    RunKeepsInvariant(c, START, steps, end);
    assert LeadBacked(c, end, a) && LeadBacked(c, end, b);
  }

  /** A request given up on can still take the lock for its node, once; the service does not lead for it. */
  lemma StrayTakesTheLock(c: Setting, asked: real, givenUp: real, served: real) returns (end: State)
    requires 0.0 <= asked <= givenUp <= served && c.offset(FIRST) >= 0.0
    ensures var steps := [Timed(Ask(FIRST), asked), Timed(Give(FIRST), givenUp), Timed(ServeStray(FIRST), served)];
      Runs(c, START, steps, end)
    ensures end.lock == Some(Lock(FIRST.node, served)) && end.strays == multiset{} && !Leads(c, end, FIRST, served)
  {
    var s1 := Apply(c, START, Ask(FIRST), asked);
    var s2 := Apply(c, s1, Give(FIRST), givenUp);
    assert s2.strays == multiset{FIRST};
    var s3 := Apply(c, s2, ServeStray(FIRST), served);
    assert s3.strays == multiset{};
    var steps := [Timed(Ask(FIRST), asked), Timed(Give(FIRST), givenUp), Timed(ServeStray(FIRST), served)];
    assert Runs(c, s3, steps[1..][1..][1..], s3);
    assert Runs(c, s2, steps[1..][1..], s3);
    assert Runs(c, s1, steps[1..], s3);
    end := s3;
  }

  // ---- The window is the margin ----

  ghost predicate TwoLeadersPossible(c: Setting)
  {
    exists steps, end, time, a, b :: TwoLead(c, steps, end, time, a, b)
  }

  ghost predicate TwoLead(c: Setting, steps: seq<Timed>, end: State, time: real, a: Service, b: Service)
  {
    && Runs(c, START, steps, end) && end.time <= time
    && Leads(c, end, a, time) && Leads(c, end, b, time) && a.node != b.node
  }

  const FIRST := Service(1, 0)
  const SECOND := Service(2, 0)

  /** An answer that takes longer: the second node is given the lock while the first still counts on it. */
  lemma LateAnswer(c: Setting)
    requires c.window > 2.0 * RENEW_S && c.offset(FIRST) >= 0.0 && c.offset(SECOND) >= 0.0
    ensures TwoLeadersPossible(c)
  {
    var late := if c.window < TTL_S then c.window else 50.0;
    var s1 := Apply(c, START, Ask(FIRST), 0.0);
    var s2 := Apply(c, s1, Serve(FIRST), 0.0);
    var s3 := Apply(c, s2, Receive(FIRST), late);
    var s4 := Apply(c, s3, Ask(SECOND), TTL_S);
    var s5 := Apply(c, s4, Serve(SECOND), TTL_S);
    var s6 := Apply(c, s5, Receive(SECOND), TTL_S);
    var tail := [Timed(Ask(SECOND), TTL_S), Timed(Serve(SECOND), TTL_S), Timed(Receive(SECOND), TTL_S)];
    assert Runs(c, s5, tail[2..], s6);
    assert Runs(c, s4, tail[1..], s6);
    assert Runs(c, s3, tail, s6);
    var steps := [Timed(Ask(FIRST), 0.0), Timed(Serve(FIRST), 0.0), Timed(Receive(FIRST), late)] + tail;
    assert steps[1..][1..][1..] == tail;
    assert Runs(c, s2, steps[1..][1..], s6);
    assert Runs(c, s1, steps[1..], s6);
    assert TwoLead(c, steps, s6, TTL_S, FIRST, SECOND);
  }

  /** Two nodes can lead at once exactly when an answer may take longer than 2 RENEW_S. */
  lemma WindowIsTheMargin(c: Setting)
    requires c.offset(FIRST) >= 0.0 && c.offset(SECOND) >= 0.0
    ensures TwoLeadersPossible(c) <==> c.window > 2.0 * RENEW_S
  {
    if c.window > 2.0 * RENEW_S {
      LateAnswer(c);
    } else if TwoLeadersPossible(c) {
      var steps, end, time, a, b :| TwoLead(c, steps, end, time, a, b);
      OneNodeLeads(c, steps, end, time, a, b);
    }
  }
}
