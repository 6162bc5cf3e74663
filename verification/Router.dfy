/** The lazy router: the active agent keeps the conversation until it completes or has
    had its turns. */
module Router {
  import opened Options

  datatype Phase = Idle | Executing | Complete | ReEvaluate | Escalated

  /** The routing state as it is stored in the session's metadata. */
  datatype Stored = Stored(active: Option<string>, phase: Phase, turns: int, maxTurns: int, fallback: string)

  predicate Reclassifies(s: Stored) {
    s.phase == Idle || s.phase == ReEvaluate || (s.phase == Executing && s.turns >= s.maxTurns)
  }

  predicate KeepsAgent(s: Stored) {
    !Reclassifies(s) && s.active.Some? && s.active.value != ""
  }

  /** The routing state while it is in use. */
  class RoutingState {
    var active: Option<string>
    var phase: Phase
    var turns: int
    var maxTurns: int
    const fallback: string

    function State(): Stored
      reads this
    {
      Stored(active, phase, turns, maxTurns, fallback)
    }

    constructor (s: Stored)
      ensures State() == s
    {
      active, phase, turns, maxTurns, fallback := s.active, s.phase, s.turns, s.maxTurns, s.fallback;
    }

    predicate ShouldReclassify()
      reads this
      ensures ShouldReclassify() <==> Reclassifies(State())
    {
      if phase == Idle then true
      else if phase == ReEvaluate then true
      else phase == Executing && turns >= maxTurns
    }

    method Activate(agent: string)
      modifies this
      ensures State() == Activated(old(State()), agent)
    {
      active, phase, turns := Some(agent), Executing, 0;
    }

    method IncrementTurn()
      modifies this
      ensures State() == Incremented(old(State()))
    {
      turns := turns + 1;
      if turns >= maxTurns { phase := ReEvaluate; }
    }

    method Complete()
      modifies this
      ensures State() == Completed(old(State()))
    {
      phase, active := Idle, Some(fallback);
    }
  }

  function Activated(s: Stored, agent: string): Stored {
    s.(active := Some(agent), phase := Executing, turns := 0)
  }

  function Incremented(s: Stored): Stored {
    s.(turns := s.turns + 1, phase := if s.turns + 1 >= s.maxTurns then ReEvaluate else s.phase)
  }

  function Completed(s: Stored): Stored {
    s.(phase := Idle, active := Some(s.fallback))
  }

  /** One message: `choice` is what the classifier says about it when it is asked. */
  function Routed(s: Stored, choice: string): Stored {
    if KeepsAgent(s) then Incremented(s) else Activated(s, choice)
  }

  function Answer(s: Stored, choice: string): string {
    if KeepsAgent(s) then s.active.value else choice
  }

  /** `Router.route`, with the stored state of the session and a count of the classifier's calls. */
  class Router {
    var session: Stored
    var calls: nat

    constructor (session: Stored)
      ensures this.session == session && calls == 0
    {
      this.session, calls := session, 0;
    }

    method Route(choice: string) returns (agent: string)
      modifies this
      ensures session == Routed(old(session), choice)
      ensures agent == Answer(old(session), choice)
      ensures calls == old(calls) + if KeepsAgent(old(session)) then 0 else 1
    {
      var routing := new RoutingState(session);
      if !routing.ShouldReclassify() && routing.active.Some? && routing.active.value != "" {
        routing.IncrementTurn();
        session := routing.State();
        return routing.active.value;
      }
      agent := choice;
      calls := calls + 1;
      routing.Activate(agent);
      session := routing.State();
    }
  }

  // ----- A conversation

  datatype Event = Message(choice: string) | AgentCompletes

  function Next(s: Stored, e: Event): Stored {
    match e
    case Message(choice) => Routed(s, choice)
    case AgentCompletes => Completed(s)
  }

  function Run(s: Stored, events: seq<Event>): Stored {
    if events == [] then s else Next(Run(s, events[..|events| - 1]), events[|events| - 1])
  }

  /** How often the classifier is asked. */
  function Calls(s: Stored, events: seq<Event>): nat {
    if events == [] then 0
    else
      var before, last := Run(s, events[..|events| - 1]), events[|events| - 1];
      Calls(s, events[..|events| - 1]) + if last.Message? && !KeepsAgent(before) then 1 else 0
  }

  /** Messages an agent keeps in a row, its first one included. */
  function Period(maxTurns: int): (p: nat)
    ensures p >= 1
  {
    if maxTurns > 0 then maxTurns + 1 else 1
  }

  function CeilDiv(n: nat, d: nat): nat
    requires d > 0
  {
    (n + d - 1) / d
  }

  /** The messages since the agent last completed. */
  function Pending(events: seq<Event>): (n: nat)
    ensures n <= |events|
  {
    if events == [] || events[|events| - 1].AgentCompletes? then 0 else Pending(events[..|events| - 1]) + 1
  }

  /** The classifications that a conversation should need: each stretch of messages between
      completions is cut into periods, and each period, a last short one too, needs one. */
  function Expected(events: seq<Event>, period: nat): nat
    requires period > 0
    decreases |events|
  {
    if events == [] then 0
    else if events[|events| - 1].AgentCompletes? then Expected(events[..|events| - 1], period)
    else Expected(events[..|events| - Pending(events)], period) + CeilDiv(Pending(events), period)
  }

  ghost predicate Named(events: seq<Event>) {
    forall i :: 0 <= i < |events| && events[i].Message? ==> events[i].choice != ""
  }

  predicate Fresh(s: Stored) {
    s.phase == Idle && 0 <= s.turns && (s.turns == 0 || s.turns <= s.maxTurns)
  }

  /** The state after events, said by the events alone: before a message that starts a
      stretch the router is idle; later the turns are the place within the period, and
      the agent is the one chosen where the period began. */
  ghost predicate InStep(s: Stored, maxTurns: int, events: seq<Event>) {
    var n := Pending(events);
    && s.maxTurns == maxTurns
    && 0 <= s.turns && (s.turns == 0 || s.turns <= maxTurns)
    && (n == 0 ==> s.phase == Idle)
    && (n > 0 ==> s.turns == (n - 1) % Period(maxTurns) && s.turns < |events|)
    && (n > 0 ==> var first := events[|events| - 1 - s.turns]; first.Message? && s.active == Some(first.choice))
    && (n > 0 ==> s.phase == if s.turns > 0 && s.turns >= maxTurns then ReEvaluate else Executing)
  }

  lemma ModStep(n: nat, d: nat)
    requires d > 0 && n > 0
    ensures n % d == if (n - 1) % d + 1 == d then 0 else (n - 1) % d + 1
  {
    var q, r := (n - 1) / d, (n - 1) % d;
    assert n - 1 == q * d + r;
    if r + 1 == d {
      assert n == (q + 1) * d;
      MultipleMod(q + 1, d, 0);
    } else {
      MultipleMod(q, d, r + 1);
    }
  }

  lemma {:induction false} TimesLess(a: nat, b: nat, d: nat)
    ensures a < b ==> a * d + d <= b * d
  {
    if a < b {
      assert b * d == (b - 1) * d + d;
      if a < b - 1 { TimesLess(a, b - 1, d); }
    }
  }

  lemma MultipleMod(q: nat, d: nat, r: nat)
    requires r < d
    ensures (q * d + r) % d == r && (q * d + r) / d == q
  {
    var x := q * d + r;
    assert x == x / d * d + x % d;
    TimesLess(q, x / d, d);
    TimesLess(x / d, q, d);
  }

  lemma CeilStep(n: nat, d: nat)
    requires d > 0
    ensures CeilDiv(n + 1, d) == CeilDiv(n, d) + if n % d == 0 then 1 else 0
  {
    var q, r := n / d, n % d;
    assert n == q * d + r;
    if r == 0 {
      assert n + 1 + d - 1 == (q + 1) * d && n + d - 1 == q * d + (d - 1);
      MultipleMod(q + 1, d, 0);
      MultipleMod(q, d, d - 1);
    } else {
      assert n + 1 + d - 1 == (q + 1) * d + r && n + d - 1 == (q + 1) * d + (r - 1);
      MultipleMod(q + 1, d, r);
      MultipleMod(q + 1, d, r - 1);
    }
  }

  lemma KeepsWithinPeriod(s: Stored, maxTurns: int, events: seq<Event>)
    requires InStep(s, maxTurns, events) && Named(events)
    ensures KeepsAgent(s) <==> Pending(events) % Period(maxTurns) != 0
  {
    if Pending(events) > 0 { TurnInPeriod(Pending(events), Period(maxTurns), s.turns); }
  }

  lemma TurnInPeriod(n: nat, d: nat, turn: int)
    requires d > 0 && n > 0 && turn == (n - 1) % d
    ensures 0 <= turn < d && n % d == if turn + 1 == d then 0 else turn + 1
  {
    ModStep(n, d);
  }

  lemma InStepMessage(s: Stored, maxTurns: int, events: seq<Event>, choice: string)
    requires InStep(s, maxTurns, events) && Named(events)
    ensures InStep(Routed(s, choice), maxTurns, events + [Message(choice)])
  {
    var more, n, p := events + [Message(choice)], Pending(events), Period(maxTurns);
    assert more[..|events|] == events;
    assert more[|events|] == Message(choice);
    assert Pending(more) == n + 1;
    KeepsWithinPeriod(s, maxTurns, events);
    if n > 0 {
      assert more[|events| - 1 - s.turns] == events[|events| - 1 - s.turns];
      ModStep(n, p);
    }
  }

  lemma InStepMore(s: Stored, maxTurns: int, events: seq<Event>, e: Event)
    requires InStep(s, maxTurns, events) && Named(events)
    ensures InStep(Next(s, e), maxTurns, events + [e])
    ensures KeepsAgent(s) <==> Pending(events) % Period(maxTurns) != 0
  {
    KeepsWithinPeriod(s, maxTurns, events);
    if e.Message? {
      InStepMessage(s, maxTurns, events, e.choice);
    }
  }

  lemma {:induction false} EveryRunIsInStep(s: Stored, events: seq<Event>)
    requires Fresh(s) && Named(events)
    ensures InStep(Run(s, events), s.maxTurns, events)
  {
    if events != [] {
      var init, last := events[..|events| - 1], events[|events| - 1];
      assert events == init + [last];
      EveryRunIsInStep(s, init);
      InStepMore(Run(s, init), s.maxTurns, init, last);
    }
  }

  /** The turn count never leaves its bounds. */
  lemma TurnsAreBounded(s: Stored, events: seq<Event>)
    requires Fresh(s) && Named(events)
    ensures 0 <= Run(s, events).turns <= if s.maxTurns > 0 then s.maxTurns else 0
  {
    EveryRunIsInStep(s, events);
  }

  lemma ExpectedSplits(events: seq<Event>, period: nat)
    requires period > 0
    ensures Expected(events, period) ==
            Expected(events[..|events| - Pending(events)], period) + CeilDiv(Pending(events), period)
  {
    if Pending(events) == 0 {
      assert events[..|events|] == events;
      MultipleMod(0, period, period - 1);
    }
  }

  lemma ExpectedMore(events: seq<Event>, choice: string, period: nat)
    requires period > 0
    ensures Expected(events + [Message(choice)], period) ==
            Expected(events, period) + if Pending(events) % period == 0 then 1 else 0
  {
    var more, n := events + [Message(choice)], Pending(events);
    PendingMore(events, choice);
    ExpectedOf(more, n + 1, events[..|events| - n], period);
    ExpectedOf(events, n, events[..|events| - n], period);
    CeilStep(n, period);
  }

  lemma ExpectedOf(events: seq<Event>, n: nat, rest: seq<Event>, period: nat)
    requires period > 0 && n == Pending(events) && rest == events[..|events| - n]
    ensures Expected(events, period) == Expected(rest, period) + CeilDiv(n, period)
  {
    ExpectedSplits(events, period);
  }

  lemma PendingMore(events: seq<Event>, choice: string)
    ensures var more, n := events + [Message(choice)], Pending(events);
            Pending(more) == n + 1 && more[..|more| - (n + 1)] == events[..|events| - n]
  {
    var more := events + [Message(choice)];
    assert more[..|events|] == events && more[|events|] == Message(choice);
  }

  /** The classifier is asked once at the start of every period, and not more often. */
  lemma {:induction false} CallsAreExpected(s: Stored, events: seq<Event>)
    requires Fresh(s) && Named(events)
    ensures Calls(s, events) == Expected(events, Period(s.maxTurns))
  {
    if events != [] {
      var init, last := events[..|events| - 1], events[|events| - 1];
      assert events == init + [last];
      CallsAreExpected(s, init);
      EveryRunIsInStep(s, init);
      InStepMore(Run(s, init), s.maxTurns, init, last);
      if last.Message? {
        ExpectedMore(init, last.choice, Period(s.maxTurns));
      }
    }
  }

  ghost predicate MessagesOnly(events: seq<Event>) {
    forall i :: 0 <= i < |events| ==> events[i].Message?
  }

  lemma {:induction false} AllPending(events: seq<Event>)
    requires MessagesOnly(events)
    ensures Pending(events) == |events|
  {
    if events != [] { AllPending(events[..|events| - 1]); }
  }

  /** Without completions, n messages need ceil(n / (maxTurns + 1)) classifications. */
  lemma CallsAreCeil(s: Stored, events: seq<Event>)
    requires Fresh(s) && Named(events) && MessagesOnly(events)
    ensures Calls(s, events) == CeilDiv(|events|, Period(s.maxTurns))
  {
    CallsAreExpected(s, events);
    AllPending(events);
    assert events[..0] == [];
    if events == [] { MultipleMod(0, Period(s.maxTurns), Period(s.maxTurns) - 1); }
  }

  lemma TurnsArePlace(s: Stored, maxTurns: int, events: seq<Event>)
    requires InStep(s, maxTurns, events) && Named(events) && KeepsAgent(s)
    ensures Pending(events) > 0 && Pending(events) % Period(maxTurns) == s.turns + 1 <= |events|
  {
    KeepsWithinPeriod(s, maxTurns, events);
    if Pending(events) > 0 { TurnInPeriod(Pending(events), Period(maxTurns), s.turns); }
  }

  /** Every message is answered by the agent chosen at the start of its period. */
  lemma AgentKeepsPeriod(s: Stored, events: seq<Event>, choice: string)
    requires Fresh(s) && Named(events + [Message(choice)])
    ensures var r, all := Pending(events) % Period(s.maxTurns), events + [Message(choice)];
            r <= |events| && all[|events| - r].Message? && Answer(Run(s, events), choice) == all[|events| - r].choice
  {
    var all := events + [Message(choice)];
    assert forall i :: 0 <= i < |events| ==> all[i] == events[i];
    EveryRunIsInStep(s, events);
    KeepsWithinPeriod(Run(s, events), s.maxTurns, events);
    if KeepsAgent(Run(s, events)) {
      TurnsArePlace(Run(s, events), s.maxTurns, events);
    } else {
      assert all[|events|] == Message(choice);
    }
  }

  /** An agent without a name is asked for again with the next message. */
  lemma NamelessAgentIsAskedAgain(s: Stored, choice: string)
    requires s.phase == Idle && s.maxTurns > 0
    ensures Calls(s, [Message(""), Message(choice)]) == 2 > CeilDiv(2, Period(s.maxTurns))
  {
    var first := [Message("")];
    assert [Message(""), Message(choice)][..1] == first && first[..0] == [];
    assert Run(s, []) == s && Calls(s, []) == 0;
    assert Run(s, first) == Activated(s, "") && Calls(s, first) == 1;
    assert 2 + Period(s.maxTurns) - 1 == 1 * Period(s.maxTurns) + 1;
    MultipleMod(1, Period(s.maxTurns), 1);
  }
}
