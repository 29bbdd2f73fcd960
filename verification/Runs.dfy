/** Runs of the protocol, built step by step under a rule about which steps they may take. */
module Runs {
  import opened Base
  import opened Protocol

  type Rule = (State, Action) -> bool

  /** Every step is allowed. */
  const ANY: Rule := (s, a) => true

  ghost predicate Allowed(sys: System, rule: Rule, s: State, acts: seq<Action>)
    decreases |acts|
  {
    |acts| > 0 ==>
      && rule(s, acts[0])
      && (Step(sys, s, acts[0]).Some? ==> Allowed(sys, rule, Step(sys, s, acts[0]).value, acts[1..]))
  }

  ghost predicate Reaches(sys: System, rule: Rule, s: State, s': State) {
    exists acts :: Allowed(sys, rule, s, acts) && Run(sys, s, acts) == Some(s')
  }

  lemma {:induction false} RunConcat(sys: System, s: State, a: seq<Action>, b: seq<Action>)
    requires Run(sys, s, a).Some?
    ensures Run(sys, s, a + b) == Run(sys, Run(sys, s, a).value, b)
    decreases |a|
  {
    hide Step;
    if |a| == 0 {
      assert a + b == b;
    } else {
      RunConcat(sys, Step(sys, s, a[0]).value, a[1..], b);
      assert (a + b)[1..] == a[1..] + b;
    }
  }

  lemma {:induction false} AllowedConcat(sys: System, rule: Rule, s: State, a: seq<Action>, b: seq<Action>)
    requires Allowed(sys, rule, s, a) && Run(sys, s, a).Some? && Allowed(sys, rule, Run(sys, s, a).value, b)
    ensures Allowed(sys, rule, s, a + b)
    decreases |a|
  {
    hide Step;
    if |a| == 0 {
      assert a + b == b;
    } else {
      AllowedConcat(sys, rule, Step(sys, s, a[0]).value, a[1..], b);
      assert (a + b)[1..] == a[1..] + b;
    }
  }

  lemma {:induction false} AnyRunIsAllowed(sys: System, s: State, acts: seq<Action>)
    ensures Allowed(sys, ANY, s, acts)
    decreases |acts|
  {
    hide Step;
    if |acts| > 0 && Step(sys, s, acts[0]).Some? {
      AnyRunIsAllowed(sys, Step(sys, s, acts[0]).value, acts[1..]);
    }
  }

  lemma RunOne(sys: System, s: State, a: Action)
    ensures Run(sys, s, [a]) == Step(sys, s, a)
  {
    hide Step;
    assert [a][1..] == [];
    if Step(sys, s, a).Some? {
      var s' := Step(sys, s, a).value;
      assert Run(sys, s', []) == Some(s');
    }
  }

  lemma Stays(sys: System, rule: Rule, s: State)
    ensures Reaches(sys, rule, s, s)
  {
    assert Allowed(sys, rule, s, []) && Run(sys, s, []) == Some(s);
  }

  lemma Steps(sys: System, rule: Rule, s: State, a: Action)
    requires rule(s, a) && Step(sys, s, a).Some?
    ensures Reaches(sys, rule, s, Step(sys, s, a).value)
  {
    hide Step;
    var s' := Step(sys, s, a).value;
    RunOne(sys, s, a);
    assert Allowed(sys, rule, s', []);
    assert Allowed(sys, rule, s, [a]);
  }

  lemma Then(sys: System, rule: Rule, s: State, t: State, u: State)
    requires Reaches(sys, rule, s, t) && Reaches(sys, rule, t, u)
    ensures Reaches(sys, rule, s, u)
  {
    hide Step;
    var a :| Allowed(sys, rule, s, a) && Run(sys, s, a) == Some(t);
    var b :| Allowed(sys, rule, t, b) && Run(sys, t, b) == Some(u);
    RunConcat(sys, s, a, b);
    AllowedConcat(sys, rule, s, a, b);
  }

  /** A run goes on with one more step. */
  lemma Next(sys: System, rule: Rule, s0: State, s: State, a: Action, s': State)
    requires Reaches(sys, rule, s0, s) && rule(s, a) && Step(sys, s, a) == Some(s')
    ensures Reaches(sys, rule, s0, s')
  {
    hide Step, Reaches;
    Steps(sys, rule, s, a);
    Then(sys, rule, s0, s, s');
  }

  /** The rule leaves the end of a flight alone. */
  ghost predicate LetsFlightsEnd(rule: Rule) {
    forall s: State, a: Action :: a.Forget? || a.Cleanup? || a.Deliver? || a.Receive? ==> rule(s, a)
  }

  /** A finished flight is forgotten and its only waiter gets the result. */
  lemma HandOver(sys: System, rule: Rule, s0: State, s: State, f: nat, c: nat, ch: nat) returns (s': State)
    requires Reaches(sys, rule, s0, s) && LetsFlightsEnd(rule)
    requires f < |s.flights| && s.flights[f].phase.Finished? && s.flights[f].chans == [ch]
    requires s.flights[f].delivered == 0
    requires ch < |s.channels| && c < |s.callers| && s.callers[c].pc == Waiting(ch)
    ensures Reaches(sys, rule, s0, s')
    ensures s'.now == s.now && s'.store == s.store && s'.lanes == s.lanes
    ensures s'.inflight == s.inflight - {NameOf(s.flights[f].loc)}
    ensures |s'.flights| == |s.flights| && forall g :: 0 <= g < |s.flights| && g != f ==> s'.flights[g] == s.flights[g]
    ensures s'.flights[f].phase.Delivering? && s'.flights[f].loads == s.flights[f].loads
    ensures |s'.channels| == |s.channels|
    ensures forall d :: 0 <= d < |s.channels| && d != ch ==> s'.channels[d] == s.channels[d]
    ensures
      var out := s.flights[f].phase.out;
      var reply := Interpret(sys, s.callers[c].loc, out, s.now);
      s'.callers == s.callers[c := s.callers[c].(pc := Answered(reply, Some(ch)))]
  {
    hide NameOf, Reaches, Interpret;
    var s1 := Step(sys, s, Action.Forget(f)).value;
    Next(sys, rule, s0, s, Action.Forget(f), s1);
    var s2 := Step(sys, s1, Cleanup(f)).value;
    Next(sys, rule, s0, s1, Cleanup(f), s2);
    var s3 := Step(sys, s2, Deliver(f)).value;
    Next(sys, rule, s0, s2, Deliver(f), s3);
    s' := Step(sys, s3, Receive(c)).value;
    Next(sys, rule, s0, s3, Receive(c), s');
  }
}
