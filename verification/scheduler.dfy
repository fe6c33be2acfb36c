/**
 * The per-frame decision of `OnUpdate`. A single real, `lastSteeringStart`,
 * is the whole state: a value `<= 0` means no steering cycle is in flight;
 * a positive value is the clock reading at which the running cycle was
 * dispatched. Each frame takes exactly one of three actions.
 */
module Scheduler {

  /** Wall-clock seconds a steering cycle is allowed to run before its result is applied. */
  const CycleBudget := 0.5
  /** The value of `lastSteeringStart` when no cycle is in flight. */
  const NoCycle := -1.0

  datatype State = State(lastSteeringStart: real)

  const Initial := State(NoCycle)

  datatype Action =
    | DispatchAndCoast  // snapshot, hash, start the steering job, and coast this frame
    | Apply             // wait for the steering job and apply its result
    | Coast             // only coast

  /** No steering cycle is in flight. */
  predicate Idle(s: State)
  {
    s.lastSteeringStart <= 0.0
  }

  datatype Outcome = Outcome(next: State, action: Action)

  /**
   * One frame at clock reading `now`. From idle the frame dispatches and
   * records `now`; with a cycle in flight for strictly more than the budget it
   * applies and returns to idle; in every other case it only coasts and keeps
   * the state.
   */
  function Step(s: State, now: real): (o: Outcome)
    ensures o.action == DispatchAndCoast <==> Idle(s)
    ensures o.action == Apply <==> !Idle(s) && now - s.lastSteeringStart > CycleBudget
    ensures o.action == DispatchAndCoast ==> o.next.lastSteeringStart == now
    ensures o.action == DispatchAndCoast && now > 0.0 ==> !Idle(o.next)
    ensures o.action == Apply ==> o.next == Initial
    ensures o.action == Coast ==> o.next == s && !Idle(s)
  {
    if s.lastSteeringStart <= 0.0 then Outcome(State(now), DispatchAndCoast)
    else if now - s.lastSteeringStart > CycleBudget then Outcome(State(NoCycle), Apply)
    else Outcome(s, Coast)
  }

  /** The actions of consecutive frames with clock readings `times`. */
  function Run(s: State, times: seq<real>): (acts: seq<Action>)
    ensures |acts| == |times|
    decreases |times|
  {
    if times == [] then [] else var o := Step(s, times[0]); [o.action] + Run(o.next, times[1..])
  }

  /**
   * Legal action sequences, independent of time: a dispatch only when no
   * cycle is in flight, an apply or a coast only while one is, and an apply
   * ends the cycle.
   */
  predicate Bracketed(acts: seq<Action>, inFlight: bool)
  {
    if acts == [] then true
    else match acts[0]
      case DispatchAndCoast => !inFlight && Bracketed(acts[1..], true)
      case Apply => inFlight && Bracketed(acts[1..], false)
      case Coast => inFlight && Bracketed(acts[1..], true)
  }

  /** With a positive clock, whatever the frame times, the scheduler only produces legal sequences. */
  lemma {:induction false} RunIsBracketed(s: State, times: seq<real>)
    requires forall t :: 0 <= t < |times| ==> times[t] > 0.0
    ensures Bracketed(Run(s, times), !Idle(s))
    decreases |times|
  {
    if times != [] {
      var o := Step(s, times[0]);
      RunIsBracketed(o.next, times[1..]);
      assert Run(s, times)[1..] == Run(o.next, times[1..]);
    }
  }

  function Dispatches(acts: seq<Action>): nat
  {
    multiset(acts)[DispatchAndCoast]
  }

  function Applies(acts: seq<Action>): nat
  {
    multiset(acts)[Apply]
  }

  /**
   * In a legal sequence every prefix has as many dispatches as applies, or
   * one more (counting a cycle already in flight at the start as a
   * dispatch); every apply closes the one cycle left open before it; and a
   * dispatch happens only when every earlier cycle was applied.
   */
  lemma {:induction false} BracketedBalance(acts: seq<Action>, inFlight: bool)
    requires Bracketed(acts, inFlight)
    ensures forall k :: 0 <= k <= |acts| ==>
      var open := Dispatches(acts[..k]) + (if inFlight then 1 else 0);
      Applies(acts[..k]) <= open <= Applies(acts[..k]) + 1
    ensures forall t :: 0 <= t < |acts| && acts[t] == Apply ==>
      Dispatches(acts[..t]) + (if inFlight then 1 else 0) == Applies(acts[..t]) + 1
    ensures forall t :: 0 <= t < |acts| && acts[t] == DispatchAndCoast ==>
      Dispatches(acts[..t]) + (if inFlight then 1 else 0) == Applies(acts[..t])
  {
    if acts != [] {
      var a, rest := acts[0], acts[1..];
      var inFlight' := a != Apply;
      BracketedBalance(rest, inFlight');
      var f, f' := (if inFlight then 1 else 0), (if inFlight' then 1 else 0);
      assert f' == f + (if a == DispatchAndCoast then 1 else 0) - (if a == Apply then 1 else 0);
      forall k | 0 <= k < |acts|
        ensures Dispatches(acts[..k + 1]) + f == Dispatches(rest[..k]) + f' + (if a == Apply then 1 else 0)
        ensures Applies(acts[..k + 1]) == Applies(rest[..k]) + (if a == Apply then 1 else 0)
      {
        assert acts[..k + 1] == [a] + rest[..k];
      }
      forall k | 0 <= k <= |acts|
        ensures Applies(acts[..k]) <= Dispatches(acts[..k]) + f <= Applies(acts[..k]) + 1
      {
        if k == 0 {
          assert acts[..k] == [];
        } else {
          assert Applies(rest[..k - 1]) <= Dispatches(rest[..k - 1]) + f' <= Applies(rest[..k - 1]) + 1;
        }
      }
      forall t | 0 <= t < |acts| && acts[t] == Apply
        ensures Dispatches(acts[..t]) + f == Applies(acts[..t]) + 1
      {
        if t == 0 {
          assert acts[..t] == [];
        } else {
          assert rest[t - 1] == Apply;
        }
      }
      forall t | 0 <= t < |acts| && acts[t] == DispatchAndCoast
        ensures Dispatches(acts[..t]) + f == Applies(acts[..t])
      {
        if t == 0 {
          assert acts[..t] == [];
        } else {
          assert rest[t - 1] == DispatchAndCoast;
        }
      }
    }
  }

  /**
   * Starting idle with a positive clock: dispatches and applies alternate,
   * each apply answering exactly one earlier dispatch, and no frame
   * dispatches while a cycle is still in flight.
   */
  lemma EveryApplyAnswersOneDispatch(times: seq<real>)
    requires forall t :: 0 <= t < |times| ==> times[t] > 0.0
    ensures var acts := Run(Initial, times);
      forall k :: 0 <= k <= |acts| ==> Applies(acts[..k]) <= Dispatches(acts[..k]) <= Applies(acts[..k]) + 1
    ensures var acts := Run(Initial, times);
      forall t :: 0 <= t < |acts| && acts[t] == Apply ==> Dispatches(acts[..t]) == Applies(acts[..t]) + 1
    ensures var acts := Run(Initial, times);
      forall t :: 0 <= t < |acts| && acts[t] == DispatchAndCoast ==> Dispatches(acts[..t]) == Applies(acts[..t])
  {
    RunIsBracketed(Initial, times);
    BracketedBalance(Run(Initial, times), false);
  }

  /** Every frame strictly between `lo` and `hi` only coasted. */
  ghost predicate CoastsBetween(acts: seq<Action>, lo: int, hi: int)
  {
    forall u :: lo < u < hi && 0 <= u < |acts| ==> acts[u] == Coast
  }

  /**
   * The apply at frame `t` answers a dispatch at an earlier frame `d`, made
   * more than the budget before it, with only coasting in between.
   */
  ghost predicate AnswersDispatch(acts: seq<Action>, times: seq<real>, t: int)
    requires |acts| == |times| && 0 <= t < |acts|
  {
    exists d :: 0 <= d < t && acts[d] == DispatchAndCoast && times[t] - times[d] > CycleBudget && CoastsBetween(acts, d, t)
  }

  /**
   * From any state: each apply answers an earlier dispatch of the same run,
   * or, if none, the cycle already in flight at the start, more than the
   * budget after its dispatch.
   */
  lemma {:induction false} ApplyAnswersEarlierDispatch(s: State, times: seq<real>)
    requires forall t :: 0 <= t < |times| ==> times[t] > 0.0
    ensures var acts := Run(s, times);
      forall t :: 0 <= t < |acts| && acts[t] == Apply ==>
        || AnswersDispatch(acts, times, t)
        || (!Idle(s) && times[t] - s.lastSteeringStart > CycleBudget && CoastsBetween(acts, -1, t))
    decreases |times|
  {
    if times != [] {
      var acts := Run(s, times);
      var o := Step(s, times[0]);
      var rest, later := Run(o.next, times[1..]), times[1..];
      ApplyAnswersEarlierDispatch(o.next, later);
      assert acts == [o.action] + rest;
      forall t | 0 <= t < |acts| && acts[t] == Apply
        ensures || AnswersDispatch(acts, times, t)
                || (!Idle(s) && times[t] - s.lastSteeringStart > CycleBudget && CoastsBetween(acts, -1, t))
      {
        if t > 0 {
          assert rest[t - 1] == Apply;
          if AnswersDispatch(rest, later, t - 1) {
            var d :| 0 <= d < t - 1 && rest[d] == DispatchAndCoast && later[t - 1] - later[d] > CycleBudget
                     && CoastsBetween(rest, d, t - 1);
            assert acts[d + 1] == DispatchAndCoast && times[t] - times[d + 1] > CycleBudget;
            assert CoastsBetween(acts, d + 1, t);
          } else {
            assert !Idle(o.next) && later[t - 1] - o.next.lastSteeringStart > CycleBudget;
            if o.action == DispatchAndCoast {
              assert CoastsBetween(acts, 0, t);
              assert AnswersDispatch(acts, times, t);
            } else {
              assert o.action == Coast;
              assert CoastsBetween(acts, -1, t);
            }
          }
        }
      }
    }
  }

  /**
   * Starting idle with a positive clock, every apply happens in a later frame
   * than its dispatch, strictly more than the budget after it, with only
   * coasting in between.
   */
  lemma ApplyOnlyAfterBudget(times: seq<real>)
    requires forall t :: 0 <= t < |times| ==> times[t] > 0.0
    ensures var acts := Run(Initial, times);
      forall t :: 0 <= t < |acts| && acts[t] == Apply ==> AnswersDispatch(acts, times, t)
  {
    ApplyAnswersEarlierDispatch(Initial, times);
  }

  /**
   * Why the clock must be positive: a dispatch recorded at time 0 leaves
   * `lastSteeringStart` at 0, which reads as idle, so the next frame
   * dispatches again without applying the first cycle.
   */
  lemma DispatchAtTimeZeroIsLost()
    ensures Run(Initial, [0.0, 0.25]) == [DispatchAndCoast, DispatchAndCoast]
    ensures !Bracketed(Run(Initial, [0.0, 0.25]), false)
  {
    assert Step(Initial, 0.0) == Outcome(State(0.0), DispatchAndCoast);
    assert Step(State(0.0), 0.25) == Outcome(State(0.25), DispatchAndCoast);
  }
}
