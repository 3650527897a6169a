/** A scaffold takes steps up while a check holds and takes them back, in reverse, when it fails
    or something throws.
 */
module Scaffolds {
  import opened Options
  import opened Sequences

  type ErrorId = nat

  /** How a callback ends. A thrown error goes through onError, which may swallow it or throw
      an error of its own; without onError it is rethrown as it is.
   */
  datatype Outcome = Returns | Throws(error: ErrorId, rethrown: Option<ErrorId>)

  /** What the check answers. */
  datatype Answer = Holds(up: bool) | Fails(error: ErrorId, rethrown: Option<ErrorId>)

  /** What the callbacks of one activation do, should they be called, and the errors that are set from
      outside: early ones before the activation looks at the error, late ones while its check is awaited.
   */
  datatype Input = Input(early: set<ErrorId>, check: Answer, late: set<ErrorId>, change: Outcome, step: Outcome)

  datatype Event = Up(step: nat) | Down(step: nat) | Changed(up: bool)

  /** An activation asks for another one, or ends the run. */
  datatype Next = Again | Return | Throw(errors: set<ErrorId>)

  /** Step i is represented by the number i, and so is its cleanup. The set of errors is the
      aggregated error, empty when there is none.
   */
  datatype State = State(
    hasOnChange: bool,
    nextSteps: seq<nat>,
    prevSteps: seq<nat>,
    onDownSteps: seq<nat>,
    errors: set<ErrorId>,
    prevShouldUp: bool,
    isDone: bool,
    trace: seq<Event>)

  function CollectedFrom(errors: set<ErrorId>, rethrown: Option<ErrorId>): set<ErrorId> {
    if rethrown.Some? then errors + {rethrown.value} else errors
  }

  function Collected(errors: set<ErrorId>, outcome: Outcome): set<ErrorId> {
    if outcome.Throws? then CollectedFrom(errors, outcome.rethrown) else errors
  }

  /** The check is only asked while there is no error; an error means down. */
  function ShouldUp(s: State, check: Answer): bool {
    s.errors == {} && check.Holds? && check.up
  }

  function ErrorsAfterCheck(s: State, check: Answer): set<ErrorId> {
    if s.errors == {} && check.Fails? then CollectedFrom(s.errors, check.rethrown) else s.errors
  }

  /** The next step is run; its cleanup counts even if it throws. */
  function SteppedUp(s: State, outcome: Outcome): State
    requires s.nextSteps != []
  {
    var step := s.nextSteps[|s.nextSteps| - 1];
    s.(nextSteps := s.nextSteps[..|s.nextSteps| - 1], prevSteps := s.prevSteps + [step],
       onDownSteps := s.onDownSteps + [step], errors := Collected(s.errors, outcome),
       isDone := false, trace := s.trace + [Up(step)])
  }

  /** The latest cleanup is run and its step is to be taken again. */
  function SteppedDown(s: State, outcome: Outcome): State
    requires s.onDownSteps != [] && s.prevSteps != []
  {
    var cleanup, step := s.onDownSteps[|s.onDownSteps| - 1], s.prevSteps[|s.prevSteps| - 1];
    s.(onDownSteps := s.onDownSteps[..|s.onDownSteps| - 1], prevSteps := s.prevSteps[..|s.prevSteps| - 1],
       nextSteps := s.nextSteps + [step], errors := Collected(s.errors, outcome),
       isDone := false, trace := s.trace + [Down(cleanup)])
  }

  /** Cleanups and steps taken correspond. */
  predicate Paired(s: State) {
    |s.prevSteps| == |s.onDownSteps|
  }

  function Early(s: State, input: Input): State {
    s.(errors := s.errors + input.early)
  }

  /** The check has been awaited. */
  function CheckAwaited(s: State, input: Input): State {
    var e := Early(s, input);
    e.(errors := ErrorsAfterCheck(e, input.check) + input.late, prevShouldUp := ShouldUp(e, input.check))
  }

  /** One activation. */
  function Activated(s: State, input: Input): (r: (State, Next))
    requires Paired(s)
    ensures Paired(r.0)
  {
    var t := CheckAwaited(s, input);
    var up := t.prevShouldUp;
    if up != s.prevShouldUp && s.hasOnChange then
      (t.(errors := Collected(t.errors, input.change), trace := t.trace + [Changed(up)]), Again)
    else if up && t.nextSteps != [] then (SteppedUp(t, input.step), Again)
    else if !up && t.onDownSteps != [] then (SteppedDown(t, input.step), Again)
    else if !up && t.errors != {} then (t.(errors := {}, isDone := true), Throw(t.errors))
    else (t.(isDone := true), Return)
  }

  /** Activations until one of them ends the run, or the inputs run out. */
  function Run(s: State, inputs: seq<Input>): (r: (State, Next))
    requires Paired(s)
    ensures Paired(r.0)
    decreases |inputs|
  {
    if inputs == [] then (s, Again)
    else
      var (t, next) := Activated(s, inputs[0]);
      if next == Again then Run(t, inputs[1..]) else (t, next)
  }

  class Scaffold {
    const length: nat
    const hasOnChange: bool
    var nextSteps: seq<nat>
    var prevSteps: seq<nat>
    var onDownSteps: seq<nat>
    var error: set<ErrorId>
    var shouldUp: bool
    var prevShouldUp: bool
    var isDone: bool
    var didStart: bool
    ghost var trace: seq<Event>

    ghost predicate Valid()
      reads this
    {
      Bracketed(Abs(), length)
    }

    ghost function Abs(): State
      reads this
    {
      State(hasOnChange, nextSteps, prevSteps, onDownSteps, error, prevShouldUp, isDone, trace)
    }

    constructor (length: nat, hasOnChange: bool)
      ensures this.length == length && Abs() == Initial(length, hasOnChange) && Valid()
    {
      this.length, this.hasOnChange := length, hasOnChange;
      nextSteps := seq(length, i requires 0 <= i < length => length - 1 - i);
      prevSteps, onDownSteps := [], [];
      error := {};
      shouldUp, prevShouldUp := false, false;
      isDone, didStart := false, false;
      trace := [];
    }

    method CollectErrors(rethrown: Option<ErrorId>)
      modifies this`error
      ensures error == CollectedFrom(old(error), rethrown)
    {
      if rethrown.Some? { error := error + {rethrown.value}; }
    }

    method CheckShouldUp(check: Answer) returns (up: bool)
      modifies this`error
      ensures up == ShouldUp(old(Abs()), check) && error == ErrorsAfterCheck(old(Abs()), check)
    {
      if error != {} { return false; }
      match check {
        case Holds(b) => return b;
        case Fails(_, rethrown) => CollectErrors(rethrown);
      }
      return false;
    }

    /** The check is awaited, and has changed its mind or not. */
    method AwaitCheck(input: Input) returns (didChange: bool)
      modifies this`error, this`shouldUp, this`prevShouldUp
      ensures Abs() == CheckAwaited(old(Abs()), input)
      ensures shouldUp == prevShouldUp && didChange == (prevShouldUp != old(prevShouldUp))
    {
      error := error + input.early;
      shouldUp := CheckShouldUp(input.check);
      error := error + input.late;
      didChange := prevShouldUp != shouldUp;
      prevShouldUp := shouldUp;
    }

    /** One activation of the recursive step function, up to its own recursive call. */
    method Activate(input: Input) returns (next: Next)
      requires Valid()
      modifies this
      ensures Valid() && (Abs(), next) == Activated(old(Abs()), input)
    {
      ActivationKeepsBrackets(Abs(), input, length);
      var didChange := AwaitCheck(input);
      if didChange && hasOnChange {
        if input.change.Throws? { CollectErrors(input.change.rethrown); }
        trace := trace + [Changed(shouldUp)];
        return Again;
      }
      if shouldUp {
        if |nextSteps| > 0 {
          StepUp(input.step);
          return Again;
        }
      } else if |onDownSteps| > 0 {
        StepDown(input.step);
        return Again;
      } else if error != {} {
        var err := error;
        error := {};
        isDone := true;
        return Throw(err);
      }
      isDone := true;
      return Return;
    }

    method StepUp(outcome: Outcome)
      requires nextSteps != []
      modifies this
      ensures Abs() == SteppedUp(old(Abs()), outcome)
    {
      isDone := false;
      didStart := true;
      var step := nextSteps[|nextSteps| - 1];
      nextSteps := nextSteps[..|nextSteps| - 1];
      prevSteps := prevSteps + [step];
      trace := trace + [Up(step)];
      if outcome.Throws? { CollectErrors(outcome.rethrown); }
      onDownSteps := onDownSteps + [step];
    }

    method StepDown(outcome: Outcome)
      requires onDownSteps != [] && prevSteps != []
      modifies this
      ensures Abs() == SteppedDown(old(Abs()), outcome)
    {
      isDone := false;
      didStart := true;
      var cleanup := onDownSteps[|onDownSteps| - 1];
      onDownSteps := onDownSteps[..|onDownSteps| - 1];
      trace := trace + [Down(cleanup)];
      if outcome.Throws? { CollectErrors(outcome.rethrown); }
      var step := prevSteps[|prevSteps| - 1];
      prevSteps := prevSteps[..|prevSteps| - 1];
      nextSteps := nextSteps + [step];
    }

    /** The step function with its recursion, for as long as there are inputs. */
    method NextScaffoldStep(inputs: seq<Input>) returns (next: Next)
      requires Valid()
      modifies this
      ensures Valid() && (Abs(), next) == Run(old(Abs()), inputs)
      decreases |inputs|
    {
      if inputs == [] { return Again; }
      ActivationKeepsBrackets(Abs(), inputs[0], length);
      next := Activate(inputs[0]);
      if next == Again {
        next := NextScaffoldStep(inputs[1..]);
      }
    }

    method SetError(err: ErrorId)
      requires Valid()
      modifies this`error
      ensures Valid() && Abs() == old(Abs()).(errors := old(error) + {err})
    {
      error := error + {err};
    }

    method ClearError() returns (err: set<ErrorId>)
      requires Valid()
      modifies this`error
      ensures Valid() && err == old(error) && Abs() == old(Abs()).(errors := {})
    {
      err := error;
      error := {};
    }
  }

  // ---------- brackets ----------

  /** n - 1 down to u */
  function DownTo(n: nat, u: nat): seq<nat>
    requires u <= n
  {
    seq(n - u, i requires 0 <= i < n - u => n - 1 - i)
  }

  function Initial(length: nat, hasOnChange: bool): State {
    State(hasOnChange, DownTo(length, 0), [], [], {}, false, false, [])
  }

  /** How many steps are up after a trace, if every Up was for the lowest step that was down and
      every Down for the highest step that was up.
   */
  function Level(trace: seq<Event>): Option<nat> {
    if trace == [] then Some(0)
    else
      var level := Level(trace[..|trace| - 1]);
      if level.None? then None
      else
        match trace[|trace| - 1]
        case Changed(_) => level
        case Up(i) => if i == level.value then Some(i + 1) else None
        case Down(i) => if i + 1 == level.value then Some(i) else None
  }

  /** The steps that are up form a prefix of the sequence, and the trace is properly nested. */
  ghost predicate Bracketed(s: State, n: nat) {
    var u := |s.onDownSteps|;
    && u <= n
    && s.prevSteps == s.onDownSteps == UpTo(u)
    && s.nextSteps == DownTo(n, u)
    && Level(s.trace) == Some(u)
  }

  lemma {:induction false} LevelOfMore(trace: seq<Event>, e: Event)
    requires Level(trace).Some?
    ensures Level(trace + [e]) == match e
                                  case Changed(_) => Level(trace)
                                  case Up(i) => if i == Level(trace).value then Some(i + 1) else None
                                  case Down(i) => if i + 1 == Level(trace).value then Some(i) else None
  {
    assert (trace + [e])[..|trace|] == trace;
  }

  lemma SteppedUpKeepsBrackets(s: State, outcome: Outcome, n: nat)
    requires Bracketed(s, n) && s.nextSteps != []
    ensures Bracketed(SteppedUp(s, outcome), n) && |SteppedUp(s, outcome).onDownSteps| == |s.onDownSteps| + 1
  {
    var u := |s.onDownSteps|;
    LevelOfMore(s.trace, Up(u));
    assert s.nextSteps[|s.nextSteps| - 1] == u;
    assert UpTo(u + 1) == UpTo(u) + [u];
    assert DownTo(n, u)[..n - u - 1] == DownTo(n, u + 1);
  }

  lemma SteppedDownKeepsBrackets(s: State, outcome: Outcome, n: nat)
    requires Bracketed(s, n) && s.onDownSteps != []
    ensures Bracketed(SteppedDown(s, outcome), n) && |SteppedDown(s, outcome).onDownSteps| == |s.onDownSteps| - 1
  {
    var u := |s.onDownSteps|;
    LevelOfMore(s.trace, Down(u - 1));
    assert UpTo(u)[..u - 1] == UpTo(u - 1);
    assert DownTo(n, u) + [u - 1] == DownTo(n, u - 1);
  }

  lemma ActivationKeepsBrackets(s: State, input: Input, n: nat)
    requires Bracketed(s, n)
    ensures Bracketed(Activated(s, input).0, n)
  {
    var t := CheckAwaited(s, input);
    var up := t.prevShouldUp;
    assert Bracketed(t, n);
    if up != s.prevShouldUp && s.hasOnChange {
      LevelOfMore(s.trace, Changed(up));
    } else if up && t.nextSteps != [] {
      SteppedUpKeepsBrackets(t, input.step, n);
    } else if !up && t.onDownSteps != [] {
      SteppedDownKeepsBrackets(t, input.step, n);
    }
  }
}
