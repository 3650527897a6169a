/** What a scaffold promises over every run, whatever the check answers and whatever throws. */
module ScaffoldRuns {
  import opened Options
  import opened Scaffolds

  // ---------- how a run ends ----------

  lemma ActivationEnds(s: State, input: Input, n: nat)
    requires Bracketed(s, n)
    ensures var (t, next) := Activated(s, input);
            match next
            case Again => true
            case Return =>
              && t.isDone
              && |t.onDownSteps| == (if t.prevShouldUp then n else 0)
              && t.errors == if t.prevShouldUp then input.late else {}
            case Throw(errors) => t.isDone && t.onDownSteps == [] && t.errors == {} && errors != {}
  {
  }

  /** How many activations a run takes. */
  function Taken(s: State, inputs: seq<Input>): (k: nat)
    requires Paired(s)
    ensures k <= |inputs| && (Run(s, inputs).1 != Again ==> k > 0)
    decreases |inputs|
  {
    if inputs == [] then 0
    else
      var (t, next) := Activated(s, inputs[0]);
      if next == Again then Taken(t, inputs[1..]) + 1 else 1
  }

  /** The steps that are up always form a prefix and the trace is properly nested. A normal return
      leaves every step up or every step down; a throw leaves every step down and the error cleared.
      A normal return leaves exactly the errors that were set from outside while the last check was
      awaited, provided that check said up, and no others.
   */
  lemma {:induction false} RunEndsAllUpOrAllDown(s: State, inputs: seq<Input>, n: nat)
    requires Bracketed(s, n)
    ensures var (t, next) := Run(s, inputs);
            && Bracketed(t, n)
            && match next
               case Again => true
               case Return =>
                 && t.isDone
                 && |t.onDownSteps| == (if t.prevShouldUp then n else 0)
                 && t.errors == if t.prevShouldUp then inputs[Taken(s, inputs) - 1].late else {}
               case Throw(errors) => t.isDone && t.onDownSteps == [] && t.errors == {} && errors != {}
    decreases |inputs|
  {
    if inputs != [] {
      ActivationKeepsBrackets(s, inputs[0], n);
      ActivationEnds(s, inputs[0], n);
      var (t, next) := Activated(s, inputs[0]);
      if next == Again { RunEndsAllUpOrAllDown(t, inputs[1..], n); }
    }
  }

  /** An error set while the last check is awaited stays behind a normal return. */
  lemma LateErrorStays(e: ErrorId)
    ensures Run(Initial(0, false), [Input({}, Holds(true), {e}, Returns, Returns)]).1 == Return
    ensures Run(Initial(0, false), [Input({}, Holds(true), {e}, Returns, Returns)]).0.errors == {e}
  {
    assert DownTo(0, 0) == [];
  }

  // ---------- nesting ----------

  lemma {:induction false} PrefixHasLevel(trace: seq<Event>, k: nat)
    requires Level(trace).Some? && k <= |trace|
    ensures Level(trace[..k]).Some?
    decreases |trace|
  {
    if k < |trace| {
      PrefixHasLevel(trace[..|trace| - 1], k);
      assert trace[..|trace| - 1][..k] == trace[..k];
    } else {
      assert trace[..k] == trace;
    }
  }

  lemma {:induction false} LevelStep(trace: seq<Event>, k: nat)
    requires Level(trace).Some? && k < |trace|
    ensures Level(trace[..k]).Some? && Level(trace[..k + 1]).Some?
    ensures var before, after := Level(trace[..k]).value, Level(trace[..k + 1]).value;
            match trace[k]
            case Changed(_) => after == before
            case Up(i) => i == before && after == i + 1
            case Down(i) => i + 1 == before && after == i
  {
    PrefixHasLevel(trace, k + 1);
    PrefixHasLevel(trace, k);
    assert trace[..k + 1] == trace[..k] + [trace[k]];
    LevelOfMore(trace[..k], trace[k]);
  }

  /** Getting from above level i to level i or below takes the cleanup of step i. */
  lemma {:induction false} GoingDownPasses(trace: seq<Event>, a: nat, b: nat, i: nat) returns (c: nat)
    requires Level(trace).Some? && a <= b <= |trace|
    requires Level(trace[..a]).Some? && Level(trace[..b]).Some?
    requires Level(trace[..a]).value > i >= Level(trace[..b]).value
    ensures a <= c < b && trace[c] == Down(i)
    decreases b - a
  {
    LevelStep(trace, a);
    if Level(trace[..a + 1]).value > i {
      c := GoingDownPasses(trace, a + 1, b, i);
    } else {
      c := a;
    }
  }

  lemma {:induction false} GoingUpPasses(trace: seq<Event>, a: nat, b: nat, i: nat) returns (c: nat)
    requires Level(trace).Some? && a <= b <= |trace|
    requires Level(trace[..a]).Some? && Level(trace[..b]).Some?
    requires Level(trace[..a]).value <= i < Level(trace[..b]).value
    ensures a <= c < b && trace[c] == Up(i)
    decreases b - a
  {
    LevelStep(trace, a);
    if Level(trace[..a + 1]).value <= i {
      c := GoingUpPasses(trace, a + 1, b, i);
    } else {
      c := a;
    }
  }

  /** A step is not taken again before its cleanup has run, and a cleanup does not run again
      before its step has been taken.
   */
  lemma StepsAndCleanupsAlternate(s: State, inputs: seq<Input>, n: nat, a: nat, b: nat, i: nat)
      returns (c: nat)
    requires Bracketed(s, n) && a < b < |Run(s, inputs).0.trace|
    requires var trace := Run(s, inputs).0.trace;
             (trace[a] == Up(i) && trace[b] == Up(i)) || (trace[a] == Down(i) && trace[b] == Down(i))
    ensures a < c < b
    ensures Run(s, inputs).0.trace[c] == if Run(s, inputs).0.trace[a] == Up(i) then Down(i) else Up(i)
  {
    RunEndsAllUpOrAllDown(s, inputs, n);
    var trace := Run(s, inputs).0.trace;
    LevelStep(trace, a);
    LevelStep(trace, b);
    if trace[a] == Up(i) {
      c := GoingDownPasses(trace, a + 1, b, i);
    } else {
      c := GoingUpPasses(trace, a + 1, b, i);
    }
  }

  /** Cleanups run in reverse: while step j is up, no cleanup of an earlier step i runs. */
  lemma CleanupsRunInReverse(s: State, inputs: seq<Input>, n: nat, a: nat, b: nat, i: nat, j: nat)
      returns (c: nat)
    requires Bracketed(s, n) && a < b < |Run(s, inputs).0.trace| && i < j
    requires Run(s, inputs).0.trace[a] == Up(j) && Run(s, inputs).0.trace[b] == Down(i)
    ensures a < c < b && Run(s, inputs).0.trace[c] == Down(j)
  {
    RunEndsAllUpOrAllDown(s, inputs, n);
    var trace := Run(s, inputs).0.trace;
    LevelStep(trace, a);
    LevelStep(trace, b);
    c := GoingDownPasses(trace, a + 1, b, j);
  }

  // ---------- the listener is told before the steps turn ----------

  /** What onChange was told last; down before it was told anything. */
  function LastTold(trace: seq<Event>): bool {
    if trace == [] then false
    else if trace[|trace| - 1].Changed? then trace[|trace| - 1].up
    else LastTold(trace[..|trace| - 1])
  }

  /** A change is told only if it is one; steps run while the last told is up, cleanups while it is down. */
  predicate Turns(told: bool, e: Event) {
    match e
    case Changed(up) => up != told
    case Up(_) => told
    case Down(_) => !told
  }

  ghost predicate WellTold(trace: seq<Event>) {
    forall k {:trigger trace[k]} :: 0 <= k < |trace| ==> Turns(LastTold(trace[..k]), trace[k])
  }

  lemma {:induction false} WellToldMore(trace: seq<Event>, e: Event)
    requires WellTold(trace) && Turns(LastTold(trace), e)
    ensures WellTold(trace + [e]) && LastTold(trace + [e]) == if e.Changed? then e.up else LastTold(trace)
  {
    var more := trace + [e];
    assert more[..|trace|] == trace;
    forall k | 0 <= k < |more| ensures Turns(LastTold(more[..k]), more[k]) {
      if k < |trace| { assert more[..k] == trace[..k]; }
    }
  }

  ghost predicate Told(s: State) {
    WellTold(s.trace) && s.prevShouldUp == LastTold(s.trace)
  }

  /** Up is what the check says as long as there is no error; the activation goes by that. */
  lemma CheckDecides(s: State, input: Input)
    requires Paired(s)
    ensures Activated(s, input).0.prevShouldUp <==> s.errors + input.early == {} && input.check == Holds(true)
  {
  }

  lemma ActivationTells(s: State, input: Input)
    requires Paired(s) && s.hasOnChange && Told(s)
    ensures Told(Activated(s, input).0)
  {
    var up := ShouldUp(Early(s, input), input.check);
    if up != s.prevShouldUp {
      WellToldMore(s.trace, Changed(up));
    } else if up && s.nextSteps != [] {
      WellToldMore(s.trace, Up(s.nextSteps[|s.nextSteps| - 1]));
    } else if !up && s.onDownSteps != [] {
      WellToldMore(s.trace, Down(s.onDownSteps[|s.onDownSteps| - 1]));
    }
  }

  /** With a listener: over every run changes alternate, beginning with up; steps run only after it was told up,
      and cleanups only after it was told down, or never anything.
   */
  lemma {:induction false} ListenerIsToldFirst(s: State, inputs: seq<Input>)
    requires Paired(s) && s.hasOnChange && Told(s)
    ensures Told(Run(s, inputs).0)
    decreases |inputs|
  {
    if inputs != [] {
      ActivationTells(s, inputs[0]);
      var (t, next) := Activated(s, inputs[0]);
      if next == Again { ListenerIsToldFirst(t, inputs[1..]); }
    }
  }

  // ---------- errors are collected, not lost ----------

  /** What a callback leaves behind: the error its onError lets through. */
  function Escaped(outcome: Outcome): set<ErrorId> {
    match outcome
    case Throws(_, Some(e)) => {e}
    case _ => {}
  }

  /** The errors an activation lets through: those set from outside, and those of the callbacks it
      really calls.
   */
  function Raised(s: State, input: Input): set<ErrorId>
    requires Paired(s)
  {
    var pending := s.errors + input.early;
    var up := pending == {} && input.check == Holds(true);
    input.early + input.late
    + (if pending == {} then
         match input.check
         case Fails(_, Some(e)) => {e}
         case _ => {}
       else {})
    + (if up != s.prevShouldUp && s.hasOnChange then Escaped(input.change)
       else if (if up then s.nextSteps != [] else s.onDownSteps != []) then Escaped(input.step)
       else {})
  }

  function RaisedBy(s: State, inputs: seq<Input>): set<ErrorId>
    requires Paired(s)
    decreases |inputs|
  {
    if inputs == [] then {}
    else
      var (t, next) := Activated(s, inputs[0]);
      Raised(s, inputs[0]) + if next == Again then RaisedBy(t, inputs[1..]) else {}
  }

  lemma ActivationCollects(s: State, input: Input)
    requires Paired(s)
    ensures var (t, next) := Activated(s, input);
            (if next.Throw? then next.errors else t.errors) == s.errors + Raised(s, input)
  {
  }

  /** A run throws exactly the errors that were pending or got through during the run. */
  lemma {:induction false} RunThrowsWhatWasRaised(s: State, inputs: seq<Input>)
    requires Paired(s)
    ensures var (t, next) := Run(s, inputs);
            (if next.Throw? then next.errors else t.errors) == s.errors + RaisedBy(s, inputs)
    decreases |inputs|
  {
    if inputs != [] {
      ActivationCollects(s, inputs[0]);
      var (t, next) := Activated(s, inputs[0]);
      if next == Again { RunThrowsWhatWasRaised(t, inputs[1..]); }
    }
  }

  // ---------- termination ----------

  /** How many activations a run can still take while the check keeps giving the same answer. */
  function Rank(s: State, answer: Answer, n: nat): int {
    var u := |s.onDownSteps|;
    var up := ShouldUp(s, answer);
    (if s.hasOnChange && s.prevShouldUp != up then 1 else 0) + if up then (n - u) + n + 2 else u
  }

  lemma AgainLowersRank(s: State, input: Input, n: nat)
    requires Bracketed(s, n) && Activated(s, input).1 == Again
    ensures 0 <= Rank(Activated(s, input).0, input.check, n) < Rank(s, input.check, n)
  {
    ActivationKeepsBrackets(s, input, n);
  }

  /** Once the check keeps giving the same answer, a run over n steps ends within 2 * n + 4
      activations, whatever the steps and callbacks throw.
   */
  lemma {:induction false} RunTerminates(s: State, inputs: seq<Input>, answer: Answer, n: nat)
    requires Bracketed(s, n) && forall i :: 0 <= i < |inputs| ==> inputs[i].check == answer
    requires |inputs| > Rank(s, answer, n)
    ensures Run(s, inputs).1 != Again
    decreases |inputs|
  {
    if inputs != [] {
      var (t, next) := Activated(s, inputs[0]);
      if next == Again {
        AgainLowersRank(s, inputs[0], n);
        ActivationKeepsBrackets(s, inputs[0], n);
        RunTerminates(t, inputs[1..], answer, n);
      }
    }
  }

  lemma RankIsBounded(s: State, answer: Answer, n: nat)
    requires Bracketed(s, n)
    ensures 0 <= Rank(s, answer, n) <= 2 * n + 3
  {
  }

  /** With a constant answer and nothing thrown, the run ends all up or all down as answered. */
  lemma {:induction false} UndisturbedRunFollowsTheCheck(s: State, inputs: seq<Input>, up: bool, n: nat)
    requires Bracketed(s, n) && s.errors == {} && |inputs| >= 2 * n + 4
    requires forall i :: 0 <= i < |inputs| ==> inputs[i] == Input({}, Holds(up), {}, Returns, Returns)
    ensures Run(s, inputs).1 == Return
    ensures |Run(s, inputs).0.onDownSteps| == if up then n else 0
  {
    RankIsBounded(s, Holds(up), n);
    RunTerminates(s, inputs, Holds(up), n);
    EndFollowsTheCheck(s, inputs, up, n);
  }

  lemma {:induction false} EndFollowsTheCheck(s: State, inputs: seq<Input>, up: bool, n: nat)
    requires Bracketed(s, n) && s.errors == {}
    requires forall i :: 0 <= i < |inputs| ==> inputs[i] == Input({}, Holds(up), {}, Returns, Returns)
    ensures !Run(s, inputs).1.Throw?
    ensures Run(s, inputs).1 == Return ==> |Run(s, inputs).0.onDownSteps| == if up then n else 0
    decreases |inputs|
  {
    if inputs != [] {
      ActivationKeepsBrackets(s, inputs[0], n);
      ActivationEnds(s, inputs[0], n);
      var (t, next) := Activated(s, inputs[0]);
      if next == Again { EndFollowsTheCheck(t, inputs[1..], up, n); }
    }
  }
}
