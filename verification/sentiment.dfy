/** Sentiment analyzers: a two-state machine (untrained, trained) in which
    training happens lazily on first analysis unless the caller trained the
    analyzer beforehand. */
module Sentiment {
  import opened Base

  /** The shape of an analyzer's output: categorical or numeric. */
  datatype Kind = Discrete | Continuous

  /** The string each kind is known by. */
  function Code(k: Kind): string
  {
    match k
    case Discrete => "ds"
    case Continuous => "co"
  }

  /** The two kinds are told apart by their codes. */
  lemma CodeInjective(a: Kind, b: Kind)
    ensures Code(a) == Code(b) <==> a == b
  {
  }

  /** The abstract state of an analyzer: the trained flag, and how many times
      `train` has run on it (a ghost count, kept only to state when training
      happens). */
  datatype AnalyzerState = AnalyzerState(trained: bool, trainCalls: nat)

  /** The state of a newly constructed analyzer. */
  const Fresh := AnalyzerState(false, 0)

  /** The calls a client can make on an analyzer. */
  datatype Call = Train | Analyze(text: string)

  /** The effect of the base `train`: it sets the flag, whatever its value. */
  function AfterTrain(s: AnalyzerState): AnalyzerState
  {
    AnalyzerState(true, s.trainCalls + 1)
  }

  /** The effect of one call. `train` always runs; `analyze` runs `train`
      first exactly when the flag is unset, and changes nothing else. */
  function Step(s: AnalyzerState, c: Call): AnalyzerState
  {
    match c
    case Train => AfterTrain(s)
    case Analyze(_) => if s.trained then s else AfterTrain(s)
  }

  /** The effect of a sequence of calls, in order. */
  function Run(s: AnalyzerState, calls: seq<Call>): AnalyzerState
    decreases |calls|
  {
    if calls == [] then s else Run(Step(s, calls[0]), calls[1..])
  }

  /** How many explicit `train` calls a sequence holds. */
  function ExplicitTrains(calls: seq<Call>): nat
    decreases |calls|
  {
    if calls == [] then 0
    else (if calls[0].Train? then 1 else 0) + ExplicitTrains(calls[1..])
  }

  /** The flag is monotone: after any calls the analyzer is trained exactly
      when it was trained before or at least one call was made. */
  lemma {:induction false} RunTrained(s: AnalyzerState, calls: seq<Call>)
    ensures Run(s, calls).trained <==> s.trained || calls != []
    decreases |calls|
  {
    if calls != [] {
      RunTrained(Step(s, calls[0]), calls[1..]);
    }
  }

  /** An analyzer that is already trained is not trained again by `analyze`:
      only explicit `train` calls run the training step. */
  lemma {:induction false} RunTrainedCounts(s: AnalyzerState, calls: seq<Call>)
    requires s.trained
    ensures Run(s, calls).trainCalls == s.trainCalls + ExplicitTrains(calls)
    decreases |calls|
  {
    if calls != [] {
      RunTrainedCounts(Step(s, calls[0]), calls[1..]);
    }
  }

  /** Training happens exactly as often as the explicit `train` calls, plus
      once more when the analyzer starts untrained and its first call is an
      `analyze`: the lazy training happens on first use only. */
  lemma {:induction false} RunTrainCalls(s: AnalyzerState, calls: seq<Call>)
    ensures Run(s, calls).trainCalls
            == s.trainCalls + ExplicitTrains(calls)
               + (if !s.trained && calls != [] && calls[0].Analyze? then 1 else 0)
  {
    if calls != [] {
      var next := Step(s, calls[0]);
      RunTrainedCounts(next, calls[1..]);
      assert Run(s, calls) == Run(next, calls[1..]);
      assert ExplicitTrains(calls) == (if calls[0].Train? then 1 else 0) + ExplicitTrains(calls[1..]);
    }
  }

  /** A sequence of analyses alone holds no explicit training. */
  lemma {:induction false} AnalyzeOnlyHasNoTrains(calls: seq<Call>)
    requires forall i :: 0 <= i < |calls| ==> calls[i].Analyze?
    ensures ExplicitTrains(calls) == 0
    decreases |calls|
  {
    if calls != [] {
      assert forall i :: 0 <= i < |calls[1..]| ==> calls[1..][i] == calls[i + 1];
      AnalyzeOnlyHasNoTrains(calls[1..]);
    }
  }

  /** A fresh analyzer used only through `analyze` trains exactly once, on the
      first call, however many analyses follow, and ends up trained
      whenever it analyzed anything. */
  lemma {:induction false} AnalyzeTrainsOnce(calls: seq<Call>)
    requires forall i :: 0 <= i < |calls| ==> calls[i].Analyze?
    ensures Run(Fresh, calls).trainCalls == (if calls == [] then 0 else 1)
    ensures Run(Fresh, calls).trained <==> calls != []
  {
    AnalyzeOnlyHasNoTrains(calls);
    RunTrainCalls(Fresh, calls);
    RunTrained(Fresh, calls);
  }

  /** The part of a sentiment analyzer that the base class contributes.
      Since `analyze` is abstract there, an analyzer object is always an
      instance of a subclass, and `Analyze` is the base body that subclass
      reaches through `super().analyze(text)`. Its one piece of state is the
      trained flag; `trainCalls` counts the training steps for the
      specification. */
  class SentimentAnalyzer {
    var trained: bool
    ghost var trainCalls: nat

    /** The output shape, fixed for the base class. */
    const kind: Kind := Discrete

    ghost function State(): AnalyzerState
      reads this
    {
      AnalyzerState(trained, trainCalls)
    }

    /** A new analyzer is untrained and of the discrete kind. */
    constructor ()
      ensures State() == Fresh
      ensures !trained && kind == Discrete
    {
      trained := false;
      trainCalls := 0;
    }

    /** Training always leaves the analyzer trained, whatever its state
        before, so a second call in a row changes nothing but the count. */
    method Train()
      modifies this
      ensures State() == Step(old(State()), Call.Train)
      ensures trained && trainCalls == old(trainCalls) + 1
    {
      trained := true;
      trainCalls := trainCalls + 1;
    }

    /** Analysis trains the analyzer first exactly when it is untrained, and
        the base class then gives no result. */
    method Analyze<R>(text: string) returns (r: Option<R>)
      modifies this
      ensures State() == Step(old(State()), Call.Analyze(text))
      ensures trained
      ensures old(trained) ==> trainCalls == old(trainCalls)
      ensures !old(trained) ==> trainCalls == old(trainCalls) + 1
      ensures r == None
    {
      if !trained {
        Train();
      }
      r := None;
    }
  }
}
