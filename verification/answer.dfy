/**
 * `DeepRAGSystem.answer`: run the graph from the initial state, keep the last
 * streamed snapshot, stop early at the first snapshot holding a final answer,
 * and turn the way the stream ended into an answer. On the recursion limit the
 * answer is recovered from the past steps when there are any; a normal end
 * without a final answer is recovered the same way.
 */
module Answering {
  import opened Wrappers
  import opened GraphNodes
  import Findings
  import opened DeepRag

  const NoContextError := "Error: No context available to generate answer."
  const NoFinalAnswerError := "Error: No final answer generated."
  const NoFinalStateError := "Error: No final state generated."

  /**
   * `_generate_final_from_context`: with no past steps there is no context and the
   * fixed error text is returned; otherwise the synthesiser answers (or raises)
   * from the findings of the past steps.
   */
  function Recovery(env: Env, s: RagState): Reply<string> {
    if s.pastSteps == [] then Answered(NoContextError)
    else env.synthesizer(RecoveryPrompt, s.originalQuestion, Findings.FinalContext(s.pastSteps))
  }

  /** The method builds the context with its loops and tests it for emptiness. */
  method GenerateFinalFromContext(env: Env, s: RagState) returns (r: Reply<string>)
    ensures r == Recovery(env, s)
  {
    var ctx := Findings.BuildFinalContext(s.pastSteps);
    Findings.FinalContextEmpty(s.pastSteps);
    if ctx == "" {
      return Answered(NoContextError);
    }
    r := env.synthesizer(RecoveryPrompt, s.originalQuestion, ctx);
  }

  /** How `answer` ends: a returned text, the `RuntimeError` it raises itself, or an exception it lets through. */
  datatype AnswerOutcome = Returned(text: string) | RaisedRuntimeError | Propagated

  /** The position of the first snapshot holding a final answer, where the stream loop breaks. */
  function FirstAnswer(states: seq<RagState>): (r: Option<nat>)
    ensures r.Some? ==>
      && r.value < |states|
      && states[r.value].finalAnswer != ""
      && forall j :: 0 <= j < r.value ==> states[j].finalAnswer == ""
    ensures r.None? ==> forall j :: 0 <= j < |states| ==> states[j].finalAnswer == ""
  {
    if states == [] then None
    else if states[0].finalAnswer != "" then Some(0)
    else
      match FirstAnswer(states[1..])
      case None => None
      case Some(k) => Some(k + 1)
  }

  /**
   * What `answer` makes of a streamed trace. A final answer met while streaming is
   * returned at once. Otherwise the last snapshot decides: on the recursion limit,
   * a successful recovery from its past steps is returned and anything else becomes
   * a `RuntimeError`; on a normal end, recovery is tried when there are past steps
   * (its exceptions propagate) and a fixed error text is returned when there are
   * none; a node's exception propagates.
   */
  function AnswerSpec(env: Env, t: Trace): AnswerOutcome {
    match FirstAnswer(t.states)
    case Some(i) => Returned(t.states[i].finalAnswer)
    case None =>
      if t.ending == Failed(NodeFailure) then Propagated
      else if t.states == [] then
        (if t.ending == Completed then Returned(NoFinalStateError) else RaisedRuntimeError)
      else
        var last := t.states[|t.states| - 1];
        if last.pastSteps == [] then
          (if t.ending == Completed then Returned(NoFinalAnswerError) else RaisedRuntimeError)
        else
          match Recovery(env, last)
          case Answered(a) => Returned(a)
          case Raised => if t.ending == Completed then Propagated else RaisedRuntimeError
  }

  /** The stream loop of `answer` and its exception handling, over a trace. */
  method AnswerFromTrace(env: Env, t: Trace) returns (out: AnswerOutcome)
    ensures out == AnswerSpec(env, t)
  {
    var finalState: Option<RagState> := None;
    var i := 0;
    var found := false;
    while i < |t.states| && !found
      invariant 0 <= i <= |t.states|
      invariant finalState == if i == 0 then None else Some(t.states[i - 1])
      invariant found ==> i > 0 && FirstAnswer(t.states) == Some(i - 1)
      invariant !found ==> forall j :: 0 <= j < i ==> t.states[j].finalAnswer == ""
    {
      finalState := Some(t.states[i]);
      if t.states[i].finalAnswer != "" {
        found := true;
      }
      i := i + 1;
    }
    if !found {
      match t.ending
      case Failed(RecursionLimit) =>
        if finalState.Some? {
          if finalState.value.finalAnswer != "" {
            // the stream loop has already stopped at any final answer
            assert false;
          }
          if finalState.value.pastSteps != [] {
            var r := GenerateFinalFromContext(env, finalState.value);
            if r.Answered? {
              return Returned(r.value);
            }
          }
        }
        return RaisedRuntimeError;
      case Failed(NodeFailure) =>
        return Propagated;
      case Completed =>
    }
    if finalState.None? {
      return Returned(NoFinalStateError);
    }
    var last := finalState.value;
    if last.finalAnswer != "" {
      return Returned(last.finalAnswer);
    }
    if last.pastSteps != [] {
      var r := GenerateFinalFromContext(env, last);
      return if r.Answered? then Returned(r.value) else Propagated;
    }
    return Returned(NoFinalAnswerError);
  }

  /** A trace in which a final answer can only appear in the last snapshot of a completed run. */
  predicate AnswerAtEnd(t: Trace) {
    && (forall k :: 0 <= k < |t.states| - 1 ==> t.states[k].finalAnswer == "")
    && (t.ending != Completed ==> forall k :: 0 <= k < |t.states| ==> t.states[k].finalAnswer == "")
  }

  /** A node that is followed by another never writes a final answer. */
  ghost predicate AnswersOnlyAtEnd(step: (Node, RagState) -> Reply<RagState>, edge: (Node, RagState) -> Next) {
    forall n: Node, s: RagState :: s.finalAnswer == "" && step(n, s).Answered? && edge(n, step(n, s).value).GoTo? ==>
      step(n, s).value.finalAnswer == ""
  }

  /** In such a graph, a run that starts without a final answer shows one in its last snapshot at most, and only when it completed. */
  lemma {:induction false} RunGraphAnswerAtEnd(step: (Node, RagState) -> Reply<RagState>, edge: (Node, RagState) -> Next,
                                               n: Node, s: RagState, fuel: nat)
    requires AnswersOnlyAtEnd(step, edge)
    requires s.finalAnswer == ""
    ensures AnswerAtEnd(RunGraph(step, edge, n, s, fuel))
    decreases fuel
  {
    if fuel > 0 && step(n, s).Answered? {
      var s' := step(n, s).value;
      if edge(n, s').GoTo? {
        var m := edge(n, s').node;
        RunGraphAnswerAtEnd(step, edge, m, s', fuel - 1);
        var rest := RunGraph(step, edge, m, s', fuel - 1);
        var t := RunGraph(step, edge, n, s, fuel);
        assert s'.finalAnswer == "";
        assert t.states == [s'] + rest.states && t.ending == rest.ending;
        assert forall k :: 1 <= k < |t.states| ==> t.states[k] == rest.states[k - 1];
      }
    }
  }

  /**
   * Only the final-answer node writes the final answer, and it ends the run: so a
   * run that starts without one shows it in its last snapshot at most, and only
   * when the run completed.
   */
  lemma FinalAnswerOnlyAtEnd(env: Env, n: Node, s: RagState, fuel: nat)
    requires s.finalAnswer == ""
    ensures AnswerAtEnd(Execute(env, n, s, fuel))
  {
    forall m: Node, x: RagState | x.finalAnswer == "" && RunNode(env, m, x).Answered? && Successor(env, m, RunNode(env, m, x).value).GoTo?
      ensures RunNode(env, m, x).value.finalAnswer == ""
    {
      assert m != GenerateFinalAnswer;
    }
    RunGraphAnswerAtEnd(Nodes(env), Edges(env), n, s, fuel);
  }

  /** A whole run, initial snapshot included, shows a final answer only in its last snapshot, and only when it completed. */
  lemma RunAnswersAtEnd(env: Env, question: string, maxSteps: int, limit: nat)
    ensures AnswerAtEnd(Run(env, question, maxSteps, limit))
  {
    var s0 := InitialState(question, maxSteps);
    var e := Execute(env, PlanNode, s0, limit);
    var t := Run(env, question, maxSteps, limit);
    FinalAnswerOnlyAtEnd(env, PlanNode, s0, limit);
    assert t.states == [s0] + e.states && t.ending == e.ending;
    assert forall k :: 1 <= k < |t.states| ==> t.states[k] == e.states[k - 1];
  }

  /** The final answer text, if the run ends with one. */
  function FinalText(t: Trace): string {
    if t.states == [] then "" else t.states[|t.states| - 1].finalAnswer
  }

  /** What `answer` makes of such a trace, on a completed run with an answer and on the recursion limit. */
  lemma AnswerOnTrace(env: Env, t: Trace)
    requires t.states != [] && AnswerAtEnd(t)
    ensures t.ending == Completed && FinalText(t) != "" ==> AnswerSpec(env, t) == Returned(FinalText(t))
    ensures t.ending == Failed(RecursionLimit) ==>
      var last := t.states[|t.states| - 1];
      AnswerSpec(env, t) ==
        if last.pastSteps != [] && Recovery(env, last).Answered? then Returned(Recovery(env, last).value)
        else RaisedRuntimeError
  {
    if t.ending == Completed && FinalText(t) != "" {
      assert FirstAnswer(t.states) == Some(|t.states| - 1);
    }
    if t.ending == Failed(RecursionLimit) {
      assert FirstAnswer(t.states) == None;
    }
  }

  /**
   * `answer` on a run of the graph: a completed run's final answer is returned as
   * it is; on the recursion limit there is never a final answer yet, and the answer
   * is recovered from the past steps of the last snapshot when there are any and
   * the synthesiser answers, and is a `RuntimeError` otherwise.
   */
  lemma AnswerOnRun(env: Env, question: string, maxSteps: int, limit: nat)
    ensures var t := Run(env, question, maxSteps, limit);
      && (t.ending == Completed && FinalText(t) != "" ==> AnswerSpec(env, t) == Returned(FinalText(t)))
      && (t.ending == Failed(RecursionLimit) ==>
            var last := t.states[|t.states| - 1];
            AnswerSpec(env, t) ==
              if last.pastSteps != [] && Recovery(env, last).Answered? then Returned(Recovery(env, last).value)
              else RaisedRuntimeError)
  {
    var s0 := InitialState(question, maxSteps);
    var e := Execute(env, PlanNode, s0, limit);
    var t := Run(env, question, maxSteps, limit);
    FinalAnswerOnlyAtEnd(env, PlanNode, s0, limit);
    assert t.states == [s0] + e.states && t.ending == e.ending;
    assert forall k :: 1 <= k < |t.states| ==> t.states[k] == e.states[k - 1];
    AnswerOnTrace(env, t);
  }

  /**
   * With a budget covering the plan, `answer` never raises its own `RuntimeError`:
   * the recursion-limit path is never taken.
   */
  lemma AnswerWithinBudget(env: Env, question: string, maxSteps: int, limit: nat)
    requires limit > 0
    requires env.planner(question).Answered? ==> 5 * |env.planner(question).value.steps| + 3 <= limit
    ensures AnswerSpec(env, Run(env, question, maxSteps, limit)) != RaisedRuntimeError
  {
    RunWithinBudget(env, question, maxSteps, limit);
    var t := Run(env, question, maxSteps, limit);
    assert t.ending.Completed? || t.ending.failure.NodeFailure?;
  }

  /** The configuration dictionary shared by the system and the service; only `max_reasoning_iterations` is read. */
  class Settings {
    var maxReasoningIterations: int

    constructor(iterations: int)
      ensures maxReasoningIterations == iterations
    {
      maxReasoningIterations := iterations;
    }
  }

  /** `DeepRAGSystem`: the oracles, the shared configuration and the compiled graph. */
  class DeepRagSystem {
    const env: Env
    const settings: Settings
    var compiled: bool
    var compileCalls: nat   // calls of `compile`
    var compilations: nat   // graphs actually built

    constructor(env: Env, settings: Settings)
      ensures this.env == env && this.settings == settings
      ensures !compiled && compileCalls == 0 && compilations == 0
    {
      this.env := env;
      this.settings := settings;
      compiled := false;
      compileCalls := 0;
      compilations := 0;
    }

    /** `compile`: builds the graph on the first call only; later calls reuse it. */
    method Compile()
      modifies this
      ensures compiled
      ensures compileCalls == old(compileCalls) + 1
      ensures compilations == if old(compiled) then old(compilations) else old(compilations) + 1
    {
      compileCalls := compileCalls + 1;
      if !compiled {
        compiled := true;
        compilations := compilations + 1;
      }
    }

    /** `answer`: compile if needed, run with the configured step budget and the recursion limit 200. */
    method Answer(question: string) returns (out: AnswerOutcome)
      modifies this
      ensures compiled
      ensures old(compiled) ==> compileCalls == old(compileCalls) && compilations == old(compilations)
      ensures !old(compiled) ==> compileCalls == old(compileCalls) + 1 && compilations == old(compilations) + 1
      ensures out == AnswerSpec(env, Run(env, question, settings.maxReasoningIterations, RecursionLimitDefault))
    {
      if !compiled {
        Compile();
      }
      var t := Run(env, question, settings.maxReasoningIterations, RecursionLimitDefault);
      out := AnswerFromTrace(env, t);
    }
  }
}
