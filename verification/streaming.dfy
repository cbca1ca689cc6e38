/**
 * `stream_deep_rag_response`: run the graph and turn its snapshots into
 * progress events. A plan event when a plan first appears; a retrieval event
 * when the step index moves past every index seen so far and documents are
 * present; an answer event for the first final answer, after which streaming
 * stops; then one completion event, or one error event if anything raised.
 */
module Streaming {
  import opened Wrappers
  import opened GraphNodes
  import opened DeepRag
  import Answering

  /** What an error event reports as the exception's cause. */
  datatype ErrorCause =
    | RecursionLimitReached     // the engine's recursion error
    | NodeRaised                // an exception out of a node
    | ReflectionAttributeError  // `past_steps[-1].summary` on a dictionary

  datatype Event =
    | PlanEvent(totalSteps: nat, subQuestions: seq<string>)
    | RetrievalEvent(step: int, docCount: nat, sources: seq<string>)
    | AnswerEvent(content: string, step: int)
    | CompleteEvent(step: int)
    | ErrorEvent(cause: ErrorCause, step: int)

  /** The events that end a stream. */
  predicate Terminal(e: Event) {
    e.CompleteEvent? || e.ErrorEvent?
  }

  function SubQuestions(steps: seq<Step>): (r: seq<string>)
    ensures |r| == |steps|
    ensures forall i :: 0 <= i < |steps| ==> r[i] == steps[i].subQuestion
  {
    seq(|steps|, i requires 0 <= i < |steps| => steps[i].subQuestion)
  }

  function PlanEventOf(p: Plan): Event {
    PlanEvent(|p.steps|, SubQuestions(p.steps))
  }

  /** The `source` of the first three documents, `"unknown"` when missing. */
  function Sources(docs: seq<Document>): (r: seq<string>)
    ensures |r| == if |docs| <= 3 then |docs| else 3
    ensures forall i :: 0 <= i < |r| ==> r[i] == MetaGet(docs[i], "source", "unknown")
  {
    var n := if |docs| <= 3 then |docs| else 3;
    seq(n, i requires 0 <= i < n => MetaGet(docs[i], "source", "unknown"))
  }

  /** Why the scan of the snapshots stopped: the snapshots ran out, an answer was seen, or the reflection event raised. */
  datatype ScanEnd = RanOut | AnswerSeen | ReflectionCrash

  /** The events one snapshot produces and the loop's variables after it. */
  datatype Visit = Visit(events: seq<Event>, stepCount: int, planSent: bool, end: ScanEnd)

  /**
   * One turn of the loop: the plan event the first time a plan is seen; the
   * counter moved up to an index beyond it, with a retrieval event when that
   * snapshot holds documents; the reflection branch when there are more past steps
   * than the counter; the answer event when a final answer is present.
   */
  function VisitSnapshot(st: RagState, stepCount: int, planSent: bool): (v: Visit)
    ensures v.stepCount == if st.index > stepCount then st.index else stepCount
    ensures v.planSent == (planSent || st.plan.Some?)
    ensures v.end == ReflectionCrash <==> st.pastSteps != [] && |st.pastSteps| > v.stepCount
  {
    var count := if st.index > stepCount then st.index else stepCount;
    var head := PlanPart(st, planSent) + RetrievalPart(st, stepCount);
    var sent := planSent || st.plan.Some?;
    if st.pastSteps != [] && |st.pastSteps| > count then Visit(head, count, sent, ReflectionCrash)
    else if st.finalAnswer != "" then Visit(head + [AnswerEvent(st.finalAnswer, st.index + 1)], count, sent, AnswerSeen)
    else Visit(head, count, sent, RanOut)
  }

  /** The plan event of a snapshot: only for the first plan seen. */
  function PlanPart(st: RagState, planSent: bool): (e: seq<Event>)
    ensures |e| <= 1
    ensures e != [] ==> e[0].PlanEvent? && !planSent && st.plan.Some?
  {
    if st.plan.Some? && !planSent then [PlanEventOf(st.plan.value)] else []
  }

  /** The retrieval event of a snapshot: only when its index passes the counter and it holds documents. */
  function RetrievalPart(st: RagState, stepCount: int): (e: seq<Event>)
    ensures |e| <= 1
    ensures e != [] ==> e[0].RetrievalEvent? && e[0].step == st.index + 1 && st.index > stepCount && st.retrievedDocs != []
  {
    if st.index > stepCount && st.retrievedDocs != [] then
      [RetrievalEvent(st.index + 1, |st.retrievedDocs|, Sources(st.retrievedDocs))]
    else []
  }

  /**
   * The events of one snapshot: no terminal event; a plan event only first and only
   * for the first plan; at most one retrieval event, reporting the index after
   * it passed the counter; an answer event only last, and exactly when the
   * snapshot stops the loop at an answer.
   */
  lemma VisitEvents(st: RagState, stepCount: int, planSent: bool)
    ensures var v := VisitSnapshot(st, stepCount, planSent);
      && (forall k :: 0 <= k < |v.events| ==> !Terminal(v.events[k]))
      && (forall k :: 0 <= k < |v.events| && v.events[k].PlanEvent? ==> k == 0 && !planSent && st.plan.Some?)
      && (forall k :: 0 <= k < |v.events| && v.events[k].RetrievalEvent? ==>
            st.index > stepCount && v.events[k].step == st.index + 1)
      && (forall a, b :: 0 <= a < b < |v.events| ==> !(v.events[a].RetrievalEvent? && v.events[b].RetrievalEvent?))
      && (forall k :: 0 <= k < |v.events| && v.events[k].AnswerEvent? ==> k == |v.events| - 1)
      && (v.end == AnswerSeen <==> v.events != [] && v.events[|v.events| - 1].AnswerEvent?)
  {
    var p := PlanPart(st, planSent);
    var r := RetrievalPart(st, stepCount);
    var v := VisitSnapshot(st, stepCount, planSent);
    var a: seq<Event> := if v.end == AnswerSeen then [AnswerEvent(st.finalAnswer, st.index + 1)] else [];
    assert v.events == p + r + a;
    ThreeParts(p, r, a);
  }

  /** A plan part, a retrieval part and an answer part of at most one event each, in that order. */
  lemma ThreeParts(p: seq<Event>, r: seq<Event>, a: seq<Event>)
    requires |p| <= 1 && |r| <= 1 && |a| <= 1
    requires p != [] ==> p[0].PlanEvent?
    requires r != [] ==> r[0].RetrievalEvent?
    requires a != [] ==> a[0].AnswerEvent?
    ensures var e := p + r + a;
      && (forall k :: 0 <= k < |e| ==> !Terminal(e[k]))
      && (forall k :: 0 <= k < |e| && e[k].PlanEvent? ==> k == 0 && p != [])
      && (forall k :: 0 <= k < |e| && e[k].RetrievalEvent? ==> r != [] && e[k] == r[0])
      && (forall i, j :: 0 <= i < j < |e| ==> !(e[i].RetrievalEvent? && e[j].RetrievalEvent?))
      && (forall k :: 0 <= k < |e| && e[k].AnswerEvent? ==> k == |e| - 1)
      && (a != [] <==> e != [] && e[|e| - 1].AnswerEvent?)
  {
    var e := p + r + a;
    forall k | 0 <= k < |e|
      ensures e[k] == if k < |p| then p[k] else if k < |p| + |r| then r[k - |p|] else a[k - |p| - |r|]
    {
    }
  }

  datatype Scan = Scan(events: seq<Event>, end: ScanEnd, stepCount: int)

  /** The events of the remaining snapshots, from the loop's `step_count` and `plan_generated`. */
  function ScanFrom(states: seq<RagState>, stepCount: int, planSent: bool): Scan
    decreases |states|
  {
    if states == [] then Scan([], RanOut, stepCount)
    else
      var v := VisitSnapshot(states[0], stepCount, planSent);
      if v.end != RanOut then Scan(v.events, v.end, v.stepCount)
      else
        var rest := ScanFrom(states[1..], v.stepCount, v.planSent);
        Scan(v.events + rest.events, rest.end, rest.stepCount)
  }

  /** The event that closes the stream, after the loop ended as `end` at `stepCount` on a run that ended as `ending`. */
  function LastEvent(end: ScanEnd, stepCount: int, ending: Ending): Event {
    match end
    case ReflectionCrash => ErrorEvent(ReflectionAttributeError, stepCount + 1)
    case AnswerSeen => CompleteEvent(stepCount + 1)
    case RanOut =>
      match ending
      case Completed => CompleteEvent(stepCount + 1)
      case Failed(RecursionLimit) => ErrorEvent(RecursionLimitReached, stepCount + 1)
      case Failed(NodeFailure) => ErrorEvent(NodeRaised, stepCount + 1)
  }

  /** The whole event stream of a trace. */
  function StreamEvents(t: Trace): seq<Event> {
    var r := ScanFrom(t.states, 0, false);
    r.events + [LastEvent(r.end, r.stepCount, t.ending)]
  }

  /** The events already produced, followed by those of the rest of the snapshots. */
  function Continued(events: seq<Event>, r: Scan): Scan {
    Scan(events + r.events, r.end, r.stepCount)
  }

  /** One turn of the generator's loop keeps the events so far and the rest of the scan adding up to the whole scan. */
  lemma ScanLoopStep(states: seq<RagState>, i: nat, events: seq<Event>, stepCount: int, planSent: bool, total: Scan,
                     produced: seq<Event>, stepCount': int, planSent': bool, end: ScanEnd)
    requires i < |states|
    requires Continued(events, ScanFrom(states[i..], stepCount, planSent)) == total
    requires Visit(produced, stepCount', planSent', end) == VisitSnapshot(states[i], stepCount, planSent)
    ensures end == RanOut ==> Continued(events + produced, ScanFrom(states[i + 1..], stepCount', planSent')) == total
    ensures end != RanOut ==> Scan(events + produced, end, stepCount') == total
  {
    ScanStep(states[i..], stepCount, planSent);
    assert states[i..][0] == states[i];
    assert states[i..][1..] == states[i + 1..];
    if end == RanOut {
      AppendAssoc(events, produced, ScanFrom(states[i + 1..], stepCount', planSent').events);
    }
  }

  /** The body of the generator's loop: the events of one snapshot and the updated loop variables. */
  method HandleSnapshot(st: RagState, stepCount0: int, planSent0: bool)
    returns (produced: seq<Event>, stepCount: int, planSent: bool, end: ScanEnd)
    ensures Visit(produced, stepCount, planSent, end) == VisitSnapshot(st, stepCount0, planSent0)
  {
    stepCount, planSent, end := stepCount0, planSent0, RanOut;
    produced := [];
    if st.plan.Some? && !planSent {
      planSent := true;
      produced := [PlanEventOf(st.plan.value)];
    }
    assert produced == PlanPart(st, planSent0);
    if st.index > stepCount {
      stepCount := st.index;
      if st.retrievedDocs != [] {
        produced := produced + [RetrievalEvent(st.index + 1, |st.retrievedDocs|, Sources(st.retrievedDocs))];
      }
    }
    assert produced == PlanPart(st, planSent0) + RetrievalPart(st, stepCount0);
    if st.pastSteps != [] && |st.pastSteps| > stepCount {
      end := ReflectionCrash;
    } else if st.finalAnswer != "" {
      produced := produced + [AnswerEvent(st.finalAnswer, st.index + 1)];
      end := AnswerSeen;
    }
  }

  /** The generator's loop over a trace, then its completion or error event. */
  method StreamFromTrace(t: Trace) returns (events: seq<Event>)
    ensures events == StreamEvents(t)
  {
    ghost var total := ScanFrom(t.states, 0, false);
    events := [];
    var stepCount := 0;
    var planSent := false;
    var end := RanOut;
    var i := 0;
    assert t.states[0..] == t.states;
    while i < |t.states| && end == RanOut
      invariant 0 <= i <= |t.states|
      invariant end == RanOut ==> Continued(events, ScanFrom(t.states[i..], stepCount, planSent)) == total
      invariant end != RanOut ==> Scan(events, end, stepCount) == total
    {
      ghost var (events0, stepCount0, planSent0) := (events, stepCount, planSent);
      var produced;
      produced, stepCount, planSent, end := HandleSnapshot(t.states[i], stepCount, planSent);
      events := events + produced;
      ScanLoopStep(t.states, i, events0, stepCount0, planSent0, total, produced, stepCount, planSent, end);
      i := i + 1;
    }
    if end == RanOut {
      assert t.states[i..] == [];
    }
    assert Scan(events, end, stepCount) == total;
    ghost var before := events;
    match end
    case ReflectionCrash =>
      events := events + [ErrorEvent(ReflectionAttributeError, stepCount + 1)];
    case AnswerSeen =>
      events := events + [CompleteEvent(stepCount + 1)];
    case RanOut =>
      match t.ending
      case Completed =>
        events := events + [CompleteEvent(stepCount + 1)];
      case Failed(RecursionLimit) =>
        events := events + [ErrorEvent(RecursionLimitReached, stepCount + 1)];
      case Failed(NodeFailure) =>
        events := events + [ErrorEvent(NodeRaised, stepCount + 1)];
    assert events == before + [LastEvent(end, stepCount, t.ending)];
  }

  lemma AppendAssoc<T>(a: seq<T>, b: seq<T>, c: seq<T>)
    ensures a + (b + c) == (a + b) + c
  {
  }

  // Properties of event sequences, and how they combine under concatenation.

  predicate NoTerminal(e: seq<Event>) {
    forall k :: 0 <= k < |e| ==> !Terminal(e[k])
  }

  predicate NoPlan(e: seq<Event>) {
    forall k :: 0 <= k < |e| ==> !e[k].PlanEvent?
  }

  predicate AtMostOnePlan(e: seq<Event>) {
    forall a, b :: 0 <= a < b < |e| && e[a].PlanEvent? ==> !e[b].PlanEvent?
  }

  /** Every retrieval event reports a step in `(low, high]`. */
  predicate RetrievalWithin(e: seq<Event>, low: int, high: int) {
    forall k :: 0 <= k < |e| && e[k].RetrievalEvent? ==> low < e[k].step <= high
  }

  predicate RetrievalIncreasing(e: seq<Event>) {
    forall a, b :: 0 <= a < b < |e| && e[a].RetrievalEvent? && e[b].RetrievalEvent? ==> e[a].step < e[b].step
  }

  /** An answer event can only be the last event. */
  predicate AnswerOnlyLast(e: seq<Event>) {
    forall k :: 0 <= k < |e| && e[k].AnswerEvent? ==> k == |e| - 1
  }

  predicate EndsWithAnswer(e: seq<Event>) {
    e != [] && e[|e| - 1].AnswerEvent?
  }

  lemma NoTerminalConcat(a: seq<Event>, b: seq<Event>)
    requires NoTerminal(a) && NoTerminal(b)
    ensures NoTerminal(a + b)
  {
    assert forall k :: |a| <= k < |a + b| ==> (a + b)[k] == b[k - |a|];
  }

  lemma PlanConcat(a: seq<Event>, b: seq<Event>)
    requires AtMostOnePlan(a) && AtMostOnePlan(b)
    requires NoPlan(a) || NoPlan(b)
    ensures AtMostOnePlan(a + b)
    ensures NoPlan(a) && NoPlan(b) ==> NoPlan(a + b)
  {
    var e := a + b;
    forall i, j | 0 <= i < j < |e| && e[i].PlanEvent? ensures !e[j].PlanEvent? {
      if j >= |a| {
        assert e[j] == b[j - |a|];
        if i >= |a| {
          assert e[i] == b[i - |a|];
        }
      }
    }
    if NoPlan(a) && NoPlan(b) {
      assert forall k :: |a| <= k < |e| ==> e[k] == b[k - |a|];
    }
  }

  lemma RetrievalConcat(a: seq<Event>, b: seq<Event>, low: int, mid: int, high: int)
    requires RetrievalIncreasing(a) && RetrievalIncreasing(b)
    requires low <= mid <= high
    requires RetrievalWithin(a, low, mid) && RetrievalWithin(b, mid, high)
    ensures RetrievalIncreasing(a + b) && RetrievalWithin(a + b, low, high)
  {
    var e := a + b;
    assert forall k :: |a| <= k < |e| ==> e[k] == b[k - |a|];
  }

  lemma AnswerConcat(a: seq<Event>, b: seq<Event>)
    requires AnswerOnlyLast(a) && !EndsWithAnswer(a) && AnswerOnlyLast(b)
    ensures AnswerOnlyLast(a + b)
    ensures EndsWithAnswer(a + b) <==> EndsWithAnswer(b)
  {
    var e := a + b;
    assert forall k :: |a| <= k < |e| ==> e[k] == b[k - |a|];
    if b == [] {
      assert e == a;
    }
  }

  /** Unfolding the scan by one snapshot. */
  lemma ScanStep(states: seq<RagState>, stepCount: int, planSent: bool)
    requires states != []
    ensures var v := VisitSnapshot(states[0], stepCount, planSent);
      var rest := ScanFrom(states[1..], v.stepCount, v.planSent);
      ScanFrom(states, stepCount, planSent) ==
        if v.end != RanOut then Scan(v.events, v.end, v.stepCount) else Scan(v.events + rest.events, rest.end, rest.stepCount)
  {
  }

  /** The scan itself never ends the stream. */
  lemma {:induction false} ScanHasNoTerminal(states: seq<RagState>, stepCount: int, planSent: bool)
    ensures NoTerminal(ScanFrom(states, stepCount, planSent).events)
    decreases |states|
  {
    if states != [] {
      var v := VisitSnapshot(states[0], stepCount, planSent);
      VisitEvents(states[0], stepCount, planSent);
      ScanStep(states, stepCount, planSent);
      if v.end == RanOut {
        ScanHasNoTerminal(states[1..], v.stepCount, v.planSent);
        NoTerminalConcat(v.events, ScanFrom(states[1..], v.stepCount, v.planSent).events);
      }
    }
  }

  /** Every stream ends with exactly one completion or error event, and nothing follows it. */
  lemma StreamEndsOnce(t: Trace)
    ensures StreamEvents(t) != []
    ensures Terminal(StreamEvents(t)[|StreamEvents(t)| - 1])
    ensures forall k :: 0 <= k < |StreamEvents(t)| - 1 ==> !Terminal(StreamEvents(t)[k])
  {
    ScanHasNoTerminal(t.states, 0, false);
  }

  /** No plan event once one was sent, and never two in one scan. */
  lemma {:induction false} ScanPlanOnce(states: seq<RagState>, stepCount: int, planSent: bool)
    ensures AtMostOnePlan(ScanFrom(states, stepCount, planSent).events)
    ensures planSent ==> NoPlan(ScanFrom(states, stepCount, planSent).events)
    decreases |states|
  {
    if states != [] {
      var v := VisitSnapshot(states[0], stepCount, planSent);
      VisitEvents(states[0], stepCount, planSent);
      ScanStep(states, stepCount, planSent);
      if v.end == RanOut {
        ScanPlanOnce(states[1..], v.stepCount, v.planSent);
        PlanConcat(v.events, ScanFrom(states[1..], v.stepCount, v.planSent).events);
      }
    }
  }

  /** A stream carries at most one plan event. */
  lemma PlanEventAtMostOnce(t: Trace)
    ensures forall a, b :: 0 <= a < b < |StreamEvents(t)| && StreamEvents(t)[a].PlanEvent? ==> !StreamEvents(t)[b].PlanEvent?
  {
    var r := ScanFrom(t.states, 0, false);
    ScanPlanOnce(t.states, 0, false);
    assert AtMostOnePlan(r.events);
    assert forall k :: 0 <= k < |r.events| ==> StreamEvents(t)[k] == r.events[k];
  }

  /**
   * The step counter never decreases, and the retrieval events of a scan report
   * strictly increasing steps, each beyond the counter the scan started from and
   * at most one past the counter it ends with.
   */
  lemma {:induction false} ScanRetrievalSteps(states: seq<RagState>, stepCount: int, planSent: bool)
    ensures var r := ScanFrom(states, stepCount, planSent);
      && r.stepCount >= stepCount
      && RetrievalWithin(r.events, stepCount + 1, r.stepCount + 1)
      && RetrievalIncreasing(r.events)
    decreases |states|
  {
    if states != [] {
      var v := VisitSnapshot(states[0], stepCount, planSent);
      VisitEvents(states[0], stepCount, planSent);
      ScanStep(states, stepCount, planSent);
      if v.end == RanOut {
        var rest := ScanFrom(states[1..], v.stepCount, v.planSent);
        ScanRetrievalSteps(states[1..], v.stepCount, v.planSent);
        RetrievalConcat(v.events, rest.events, stepCount + 1, v.stepCount + 1, rest.stepCount + 1);
      }
    }
  }

  /** Retrieval events report strictly increasing step numbers. */
  lemma RetrievalStepsIncrease(t: Trace)
    ensures forall a, b :: 0 <= a < b < |StreamEvents(t)| && StreamEvents(t)[a].RetrievalEvent? && StreamEvents(t)[b].RetrievalEvent? ==>
      StreamEvents(t)[a].step < StreamEvents(t)[b].step
  {
    var r := ScanFrom(t.states, 0, false);
    ScanRetrievalSteps(t.states, 0, false);
    assert RetrievalIncreasing(r.events);
    assert forall k :: 0 <= k < |r.events| ==> StreamEvents(t)[k] == r.events[k];
  }

  /** An answer event is the last event of the scan, and it is there exactly when the scan stopped at an answer. */
  lemma {:induction false} ScanAnswerLast(states: seq<RagState>, stepCount: int, planSent: bool)
    ensures AnswerOnlyLast(ScanFrom(states, stepCount, planSent).events)
    ensures ScanFrom(states, stepCount, planSent).end == AnswerSeen <==> EndsWithAnswer(ScanFrom(states, stepCount, planSent).events)
    decreases |states|
  {
    if states != [] {
      var v := VisitSnapshot(states[0], stepCount, planSent);
      VisitEvents(states[0], stepCount, planSent);
      ScanStep(states, stepCount, planSent);
      if v.end == RanOut {
        ScanAnswerLast(states[1..], v.stepCount, v.planSent);
        AnswerConcat(v.events, ScanFrom(states[1..], v.stepCount, v.planSent).events);
      }
    }
  }

  /** After an answer event only the completion event follows: no further snapshot is processed. */
  lemma AnswerThenComplete(t: Trace, k: nat)
    requires k < |StreamEvents(t)| && StreamEvents(t)[k].AnswerEvent?
    ensures k == |StreamEvents(t)| - 2
    ensures StreamEvents(t)[k + 1].CompleteEvent?
  {
    var r := ScanFrom(t.states, 0, false);
    ScanAnswerLast(t.states, 0, false);
    assert Terminal(StreamEvents(t)[|r.events|]);
    assert k < |r.events| && r.events[k] == StreamEvents(t)[k];
  }

  /** The reflection branch needs more past steps than the step counter; with one past step per step index it is never taken. */
  lemma {:induction false} ScanNeverCrashes(states: seq<RagState>, stepCount: int, planSent: bool)
    requires forall k :: 0 <= k < |states| ==> |states[k].pastSteps| == states[k].index
    ensures ScanFrom(states, stepCount, planSent).end != ReflectionCrash
    decreases |states|
  {
    if states != [] {
      var v := VisitSnapshot(states[0], stepCount, planSent);
      ScanStep(states, stepCount, planSent);
      if v.end == RanOut {
        ScanNeverCrashes(states[1..], v.stepCount, v.planSent);
      }
    }
  }

  /** Every snapshot has one past step per completed step. */
  predicate OneStepEach(states: seq<RagState>) {
    forall k :: 0 <= k < |states| ==> |states[k].pastSteps| == states[k].index
  }

  /** No snapshot carries a final answer. */
  predicate NoAnswer(states: seq<RagState>) {
    forall k :: 0 <= k < |states| ==> states[k].finalAnswer == ""
  }

  /** Without a final answer in any snapshot, and with one past step per step, the loop visits every snapshot. */
  lemma {:induction false} ScanRunsOut(states: seq<RagState>, stepCount: int, planSent: bool)
    requires OneStepEach(states) && NoAnswer(states)
    ensures ScanFrom(states, stepCount, planSent).end == RanOut
    decreases |states|
  {
    if states != [] {
      ScanStep(states, stepCount, planSent);
      var v := VisitSnapshot(states[0], stepCount, planSent);
      assert states[0].finalAnswer == "" && |states[0].pastSteps| == states[0].index;
      ScanRunsOut(states[1..], v.stepCount, v.planSent);
    }
  }

  /**
   * When a final answer appears in the last snapshot only, with one past step per
   * step throughout, the loop breaks there, and its last event is the answer,
   * reporting the step after that snapshot's index.
   */
  lemma {:induction false} ScanDeliversLast(states: seq<RagState>, stepCount: int, planSent: bool)
    requires states != [] && OneStepEach(states)
    requires NoAnswer(states[..|states| - 1]) && states[|states| - 1].finalAnswer != ""
    ensures var r := ScanFrom(states, stepCount, planSent); var last := states[|states| - 1];
      r.end == AnswerSeen && r.events != [] && r.events[|r.events| - 1] == AnswerEvent(last.finalAnswer, last.index + 1)
    decreases |states|
  {
    ScanStep(states, stepCount, planSent);
    var v := VisitSnapshot(states[0], stepCount, planSent);
    assert |states[0].pastSteps| == states[0].index;
    if |states| > 1 {
      assert states[0] == states[..|states| - 1][0];
      var rest := states[1..];
      var before, restBefore := states[..|states| - 1], rest[..|rest| - 1];
      forall k | 0 <= k < |restBefore| ensures restBefore[k].finalAnswer == "" {
        assert restBefore[k] == before[k + 1];
      }
      ScanDeliversLast(rest, v.stepCount, v.planSent);
    }
  }

  /** A first snapshot that yields no event and does not stop the loop leaves the scan to the rest. */
  lemma ScanSkipsQuiet(states: seq<RagState>, stepCount: int, planSent: bool)
    requires states != []
    requires var v := VisitSnapshot(states[0], stepCount, planSent); v.events == [] && v.end == RanOut
    ensures var v := VisitSnapshot(states[0], stepCount, planSent);
      ScanFrom(states, stepCount, planSent).events == ScanFrom(states[1..], v.stepCount, v.planSent).events
  {
  }

  /** The events of a scan open with those of its first snapshot. */
  lemma ScanOpensWithVisit(states: seq<RagState>, stepCount: int, planSent: bool)
    requires states != []
    ensures var v := VisitSnapshot(states[0], stepCount, planSent); var ev := ScanFrom(states, stepCount, planSent).events;
      |v.events| <= |ev| && ev[..|v.events|] == v.events
  {
  }

  /**
   * When the first snapshot has no plan, no index and no past steps, and the
   * second brings plan `p` at index 0, the stream opens with the plan event of `p`.
   */
  lemma ScanOpensWithPlan(states: seq<RagState>, p: Plan)
    requires |states| >= 2
    requires states[0].plan.None? && states[0].index == 0 && states[0].pastSteps == [] && states[0].finalAnswer == ""
    requires states[1].plan == Some(p) && states[1].index == 0 && states[1].pastSteps == []
    ensures var ev := ScanFrom(states, 0, false).events;
      ev != [] && ev[0] == PlanEvent(|p.steps|, SubQuestions(p.steps))
  {
    ScanSkipsQuiet(states, 0, false);
    ScanOpensWithVisit(states[1..], 0, false);
  }

  /**
   * On a trace with one past step per completed step, whose final answer can only
   * be in the last snapshot of a completed run: a completed trace ending with an
   * answer streams that answer, reporting the step after the last index, just
   * before the completion event; a failed trace ends with the error event of its
   * failure.
   */
  lemma StreamDelivers(t: Trace)
    requires t.states != [] && OneStepEach(t.states) && Answering.AnswerAtEnd(t)
    ensures var ev := StreamEvents(t); var last := t.states[|t.states| - 1];
      t.ending == Completed && last.finalAnswer != "" ==>
        |ev| >= 2 && ev[|ev| - 2] == AnswerEvent(last.finalAnswer, last.index + 1) && ev[|ev| - 1].CompleteEvent?
    ensures var ev := StreamEvents(t);
      t.ending.Failed? ==>
        ev[|ev| - 1].ErrorEvent? &&
        ev[|ev| - 1].cause == (if t.ending.failure == RecursionLimit then RecursionLimitReached else NodeRaised)
  {
    var last := t.states[|t.states| - 1];
    if t.ending == Completed && last.finalAnswer != "" {
      ScanDeliversLast(t.states, 0, false);
    } else if t.ending.Failed? {
      ScanRunsOut(t.states, 0, false);
    }
  }

  /**
   * On a trace whose every snapshot has one past step per completed step, the
   * reflection `AttributeError` never occurs, and a completed trace ends with a
   * completion event.
   */
  lemma StreamOnTrace(t: Trace)
    requires OneStepEach(t.states)
    ensures forall k :: 0 <= k < |StreamEvents(t)| && StreamEvents(t)[k].ErrorEvent? ==>
      StreamEvents(t)[k].cause != ReflectionAttributeError
    ensures t.ending == Completed ==> StreamEvents(t)[|StreamEvents(t)| - 1].CompleteEvent?
  {
    ScanNeverCrashes(t.states, 0, false);
    ScanHasNoTerminal(t.states, 0, false);
  }

  /** A run of the graph has one past step per completed step in every snapshot, and its final answer only at the end. */
  lemma RunStreamable(env: Env, question: string, maxSteps: int, limit: nat)
    ensures var t := Run(env, question, maxSteps, limit);
      t.states != [] && OneStepEach(t.states) && Answering.AnswerAtEnd(t)
  {
    var t := Run(env, question, maxSteps, limit);
    RunInv(env, question, maxSteps, limit);
    forall k | 0 <= k < |t.states| ensures |t.states[k].pastSteps| == t.states[k].index {
      assert Inv(env.config, t.states[k]);
    }
    Answering.RunAnswersAtEnd(env, question, maxSteps, limit);
  }

  /** Once the planner answers within the budget, the stream of the run opens with the plan event of that plan. */
  lemma StreamOpensWithPlan(env: Env, question: string, maxSteps: int, limit: nat)
    requires limit > 0 && env.planner(question).Answered?
    ensures var ev := StreamEvents(Run(env, question, maxSteps, limit)); var p := env.planner(question).value;
      ev[0] == PlanEvent(|p.steps|, SubQuestions(p.steps))
  {
    var t := Run(env, question, maxSteps, limit);
    RunOpensWithPlan(env, question, maxSteps, limit);
    ScanOpensWithPlan(t.states, env.planner(question).value);
  }

  /**
   * On a run of the graph the reflection event is never attempted, so the stream
   * never reports its `AttributeError`. A completed run's stream ends with the
   * completion event, preceded by the run's final answer when there is one; a
   * failed run's stream ends with the error event of its failure; and once the
   * planner answers within the budget, the stream opens with the plan event.
   */
  lemma StreamOnRun(env: Env, question: string, maxSteps: int, limit: nat)
    ensures var events := StreamEvents(Run(env, question, maxSteps, limit));
      forall k :: 0 <= k < |events| && events[k].ErrorEvent? ==> events[k].cause != ReflectionAttributeError
    ensures var t := Run(env, question, maxSteps, limit);
      t.ending == Completed ==> StreamEvents(t)[|StreamEvents(t)| - 1].CompleteEvent?
    ensures var t := Run(env, question, maxSteps, limit); var ev := StreamEvents(t);
      t.ending == Completed && Answering.FinalText(t) != "" ==>
        |ev| >= 2 && ev[|ev| - 2] == AnswerEvent(Answering.FinalText(t), t.states[|t.states| - 1].index + 1)
    ensures var t := Run(env, question, maxSteps, limit); var ev := StreamEvents(t);
      t.ending.Failed? ==>
        ev[|ev| - 1].ErrorEvent? &&
        ev[|ev| - 1].cause == (if t.ending.failure == RecursionLimit then RecursionLimitReached else NodeRaised)
    ensures var ev := StreamEvents(Run(env, question, maxSteps, limit));
      limit > 0 && env.planner(question).Answered? ==>
        ev[0] == PlanEvent(|env.planner(question).value.steps|, SubQuestions(env.planner(question).value.steps))
  {
    var t := Run(env, question, maxSteps, limit);
    RunStreamable(env, question, maxSteps, limit);
    StreamOnTrace(t);
    StreamDelivers(t);
    if limit > 0 && env.planner(question).Answered? {
      StreamOpensWithPlan(env, question, maxSteps, limit);
    }
  }

  /** `stream_deep_rag_response`: compile if needed, then stream a run with the configured step budget. */
  method StreamDeepRagResponse(system: Answering.DeepRagSystem, question: string) returns (events: seq<Event>)
    modifies system
    ensures system.compiled
    ensures old(system.compiled) ==> system.compileCalls == old(system.compileCalls) && system.compilations == old(system.compilations)
    ensures !old(system.compiled) ==> system.compileCalls == old(system.compileCalls) + 1 && system.compilations == old(system.compilations) + 1
    ensures events == StreamEvents(Run(system.env, question, system.settings.maxReasoningIterations, RecursionLimitDefault))
  {
    if !system.compiled {
      system.Compile();
    }
    var t := Run(system.env, question, system.settings.maxReasoningIterations, RecursionLimitDefault);
    events := StreamFromTrace(t);
  }
}
