/** The evidence trace around a run: begun first, closed by the terminal event or by an abort. */
module EvidenceBracket {
  import opened Common
  import opened Scripts
  import opened RunTimeline
  import opened RunStream
  import opened RunLaws

  datatype Mark = Begin | Append | FinishEvidence | Abort | Deliver(event: Act)

  // ----- What the bracket does -----

  /** The terminal event finishes the evidence first and is delivered after the diff; any other event is
      appended to the evidence and delivered. */
  function MarksOf(event: Act): seq<Mark> {
    if Terminal(event) then [FinishEvidence, Deliver(Emit("tool", "completed")), Deliver(event)]
    else [Append, Deliver(event)]
  }

  function Relayed(events: seq<Act>): seq<Mark> {
    if events == [] then [] else MarksOf(events[0]) + Relayed(events[1..])
  }

  /** The try block over the events of a run that goes on as `inner`. */
  function TryScript(events: seq<Act>, inner: Flow): Script<Mark> {
    Before([Begin], Script(Relayed(events), inner))
  }

  /** The call was made and came back. */
  ghost predicate Made(fault: Faults, marks: seq<Mark>, m: Mark) {
    exists i :: 0 <= i < |marks| && marks[i] == m && fault(i).None?
  }

  /** The whole bracket: an exception or a cancellation aborts begun and unfinished evidence and is raised
      again; the closing of the generator passes the except clauses by. */
  ghost function BracketOf(fault: Faults, events: seq<Act>, inner: Flow): Script<Mark> {
    var s := Play(fault, [], TryScript(events, inner));
    if s.flow.Stopped? && s.flow.fault != Closed && Made(fault, s.acts, Begin) && !Made(fault, s.acts, FinishEvidence)
    then Play(fault, s.acts, Script([Abort], s.flow))
    else s
  }

  // ----- The program -----

  method Record(fault: Faults, marks: seq<Mark>, m: Mark) returns (r: seq<Mark>, flow: Flow)
    ensures r == marks + [m] && flow == if fault(|marks|).Some? then Stopped(fault(|marks|).value) else Go
    ensures forall rest ::
      Play(fault, marks, Before([m], rest)) == if flow.Go? then Play(fault, r, rest) else Script(r, flow)
    ensures forall x :: Made(fault, r, x) <==> Made(fault, marks, x) || (x == m && flow.Go?)
  {
    r, flow := Perform(fault, marks, [m]);
    forall x ensures Made(fault, r, x) <==> Made(fault, marks, x) || (x == m && flow.Go?) {
      MadeOneMore(fault, marks, m, x);
    }
  }

  lemma MadeOneMore(fault: Faults, marks: seq<Mark>, m: Mark, x: Mark)
    ensures Made(fault, marks + [m], x) <==> Made(fault, marks, x) || (x == m && fault(|marks|).None?)
  {
    var r := marks + [m];
    if Made(fault, marks, x) {
      var i :| 0 <= i < |marks| && marks[i] == x && fault(i).None?;
      assert r[i] == x;
    }
    assert r[|marks|] == m;
  }

  /** _runtime_timeline_events for the graph profile. `trace` and `inner` are the run inside. */
  method RuntimeTimeline(run: Run, out: Outside, inside: Faults, fault: Faults)
    returns (trace: seq<Act>, inner: Flow, marks: seq<Mark>, flow: Flow)
    ensures Script(trace, inner) == RunOf(run, out, inside)
    ensures Script(marks, flow) == BracketOf(fault, Emitted(trace), inner)
  {
    trace, inner := Deerflow(run, out, inside);
    var events := EmittedEvents(trace);
    marks, flow := Bracket(fault, events, inner);
  }

  method Bracket(fault: Faults, events: seq<Act>, inner: Flow) returns (marks: seq<Mark>, flow: Flow)
    ensures Script(marks, flow) == BracketOf(fault, events, inner)
  {
    var started, finished;
    marks, flow, started, finished := Relay(fault, events, inner);
    if flow.Stopped? && flow.fault != Closed && started && !finished {
      var raised;
      marks, raised := Record(fault, marks, Abort);
      if raised.Stopped? { flow := raised; }
    }
  }

  /** The body of the try block. */
  method Relay(fault: Faults, events: seq<Act>, inner: Flow)
    returns (marks: seq<Mark>, flow: Flow, started: bool, finished: bool)
    ensures Script(marks, flow) == Play(fault, [], TryScript(events, inner))
    ensures (started <==> Made(fault, marks, Begin)) && (finished <==> Made(fault, marks, FinishEvidence))
  {
    finished := false;
    marks, flow := Record(fault, [], Begin);
    started := flow.Go?;
    if !started { return; }
    for i := 0 to |events|
      invariant flow.Go? && Made(fault, marks, Begin)
      invariant Play(fault, [], TryScript(events, inner)) == Play(fault, marks, Script(Relayed(events[i..]), inner))
      invariant finished <==> Made(fault, marks, FinishEvidence)
    {
      RelayedNext(events, i, inner);
      var closed;
      marks, flow, closed := RelayEvent(fault, marks, events[i]);
      finished := finished || closed;
      if !flow.Go? { return; }
    }
    flow := inner;
  }

  lemma RelayedNext(events: seq<Act>, i: nat, inner: Flow)
    requires i < |events|
    ensures Script(Relayed(events[i..]), inner) == Before(MarksOf(events[i]), Script(Relayed(events[i + 1..]), inner))
  {
    assert events[i..][1..] == events[i + 1..];
  }

  method RelayEvent(fault: Faults, before: seq<Mark>, event: Act)
    returns (marks: seq<Mark>, flow: Flow, closed: bool)
    ensures forall rest :: Play(fault, before, Before(MarksOf(event), rest)) ==
                           if flow.Go? then Play(fault, marks, rest) else Script(marks, flow)
    ensures Made(fault, before, Begin) ==> Made(fault, marks, Begin)
    ensures Made(fault, marks, FinishEvidence) <==> Made(fault, before, FinishEvidence) || closed
  {
    if Terminal(event) {
      marks, flow := Record(fault, before, FinishEvidence);
      closed := flow.Go?;
      if flow.Go? { marks, flow := Record(fault, marks, Deliver(Emit("tool", "completed"))); }
    } else {
      closed := false;
      marks, flow := Record(fault, before, Append);
    }
    if flow.Go? { marks, flow := Record(fault, marks, Deliver(event)); }
    forall rest
      ensures Play(fault, before, Before(MarksOf(event), rest)) ==
              if flow.Go? then Play(fault, marks, rest) else Script(marks, flow)
    {
      InOrder(event, rest);
    }
  }

  lemma InOrder(event: Act, rest: Script<Mark>)
    ensures Before(MarksOf(event), rest) ==
            if Terminal(event)
            then Before([FinishEvidence], Before([Deliver(Emit("tool", "completed"))], Before([Deliver(event)], rest)))
            else Before([Append], Before([Deliver(event)], rest))
  {
  }

  /** The run's events, as the generator hands them out. */
  method EmittedEvents(trace: seq<Act>) returns (events: seq<Act>)
    ensures events == Emitted(trace)
  {
    events := [];
    for i := 0 to |trace|
      invariant events == Emitted(trace[..i])
    {
      assert trace[..i + 1][..i] == trace[..i];
      if trace[i].Emit? { events := events + [trace[i]]; }
    }
    assert trace[..|trace|] == trace;
  }

  // ----- The laws of the bracket -----

  /** What the run inside hands on: only the last event may be terminal, and is when the run returned. */
  ghost predicate Relayable(events: seq<Act>, inner: Flow) {
    && !inner.Go?
    && (forall i :: 0 <= i < |events| - 1 ==> !Terminal(events[i]))
    && (inner.Returned? ==> EndsTerminal(events))
  }

  predicate EndsTerminal(events: seq<Act>) { events != [] && Terminal(events[|events| - 1]) }

  /** Of what is done for these events only the third from the end can finish evidence, and does when the
      last event is terminal; only the last can deliver a terminal event; nothing begins or aborts. */
  lemma {:induction false} RelayedMarks(events: seq<Act>)
    requires forall i :: 0 <= i < |events| - 1 ==> !Terminal(events[i])
    ensures var marks := Relayed(events); var n := |marks|;
      && (EndsTerminal(events) ==> n >= 3 && marks[n - 3] == FinishEvidence && marks[n - 1] == Deliver(events[|events| - 1]))
      && forall i :: 0 <= i < n ==>
           && marks[i] != Begin && marks[i] != Abort
           && (marks[i] == FinishEvidence <==> EndsTerminal(events) && i == n - 3)
           && (marks[i].Deliver? && Terminal(marks[i].event) ==> EndsTerminal(events) && i == n - 1)
  {
    if |events| > 1 {
      var first, rest := MarksOf(events[0]), Relayed(events[1..]);
      RelayedMarks(events[1..]);
      assert Relayed(events) == first + rest && |first| == 2;
    } else if |events| == 1 {
      assert Relayed(events) == MarksOf(events[0]);
    }
  }

  /** What is handed to the consumer, in order. */
  function Deliveries(marks: seq<Mark>): seq<Act> {
    if marks == [] then []
    else (if marks[0].Deliver? then [marks[0].event] else []) + Deliveries(marks[1..])
  }

  lemma {:induction false} DeliveriesJoin(a: seq<Mark>, b: seq<Mark>)
    ensures Deliveries(a + b) == Deliveries(a) + Deliveries(b)
  {
    if a == [] {
      assert a + b == b;
    } else {
      var first := if a[0].Deliver? then [a[0].event] else [];
      assert (a + b)[0] == a[0] && (a + b)[1..] == a[1..] + b;
      DeliveriesJoin(a[1..], b);
      assert first + (Deliveries(a[1..]) + Deliveries(b)) == first + Deliveries(a[1..]) + Deliveries(b);
    }
  }

  /** Every event is delivered, in order; only the diff comes in between, right before the terminal event. */
  lemma {:induction false} RelayedDeliversAll(events: seq<Act>)
    requires forall i :: 0 <= i < |events| - 1 ==> !Terminal(events[i])
    ensures var n := |events| - 1;
      Deliveries(Relayed(events)) ==
        if EndsTerminal(events) then events[..n] + [Emit("tool", "completed"), events[n]] else events
  {
    if |events| == 1 {
      DeliveriesOfOne(events[0]);
      assert Relayed(events) == MarksOf(events[0]);
      assert events == [events[0]] && events[..0] == [];
    } else if events != [] {
      var rest := events[1..];
      var n := |events| - 1;
      RelayedDeliversAll(rest);
      DeliveriesJoin(MarksOf(events[0]), Relayed(rest));
      DeliveriesOfOne(events[0]);
      assert events == [events[0]] + rest && events[..n] == [events[0]] + rest[..n - 1] && rest[n - 1] == events[n];
    }
  }

  lemma DeliveriesOfOne(event: Act)
    ensures Deliveries(MarksOf(event)) == if Terminal(event) then [Emit("tool", "completed"), event] else [event]
  {
    var diff, last := Deliver(Emit("tool", "completed")), Deliver(event);
    assert [FinishEvidence, diff, last] == [FinishEvidence] + ([diff] + [last]) && [Append, last] == [Append] + [last];
    DeliveriesJoin([FinishEvidence], [diff] + [last]);
    DeliveriesJoin([diff], [last]);
    DeliveriesJoin([Append], [last]);
  }

  /** Every event that is not terminal is appended once, right before it is delivered: each append is
      followed by such a delivery, and there is one call for each event besides its delivery, and the diff. */
  lemma {:induction false} AppendedBeforeDelivered(events: seq<Act>)
    requires forall i :: 0 <= i < |events| - 1 ==> !Terminal(events[i])
    ensures var marks := Relayed(events);
      && |marks| == 2 * |events| + (if EndsTerminal(events) then 1 else 0)
      && forall p :: 0 <= p < |marks| && marks[p] == Append ==>
           p + 1 < |marks| && marks[p + 1].Deliver? && !Terminal(marks[p + 1].event)
  {
    if events != [] {
      var first, rest := MarksOf(events[0]), Relayed(events[1..]);
      AppendedBeforeDelivered(events[1..]);
      assert Relayed(events) == first + rest;
      assert |events| > 1 ==> events[1..][|events| - 2] == events[|events| - 1];
      forall p | 0 <= p < |first + rest| && (first + rest)[p] == Append
        ensures p + 1 < |first + rest| && (first + rest)[p + 1].Deliver? && !Terminal((first + rest)[p + 1].event)
      {
        if p >= |first| { assert rest[p - |first|] == Append; }
      }
    }
  }

  /** The first of these calls that a fault hits; `end` when none is. */
  function FirstFault(fault: Faults, start: nat, end: nat): (k: nat)
    requires start <= end
    ensures start <= k <= end && (k < end ==> fault(k).Some?)
    ensures Unhindered(fault, start, k)
    decreases end as int - start as int
  {
    if start == end || fault(start).Some? then start else FirstFault(fault, start + 1, end)
  }

  /** What ended the try block: the first fault, or else the run inside. */
  function Ended(fault: Faults, events: seq<Act>, inner: Flow): Flow {
    var n := |TryScript(events, inner).acts|;
    var k := FirstFault(fault, 0, n);
    if k < n then Stopped(fault(k).value) else inner
  }

  /** The calls made in the try block: up to and including the first one hit. */
  function Tried(fault: Faults, events: seq<Act>, inner: Flow): seq<Mark> {
    var marks := TryScript(events, inner).acts;
    var k := FirstFault(fault, 0, |marks|);
    if k < |marks| then marks[..k + 1] else marks
  }

  /** Evidence had begun and not finished: the first fault hit neither the begin nor came after the
      finish. */
  predicate Interrupted(fault: Faults, events: seq<Act>, inner: Flow) {
    var n := |TryScript(events, inner).acts|;
    var k := FirstFault(fault, 0, n);
    k > 0 && !(EndsTerminal(events) && k > n - 3)
  }

  lemma TryPlayed(fault: Faults, events: seq<Act>, inner: Flow)
    ensures Play(fault, [], TryScript(events, inner)) == Script(Tried(fault, events, inner), Ended(fault, events, inner))
  {
    var s := TryScript(events, inner);
    var done, flow := PlayCut(fault, [], s);
    var k := FirstFault(fault, 0, |s.acts|);
    assert [] + done == done;
    if k < |s.acts| {
      assert !Unhindered(fault, 0, |s.acts|);
      assert |done| - 1 == k;
    }
  }

  lemma TriedMade(fault: Faults, events: seq<Act>, inner: Flow)
    requires Relayable(events, inner)
    ensures var marks, n := Tried(fault, events, inner), |TryScript(events, inner).acts|;
      var k := FirstFault(fault, 0, n);
      && (Made(fault, marks, Begin) <==> k > 0)
      && (Made(fault, marks, FinishEvidence) <==> EndsTerminal(events) && k > n - 3)
      && !Made(fault, marks, Abort)
  {
    TryShape(events, inner);
    PrefixMade(fault, TryScript(events, inner).acts, EndsTerminal(events), Tried(fault, events, inner),
               FirstFault(fault, 0, |TryScript(events, inner).acts|));
  }

  /** Begin comes first and only there; only the third from the end can finish evidence, only the last can
      deliver a terminal event, and both are there exactly when the events end with one. */
  ghost predicate MarksShape(all: seq<Mark>, ends: bool) {
    var n := |all|;
    && n >= 1 && all[0] == Begin && (ends ==> n >= 4 && all[n - 3] == FinishEvidence)
    && forall i :: 0 <= i < n ==>
         && (all[i] == Begin ==> i == 0) && all[i] != Abort
         && (all[i] == FinishEvidence ==> ends && i == n - 3)
         && (all[i].Deliver? && Terminal(all[i].event) ==> ends && i == n - 1)
  }

  lemma TryShape(events: seq<Act>, inner: Flow)
    requires forall i :: 0 <= i < |events| - 1 ==> !Terminal(events[i])
    ensures MarksShape(TryScript(events, inner).acts, EndsTerminal(events))
  {
    RelayedMarks(events);
    var all := TryScript(events, inner).acts;
    assert all[0] == Begin && forall i :: 1 <= i < |all| ==> all[i] == Relayed(events)[i - 1];
  }

  /** Of the calls up to the k-th, all but the k-th came back. */
  lemma PrefixMade(fault: Faults, all: seq<Mark>, ends: bool, marks: seq<Mark>, k: nat)
    requires MarksShape(all, ends) && k <= |all| && Unhindered(fault, 0, k) && (k < |all| ==> fault(k).Some?)
    requires marks == if k < |all| then all[..k + 1] else all
    ensures Made(fault, marks, Begin) <==> k > 0
    ensures Made(fault, marks, FinishEvidence) <==> ends && k > |all| - 3
    ensures !Made(fault, marks, Abort)
  {
    if k > 0 { assert marks[0] == Begin; }
    if ends && k > |all| - 3 { assert marks[|all| - 3] == FinishEvidence; }
  }

  /** The whole bracket in terms of what its caller decides: the events, how the run inside ended, and
      which calls are hit. It makes the calls of the try block up to the first one hit, and one abort if
      that left evidence begun and unfinished and the generator was not closed; a failing abort replaces
      the end. */
  lemma BracketExactly(fault: Faults, events: seq<Act>, inner: Flow)
    requires Relayable(events, inner)
    ensures var b, tried, ended := BracketOf(fault, events, inner), Tried(fault, events, inner), Ended(fault, events, inner);
      if ended.Stopped? && ended.fault != Closed && Interrupted(fault, events, inner)
      then b == Script(tried + [Abort], if fault(|tried|).Some? then Stopped(fault(|tried|).value) else ended)
      else b == Script(tried, ended)
  {
    TryPlayed(fault, events, inner);
    TriedMade(fault, events, inner);
  }

  /** Evidence that was begun is still open. */
  ghost predicate Open(fault: Faults, marks: seq<Mark>) {
    Made(fault, marks, Begin) && !Made(fault, marks, FinishEvidence) && !Made(fault, marks, Abort)
  }

  /** Evidence is left open exactly when, after its begin and before its finish was through, the consumer
      closed the generator, or anything else ended the block and the abort's own call was hit as well. */
  lemma LeftOpenExactly(fault: Faults, events: seq<Act>, inner: Flow)
    requires Relayable(events, inner)
    ensures var tried, ended := Tried(fault, events, inner), Ended(fault, events, inner);
      Open(fault, BracketOf(fault, events, inner).acts) <==>
        && Interrupted(fault, events, inner)
        && (ended == Stopped(Closed) || fault(|tried|).Some?)
  {
    BracketExactly(fault, events, inner);
    TriedMade(fault, events, inner);
    var tried := Tried(fault, events, inner);
    MadeOneMore(fault, tried, Abort, Begin);
    MadeOneMore(fault, tried, Abort, FinishEvidence);
    MadeOneMore(fault, tried, Abort, Abort);
  }

  /** No call closes evidence after another has; a terminal event is delivered only by the last call; and
      the bracket returns exactly when the run inside did and none of its calls was hit. */
  lemma ClosedOnce(fault: Faults, events: seq<Act>, inner: Flow)
    requires Relayable(events, inner)
    ensures var b := BracketOf(fault, events, inner);
      && !(Made(fault, b.acts, FinishEvidence) && Made(fault, b.acts, Abort))
      && (forall i, j :: 0 <= i < j < |b.acts| && b.acts[i] == b.acts[j] ==> b.acts[i] !in {FinishEvidence, Abort})
      && (forall i :: 0 <= i < |b.acts| - 1 ==> !(b.acts[i].Deliver? && Terminal(b.acts[i].event)))
      && (b.flow.Returned? <==> inner.Returned? && Unhindered(fault, 0, |TryScript(events, inner).acts|))
      && (b.flow.Returned? ==> b.acts == TryScript(events, inner).acts && Made(fault, b.acts, FinishEvidence))
  {
    BracketExactly(fault, events, inner);
    TriedMade(fault, events, inner);
    TriedShape(fault, events, inner);
    MadeOneMore(fault, Tried(fault, events, inner), Abort, FinishEvidence);
  }

  lemma TriedShape(fault: Faults, events: seq<Act>, inner: Flow)
    requires Relayable(events, inner)
    ensures var tried := Tried(fault, events, inner); var n := |TryScript(events, inner).acts|;
      && (forall i :: 0 <= i < |tried| ==> tried[i] != Abort)
      && (forall i, j :: 0 <= i < j < |tried| && tried[i] == tried[j] ==> tried[i] != FinishEvidence)
      && (forall i :: 0 <= i < |tried| && tried[i].Deliver? && Terminal(tried[i].event) ==>
            i == |tried| - 1 && !Interrupted(fault, events, inner))
  {
    TryShape(events, inner);
  }

  /** The laws hold of every run with a silent adapter. */
  lemma RunsAreRelayable(run: Run, out: Outside, inside: Faults)
    requires AdapterSilent(out)
    ensures Relayable(Emitted(RunOf(run, out, inside).acts), RunOf(run, out, inside).flow)
  {
    EventsOfRun(run, out, inside);
    RunEnds(run, out, inside);
  }

  /** Evidence is left open: a resumed run whose plan is missing yields its error event, and the consumer
      closes the generator there. */
  lemma AbandonedRun() returns (run: Run, out: Outside, inside: Faults, fault: Faults)
    ensures AdapterSilent(out) && fault(2) == Some(Closed) && forall i :: i != 2 ==> fault(i).None?
    ensures Open(fault, BracketOf(fault, Emitted(RunOf(run, out, inside).acts), RunOf(run, out, inside).flow).acts)
  {
    run := Run(Enforce, Some("once"), 1, true);
    out := Outside(PlanMissing, None, CheckpointMissing, false, None, 0, true, None, NoCatalog,
                   None, false, [], "", None, CompareRaised, false, []);
    inside := _ => None;
    fault := i => if i == 2 then Some(Closed) else None;
    MissingPlan(run, out, inside);
    AbandonedBracket(fault);
  }

  lemma AbandonedBracket(fault: Faults)
    requires fault(2) == Some(Closed) && forall i :: i != 2 ==> fault(i).None?
    ensures Open(fault, BracketOf(fault, [Emit("harness", "error"), Emit("terminal", "error")], Returned).acts)
  {
    var events := [Emit("harness", "error"), Emit("terminal", "error")];
    assert Relayed(events[1..]) == MarksOf(events[1]);
    assert |TryScript(events, Returned).acts| == 6;
    assert FirstFault(fault, 2, 6) == 2 && FirstFault(fault, 1, 6) == 2 && FirstFault(fault, 0, 6) == 2;
    LeftOpenExactly(fault, events, Returned);
  }

  lemma MissingPlan(run: Run, out: Outside, inside: Faults)
    requires Guarded(run) && out.planLoad.PlanMissing? && forall i :: inside(i).None?
    ensures Emitted(RunOf(run, out, inside).acts) == [Emit("harness", "error"), Emit("terminal", "error")]
    ensures RunOf(run, out, inside).flow == Returned
  {
    var a, b, c := Call("load plan for run"), Emit("harness", "error"), Emit("terminal", "error");
    MissingPlanScript(run, out);
    EndsEarly(inside, OpeningScript(run, out), BodyScript(run, out), ClosingScript(ReplyText(out)));
    OneMoreAct([], a);
    OneMoreAct([] + [a], b);
    OneMoreAct([] + [a] + [b], c);
    assert [a, b, c] == [] + [a] + [b] + [c];
  }

  lemma MissingPlanScript(run: Run, out: Outside)
    requires Guarded(run) && out.planLoad.PlanMissing?
    ensures OpeningScript(run, out) ==
            Script([Call("load plan for run"), Emit("harness", "error"), Emit("terminal", "error")], Returned)
  {
    assert !AdmissionScript(run, out).flow.Go?;
    assert AdmissionScript(run, out) == Before([Call("load plan for run")], Failed());
  }
}
