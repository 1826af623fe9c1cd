/** The approval/resume loop around the model adapter, and the whole run around it with its sandbox. */
module RunStream {
  import opened Common
  import opened Scripts
  import opened RunTimeline

  // ----- Approvals -----

  /** _graph_approval_resume_value; None where it raises. The ids are taken as str.strip() leaves them. */
  function ApprovalValue(approval: string, interrupt: string, choice: string): Option<ResumeValue> {
    if approval == "" || interrupt == "" || interrupt == "anonymous" then None
    else Some(Approval(interrupt, approval, choice))
  }

  predicate GraphLevel(b: Body) { b.ApprovalRequired? && b.scope != "subagent" }

  /** The last graph-level approval a round asks for. */
  function LastApproval(events: seq<StreamEvent>): Option<Body> {
    if events == [] then None
    else if GraphLevel(events[|events| - 1].body) then Some(events[|events| - 1].body)
    else LastApproval(events[..|events| - 1])
  }

  /** The value the round after this one resumes with. */
  function NextValue(round: Round): Option<ResumeValue> {
    var a := LastApproval(round.events);
    if a.None? || !a.value.ApprovalRequired? || round.choice.None? then None
    else ApprovalValue(a.value.approval, a.value.interrupt, round.choice.value)
  }

  /** The k-th stream_turn call of a run, given what the gate let through. */
  function TurnAt(run: Run, out: Outside, gate: Gate, k: nat): Act
    requires k <= |out.rounds|
  {
    var frame := if run.mode == Enforce then gate.frame else None;
    if k == 0 then
      StreamTurn(gate.binding, frame, run.Resume(), run.attempt,
                 if run.Resume() then Some(Initial(run.resumeValue.value)) else None)
    else StreamTurn(gate.binding, frame, true, run.attempt + k, NextValue(out.rounds[k - 1]))
  }

  /** The stream_turn calls of a trace, in order. */
  function Turns(acts: seq<Act>): seq<Act> {
    if acts == [] then []
    else Turns(acts[..|acts| - 1]) + (if acts[|acts| - 1].StreamTurn? then [acts[|acts| - 1]] else [])
  }

  /** The events of a trace, in order. */
  function Emitted(acts: seq<Act>): seq<Act> {
    if acts == [] then []
    else Emitted(acts[..|acts| - 1]) + (if acts[|acts| - 1].Emit? then [acts[|acts| - 1]] else [])
  }

  lemma OneMoreAct(acts: seq<Act>, a: Act)
    ensures Turns(acts + [a]) == Turns(acts) + (if a.StreamTurn? then [a] else [])
    ensures Emitted(acts + [a]) == Emitted(acts) + (if a.Emit? then [a] else [])
  {
    assert (acts + [a])[..|acts|] == acts;
  }

  ghost predicate SilentRound(events: seq<StreamEvent>) {
    forall i :: 0 <= i < |events| ==> events[i].kind != "terminal"
  }

  /** The adapter never yields a terminal event of its own. */
  ghost predicate AdapterSilent(out: Outside) {
    forall k :: 0 <= k < |out.rounds| ==> SilentRound(out.rounds[k].events)
  }

  // ----- What the loop does -----

  const RAISED: Script<Act> := Script([], Stopped(Raised))

  /** A graph-level approval that does not name its approval and interrupt raises where it is seen. */
  predicate Nameless(b: Body) {
    GraphLevel(b) && ApprovalValue(b.approval, b.interrupt, "once").None?
  }

  predicate AllNamed(events: seq<StreamEvent>) {
    forall i :: 0 <= i < |events| ==> !Nameless(events[i].body)
  }

  /** The event is passed on, with the retrieval it shows. */
  function EventActs(event: StreamEvent): seq<Act> {
    [Emit(event.kind, event.status)] + if event.body == Other(true) then [Emit("harness", "completed")] else []
  }

  function EventsScript(events: seq<StreamEvent>): (r: Script<Act>)
    ensures r.flow == if AllNamed(events) then Go else Stopped(Raised)
    ensures forall i :: 0 <= i < |r.acts| ==> r.acts[i].Emit?
    ensures SilentRound(events) ==> forall i :: 0 <= i < |r.acts| ==> !Terminal(r.acts[i])
  {
    if events == [] then NOTHING
    else if Nameless(events[0].body) then Before(EventActs(events[0]), RAISED)
    else
      assert forall i :: 1 <= i < |events| ==> events[i] == events[1..][i - 1];
      Before(EventActs(events[0]), EventsScript(events[1..]))
  }

  function TextOf(events: seq<StreamEvent>): string {
    if events == [] then ""
    else
      var n := |events| - 1;
      TextOf(events[..n]) + if events[n].body.Text? then events[n].body.delta else ""
  }

  /** The text of the first n rounds. */
  function TextOfRounds(out: Outside, n: nat): string
    requires n <= |out.rounds|
  {
    if n == 0 then "" else TextOfRounds(out, n - 1) + TextOf(out.rounds[n - 1].events)
  }

  /** The round asked for a graph-level approval, properly named, and got a choice. */
  predicate Answered(round: Round) {
    AllNamed(round.events) && LastApproval(round.events).Some? && round.choice.Some?
  }

  /** How many rounds in a row are answered, from the k-th on. */
  function AnsweredFrom(out: Outside, k: nat): (n: nat)
    requires k <= |out.rounds|
    ensures k + n <= |out.rounds|
    decreases |out.rounds| - k
  {
    if k < |out.rounds| && Answered(out.rounds[k]) then 1 + AnsweredFrom(out, k + 1) else 0
  }

  /** The loop from its k-th call on. A call beyond the rounds is one that raises. */
  function LoopScript(run: Run, out: Outside, gate: Gate, k: nat): Script<Act>
    requires k <= |out.rounds|
    decreases |out.rounds| - k, 2
  {
    Before([TurnAt(run, out, gate, k)], if k == |out.rounds| then RAISED else RoundScript(run, out, gate, k))
  }

  function RoundScript(run: Run, out: Outside, gate: Gate, k: nat): Script<Act>
    requires k < |out.rounds|
    decreases |out.rounds| - k, 1
  {
    var events := EventsScript(out.rounds[k].events);
    if !events.flow.Go? then events
    else Before(events.acts,
      if LastApproval(out.rounds[k].events).None? then NOTHING else WaitScript(run, out, gate, k))
  }

  function WaitScript(run: Run, out: Outside, gate: Gate, k: nat): Script<Act>
    requires k < |out.rounds|
    decreases |out.rounds| - k, 0
  {
    Before([Call("wait for approval")],
      if out.rounds[k].choice.None? then RAISED
      else Before(ConsumeActs(out.rounds[k].choice.value), LoopScript(run, out, gate, k + 1)))
  }

  function ConsumeActs(choice: string): seq<Act> {
    if choice in {"session", "always"} then [Call("consume resolution")] else []
  }

  // ----- The program -----

  /** One stream_turn call's events: each is passed on; graph-level approvals are noted and must name
      their interrupt. */
  method StreamEvents(fault: Faults, before: seq<Act>, events: seq<StreamEvent>)
    returns (r: seq<Act>, flow: Flow, approval: Option<Body>, text: string)
    ensures Script(r, flow) == Play(fault, before, EventsScript(events))
    ensures flow.Go? ==> AllNamed(events) && approval == LastApproval(events) && text == TextOf(events)
  {
    r, flow, approval, text := before, Go, None, "";
    for i := 0 to |events|
      invariant flow.Go? && Play(fault, before, EventsScript(events)) == Play(fault, r, EventsScript(events[i..]))
      invariant Heard(events, i, approval, text)
    {
      r, flow := PassEvent(fault, r, events, i);
      if !flow.Go? { return; }
      HeardOneMore(events, i, approval, text);
      if events[i].body.Text? { text := text + events[i].body.delta; }
      if GraphLevel(events[i].body) { approval := Some(events[i].body); }
    }
    assert events[..|events|] == events;
  }

  /** What is kept of the first i events. */
  ghost predicate Heard(events: seq<StreamEvent>, i: nat, approval: Option<Body>, text: string)
    requires i <= |events|
  {
    AllNamed(events[..i]) && approval == LastApproval(events[..i]) && text == TextOf(events[..i])
  }

  lemma HeardOneMore(events: seq<StreamEvent>, i: nat, approval: Option<Body>, text: string)
    requires i < |events| && Heard(events, i, approval, text) && !Nameless(events[i].body)
    ensures var b := events[i].body;
      Heard(events, i + 1, if GraphLevel(b) then Some(b) else approval, if b.Text? then text + b.delta else text)
  {
    assert events[..i + 1][..i] == events[..i];
  }

  /** One event: passed on, with the retrieval it shows; a nameless approval raises after it. */
  method PassEvent(fault: Faults, before: seq<Act>, events: seq<StreamEvent>, i: nat) returns (r: seq<Act>, flow: Flow)
    requires i < |events|
    ensures Play(fault, before, EventsScript(events[i..])) ==
            if flow.Go? then Play(fault, r, EventsScript(events[i + 1..])) else Script(r, flow)
    ensures flow.Go? ==> !Nameless(events[i].body)
  {
    assert events[i..][1..] == events[i + 1..];
    r, flow := Perform(fault, before, EventActs(events[i]));
    if flow.Go? && Nameless(events[i].body) { flow := Stopped(Raised); }
  }

  /** The wait for an approval; the value to resume with. */
  method AwaitApproval(run: Run, out: Outside, fault: Faults, before: seq<Act>, gate: Gate, k: nat, approval: Body)
    returns (r: seq<Act>, flow: Flow, value: Option<ResumeValue>)
    requires k < |out.rounds| && AllNamed(out.rounds[k].events) && LastApproval(out.rounds[k].events) == Some(approval)
    ensures Play(fault, before, WaitScript(run, out, gate, k)) ==
            if flow.Go? then Play(fault, r, LoopScript(run, out, gate, k + 1)) else Script(r, flow)
    ensures flow.Go? ==> out.rounds[k].choice.Some? && value == NextValue(out.rounds[k])
  {
    value := None;
    r, flow := Perform(fault, before, [Call("wait for approval")]);
    if !flow.Go? { return; }
    var choice := out.rounds[k].choice;
    if choice.None? {
      flow := Stopped(Raised);
      return;
    }
    r, flow := Perform(fault, r, ConsumeActs(choice.value));
    LastApprovalIsGraphLevel(out.rounds[k].events);
    value := ApprovalValue(approval.approval, approval.interrupt, choice.value);
  }

  lemma {:induction false} LastApprovalIsGraphLevel(events: seq<StreamEvent>)
    requires LastApproval(events).Some?
    ensures GraphLevel(LastApproval(events).value)
    ensures AllNamed(events) ==> !Nameless(LastApproval(events).value)
  {
    if !GraphLevel(events[|events| - 1].body) { LastApprovalIsGraphLevel(events[..|events| - 1]); }
  }

  /** What remains of the loop from its k-th call makes up the whole of it. */
  ghost predicate Remains(run: Run, out: Outside, fault: Faults, gate: Gate, trace: seq<Act>, k: nat, whole: Script<Act>)
    requires k <= |out.rounds|
  {
    whole == Play(fault, trace, LoopScript(run, out, gate, k))
  }

  /** One stream_turn call, its events, and the wait for the approval they asked for, if any. */
  method OneTurn(run: Run, out: Outside, fault: Faults, before: seq<Act>, gate: Gate, k: nat, turn: Act,
                 ghost whole: Script<Act>)
    returns (r: seq<Act>, flow: Flow, value: Option<ResumeValue>, text: string)
    requires k <= |out.rounds| && turn == TurnAt(run, out, gate, k)
    requires Remains(run, out, fault, gate, before, k, whole)
    ensures if flow.Go? && value.Some? then k < |out.rounds| && Remains(run, out, fault, gate, r, k + 1, whole)
            else Script(r, flow) == whole
    ensures flow.Go? ==>
      && k < |out.rounds| && text == TextOf(out.rounds[k].events)
      && (value.Some? <==> Answered(out.rounds[k])) && value == NextValue(out.rounds[k])
      && (value.None? ==> LastApproval(out.rounds[k].events).None?)
  {
    value, text := None, "";
    r, flow := Perform(fault, before, [turn]);
    if !flow.Go? { return; }
    if k == |out.rounds| {
      flow := Stopped(Raised);
      return;
    }
    r, flow, value, text := OneRound(run, out, fault, r, gate, k);
  }

  method OneRound(run: Run, out: Outside, fault: Faults, before: seq<Act>, gate: Gate, k: nat)
    returns (r: seq<Act>, flow: Flow, value: Option<ResumeValue>, text: string)
    requires k < |out.rounds|
    ensures if flow.Go? && value.Some?
            then Play(fault, before, RoundScript(run, out, gate, k)) == Play(fault, r, LoopScript(run, out, gate, k + 1))
            else Script(r, flow) == Play(fault, before, RoundScript(run, out, gate, k))
    ensures flow.Go? ==>
      && text == TextOf(out.rounds[k].events)
      && (value.Some? <==> Answered(out.rounds[k])) && value == NextValue(out.rounds[k])
      && (value.None? ==> LastApproval(out.rounds[k].events).None?)
  {
    value := None;
    var approval;
    r, flow, approval, text := StreamEvents(fault, before, out.rounds[k].events);
    ghost var events := EventsScript(out.rounds[k].events);
    if events.flow.Go? {
      PlayAfter(fault, before, events, NOTHING);
      PlayAfter(fault, before, events, WaitScript(run, out, gate, k));
    }
    if !flow.Go? || approval.None? { return; }
    LastApprovalIsGraphLevel(out.rounds[k].events);
    r, flow, value := AwaitApproval(run, out, fault, r, gate, k, approval.value);
  }

  /** The loop. Its k-th stream_turn call carries the gate's binding, the k-th resume attempt, and, from
      the second on, the value that answers the last graph-level approval of the call before. */
  method Execute(run: Run, out: Outside, fault: Faults, before: seq<Act>, gate: Gate)
    returns (r: seq<Act>, flow: Flow, reply: string)
    ensures Script(r, flow) == Play(fault, before, LoopScript(run, out, gate, 0))
    ensures flow.Go? ==> Concludes(out) && reply == ReplyText(out)
  {
    r, flow, reply := before, Go, "";
    var attempt, resume := run.attempt, run.Resume();
    var value := if run.Resume() then Some(Initial(run.resumeValue.value)) else None;
    var frame := if run.mode == Enforce then gate.frame else None;
    var k := 0;
    ghost var whole := Play(fault, before, LoopScript(run, out, gate, 0));
    while true
      invariant k <= |out.rounds| && flow.Go?
      invariant Remains(run, out, fault, gate, r, k, whole)
      invariant Reached(run, out, gate, k, reply, StreamTurn(gate.binding, frame, resume, attempt, value))
      decreases |out.rounds| - k
    {
      var turn := StreamTurn(gate.binding, frame, resume, attempt, value);
      var delta;
      r, flow, value, delta := OneTurn(run, out, fault, r, gate, k, turn, whole);
      if !flow.Go? { return; }
      if value.None? {
        EndsAt(run, out, gate, k, reply, turn);
        reply := reply + delta;
        return;
      }
      NextTurn(run, out, gate, k, reply, turn, value);
      reply := reply + delta;
      resume := true;
      attempt := attempt + 1;
      k := k + 1;
    }
  }

  /** The loop is about to make its k-th call, with this text so far. */
  ghost predicate Reached(run: Run, out: Outside, gate: Gate, k: nat, reply: string, turn: Act)
    requires k <= |out.rounds|
  {
    AllAnswered(out, k) && reply == TextOfRounds(out, k) && turn == TurnAt(run, out, gate, k)
  }

  lemma NextTurn(
    run: Run, out: Outside, gate: Gate, k: nat, reply: string, turn: Act, value: Option<ResumeValue>)
    requires k < |out.rounds| && Reached(run, out, gate, k, reply, turn)
    requires Answered(out.rounds[k]) && value == NextValue(out.rounds[k])
    ensures turn.StreamTurn?
    ensures Reached(run, out, gate, k + 1, reply + TextOf(out.rounds[k].events),
                    StreamTurn(turn.binding, turn.frame, true, turn.attempt + 1, value))
  {
  }

  ghost predicate AllAnswered(out: Outside, k: nat)
    requires k <= |out.rounds|
  {
    k == 0 || (AllAnswered(out, k - 1) && Answered(out.rounds[k - 1]))
  }

  lemma {:induction false} AnsweredBefore(out: Outside, k: nat, i: nat)
    requires i < k <= |out.rounds| && AllAnswered(out, k)
    ensures Answered(out.rounds[i])
  {
    if i < k - 1 { AnsweredBefore(out, k - 1, i); }
  }

  lemma EndsAt(run: Run, out: Outside, gate: Gate, k: nat, reply: string, turn: Act)
    requires k < |out.rounds| && Reached(run, out, gate, k, reply, turn)
    requires LastApproval(out.rounds[k].events).None?
    ensures Concludes(out) && ReplyText(out) == reply + TextOf(out.rounds[k].events)
  {
    AnsweredUpTo(out, 0, k);
  }

  lemma {:induction false} AnsweredUpTo(out: Outside, from: nat, k: nat)
    requires from <= k < |out.rounds| && AllAnswered(out, k) && !Answered(out.rounds[k])
    ensures from + AnsweredFrom(out, from) == k
    decreases |out.rounds| - from
  {
    if from < k {
      AnsweredBefore(out, k, from);
      AnsweredUpTo(out, from + 1, k);
    }
  }

  /** The loop ends by itself: after the answered rounds comes one that asks for no approval. */
  predicate Concludes(out: Outside) {
    var n := AnsweredFrom(out, 0);
    n < |out.rounds| && LastApproval(out.rounds[n].events).None?
  }

  /** All the text up to that round. */
  function ReplyText(out: Outside): string
  {
    var n := AnsweredFrom(out, 0);
    TextOfRounds(out, if n < |out.rounds| then n + 1 else n)
  }

  // ----- The whole run -----

  /** Nothing before the sandbox stops the run. */
  predicate Opens(run: Run, out: Outside) {
    Admits(run, out) && ContextAllows(run, out) && CapabilitiesAgree(run, out)
  }

  /** Up to the creation of the sandbox. */
  function OpeningScript(run: Run, out: Outside): (r: Script<Act>)
    ensures Lawful(r, "error") && (r.flow.Go? <==> Opens(run, out))
    ensures r.flow.Go? && Guarded(run) ==> CheckCheckpoint(LoadedPlan(out), true) in r.acts
  {
    After(AdmissionScript(run, out), CheckedScript(run, out))
  }

  function CheckedScript(run: Run, out: Outside): (r: Script<Act>)
    ensures Lawful(r, "error") && (r.flow.Go? <==> ContextAllows(run, out) && CapabilitiesAgree(run, out))
  {
    After(ContextScript(run, out), After(CapabilitiesScript(run, out), SandboxCall()))
  }

  function SandboxCall(): (r: Script<Act>)
    ensures Lawful(r, "error") && r.flow.Go?
  {
    Script([Call("create sandbox")], Go)
  }

  /** Everything between opening and closing the sandbox. */
  function BodyScript(run: Run, out: Outside): Script<Act> {
    var assembled := AssembleScript(run, out);
    if assembled.flow.Go? then Before(assembled.acts, LoopScript(run, out, GateOf(run, out), 0)) else assembled
  }

  /** After the sandbox: the answer must not be blank. */
  function ClosingScript(reply: string): Script<Act> {
    if Strip(reply) == "" then RAISED
    else Then([Call("append answer"), Emit("assistant", "completed")], Ending("completed"))
  }

  /** The sandbox, once opened, is closed however its block ends, and a fault of the closing replaces
      that end. */
  function Sandboxed(fault: Faults, opening: Script<Act>, body: Script<Act>, closing: Script<Act>): Script<Act> {
    var begun := Play(fault, [], opening);
    if !begun.flow.Go? then begun
    else
      var done := Play(fault, begun.acts + [OpenSandbox], body);
      var closed := Play(fault, done.acts, Script([CloseSandbox], done.flow));
      if closed.flow.Go? then Play(fault, closed.acts, closing) else closed
  }

  /** The trace of a run and how it ends, for every answer of the outside and every fault. */
  function RunOf(run: Run, out: Outside, fault: Faults): Script<Act> {
    Sandboxed(fault, OpeningScript(run, out), BodyScript(run, out), ClosingScript(ReplyText(out)))
  }

  /** _deerflow_timeline_events. */
  method Deerflow(run: Run, out: Outside, fault: Faults) returns (trace: seq<Act>, flow: Flow)
    ensures Script(trace, flow) == RunOf(run, out, fault)
  {
    var plan;
    trace, flow, plan := Opening(run, out, fault);
    if !flow.Go? { return; }
    trace := trace + [OpenSandbox];
    var reply;
    trace, flow, reply := InSandbox(run, out, fault, trace, plan);
    trace, flow := CloseTheSandbox(fault, trace, flow);
    if flow.Go? { trace, flow := Closing(fault, trace, reply); }
  }

  method Opening(run: Run, out: Outside, fault: Faults) returns (trace: seq<Act>, flow: Flow, plan: Option<nat>)
    ensures Script(trace, flow) == Play(fault, [], OpeningScript(run, out))
    ensures flow.Go? ==> Opens(run, out) && plan == if Guarded(run) then Some(out.planLoad.plan) else None
  {
    trace, flow, plan := Admission(run, out, fault);
    PlayAfter(fault, [], AdmissionScript(run, out), CheckedScript(run, out));
    if !flow.Go? { return; }
    trace, flow := Checks(run, out, fault, trace, plan);
    PlayGoes(fault, [], OpeningScript(run, out));
  }

  method Checks(run: Run, out: Outside, fault: Faults, before: seq<Act>, plan: Option<nat>)
    returns (trace: seq<Act>, flow: Flow)
    requires plan.Some? <==> Guarded(run)
    ensures Script(trace, flow) == Play(fault, before, CheckedScript(run, out))
  {
    var rest := After(CapabilitiesScript(run, out), SandboxCall());
    trace, flow := Context(run, out, fault, before);
    PlayAfter(fault, before, ContextScript(run, out), rest);
    if !flow.Go? { return; }
    PlayAfter(fault, trace, CapabilitiesScript(run, out), SandboxCall());
    trace, flow := Capabilities(run, out, fault, trace, plan);
    if !flow.Go? { return; }
    trace, flow := Perform(fault, trace, [Call("create sandbox")]);
  }

  method InSandbox(run: Run, out: Outside, fault: Faults, before: seq<Act>, plan: Option<nat>)
    returns (trace: seq<Act>, flow: Flow, reply: string)
    requires plan.Some? <==> Guarded(run)
    requires plan.Some? ==> out.planLoad == PlanLoaded(plan.value)
    ensures Script(trace, flow) == Play(fault, before, BodyScript(run, out))
    ensures flow.Go? ==> reply == ReplyText(out)
  {
    reply := "";
    var gate;
    trace, flow, gate := Assemble(run, out, fault, before, plan);
    PlayAfter(fault, before, AssembleScript(run, out), LoopScript(run, out, GateOf(run, out), 0));
    if !flow.Go? { return; }
    trace, flow, reply := Execute(run, out, fault, trace, gate);
  }

  /** The finally clause. */
  method CloseTheSandbox(fault: Faults, before: seq<Act>, ended: Flow) returns (trace: seq<Act>, flow: Flow)
    ensures Script(trace, flow) == Play(fault, before, Script([CloseSandbox], ended))
  {
    trace, flow := Perform(fault, before, [CloseSandbox]);
    if flow.Go? { flow := ended; }
  }

  method Closing(fault: Faults, before: seq<Act>, reply: string) returns (trace: seq<Act>, flow: Flow)
    ensures Script(trace, flow) == Play(fault, before, ClosingScript(reply))
  {
    if Strip(reply) == "" { return before, Stopped(Raised); }
    trace, flow := Perform(fault, before, [Call("append answer"), Emit("assistant", "completed")]);
    if flow.Go? { trace, flow := Finish(fault, trace, "completed"); }
  }
}
