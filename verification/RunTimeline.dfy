/** One coordinated run up to the model adapter, as the code walks it: admission, context, capabilities,
    the plan gate and the exits in between. Every external call and every event yielded is an act of the
    trace; what a call returns is arbitrary, and any act may be interrupted. */
module RunTimeline {
  import opened Common
  import opened Scripts

  datatype Mode = Off | Shadow | Enforce

  /** {interrupt_id: {approval_id, choice}} */
  datatype ResumeValue = Initial(value: string) | Approval(interrupt: string, approval: string, choice: string)

  datatype Act =
    | Emit(kind: string, status: string)
    | Call(what: string)
    | CheckCheckpoint(plan: nat, accepted: bool)
    | ComparePlan(plan: nat, matched: bool)
    | OpenSandbox
    | CloseSandbox
    | StreamTurn(binding: Option<nat>, frame: Option<nat>, resume: bool, attempt: int, value: Option<ResumeValue>)

  // ----- What the code around the run answers -----

  datatype PlanLoad = PlanCorrupt | PlanMissing | PlanLoaded(plan: nat)

  datatype CheckpointLoad = CheckpointRejected | CheckpointMissing | CheckpointAccepted

  datatype Prepared = Prepared(allowed: bool, events: seq<string>)

  datatype Comparison = CompareRaised | Compared(matched: bool)

  /** mcp_catalog: absent, something that is not a manager, or a manager. */
  datatype Catalog = NoCatalog | PlainCatalog | Manager

  datatype Body =
    | Text(delta: string)
    | ApprovalRequired(scope: string, approval: string, interrupt: string)
    | Other(retrieval: bool)

  datatype StreamEvent = StreamEvent(kind: string, status: string, body: Body)

  /** What one stream_turn call yields, and the choice the user then makes, if one is awaited. */
  datatype Round = Round(events: seq<StreamEvent>, choice: Option<string>)

  datatype Outside = Outside(
    planLoad: PlanLoad, resumeScopeError: Option<string>, checkpoint: CheckpointLoad,
    resumeMcp: bool,
    prepared: Option<Prepared>, memoryEvents: nat, contextStatus: bool,
    skillError: Option<string>, catalog: Catalog, mcpError: Option<string>,
    knowledgeRouted: bool, bookEvents: seq<string>, bookAnswer: string,
    captured: Option<nat>, comparison: Comparison, frameMade: bool,
    rounds: seq<Round>)

  datatype Run = Run(mode: Mode, resumeValue: Option<string>, attempt: int, fromUser: bool) {
    predicate Resume() { resumeValue.Some? }
  }

  // ----- Shapes of scripts -----

  predicate Terminal(a: Act) { a.Emit? && a.kind == "terminal" }

  predicate Plain(a: Act) { a.Emit? || a.Call? || a.CheckCheckpoint? || a.ComparePlan? }

  ghost predicate Quiet(acts: seq<Act>) {
    forall i :: 0 <= i < |acts| ==> Plain(acts[i]) && !Terminal(acts[i])
  }

  /** A phase goes on quietly, or returns with its one terminal event, of this status, as its last act. */
  ghost predicate Lawful(s: Script<Act>, status: string) {
    if s.flow.Go? then Quiet(s.acts)
    else
      && s.flow.Returned? && s.acts != [] && Quiet(s.acts[..|s.acts| - 1])
      && s.acts[|s.acts| - 1] == Emit("terminal", status)
  }

  /** Acts of a phase, and what it does after them. */
  function Then(acts: seq<Act>, rest: Script<Act>): (r: Script<Act>)
    ensures Quiet(acts) ==> forall status :: Lawful(rest, status) ==> Lawful(r, status)
    ensures r.flow == rest.flow
    ensures forall a :: a in rest.acts ==> a in r.acts
  {
    var r := Before(acts, rest);
    assert rest.acts != [] ==> r.acts[..|r.acts| - 1] == acts + rest.acts[..|rest.acts| - 1];
    r
  }

  /** One phase after another. */
  function After(first: Script<Act>, rest: Script<Act>): (r: Script<Act>)
    ensures r.flow.Go? <==> first.flow.Go? && rest.flow.Go?
    ensures forall status :: Lawful(first, status) && Lawful(rest, status) ==> Lawful(r, status)
    ensures first.acts <= r.acts
  {
    if first.flow.Go? then Then(first.acts, rest) else first
  }

  const NOTHING: Script<Act> := Script([], Go)

  function Ending(status: string): (r: Script<Act>)
    ensures Lawful(r, status) && r.flow.Returned?
  {
    Script([Emit("terminal", status)], Returned)
  }

  /** The two events of a fail-closed exit. */
  function Failed(): (r: Script<Act>)
    ensures Lawful(r, "error") && r.flow.Returned?
  {
    Script([Emit("harness", "error"), Emit("terminal", "error")], Returned)
  }

  /** Yield the terminal event and return. */
  method Finish(fault: Faults, before: seq<Act>, status: string) returns (r: seq<Act>, flow: Flow)
    ensures Script(r, flow) == Play(fault, before, Ending(status))
  {
    r, flow := Perform(fault, before, [Emit("terminal", status)]);
    if flow.Go? { flow := Returned; }
  }

  /** _turn_context_plan_failure_events, both yielded, then return. */
  method FailClosed(fault: Faults, before: seq<Act>) returns (r: seq<Act>, flow: Flow)
    ensures Script(r, flow) == Play(fault, before, Failed())
  {
    assert Failed() == Before([Emit("harness", "error")], Ending("error"));
    r, flow := Perform(fault, before, [Emit("harness", "error")]);
    if flow.Go? { r, flow := Finish(fault, r, "error"); }
  }

  /** Exactly the error event and the terminal event, and a return, unless one of the two is interrupted. */
  lemma FailClosedEvents(fault: Faults, before: seq<Act>)
    ensures var r := Play(fault, before, Failed());
      && (r.flow.Returned? <==> Unhindered(fault, |before|, |before| + 2))
      && (r.flow.Returned? ==> r.acts == before + [Emit("harness", "error"), Emit("terminal", "error")])
  {
    var done, flow := PlayCut(fault, before, Failed());
  }

  // ----- When each phase goes on -----

  /** A resumed run in enforce mode. */
  predicate Guarded(run: Run) { run.Resume() && run.mode == Enforce }

  predicate Admits(run: Run, out: Outside) {
    Guarded(run) ==> out.planLoad.PlanLoaded? && out.resumeScopeError.None? && out.checkpoint == CheckpointAccepted
  }

  predicate ContextAllows(run: Run, out: Outside) {
    !run.Resume() && out.prepared.Some? ==> out.prepared.value.allowed
  }

  predicate CapabilitiesAgree(run: Run, out: Outside) {
    && out.skillError.None?
    && (Guarded(run) ==> (out.resumeMcp <==> out.catalog == Manager))
    && (out.catalog == Manager ==> out.mcpError.None?)
  }

  predicate GatePasses(run: Run, out: Outside) {
    run.mode == Enforce && (run.Resume() || out.prepared.Some?) ==>
      && (run.Resume() || out.captured.Some?)
      && out.comparison == Compared(true) && out.frameMade
  }

  predicate AnswersDirectly(run: Run, out: Outside) {
    !run.Resume() && out.knowledgeRouted && out.bookAnswer != ""
  }

  // ----- What each phase does -----

  /** A resumed run in enforce mode loads its plan, checks its scope and finds its checkpoint, bound to
      that plan, before anything else happens. */
  function AdmissionScript(run: Run, out: Outside): (r: Script<Act>)
    ensures Lawful(r, "error") && (r.flow.Go? <==> Admits(run, out))
    ensures r.flow.Go? && Guarded(run) ==> CheckCheckpoint(LoadedPlan(out), true) in r.acts
  {
    if !Guarded(run) then NOTHING
    else Then([Call("load plan for run")],
      if !out.planLoad.PlanLoaded? then Failed()
      else Then([Call("prepare resume")],
        if out.resumeScopeError.Some? then Failed()
        else Then([CheckCheckpoint(out.planLoad.plan, out.checkpoint == CheckpointAccepted)],
          if out.checkpoint != CheckpointAccepted then Failed() else NOTHING)))
  }

  /** The events of the prepared context; usage is left to the context status event when there is one. */
  function ContextEvents(events: seq<string>, contextStatus: bool): (r: seq<Act>)
    ensures Quiet(r)
  {
    if events == [] then []
    else
      (if contextStatus && events[0] == "context_usage_updated" then [] else [Emit("context", events[0])])
      + ContextEvents(events[1..], contextStatus)
  }

  /** Every event of the prepared context is shown, but for the usage when the status event shows it. */
  lemma {:induction false} ContextEventsShown(events: seq<string>, contextStatus: bool, e: string)
    ensures Emit("context", e) in ContextEvents(events, contextStatus) <==>
            e in events && !(contextStatus && e == "context_usage_updated")
    ensures !contextStatus ==>
      |ContextEvents(events, contextStatus)| == |events|
      && forall i :: 0 <= i < |events| ==> ContextEvents(events, contextStatus)[i] == Emit("context", events[i])
  {
    if events != [] {
      ContextEventsShown(events[1..], contextStatus, e);
      assert events == [events[0]] + events[1..];
      if !contextStatus {
        forall i | 0 <= i < |events| ensures ContextEvents(events, contextStatus)[i] == Emit("context", events[i]) {
          if i > 0 { assert events[1..][i - 1] == events[i]; }
        }
      }
    }
  }

  function Repeat(a: Act, n: nat): (r: seq<Act>)
    ensures |r| == n && forall i :: 0 <= i < n ==> r[i] == a
  {
    seq(n, _ => a)
  }

  /** A new run prepares its context and decides retrieval; a blocked context ends the run. */
  function ContextScript(run: Run, out: Outside): (r: Script<Act>)
    ensures Lawful(r, "error") && (r.flow.Go? <==> ContextAllows(run, out))
  {
    if Guarded(run) then NOTHING
    else if run.Resume() then Then([Call("frozen events")], NOTHING)
    else Then(UserMessage(run),
      Then(RetrievalActs(out), PreparedScript(out)))
  }

  function RetrievalActs(out: Outside): (r: seq<Act>)
    ensures Quiet(r)
  {
    [Call("retrieval gate"), Emit("harness", "completed")] + Repeat(Emit("memory", "completed"), out.memoryEvents)
  }

  function UserMessage(run: Run): (r: seq<Act>)
    ensures Quiet(r)
  {
    [Call("prepare context"), Call("append user message"), Emit(if run.fromUser then "user" else "harness", "completed")]
  }

  function PreparedScript(out: Outside): (r: Script<Act>)
    ensures Lawful(r, "error") && (r.flow.Go? <==> (out.prepared.Some? ==> out.prepared.value.allowed))
  {
    Then(PreparedEvents(out), BlockScript(out))
  }

  /** The prepared context's events, then the context status. */
  function PreparedEvents(out: Outside): (r: seq<Act>)
    ensures Quiet(r)
  {
    (if out.prepared.Some? then ContextEvents(out.prepared.value.events, out.contextStatus) else [])
    + (if out.contextStatus then [Emit("context", "completed")] else [])
  }

  function BlockScript(out: Outside): (r: Script<Act>)
    ensures Lawful(r, "error") && (r.flow.Go? <==> (out.prepared.Some? ==> out.prepared.value.allowed))
  {
    if out.prepared.Some? && !out.prepared.value.allowed then Then([Emit("system", "error")], Ending("error"))
    else NOTHING
  }

  /** A blocked context ends the run with its error event and its terminal event, in that order, unless
      something interrupts it. */
  lemma BlockedContextEnds(run: Run, out: Outside, fault: Faults, before: seq<Act>)
    requires !ContextAllows(run, out)
    ensures var r, n := Play(fault, before, ContextScript(run, out)), |before| + |ContextScript(run, out).acts|;
      && (r.flow.Returned? <==> Unhindered(fault, |before|, n))
      && (r.flow.Returned? ==>
            |r.acts| >= 2 && r.acts[|r.acts| - 2..] == [Emit("system", "error"), Emit("terminal", "error")])
  {
    BlockedScript(run, out);
    BlockPlayed(fault, before, UserMessage(run) + RetrievalActs(out) + PreparedEvents(out));
  }

  lemma BlockedScript(run: Run, out: Outside)
    requires !ContextAllows(run, out)
    ensures ContextScript(run, out) ==
            Blocked(UserMessage(run) + RetrievalActs(out) + PreparedEvents(out))
  {
  }

  function Blocked(shown: seq<Act>): Script<Act> {
    Script(shown + [Emit("system", "error"), Emit("terminal", "error")], Returned)
  }

  lemma BlockPlayed(fault: Faults, before: seq<Act>, shown: seq<Act>)
    ensures var r, n := Play(fault, before, Blocked(shown)), |before| + |shown| + 2;
      && (r.flow.Returned? <==> Unhindered(fault, |before|, n))
      && (r.flow.Returned? ==>
            |r.acts| >= 2 && r.acts[|r.acts| - 2..] == [Emit("system", "error"), Emit("terminal", "error")])
  {
    var done, flow := PlayCut(fault, before, Blocked(shown));
  }

  /** Skills and MCP tools: a resumed run must get exactly the lifecycle its plan froze. */
  function CapabilitiesScript(run: Run, out: Outside): (r: Script<Act>)
    ensures Lawful(r, "error") && (r.flow.Go? <==> CapabilitiesAgree(run, out))
  {
    Then([Call("skill lifecycle")],
      if out.skillError.Some? then Failed()
      else if Guarded(run) && (out.resumeMcp <==> out.catalog != Manager) then Failed()
      else if out.catalog == Manager then
        Then([Call("acquire tools")], if out.mcpError.Some? then Failed() else CatalogScript(run, out))
      else CatalogScript(run, out))
  }

  function CatalogScript(run: Run, out: Outside): (r: Script<Act>)
    ensures Lawful(r, "error") && r.flow.Go?
  {
    if out.catalog != NoCatalog && !run.Resume()
    then Then([Call("catalog event"), Emit("harness", "completed")], NOTHING)
    else NOTHING
  }

  // ----- The gate -----

  /** What reaches the adapter: the plan binding and the frame, each from some plan or absent. */
  datatype Gate = Gate(binding: Option<nat>, frame: Option<nat>)

  const SHUT := Gate(None, None)

  predicate Captures(run: Run, out: Outside) { !run.Resume() && run.mode != Off && out.prepared.Some? }

  /** The plan a guarded run was admitted with; only asked for then. */
  function LoadedPlan(out: Outside): nat {
    if out.planLoad.PlanLoaded? then out.planLoad.plan else 0
  }

  /** The gate as far as the run's answers open it. In shadow mode a mismatch does not keep the frame
      from being made, and nothing is ever bound. */
  function GateOf(run: Run, out: Outside): Gate {
    if Guarded(run) then Gate(Some(LoadedPlan(out)), Some(LoadedPlan(out)))
    else if !Captures(run, out) || out.comparison.CompareRaised? || !out.frameMade then SHUT
    else Gate(if run.mode == Enforce then out.captured else None, out.captured)
  }

  /** The plan the gate bound was compared and matched. */
  ghost predicate Matched(run: Run, out: Outside, acts: seq<Act>) {
    run.mode == Enforce && (run.Resume() || out.prepared.Some?) ==>
      && GateOf(run, out).binding.Some? && GateOf(run, out).frame == GateOf(run, out).binding
      && ComparePlan(GateOf(run, out).binding.value, true) in acts
  }

  function GateScript(run: Run, out: Outside): (r: Script<Act>)
    ensures Lawful(r, "error") && (r.flow.Go? <==> GatePasses(run, out))
    ensures r.flow.Go? ==> Matched(run, out, r.acts)
  {
    if Captures(run, out) then NewTurnScript(run, out)
    else if Guarded(run) then ResumeScript(run, out)
    else NOTHING
  }

  /** A failed capture or comparison is noted in shadow mode and fails closed in enforce mode. */
  function Refusal(run: Run): (r: Script<Act>)
    ensures Lawful(r, "error") && (r.flow.Go? <==> run.mode == Shadow)
  {
    if run.mode == Shadow then Then([Emit("harness", "error")], NOTHING) else Failed()
  }

  function NewTurnScript(run: Run, out: Outside): (r: Script<Act>)
    requires run.mode != Off
    ensures Lawful(r, "error")
    ensures r.flow.Go? <==>
              run.mode == Shadow || (out.captured.Some? && out.comparison == Compared(true) && out.frameMade)
    ensures r.flow.Go? && run.mode == Enforce ==> ComparePlan(out.captured.value, true) in r.acts
  {
    Then([Call("capture plan")], if out.captured.None? then Refusal(run) else CompareScript(run, out))
  }

  function CompareScript(run: Run, out: Outside): (r: Script<Act>)
    requires run.mode != Off && out.captured.Some?
    ensures Lawful(r, "error")
    ensures r.flow.Go? <==> run.mode == Shadow || (out.comparison == Compared(true) && out.frameMade)
    ensures r.flow.Go? && run.mode == Enforce ==> ComparePlan(out.captured.value, true) in r.acts
  {
    Then([Emit("harness", "completed"), Call("compare plan")],
      if out.comparison.CompareRaised? then Refusal(run)
      else Then(ComparedEvents(out.captured.value, out.comparison.matched),
        if run.mode == Enforce && !out.comparison.matched then Failed() else FrameScript(run, out)))
  }

  function ComparedEvents(plan: nat, matched: bool): (r: seq<Act>)
    ensures Quiet(r) && ComparePlan(plan, matched) in r
  {
    [ComparePlan(plan, matched), Emit("harness", if matched then "completed" else "error")]
  }

  function FrameScript(run: Run, out: Outside): (r: Script<Act>)
    ensures Lawful(r, "error") && (r.flow.Go? <==> out.frameMade || run.mode != Enforce)
  {
    Then([Call("create frame")], if !out.frameMade && run.mode == Enforce then Failed() else NOTHING)
  }

  function ResumeScript(run: Run, out: Outside): (r: Script<Act>)
    requires Guarded(run)
    ensures Lawful(r, "error") && (r.flow.Go? <==> out.comparison == Compared(true) && out.frameMade)
    ensures r.flow.Go? ==> ComparePlan(LoadedPlan(out), true) in r.acts
  {
    Then([Call("compare resume")],
      if out.comparison.CompareRaised? then Failed()
      else Then(ComparedEvents(LoadedPlan(out), out.comparison.matched),
        if !out.comparison.matched then Failed() else FrameScript(run, out)))
  }

  // ----- From the sandbox to the adapter -----

  predicate AsksBook(run: Run, out: Outside) { !run.Resume() && out.knowledgeRouted }

  function GateStatus(run: Run, out: Outside): string {
    if GatePasses(run, out) then "completed" else "error"
  }

  function BookEvents(events: seq<string>): (r: seq<Act>)
    ensures Quiet(r)
  {
    seq(|events|, i requires 0 <= i < |events| => Emit("agent", events[i]))
  }

  /** Book learning, tools, the gate, and the direct answer. */
  function AssembleScript(run: Run, out: Outside): (r: Script<Act>)
    ensures Lawful(r, GateStatus(run, out))
    ensures r.flow.Go? <==> GatePasses(run, out) && !AnswersDirectly(run, out)
    ensures r.flow.Go? ==> Matched(run, out, r.acts)
  {
    Then(BookActs(run, out), ToolsScript(run, out))
  }

  function BookActs(run: Run, out: Outside): (r: seq<Act>)
    ensures Quiet(r)
  {
    if AsksBook(run, out) then [Call("book learning")] + BookEvents(out.bookEvents) else []
  }

  /** Tools and prompt are built; a new run announces them. */
  function ToolsScript(run: Run, out: Outside): (r: Script<Act>)
    ensures Lawful(r, GateStatus(run, out))
    ensures r.flow.Go? <==> GatePasses(run, out) && !AnswersDirectly(run, out)
    ensures r.flow.Go? ==> Matched(run, out, r.acts)
  {
    Then([Call("build tools and prompt")], Then(ToolsEvents(run), GatedScript(run, out)))
  }

  function ToolsEvents(run: Run): (r: seq<Act>)
    ensures Quiet(r)
  {
    if run.Resume() then [] else [Emit("harness", "completed")]
  }

  function GatedScript(run: Run, out: Outside): (r: Script<Act>)
    ensures Lawful(r, GateStatus(run, out))
    ensures r.flow.Go? <==> GatePasses(run, out) && !AnswersDirectly(run, out)
    ensures r.flow.Go? ==> Matched(run, out, r.acts)
  {
    After(GateScript(run, out), DirectScript(run, out))
  }

  function DirectScript(run: Run, out: Outside): (r: Script<Act>)
    ensures Lawful(r, "completed") && (r.flow.Go? <==> !AnswersDirectly(run, out))
  {
    if AnswersDirectly(run, out)
    then Then([Call("append answer"), Emit("assistant", "completed")], Ending("completed"))
    else NOTHING
  }

  // ----- The program -----

  /** A call and, if it went wrong, the fail-closed exit. */
  method PerformOrFail(fault: Faults, before: seq<Act>, acts: seq<Act>, wrong: bool)
    returns (r: seq<Act>, flow: Flow)
    ensures flow.Go? ==> !wrong
    ensures wrong ==> Script(r, flow) == Play(fault, before, Before(acts, Failed()))
    ensures !wrong ==> forall rest ::
      Play(fault, before, Before(acts, rest)) == if flow.Go? then Play(fault, r, rest) else Script(r, flow)
  {
    var failed := Failed();
    r, flow := Perform(fault, before, acts);
    assert Play(fault, before, Before(acts, failed)) == if flow.Go? then Play(fault, r, failed) else Script(r, flow);
    if flow.Go? && wrong { r, flow := FailClosed(fault, r); }
  }

  method Admission(run: Run, out: Outside, fault: Faults) returns (trace: seq<Act>, flow: Flow, plan: Option<nat>)
    ensures Script(trace, flow) == Play(fault, [], AdmissionScript(run, out))
    ensures flow.Go? ==> plan == if Guarded(run) then Some(out.planLoad.plan) else None
  {
    trace, flow, plan := [], Go, None;
    if !Guarded(run) { return; }
    trace, flow := PerformOrFail(fault, trace, [Call("load plan for run")], !out.planLoad.PlanLoaded?);
    if !flow.Go? { return; }
    trace, flow := PerformOrFail(fault, trace, [Call("prepare resume")], out.resumeScopeError.Some?);
    if !flow.Go? { return; }
    var found := out.checkpoint == CheckpointAccepted;
    trace, flow := PerformOrFail(fault, trace, [CheckCheckpoint(out.planLoad.plan, found)], !found);
    plan := Some(out.planLoad.plan);
  }

  method Context(run: Run, out: Outside, fault: Faults, before: seq<Act>) returns (trace: seq<Act>, flow: Flow)
    ensures Script(trace, flow) == Play(fault, before, ContextScript(run, out))
  {
    trace, flow := before, Go;
    if run.Resume() {
      if !Guarded(run) { trace, flow := Perform(fault, trace, [Call("frozen events")]); }
      return;
    }
    trace, flow := Perform(fault, trace, UserMessage(run));
    if !flow.Go? { return; }
    trace, flow := Perform(fault, trace, RetrievalActs(out));
    if !flow.Go? { return; }
    trace, flow := ShowContext(out, fault, trace);
  }

  /** The events of the prepared context, its status, and the exit when it blocks the model. */
  method ShowContext(out: Outside, fault: Faults, before: seq<Act>) returns (trace: seq<Act>, flow: Flow)
    ensures Script(trace, flow) == Play(fault, before, PreparedScript(out))
  {
    trace, flow := Perform(fault, before, PreparedEvents(out));
    if !flow.Go? { return; }
    trace, flow := BlockIfEmergency(out, fault, trace);
  }

  method BlockIfEmergency(out: Outside, fault: Faults, before: seq<Act>) returns (trace: seq<Act>, flow: Flow)
    ensures Script(trace, flow) == Play(fault, before, BlockScript(out))
  {
    trace, flow := before, Go;
    if out.prepared.Some? && !out.prepared.value.allowed {
      trace, flow := Perform(fault, trace, [Emit("system", "error")]);
      if flow.Go? { trace, flow := Finish(fault, trace, "error"); }
    }
  }

  method Capabilities(run: Run, out: Outside, fault: Faults, before: seq<Act>, plan: Option<nat>) returns (trace: seq<Act>, flow: Flow)
    requires plan.Some? <==> Guarded(run)
    ensures Script(trace, flow) == Play(fault, before, CapabilitiesScript(run, out))
  {
    trace, flow := Perform(fault, before, [Call("skill lifecycle")]);
    if !flow.Go? { return; }
    if out.skillError.Some? {
      trace, flow := FailClosed(fault, trace);
      return;
    }
    if out.catalog == Manager {
      if plan.Some? && !out.resumeMcp {
        trace, flow := FailClosed(fault, trace);
        return;
      }
      trace, flow := PerformOrFail(fault, trace, [Call("acquire tools")], out.mcpError.Some?);
      if !flow.Go? { return; }
    } else if plan.Some? && out.resumeMcp {
      trace, flow := FailClosed(fault, trace);
      return;
    }
    if out.catalog != NoCatalog && !run.Resume() {
      trace, flow := Perform(fault, trace, [Call("catalog event"), Emit("harness", "completed")]);
    }
  }

  /** What a failed capture or comparison leads to. */
  method Refuse(run: Run, fault: Faults, before: seq<Act>) returns (trace: seq<Act>, flow: Flow)
    ensures Script(trace, flow) == Play(fault, before, Refusal(run))
  {
    if run.mode == Shadow { trace, flow := Perform(fault, before, [Emit("harness", "error")]); }
    else { trace, flow := FailClosed(fault, before); }
  }

  /** The gate of a new run: capture a plan, compare it, make its frame. */
  method NewTurnGate(run: Run, out: Outside, fault: Faults, before: seq<Act>) returns (trace: seq<Act>, flow: Flow, gate: Gate)
    requires Captures(run, out)
    ensures Script(trace, flow) == Play(fault, before, NewTurnScript(run, out))
    ensures flow.Go? ==> gate == GateOf(run, out)
  {
    gate := SHUT;
    trace, flow := Perform(fault, before, [Call("capture plan")]);
    if !flow.Go? { return; }
    if out.captured.None? {
      trace, flow := Refuse(run, fault, trace);
      return;
    }
    trace, flow, gate := CompareNewTurn(run, out, fault, trace, out.captured.value);
  }

  method CompareNewTurn(run: Run, out: Outside, fault: Faults, before: seq<Act>, plan: nat)
    returns (trace: seq<Act>, flow: Flow, gate: Gate)
    requires Captures(run, out) && out.captured == Some(plan)
    ensures Script(trace, flow) == Play(fault, before, CompareScript(run, out))
    ensures flow.Go? ==> gate == GateOf(run, out)
  {
    gate := SHUT;
    trace, flow := Perform(fault, before, [Emit("harness", "completed"), Call("compare plan")]);
    if !flow.Go? { return; }
    if out.comparison.CompareRaised? {
      trace, flow := Refuse(run, fault, trace);
      return;
    }
    var matched := out.comparison.matched;
    trace, flow := PerformOrFail(fault, trace, ComparedEvents(plan, matched), run.mode == Enforce && !matched);
    if !flow.Go? { return; }
    trace, flow := PerformOrFail(fault, trace, [Call("create frame")], !out.frameMade && run.mode == Enforce);
    if out.frameMade { gate := gate.(frame := Some(plan)); }
    if run.mode == Enforce && gate.frame.Some? { gate := gate.(binding := Some(plan)); }
  }

  /** The gate of a resumed run in enforce mode. */
  method ResumeGate(run: Run, out: Outside, fault: Faults, before: seq<Act>, plan: nat)
    returns (trace: seq<Act>, flow: Flow, gate: Gate)
    requires Guarded(run) && out.planLoad == PlanLoaded(plan)
    ensures Script(trace, flow) == Play(fault, before, ResumeScript(run, out))
    ensures flow.Go? ==> gate == GateOf(run, out)
  {
    gate := SHUT;
    trace, flow := PerformOrFail(fault, before, [Call("compare resume")], out.comparison.CompareRaised?);
    if !flow.Go? { return; }
    var matched := out.comparison.matched;
    trace, flow := PerformOrFail(fault, trace, ComparedEvents(plan, matched), !matched);
    if !flow.Go? { return; }
    trace, flow := PerformOrFail(fault, trace, [Call("create frame")], !out.frameMade);
    gate := Gate(Some(plan), Some(plan));
  }

  /** Inside the sandbox, up to the adapter. */
  method Assemble(run: Run, out: Outside, fault: Faults, before: seq<Act>, plan: Option<nat>)
    returns (trace: seq<Act>, flow: Flow, gate: Gate)
    requires plan.Some? <==> Guarded(run)
    requires plan.Some? ==> out.planLoad == PlanLoaded(plan.value)
    ensures Script(trace, flow) == Play(fault, before, AssembleScript(run, out))
    ensures flow.Go? ==> gate == GateOf(run, out)
  {
    gate := SHUT;
    assert AssembleScript(run, out) == Before(BookActs(run, out), ToolsScript(run, out));
    trace, flow := Perform(fault, before, BookActs(run, out));
    if !flow.Go? { return; }
    trace, flow, gate := BuildTools(run, out, fault, trace, plan);
  }

  method BuildTools(run: Run, out: Outside, fault: Faults, before: seq<Act>, plan: Option<nat>)
    returns (trace: seq<Act>, flow: Flow, gate: Gate)
    requires plan.Some? <==> Guarded(run)
    requires plan.Some? ==> out.planLoad == PlanLoaded(plan.value)
    ensures Script(trace, flow) == Play(fault, before, ToolsScript(run, out))
    ensures flow.Go? ==> gate == GateOf(run, out)
  {
    gate := SHUT;
    var building := [Call("build tools and prompt")];
    assert ToolsScript(run, out) == Before(building, Before(ToolsEvents(run), GatedScript(run, out)));
    trace, flow := Perform(fault, before, building);
    if !flow.Go? { return; }
    trace, flow := Perform(fault, trace, ToolsEvents(run));
    if !flow.Go? { return; }
    trace, flow, gate := GateAndAnswer(run, out, fault, trace, plan);
  }

  /** The plan gate, then the answer book learning may already have. */
  method GateAndAnswer(run: Run, out: Outside, fault: Faults, before: seq<Act>, plan: Option<nat>)
    returns (trace: seq<Act>, flow: Flow, gate: Gate)
    requires plan.Some? <==> Guarded(run)
    requires plan.Some? ==> out.planLoad == PlanLoaded(plan.value)
    ensures Script(trace, flow) == Play(fault, before, GatedScript(run, out))
    ensures flow.Go? ==> gate == GateOf(run, out)
  {
    trace, flow, gate := before, Go, SHUT;
    PlayAfter(fault, before, GateScript(run, out), DirectScript(run, out));
    if !run.Resume() && run.mode != Off && out.prepared.Some? {
      trace, flow, gate := NewTurnGate(run, out, fault, trace);
    } else if run.Resume() && run.mode == Enforce {
      trace, flow, gate := ResumeGate(run, out, fault, trace, plan.value);
    }
    if !flow.Go? { return; }
    trace, flow := AnswerDirectly(run, out, fault, trace);
  }

  method AnswerDirectly(run: Run, out: Outside, fault: Faults, before: seq<Act>) returns (trace: seq<Act>, flow: Flow)
    ensures Script(trace, flow) == Play(fault, before, DirectScript(run, out))
  {
    trace, flow := before, Go;
    if !run.Resume() && out.knowledgeRouted && out.bookAnswer != "" {
      trace, flow := Perform(fault, trace, [Call("append answer"), Emit("assistant", "completed")]);
      if flow.Go? { trace, flow := Finish(fault, trace, "completed"); }
    }
  }
}
