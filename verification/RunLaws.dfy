/** What every run of RunStream keeps, whatever the outside answers and wherever it is interrupted. */
module RunLaws {
  import opened Common
  import opened Scripts
  import opened RunTimeline
  import opened RunStream

  // ----- The loop -----

  /** The stream_turn calls of an undisturbed loop from its k-th on: one more than the approvals answered. */
  function CallsFrom(run: Run, out: Outside, gate: Gate, k: nat): (r: seq<Act>)
    requires k <= |out.rounds|
    ensures |r| == 1 + AnsweredFrom(out, k)
  {
    seq(1 + AnsweredFrom(out, k), i requires 0 <= i <= AnsweredFrom(out, k) => TurnAt(run, out, gate, k + i))
  }

  lemma CallsFromNext(run: Run, out: Outside, gate: Gate, k: nat)
    requires k <= |out.rounds|
    ensures CallsFrom(run, out, gate, k) ==
            [TurnAt(run, out, gate, k)]
            + if k < |out.rounds| && Answered(out.rounds[k]) then CallsFrom(run, out, gate, k + 1) else []
  {
  }

  lemma {:induction false} TurnsConcat(a: seq<Act>, b: seq<Act>)
    ensures Turns(a + b) == Turns(a) + Turns(b)
    ensures Emitted(a + b) == Emitted(a) + Emitted(b)
  {
    if b == [] {
      assert a + b == a;
    } else {
      var n := |b| - 1;
      assert (a + b)[..|a| + n] == a + b[..n];
      TurnsConcat(a, b[..n]);
    }
  }

  lemma {:induction false} NoTurns(acts: seq<Act>)
    requires forall i :: 0 <= i < |acts| ==> !acts[i].StreamTurn?
    ensures Turns(acts) == []
  {
    if acts != [] { NoTurns(acts[..|acts| - 1]); }
  }

  lemma OneTurnOf(a: Act)
    requires a.StreamTurn?
    ensures Turns([a]) == [a]
  {
    assert [a][..0] == [];
  }

  /** What the loop may do, each call with the gate's binding and frame. */
  ghost predicate Streaming(run: Run, out: Outside, gate: Gate, acts: seq<Act>) {
    forall i :: 0 <= i < |acts| ==>
      && (acts[i].Emit? || acts[i].Call? || acts[i].StreamTurn?)
      && (AdapterSilent(out) ==> !Terminal(acts[i]))
      && (acts[i].StreamTurn? ==>
            acts[i].binding == gate.binding && acts[i].frame == if run.mode == Enforce then gate.frame else None)
  }

  lemma StreamingConcat(run: Run, out: Outside, gate: Gate, a: seq<Act>, b: seq<Act>)
    requires Streaming(run, out, gate, a) && Streaming(run, out, gate, b)
    ensures Streaming(run, out, gate, a + b)
  {
  }

  /** The loop from its k-th call on: it never returns by itself, goes on exactly when after the answered
      rounds comes one that asks for no approval, and makes exactly the calls it should. */
  lemma {:induction false} LoopLaws(run: Run, out: Outside, gate: Gate, k: nat)
    requires k <= |out.rounds|
    ensures var s := LoopScript(run, out, gate, k);
      && Streaming(run, out, gate, s.acts) && s.flow == EndFlow(out, k)
      && Turns(s.acts) == CallsFrom(run, out, gate, k)
    decreases |out.rounds| - k
  {
    var turn := TurnAt(run, out, gate, k);
    CallsFromNext(run, out, gate, k);
    if k == |out.rounds| {
      CallThen(run, out, gate, k, []);
    } else {
      RoundLaws(run, out, gate, k);
      CallThen(run, out, gate, k, RoundScript(run, out, gate, k).acts);
    }
  }

  lemma CallThen(run: Run, out: Outside, gate: Gate, k: nat, acts: seq<Act>)
    requires k <= |out.rounds| && Streaming(run, out, gate, acts)
    ensures var turn := [TurnAt(run, out, gate, k)];
      Streaming(run, out, gate, turn + acts) && Turns(turn + acts) == turn + Turns(acts)
  {
    var turn := TurnAt(run, out, gate, k);
    OneTurnOf(turn);
    TurnsConcat([turn], acts);
    StreamingConcat(run, out, gate, [turn], acts);
  }

  /** How the loop ends when it goes on from the k-th round. */
  function EndFlow(out: Outside, k: nat): Flow
    requires k <= |out.rounds|
  {
    var n := k + AnsweredFrom(out, k);
    if n < |out.rounds| && LastApproval(out.rounds[n].events).None? then Go else Stopped(Raised)
  }

  lemma {:induction false} RoundLaws(run: Run, out: Outside, gate: Gate, k: nat)
    requires k < |out.rounds|
    ensures var s := RoundScript(run, out, gate, k);
      && Streaming(run, out, gate, s.acts) && s.flow == EndFlow(out, k)
      && Turns(s.acts) == (if Answered(out.rounds[k]) then CallsFrom(run, out, gate, k + 1) else [])
    decreases |out.rounds| - k, 1
  {
    var round := out.rounds[k];
    var events := EventsScript(round.events);
    assert Streaming(run, out, gate, events.acts);
    NoTurns(events.acts);
    if LastApproval(round.events).None? {
      NoneIsNamed(round.events);
      assert events.acts + [] == events.acts;
    } else if events.flow.Go? {
      var wait := WaitScript(run, out, gate, k);
      WaitLaws(run, out, gate, k);
      TurnsThenStreaming(run, out, gate, events.acts, wait.acts);
    }
  }

  lemma {:induction false} WaitLaws(run: Run, out: Outside, gate: Gate, k: nat)
    requires k < |out.rounds| && AllNamed(out.rounds[k].events) && LastApproval(out.rounds[k].events).Some?
    ensures var s := WaitScript(run, out, gate, k);
      && Streaming(run, out, gate, s.acts) && s.flow == EndFlow(out, k)
      && Turns(s.acts) == (if out.rounds[k].choice.Some? then CallsFrom(run, out, gate, k + 1) else [])
    decreases |out.rounds| - k, 0
  {
    var choice := out.rounds[k].choice;
    WaitThenLoop(run, out, gate, k);
    WaitActsStream(run, out, gate, choice);
    if choice.Some? {
      LoopLaws(run, out, gate, k + 1);
      EndFlowNext(out, k);
      TurnsThenStreaming(run, out, gate, WaitActs(choice), LoopScript(run, out, gate, k + 1).acts);
    } else {
      EndFlowStops(out, k);
      TurnsThenStreaming(run, out, gate, WaitActs(choice), []);
    }
  }

  lemma EndFlowNext(out: Outside, k: nat)
    requires k < |out.rounds| && Answered(out.rounds[k])
    ensures EndFlow(out, k) == EndFlow(out, k + 1)
  {
  }

  lemma EndFlowStops(out: Outside, k: nat)
    requires k < |out.rounds| && LastApproval(out.rounds[k].events).Some? && !Answered(out.rounds[k])
    ensures EndFlow(out, k) == Stopped(Raised)
  {
  }

  function WaitActs(choice: Option<string>): seq<Act> {
    [Call("wait for approval")] + if choice.Some? then ConsumeActs(choice.value) else []
  }

  lemma WaitActsStream(run: Run, out: Outside, gate: Gate, choice: Option<string>)
    ensures Streaming(run, out, gate, WaitActs(choice)) && Turns(WaitActs(choice)) == []
  {
    NoTurns(WaitActs(choice));
  }

  lemma WaitThenLoop(run: Run, out: Outside, gate: Gate, k: nat)
    requires k < |out.rounds|
    ensures WaitScript(run, out, gate, k) == Before(WaitActs(out.rounds[k].choice),
      if out.rounds[k].choice.Some? then LoopScript(run, out, gate, k + 1) else RAISED)
  {
  }

  /** Acts without a call before others. */
  lemma TurnsThenStreaming(run: Run, out: Outside, gate: Gate, a: seq<Act>, b: seq<Act>)
    requires Streaming(run, out, gate, a) && Streaming(run, out, gate, b) && Turns(a) == []
    ensures Streaming(run, out, gate, a + b) && Turns(a + b) == Turns(b)
  {
    TurnsConcat(a, b);
    assert [] + Turns(b) == Turns(b);
  }

  lemma {:induction false} NoneIsNamed(events: seq<StreamEvent>)
    requires LastApproval(events).None?
    ensures AllNamed(events)
  {
    if events != [] {
      var n := |events| - 1;
      NoneIsNamed(events[..n]);
      forall i | 0 <= i < |events| ensures !Nameless(events[i].body) {
        assert i < n ==> events[i] == events[..n][i];
      }
    }
  }

  /** The approval a round was stopped by: the last body that asks for one above subagent level. */
  ghost predicate LastAsked(round: Round, j: nat) {
    && j < |round.events| && round.events[j].body.ApprovalRequired? && round.events[j].body.scope != "subagent"
    && forall i :: j < i < |round.events| ==>
         !(round.events[i].body.ApprovalRequired? && round.events[i].body.scope != "subagent")
  }

  /** The value is addressed to the interrupt of the last approval asked for, with that approval's id and
      the choice it was given. */
  ghost predicate AnswersLast(value: Option<ResumeValue>, round: Round) {
    && round.choice.Some?
    && exists j: nat ::
         LastAsked(round, j)
         && value == Some(Approval(round.events[j].body.interrupt, round.events[j].body.approval, round.choice.value))
  }

  function OwnValue(run: Run): Option<ResumeValue> {
    if run.resumeValue.Some? then Some(Initial(run.resumeValue.value)) else None
  }

  /** The k-th call: attempts count up by one from the run's own. The first is the run's own, resumed or
      not; every later one resumes, addressed to the interrupt of the last approval asked for in the round
      before it, with that approval's id and the choice it was given. */
  lemma TurnsAreNumbered(run: Run, out: Outside, gate: Gate, k: nat)
    requires k < |CallsFrom(run, out, gate, 0)|
    ensures k <= |out.rounds|
    ensures var turn := CallsFrom(run, out, gate, 0)[k];
      && turn.StreamTurn? && turn.attempt == run.attempt + k && turn.binding == gate.binding
      && turn.frame == (if run.mode == Enforce then gate.frame else None)
      && (k == 0 ==> turn.resume == run.Resume() && turn.value == OwnValue(run))
      && (k > 0 ==> turn.resume && AnswersLast(turn.value, out.rounds[k - 1]))
  {
    assert CallsFrom(run, out, gate, 0)[k] == TurnAt(run, out, gate, k);
    if k > 0 {
      EarlierAnswered(out, 0, k - 1);
      NextValueAnswersLast(out.rounds[k - 1]);
    }
  }

  lemma NextValueAnswersLast(round: Round)
    requires Answered(round)
    ensures AnswersLast(NextValue(round), round)
  {
    var j := AskedLast(round.events);
    LastApprovalIsGraphLevel(round.events);
    assert LastAsked(round, j);
  }

  lemma {:induction false} EarlierAnswered(out: Outside, from: nat, k: nat)
    requires from <= |out.rounds| && from <= k < from + AnsweredFrom(out, from)
    ensures k < |out.rounds| && Answered(out.rounds[k])
    decreases |out.rounds| - from
  {
    if k > from { EarlierAnswered(out, from + 1, k); }
  }

  lemma {:induction false} AskedLast(events: seq<StreamEvent>) returns (j: nat)
    requires LastApproval(events).Some?
    ensures j < |events| && LastApproval(events) == Some(events[j].body) && GraphLevel(events[j].body)
    ensures forall i :: j < i < |events| ==> !GraphLevel(events[i].body)
  {
    j := |events| - 1;
    if !GraphLevel(events[j].body) {
      var n := j;
      j := AskedLast(events[..n]);
      assert events[..n][j] == events[j];
      forall i | j < i < |events| ensures !GraphLevel(events[i].body) {
        assert i < n ==> events[..n][i] == events[i];
      }
    }
  }

  /** Where the calls end, read off the rounds: every round before the last call asked for an approval, all
      of its graph-level approvals were named, and it got a choice; the round of the last call did not,
      unless there are no more rounds. */
  lemma CallsEnd(run: Run, out: Outside, gate: Gate, i: nat)
    ensures var n := |CallsFrom(run, out, gate, 0)| - 1;
      && n <= |out.rounds|
      && (i < n ==> out.rounds[i].choice.Some? && (exists j :: LastAsked(out.rounds[i], j)) && NoneNameless(out.rounds[i]))
      && (n < |out.rounds| ==>
            out.rounds[n].choice.None? || !NoneNameless(out.rounds[n]) || forall j :: !LastAsked(out.rounds[n], j))
  {
    var n := AnsweredFrom(out, 0);
    if i < n {
      EarlierAnswered(out, 0, i);
      var j := AskedLast(out.rounds[i].events);
      assert LastAsked(out.rounds[i], j);
    }
    if n < |out.rounds| {
      NotAnsweredAt(out, 0);
      forall j | LastAsked(out.rounds[n], j) ensures LastApproval(out.rounds[n].events).Some? {
        AskedIsFound(out.rounds[n].events, j);
      }
    }
  }

  /** Every graph-level approval names itself and a real interrupt. */
  ghost predicate NoneNameless(round: Round) {
    forall i :: 0 <= i < |round.events| ==>
      var b := round.events[i].body;
      b.ApprovalRequired? && b.scope != "subagent" ==> b.approval != "" && b.interrupt != "" && b.interrupt != "anonymous"
  }

  lemma {:induction false} AskedIsFound(events: seq<StreamEvent>, j: nat)
    requires j < |events| && GraphLevel(events[j].body)
    ensures LastApproval(events).Some?
  {
    if j < |events| - 1 { AskedIsFound(events[..|events| - 1], j); }
  }

  lemma {:induction false} NotAnsweredAt(out: Outside, from: nat)
    requires from <= |out.rounds|
    ensures var n := from + AnsweredFrom(out, from); n < |out.rounds| ==> !Answered(out.rounds[n])
    decreases |out.rounds| - from
  {
    if from < |out.rounds| && Answered(out.rounds[from]) { NotAnsweredAt(out, from + 1); }
  }

  /** The text of a stretch of events is the text of its parts in order, and that of one event its delta. */
  lemma {:induction false} TextJoins(a: seq<StreamEvent>, b: seq<StreamEvent>)
    ensures TextOf(a + b) == TextOf(a) + TextOf(b)
  {
    if b == [] {
      assert a + b == a;
    } else {
      var n := |b| - 1;
      var last := if b[n].body.Text? then b[n].body.delta else "";
      TextJoins(a, b[..n]);
      assert (a + b)[..|a + b| - 1] == a + b[..n] && (a + b)[|a + b| - 1] == b[n];
      assert TextOf(a) + TextOf(b[..n]) + last == TextOf(a) + (TextOf(b[..n]) + last);
    }
  }

  lemma TextOfOne(event: StreamEvent)
    ensures TextOf([event]) == if event.body.Text? then event.body.delta else ""
  {
    assert [event][..0] == [];
  }

  // ----- What reaches the reader -----

  /** An approval above subagent level without its own id or a real interrupt. */
  predicate Unnamed(b: Body) {
    b.ApprovalRequired? && b.scope != "subagent" && (b.approval == "" || b.interrupt == "" || b.interrupt == "anonymous")
  }

  /** Positions, in what a call yields, of the events it was given: each event up to the first unnamed
      approval, that one included, is there as it is and in order, and the only other acts are the one extra
      event right behind each retrieval. */
  ghost predicate PassedOn(events: seq<StreamEvent>, acts: seq<Act>, at: seq<nat>) {
    ReadUpTo(events, |at|) && InOrder(events, acts, at) && Followed(events, acts, at) && NothingElse(events, acts, at)
  }

  /** The n events read are all, or those up to the first unnamed approval. */
  ghost predicate ReadUpTo(events: seq<StreamEvent>, n: nat) {
    && n <= |events|
    && (forall i :: 0 <= i < n - 1 ==> !Unnamed(events[i].body))
    && (n < |events| ==> n > 0 && Unnamed(events[n - 1].body))
  }

  ghost predicate InOrder(events: seq<StreamEvent>, acts: seq<Act>, at: seq<nat>) {
    && |at| <= |events|
    && (forall i, j :: 0 <= i < j < |at| ==> at[i] < at[j])
    && (forall i :: 0 <= i < |at| ==> at[i] < |acts| && acts[at[i]] == Emit(events[i].kind, events[i].status))
  }

  ghost predicate Followed(events: seq<StreamEvent>, acts: seq<Act>, at: seq<nat>) {
    && |at| <= |events|
    && (forall i :: 0 <= i < |at| && events[i].body == Other(true) ==>
          && at[i] + 1 < |acts| && acts[at[i] + 1] == Emit("harness", "completed")
          && (i + 1 < |at| ==> at[i + 1] == at[i] + 2))
  }

  ghost predicate NothingElse(events: seq<StreamEvent>, acts: seq<Act>, at: seq<nat>) {
    && |at| <= |events|
    && forall p :: 0 <= p < |acts| && p !in at ==> BehindRetrieval(events, at, p)
  }

  ghost predicate BehindRetrieval(events: seq<StreamEvent>, at: seq<nat>, p: nat)
    requires |at| <= |events|
  {
    exists i :: 0 <= i < |at| && p == at[i] + 1 && events[i].body == Other(true)
  }

  lemma {:induction false} EventsPassedOn(events: seq<StreamEvent>) returns (at: seq<nat>)
    ensures PassedOn(events, EventsScript(events).acts, at)
    ensures |at| > 0 ==> at[0] == 0
  {
    if events == [] {
      at := [];
    } else if Nameless(events[0].body) {
      at := [0];
      assert EventsScript(events).acts == [Emit(events[0].kind, events[0].status)];
      PassedOnAlone(events);
    } else {
      var rest := EventsPassedOn(events[1..]);
      at := Shifted(rest, |EventActs(events[0])|);
      PassedOnMore(events, EventsScript(events[1..]).acts, rest);
    }
  }

  lemma PassedOnAlone(events: seq<StreamEvent>)
    requires events != [] && Unnamed(events[0].body)
    ensures PassedOn(events, [Emit(events[0].kind, events[0].status)], [0])
  {
  }

  lemma PassedOnMore(events: seq<StreamEvent>, acts: seq<Act>, rest: seq<nat>)
    requires events != [] && !Unnamed(events[0].body) && PassedOn(events[1..], acts, rest)
    requires |rest| > 0 ==> rest[0] == 0
    ensures PassedOn(events, EventActs(events[0]) + acts, Shifted(rest, |EventActs(events[0])|))
  {
    var first := EventActs(events[0]);
    ShiftReads(events, |rest|);
    ShiftInOrder(events, first, acts, rest);
    ShiftFollowed(events, first, acts, rest);
    ShiftNothingElse(events, first, acts, rest);
  }

  function Shifted(rest: seq<nat>, shift: nat): (at: seq<nat>)
    ensures |at| == |rest| + 1 && at[0] == 0 && forall i :: 1 <= i < |at| ==> at[i] == rest[i - 1] + shift
  {
    [0] + seq(|rest|, i requires 0 <= i < |rest| => rest[i] + shift)
  }

  lemma ShiftReads(events: seq<StreamEvent>, n: nat)
    requires events != [] && !Unnamed(events[0].body) && ReadUpTo(events[1..], n)
    ensures ReadUpTo(events, n + 1)
  {
  }

  lemma ShiftInOrder(events: seq<StreamEvent>, first: seq<Act>, acts: seq<Act>, rest: seq<nat>)
    requires events != [] && first == EventActs(events[0]) && InOrder(events[1..], acts, rest)
    ensures InOrder(events, first + acts, Shifted(rest, |first|))
  {
    var at := Shifted(rest, |first|);
    forall i | 0 <= i < |at|
      ensures at[i] < |first + acts| && (first + acts)[at[i]] == Emit(events[i].kind, events[i].status)
    {
      if i > 0 { assert events[1..][i - 1] == events[i]; }
    }
  }

  lemma ShiftFollowed(events: seq<StreamEvent>, first: seq<Act>, acts: seq<Act>, rest: seq<nat>)
    requires events != [] && first == EventActs(events[0]) && Followed(events[1..], acts, rest)
    requires |rest| > 0 ==> rest[0] == 0
    ensures Followed(events, first + acts, Shifted(rest, |first|))
  {
    var at := Shifted(rest, |first|);
    forall i | 0 <= i < |at| && events[i].body == Other(true)
      ensures at[i] + 1 < |first + acts| && (first + acts)[at[i] + 1] == Emit("harness", "completed")
      ensures i + 1 < |at| ==> at[i + 1] == at[i] + 2
    {
      if i > 0 { assert events[1..][i - 1] == events[i]; }
    }
  }

  lemma ShiftNothingElse(events: seq<StreamEvent>, first: seq<Act>, acts: seq<Act>, rest: seq<nat>)
    requires events != [] && first == EventActs(events[0]) && NothingElse(events[1..], acts, rest)
    ensures NothingElse(events, first + acts, Shifted(rest, |first|))
  {
    var at := Shifted(rest, |first|);
    forall p | 0 <= p < |first + acts| && p !in at ensures BehindRetrieval(events, at, p) {
      if p < |first| {
        assert at[0] in at;
      } else {
        forall k | 0 <= k < |rest| ensures rest[k] != p - |first| { assert at[k + 1] in at; }
        assert BehindRetrieval(events[1..], rest, p - |first|);
        var i :| 0 <= i < |rest| && p - |first| == rest[i] + 1 && events[1..][i].body == Other(true);
        assert at[i + 1] == rest[i] + |first|;
      }
    }
  }

  /** The events of the loop are those of its rounds, one round after the other. */
  function RoundsEvents(out: Outside, k: nat): seq<Act>
    requires k <= |out.rounds|
    decreases |out.rounds| - k
  {
    if k == |out.rounds| then []
    else EventsScript(out.rounds[k].events).acts + if Answered(out.rounds[k]) then RoundsEvents(out, k + 1) else []
  }

  lemma {:induction false} AllEmitted(acts: seq<Act>)
    requires forall i :: 0 <= i < |acts| ==> acts[i].Emit?
    ensures Emitted(acts) == acts
  {
    if acts != [] {
      AllEmitted(acts[..|acts| - 1]);
      assert acts == acts[..|acts| - 1] + [acts[|acts| - 1]];
    }
  }

  lemma {:induction false} NoneEmitted(acts: seq<Act>)
    requires forall i :: 0 <= i < |acts| ==> !acts[i].Emit?
    ensures Emitted(acts) == []
  {
    if acts != [] { NoneEmitted(acts[..|acts| - 1]); }
  }

  lemma {:induction false} LoopRelays(run: Run, out: Outside, gate: Gate, k: nat)
    requires k <= |out.rounds|
    ensures Emitted(LoopScript(run, out, gate, k).acts) == RoundsEvents(out, k)
    decreases |out.rounds| - k
  {
    var turn := [TurnAt(run, out, gate, k)];
    NoneEmitted(turn);
    if k == |out.rounds| {
      TurnsConcat(turn, []);
    } else {
      RoundRelays(run, out, gate, k);
      TurnsConcat(turn, RoundScript(run, out, gate, k).acts);
      assert [] + RoundsEvents(out, k) == RoundsEvents(out, k);
    }
  }

  lemma {:induction false} RoundRelays(run: Run, out: Outside, gate: Gate, k: nat)
    requires k < |out.rounds|
    ensures Emitted(RoundScript(run, out, gate, k).acts) == RoundsEvents(out, k)
    decreases |out.rounds| - k, 1
  {
    var round := out.rounds[k];
    var events := EventsScript(round.events);
    AllEmitted(events.acts);
    if events.flow.Go? && LastApproval(round.events).Some? {
      WaitRelays(run, out, gate, k);
      TurnsConcat(events.acts, WaitScript(run, out, gate, k).acts);
    } else {
      assert events.acts + [] == events.acts;
    }
  }

  lemma {:induction false} WaitRelays(run: Run, out: Outside, gate: Gate, k: nat)
    requires k < |out.rounds| && AllNamed(out.rounds[k].events) && LastApproval(out.rounds[k].events).Some?
    ensures Emitted(WaitScript(run, out, gate, k).acts) ==
            if Answered(out.rounds[k]) then RoundsEvents(out, k + 1) else []
    decreases |out.rounds| - k, 0
  {
    var choice := out.rounds[k].choice;
    WaitThenLoop(run, out, gate, k);
    NoneEmitted(WaitActs(choice));
    if choice.Some? {
      LoopRelays(run, out, gate, k + 1);
      RelaysAfter(WaitActs(choice), LoopScript(run, out, gate, k + 1).acts);
    } else {
      RelaysAfter(WaitActs(choice), []);
    }
  }

  lemma RelaysAfter(quiet: seq<Act>, acts: seq<Act>)
    requires Emitted(quiet) == []
    ensures Emitted(quiet + acts) == Emitted(acts)
  {
    TurnsConcat(quiet, acts);
    assert [] + Emitted(acts) == Emitted(acts);
  }

  // ----- Between opening and closing the sandbox -----

  /** Every check inside the sandbox passes and the model is asked. */
  predicate Asks(run: Run, out: Outside) {
    GatePasses(run, out) && !AnswersDirectly(run, out)
  }

  function AllCalls(run: Run, out: Outside, asks: bool): seq<Act> {
    if asks then CallsFrom(run, out, GateOf(run, out), 0) else []
  }

  /** No sandbox act, and calls only after the first n acts and with what the gate let through. */
  ghost predicate BodyActs(run: Run, out: Outside, gate: Gate, n: nat, acts: seq<Act>) {
    forall i :: 0 <= i < |acts| ==>
      && (Plain(acts[i]) || acts[i].StreamTurn?)
      && (acts[i].StreamTurn? ==>
            && i >= n && acts[i].binding == gate.binding
            && acts[i].frame == if run.mode == Enforce then gate.frame else None)
  }

  lemma BodyLaws(run: Run, out: Outside)
    ensures LawfulBody(run, out, AssembleScript(run, out), BodyScript(run, out))
  {
    LoopLaws(run, out, GateOf(run, out), 0);
    BodyLawsOf(run, out, AssembleScript(run, out), LoopScript(run, out, GateOf(run, out), 0));
  }

  /** Inside the sandbox the run returns exactly when the model is not asked, with one terminal event, the
      last act; otherwise, with a silent adapter, there is no terminal event. */
  ghost predicate LawfulBody(run: Run, out: Outside, assembled: Script<Act>, s: Script<Act>) {
    && s.flow == (if !Asks(run, out) then Returned else if Concludes(out) then Go else Stopped(Raised))
    && (!Asks(run, out) ==> Lawful(s, GateStatus(run, out)))
    && (Asks(run, out) && AdapterSilent(out) ==> forall i :: 0 <= i < |s.acts| ==> !Terminal(s.acts[i]))
    && BodyActs(run, out, GateOf(run, out), |assembled.acts|, s.acts)
    && assembled.acts <= s.acts && (Asks(run, out) ==> Matched(run, out, assembled.acts))
    && Turns(s.acts) == AllCalls(run, out, Asks(run, out))
  }

  lemma BodyLawsOf(run: Run, out: Outside, a: Script<Act>, loop: Script<Act>)
    requires Lawful(a, GateStatus(run, out)) && (a.flow.Go? <==> Asks(run, out))
    requires a.flow.Go? ==> Matched(run, out, a.acts)
    requires Streaming(run, out, GateOf(run, out), loop.acts) && loop.flow == EndFlow(out, 0)
    requires Turns(loop.acts) == CallsFrom(run, out, GateOf(run, out), 0)
    ensures LawfulBody(run, out, a, if a.flow.Go? then Before(a.acts, loop) else a)
  {
    LawfulIsPlain(a, GateStatus(run, out));
    NoTurns(a.acts);
    if a.flow.Go? { AskedBody(run, out, a, loop); }
  }

  lemma AskedBody(run: Run, out: Outside, a: Script<Act>, loop: Script<Act>)
    requires Quiet(a.acts) && Turns(a.acts) == [] && Asks(run, out) && Matched(run, out, a.acts)
    requires Streaming(run, out, GateOf(run, out), loop.acts) && loop.flow == EndFlow(out, 0)
    requires Turns(loop.acts) == CallsFrom(run, out, GateOf(run, out), 0)
    ensures LawfulBody(run, out, a, Before(a.acts, loop))
  {
    AssembledThenLoop(run, out, GateOf(run, out), a.acts, loop.acts);
  }

  lemma AssembledThenLoop(run: Run, out: Outside, gate: Gate, a: seq<Act>, loop: seq<Act>)
    requires Quiet(a) && Streaming(run, out, gate, loop) && Turns(a) == []
    ensures BodyActs(run, out, gate, |a|, a + loop) && Turns(a + loop) == Turns(loop)
    ensures AdapterSilent(out) ==> forall i :: 0 <= i < |a + loop| ==> !Terminal((a + loop)[i])
  {
    TurnsConcat(a, loop);
    assert [] + Turns(loop) == Turns(loop);
  }

  lemma LawfulIsPlain(s: Script<Act>, status: string)
    requires Lawful(s, status)
    ensures forall i :: 0 <= i < |s.acts| ==> Plain(s.acts[i])
    ensures s.flow.Go? ==> Quiet(s.acts)
  {
    forall i | 0 <= i < |s.acts| ensures Plain(s.acts[i]) {
      if !s.flow.Go? && i < |s.acts| - 1 { assert s.acts[i] == s.acts[..|s.acts| - 1][i]; }
    }
  }

  // ----- The parts of a trace -----

  function Bracketed(opening: seq<Act>, body: seq<Act>, ending: seq<Act>): seq<Act> {
    opening + [OpenSandbox] + body + [CloseSandbox] + ending
  }

  /** What faults leave of a run that opened its sandbox: `done` of its body, which then goes on as
      `inner`, and `ending` of its closing. */
  ghost predicate Parts(
    fault: Faults, opening: Script<Act>, body: Script<Act>, closing: Script<Act>,
    done: seq<Act>, inner: Flow, ending: seq<Act>, r: Script<Act>)
  {
    var c := |opening.acts| + 1 + |done|;
    && r.acts == Bracketed(opening.acts, done, ending)
    && Cut(fault, |opening.acts| + 1, body, done, inner)
    && if fault(c).Some? then ending == [] && r.flow == Stopped(fault(c).value)
       else if inner.Go? then Cut(fault, c + 1, closing, ending, r.flow)
       else ending == [] && r.flow == inner
  }

  lemma SandboxedParts(fault: Faults, opening: Script<Act>, body: Script<Act>, closing: Script<Act>)
    returns (done: seq<Act>, inner: Flow, ending: seq<Act>)
    requires opening.flow.Go? && Unhindered(fault, 0, |opening.acts|)
    ensures Parts(fault, opening, body, closing, done, inner, ending, Sandboxed(fault, opening, body, closing))
  {
    var before := opening.acts + [OpenSandbox];
    PlayUnhindered(fault, [], opening);
    assert [] + opening.acts == opening.acts;
    done, inner := PlayCut(fault, before, body);
    ending := ClosedParts(fault, before + done, inner, closing);
  }

  /** From the closing of the sandbox on. */
  lemma ClosedParts(fault: Faults, before: seq<Act>, inner: Flow, closing: Script<Act>) returns (ending: seq<Act>)
    ensures var closed := Play(fault, before, Script([CloseSandbox], inner));
      var r := if closed.flow.Go? then Play(fault, closed.acts, closing) else closed;
      && r.acts == before + [CloseSandbox] + ending
      && if fault(|before|).Some? then ending == [] && r.flow == Stopped(fault(|before|).value)
         else if inner.Go? then Cut(fault, |before| + 1, closing, ending, r.flow)
         else ending == [] && r.flow == inner
  {
    CloseCut(fault, before, inner);
    ending := [];
    if fault(|before|).None? && inner.Go? {
      var flow;
      ending, flow := PlayCut(fault, before + [CloseSandbox], closing);
    }
  }

  lemma CloseCut(fault: Faults, before: seq<Act>, inner: Flow)
    ensures Play(fault, before, Script([CloseSandbox], inner)) ==
            Script(before + [CloseSandbox],
                   if fault(|before|).Some? then Stopped(fault(|before|).value) else inner)
  {
  }

  /** A run that never opens its sandbox is its opening, played. */
  lemma Unopened(fault: Faults, opening: Script<Act>, body: Script<Act>, closing: Script<Act>)
    requires !(opening.flow.Go? && Unhindered(fault, 0, |opening.acts|))
    ensures Sandboxed(fault, opening, body, closing) == Play(fault, [], opening)
  {
    PlayGoes(fault, [], opening);
  }

  // ----- What a reader is shown before the model is asked -----

  /** The events of a run up to the model, for a run that gets there: a new run shows its message, the
      retrieval decision, memories, context, catalog, book learning and tools; then the plan gate shows the
      captured plan and whether it matched, or what failed. A resumed run shows only its gate. */
  function ShownFirst(run: Run, out: Outside): seq<Act> {
    (ShownContext(run, out) + ShownCatalog(run, out))
    + ((if !run.Resume() && out.knowledgeRouted then BookEvents(out.bookEvents) else [])
       + ((if run.Resume() then [] else [Emit("harness", "completed")]) + ShownGate(run, out)))
  }

  function ShownContext(run: Run, out: Outside): seq<Act> {
    if run.Resume() then []
    else
      [Emit(if run.fromUser then "user" else "harness", "completed")]
      + ([Emit("harness", "completed")] + Repeat(Emit("memory", "completed"), out.memoryEvents))
      + ((if out.prepared.Some? then ContextEvents(out.prepared.value.events, out.contextStatus) else [])
         + (if out.contextStatus then [Emit("context", "completed")] else []))
  }

  function ShownCatalog(run: Run, out: Outside): seq<Act> {
    if out.catalog != NoCatalog && !run.Resume() then [Emit("harness", "completed")] else []
  }

  function ShownGate(run: Run, out: Outside): seq<Act> {
    if run.Resume() then (if run.mode == Enforce then [Emit("harness", "completed")] else [])
    else if run.mode == Off || out.prepared.None? then []
    else PlanShown(out)
  }

  function PlanShown(out: Outside): seq<Act> {
    if out.captured.None? then [Emit("harness", "error")]
    else
      [Emit("harness", "completed"),
       Emit("harness", if out.comparison == Compared(true) then "completed" else "error")]
  }

  lemma EmittedOfCall(what: string, acts: seq<Act>)
    ensures Emitted([Call(what)] + acts) == Emitted(acts)
  {
    NoneEmitted([Call(what)]);
    RelaysAfter([Call(what)], acts);
  }

  lemma EmittedOfEvents(events: seq<Act>, acts: seq<Act>)
    requires forall i :: 0 <= i < |events| ==> events[i].Emit?
    ensures Emitted(events + acts) == events + Emitted(acts)
  {
    AllEmitted(events);
    TurnsConcat(events, acts);
  }

  lemma AreEvents(events: seq<string>, contextStatus: bool)
    ensures forall i :: 0 <= i < |ContextEvents(events, contextStatus)| ==> ContextEvents(events, contextStatus)[i].Emit?
  {
    if events != [] { AreEvents(events[1..], contextStatus); }
  }

  lemma CapabilitiesShown(run: Run, out: Outside)
    requires CapabilitiesAgree(run, out)
    ensures Emitted(CapabilitiesScript(run, out).acts) ==
            ShownCatalog(run, out)
  {
    var calls := [Call("skill lifecycle")] + if out.catalog == Manager then [Call("acquire tools")] else [];
    CapabilitiesParts(run, out);
    NoneEmitted(calls);
    RelaysAfter(calls, CatalogScript(run, out).acts);
    if out.catalog != NoCatalog && !run.Resume() {
      var shown := [Emit("harness", "completed")];
      assert CatalogScript(run, out).acts == [Call("catalog event")] + shown;
      EmittedOfCall("catalog event", shown);
      AllEmitted(shown);
    }
  }

  lemma CapabilitiesParts(run: Run, out: Outside)
    requires CapabilitiesAgree(run, out)
    ensures CapabilitiesScript(run, out).acts ==
            [Call("skill lifecycle")] + (if out.catalog == Manager then [Call("acquire tools")] else [])
            + CatalogScript(run, out).acts
  {
  }

  lemma ContextShown(run: Run, out: Outside)
    requires ContextAllows(run, out)
    ensures Emitted(ContextScript(run, out).acts) == ShownContext(run, out)
  {
    if run.Resume() {
      NoneEmitted(ContextScript(run, out).acts);
    } else {
      AllowedContext(run, out);
      UserShown(run);
      RetrievalShown(out);
      PreparedShown(out);
      TurnsConcat(UserMessage(run) + RetrievalActs(out), PreparedEvents(out));
      TurnsConcat(UserMessage(run), RetrievalActs(out));
    }
  }

  lemma AllowedContext(run: Run, out: Outside)
    requires ContextAllows(run, out) && !run.Resume()
    ensures ContextScript(run, out).acts == UserMessage(run) + RetrievalActs(out) + PreparedEvents(out)
  {
  }

  lemma UserShown(run: Run)
    ensures Emitted(UserMessage(run)) == [Emit(if run.fromUser then "user" else "harness", "completed")]
  {
    var user := [Emit(if run.fromUser then "user" else "harness", "completed")];
    assert UserMessage(run) == [Call("prepare context")] + ([Call("append user message")] + user);
    EmittedOfCall("prepare context", [Call("append user message")] + user);
    EmittedOfCall("append user message", user);
    AllEmitted(user);
  }

  lemma RetrievalShown(out: Outside)
    ensures Emitted(RetrievalActs(out)) ==
            [Emit("harness", "completed")] + Repeat(Emit("memory", "completed"), out.memoryEvents)
  {
    var shown := [Emit("harness", "completed")] + Repeat(Emit("memory", "completed"), out.memoryEvents);
    assert RetrievalActs(out) == [Call("retrieval gate")] + shown;
    EmittedOfCall("retrieval gate", shown);
    AllEmitted(shown);
  }

  lemma PreparedShown(out: Outside)
    ensures Emitted(PreparedEvents(out)) ==
            (if out.prepared.Some? then ContextEvents(out.prepared.value.events, out.contextStatus) else [])
            + (if out.contextStatus then [Emit("context", "completed")] else [])
  {
    if out.prepared.Some? { AreEvents(out.prepared.value.events, out.contextStatus); }
    AllEmitted(PreparedEvents(out));
  }

  lemma AdmissionShown(run: Run, out: Outside)
    requires Admits(run, out)
    ensures Emitted(AdmissionScript(run, out).acts) == []
  {
    NoneEmitted(AdmissionScript(run, out).acts);
  }

  lemma OpeningShown(run: Run, out: Outside)
    requires Opens(run, out)
    ensures Emitted(OpeningScript(run, out).acts) ==
            Emitted(ContextScript(run, out).acts) + Emitted(CapabilitiesScript(run, out).acts)
  {
    var a, b, c := AdmissionScript(run, out).acts, ContextScript(run, out).acts, CapabilitiesScript(run, out).acts;
    OpeningParts(run, out);
    AdmissionShown(run, out);
    RelaysAfter(a, b + (c + SandboxCall().acts));
    TurnsConcat(b, c + SandboxCall().acts);
    TurnsConcat(c, SandboxCall().acts);
    NoneEmitted(SandboxCall().acts);
    assert Emitted(c) + [] == Emitted(c);
  }

  lemma OpeningParts(run: Run, out: Outside)
    requires Opens(run, out)
    ensures OpeningScript(run, out).acts ==
            AdmissionScript(run, out).acts
            + (ContextScript(run, out).acts + (CapabilitiesScript(run, out).acts + SandboxCall().acts))
  {
  }

  lemma GateShown(run: Run, out: Outside)
    requires GatePasses(run, out)
    ensures Emitted(GateScript(run, out).acts) ==
            ShownGate(run, out)
  {
    if Captures(run, out) {
      NewTurnShown(run, out);
    } else if Guarded(run) {
      ResumeShown(run, out);
    }
  }

  lemma ResumeShown(run: Run, out: Outside)
    requires Guarded(run) && out.comparison == Compared(true) && out.frameMade
    ensures Emitted(ResumeScript(run, out).acts) == [Emit("harness", "completed")]
  {
    ResumeParts(run, out);
    ShownBetween([Call("compare resume"), ComparePlan(LoadedPlan(out), true)], [Emit("harness", "completed")],
                 [Call("create frame")]);
  }

  lemma ShownBetween(before: seq<Act>, shown: seq<Act>, after: seq<Act>)
    requires forall i :: 0 <= i < |before| ==> !before[i].Emit?
    requires forall i :: 0 <= i < |shown| ==> shown[i].Emit?
    requires forall i :: 0 <= i < |after| ==> !after[i].Emit?
    ensures Emitted(before + (shown + after)) == shown
  {
    NoneEmitted(before);
    RelaysAfter(before, shown + after);
    NoneEmitted(after);
    EmittedOfEvents(shown, after);
  }

  lemma ResumeParts(run: Run, out: Outside)
    requires Guarded(run) && out.comparison == Compared(true) && out.frameMade
    ensures ResumeScript(run, out).acts ==
            [Call("compare resume"), ComparePlan(LoadedPlan(out), true)]
            + ([Emit("harness", "completed")] + [Call("create frame")])
  {
  }

  lemma NewTurnShown(run: Run, out: Outside)
    requires Captures(run, out) && GatePasses(run, out)
    ensures Emitted(NewTurnScript(run, out).acts) == PlanShown(out)
  {
    var capture := [Call("capture plan")];
    NoneEmitted(capture);
    if out.captured.None? {
      var shown := [Emit("harness", "error")];
      assert NewTurnScript(run, out).acts == capture + shown;
      RelaysAfter(capture, shown);
      AllEmitted(shown);
    } else {
      CompareShown(run, out);
      RelaysAfter(capture, CompareScript(run, out).acts);
    }
  }

  lemma CompareShown(run: Run, out: Outside)
    requires Captures(run, out) && GatePasses(run, out) && out.captured.Some?
    ensures Emitted(CompareScript(run, out).acts) == PlanShown(out)
  {
    CompareParts(run, out);
    ShownThenBetween(Emit("harness", "completed"), CompareCalls(out),
                     Emit("harness", if out.comparison == Compared(true) then "completed" else "error"), FrameCalls(out));
  }

  lemma ShownThenBetween(first: Act, before: seq<Act>, second: Act, after: seq<Act>)
    requires first.Emit? && second.Emit?
    requires forall i :: 0 <= i < |before| ==> !before[i].Emit?
    requires forall i :: 0 <= i < |after| ==> !after[i].Emit?
    ensures Emitted([first] + (before + ([second] + after))) == [first, second]
  {
    ShownBetween(before, [second], after);
    EmittedOfEvents([first], before + ([second] + after));
    assert [first] + [second] == [first, second];
  }

  function CompareCalls(out: Outside): seq<Act> {
    if out.comparison.CompareRaised? || out.captured.None? then [Call("compare plan")]
    else [Call("compare plan"), ComparePlan(out.captured.value, out.comparison.matched)]
  }

  function FrameCalls(out: Outside): seq<Act> {
    if out.comparison.CompareRaised? then [] else [Call("create frame")]
  }

  lemma CompareParts(run: Run, out: Outside)
    requires Captures(run, out) && GatePasses(run, out) && out.captured.Some?
    ensures CompareScript(run, out).acts ==
            [Emit("harness", "completed")]
            + (CompareCalls(out)
               + ([Emit("harness", if out.comparison == Compared(true) then "completed" else "error")] + FrameCalls(out)))
  {
  }

  lemma AssembleShown(run: Run, out: Outside)
    requires Asks(run, out)
    ensures Emitted(AssembleScript(run, out).acts) ==
            (if !run.Resume() && out.knowledgeRouted then BookEvents(out.bookEvents) else [])
            + ((if run.Resume() then [] else [Emit("harness", "completed")]) + Emitted(GateScript(run, out).acts))
  {
    var book, tools, gate := BookActs(run, out), ToolsEvents(run), GateScript(run, out).acts;
    AssembleParts(run, out);
    BookShown(run, out);
    TurnsConcat(book, [Call("build tools and prompt")] + (tools + gate));
    EmittedOfCall("build tools and prompt", tools + gate);
    EmittedOfEvents(tools, gate);
  }

  lemma AssembleParts(run: Run, out: Outside)
    requires Asks(run, out)
    ensures AssembleScript(run, out).acts ==
            BookActs(run, out) + ([Call("build tools and prompt")] + (ToolsEvents(run) + GateScript(run, out).acts))
  {
    assert GatedScript(run, out).acts == GateScript(run, out).acts;
  }

  lemma BookShown(run: Run, out: Outside)
    ensures Emitted(BookActs(run, out)) ==
            if !run.Resume() && out.knowledgeRouted then BookEvents(out.bookEvents) else []
  {
    if AsksBook(run, out) {
      EmittedOfCall("book learning", BookEvents(out.bookEvents));
      AllEmitted(BookEvents(out.bookEvents));
    }
  }

  /** A run that asks the model has shown exactly these events before. */
  lemma ShownBeforeModel(run: Run, out: Outside)
    requires Opens(run, out) && Asks(run, out)
    ensures Emitted(OpeningScript(run, out).acts) + Emitted(AssembleScript(run, out).acts) == ShownFirst(run, out)
  {
    OpeningShown(run, out);
    ContextShown(run, out);
    CapabilitiesShown(run, out);
    AssembleShown(run, out);
    GateShown(run, out);
  }

  // ----- Terminal events and returns -----

  /** Only the closing of the sandbox may follow. */
  ghost predicate NothingAfter(trace: seq<Act>, t: nat)
    requires t < |trace|
  {
    t == |trace| - 1 || (t == |trace| - 2 && trace[t + 1] == CloseSandbox)
  }

  /** No terminal event but the last act of a script that returns, which is one. */
  ghost predicate Settles(s: Script<Act>) {
    && (forall i :: 0 <= i < |s.acts| && Terminal(s.acts[i]) ==> i == |s.acts| - 1 && s.flow.Returned?)
    && (s.flow.Returned? ==> s.acts != [] && Terminal(s.acts[|s.acts| - 1]))
  }

  lemma LawfulSettles(s: Script<Act>, status: string)
    requires Lawful(s, status)
    ensures Settles(s)
  {
    forall i | 0 <= i < |s.acts| - 1 ensures !Terminal(s.acts[i]) {
      if !s.flow.Go? { assert s.acts[i] == s.acts[..|s.acts| - 1][i]; }
    }
  }

  /** A terminal event among what faults leave of a script is its last act, and all before it went well. */
  lemma CutTerminal(fault: Faults, from: nat, s: Script<Act>, done: seq<Act>, flow: Flow, i: nat)
    requires Settles(s) && Cut(fault, from, s, done, flow) && i < |done| && Terminal(done[i])
    ensures i == |done| - 1 && done == s.acts && s.flow.Returned? && Unhindered(fault, from, from + i)
    ensures if fault(from + i).None? then flow == Returned else flow == Stopped(fault(from + i).value)
  {
  }

  lemma SandboxedTerminal(fault: Faults, opening: Script<Act>, body: Script<Act>, closing: Script<Act>, t: nat)
    requires Settles(opening) && Settles(body) && Settles(closing)
    requires t < |Sandboxed(fault, opening, body, closing).acts|
    requires Terminal(Sandboxed(fault, opening, body, closing).acts[t])
    ensures var r := Sandboxed(fault, opening, body, closing);
      && NothingAfter(r.acts, t)
      && (r.flow.Returned? <==> fault(t).None? && (t + 1 < |r.acts| ==> fault(t + 1).None?))
  {
    var r, o := Sandboxed(fault, opening, body, closing), |opening.acts|;
    if opening.flow.Go? && Unhindered(fault, 0, o) {
      OpenedTerminal(fault, opening, body, closing, t);
    } else {
      Unopened(fault, opening, body, closing);
      var done, flow := PlayCut(fault, [], opening);
      assert [] + done == done;
      CutTerminal(fault, 0, opening, done, flow, t);
    }
  }

  lemma OpenedTerminal(fault: Faults, opening: Script<Act>, body: Script<Act>, closing: Script<Act>, t: nat)
    requires Settles(opening) && Settles(body) && Settles(closing)
    requires opening.flow.Go? && Unhindered(fault, 0, |opening.acts|)
    requires t < |Sandboxed(fault, opening, body, closing).acts|
    requires Terminal(Sandboxed(fault, opening, body, closing).acts[t])
    ensures var r := Sandboxed(fault, opening, body, closing);
      && NothingAfter(r.acts, t)
      && (r.flow.Returned? <==> fault(t).None? && (t + 1 < |r.acts| ==> fault(t + 1).None?))
  {
    var r, o := Sandboxed(fault, opening, body, closing), |opening.acts|;
    var done, inner, ending := SandboxedParts(fault, opening, body, closing);
    var c := o + 1 + |done|;
    BracketedAt(opening.acts, done, ending);
    if o < t < c {
      CutTerminal(fault, o + 1, body, done, inner, t - o - 1);
    } else if c < t {
      CutTerminal(fault, c + 1, closing, ending, r.flow, t - c - 1);
    }
  }

  /** Nothing went wrong on the way: no act of the trace was hit by a fault. Opening the sandbox is only
      noted once it succeeded. */
  ghost predicate Smooth(fault: Faults, trace: seq<Act>) {
    forall i :: 0 <= i < |trace| && trace[i] != OpenSandbox ==> fault(i).None?
  }

  lemma CutSmooth(fault: Faults, from: nat, s: Script<Act>, done: seq<Act>, flow: Flow)
    requires Cut(fault, from, s, done, flow)
    ensures Unhindered(fault, from, from + |done|) <==> Unhindered(fault, from, from + |s.acts|)
    ensures Unhindered(fault, from, from + |done|) ==> done == s.acts && flow == s.flow
    ensures !Unhindered(fault, from, from + |done|) ==> flow.Stopped?
  {
    if !Unhindered(fault, from, from + |s.acts|) {
      assert from <= from + |done| - 1 < from + |done|;
    }
  }

  lemma SmoothParts(fault: Faults, opening: seq<Act>, done: seq<Act>, ending: seq<Act>)
    requires NoSandbox(opening) && NoSandbox(done) && NoSandbox(ending)
    ensures var o := |opening|; var c := o + 1 + |done|;
      Smooth(fault, Bracketed(opening, done, ending)) <==>
        Unhindered(fault, 0, o) && Unhindered(fault, o + 1, c) && fault(c).None? && Unhindered(fault, c + 1, c + 1 + |ending|)
  {
    var trace, o := Bracketed(opening, done, ending), |opening|;
    var c := o + 1 + |done|;
    if Smooth(fault, trace) {
      forall i | 0 <= i < o ensures fault(i).None? { assert trace[i] == opening[i]; }
      forall i | o + 1 <= i < c ensures fault(i).None? { assert trace[i] == done[i - o - 1]; }
      assert trace[c] == CloseSandbox;
      forall i | c + 1 <= i < c + 1 + |ending| ensures fault(i).None? { assert trace[i] == ending[i - c - 1]; }
    } else {
      var i :| 0 <= i < |trace| && trace[i] != OpenSandbox && fault(i).Some?;
      assert trace[o] == OpenSandbox;
      assert i < o || o + 1 <= i < c || i == c || c + 1 <= i < c + 1 + |ending|;
    }
  }

  /** A run returns exactly when nothing went wrong on the way and its last part returns by itself. */
  lemma SandboxedReturns(fault: Faults, opening: Script<Act>, body: Script<Act>, closing: Script<Act>)
    requires NoSandbox(opening.acts) && NoSandbox(body.acts) && NoSandbox(closing.acts) && !closing.flow.Go?
    ensures var r := Sandboxed(fault, opening, body, closing);
      r.flow.Returned? <==> Smooth(fault, r.acts) && ReturnsByItself(opening, body, closing)
  {
    if opening.flow.Go? && Unhindered(fault, 0, |opening.acts|) {
      OpenedReturns(fault, opening, body, closing);
    } else {
      Unopened(fault, opening, body, closing);
      var done, flow := PlayCut(fault, [], opening);
      assert [] + done == done;
      CutSmooth(fault, 0, opening, done, flow);
      assert Smooth(fault, done) <==> Unhindered(fault, 0, |done|);
    }
  }

  lemma OpenedReturns(fault: Faults, opening: Script<Act>, body: Script<Act>, closing: Script<Act>)
    requires NoSandbox(opening.acts) && NoSandbox(body.acts) && NoSandbox(closing.acts) && !closing.flow.Go?
    requires opening.flow.Go? && Unhindered(fault, 0, |opening.acts|)
    ensures var r := Sandboxed(fault, opening, body, closing);
      r.flow.Returned? <==> Smooth(fault, r.acts) && ReturnsByItself(opening, body, closing)
  {
    var r, o := Sandboxed(fault, opening, body, closing), |opening.acts|;
    var done, inner, ending := SandboxedParts(fault, opening, body, closing);
    var c := o + 1 + |done|;
    SmoothParts(fault, opening.acts, done, ending);
    CutSmooth(fault, o + 1, body, done, inner);
    if fault(c).None? && inner.Go? { CutSmooth(fault, c + 1, closing, ending, r.flow); }
  }

  ghost predicate ReturnsByItself(opening: Script<Act>, body: Script<Act>, closing: Script<Act>) {
    if !opening.flow.Go? then opening.flow.Returned?
    else body.flow.Returned? || (body.flow.Go? && closing.flow.Returned?)
  }

  // ----- The laws of the run -----

  /** The model's answer is there: after the answered approvals comes a round that asks for none, and the
      text so far is not blank. */
  predicate Succeeds(out: Outside) {
    Concludes(out) && Strip(ReplyText(out)) != ""
  }

  /** What the laws need to know of the three scripts of a run, and of the part of the body before the
      model. */
  ghost predicate Shape(
    run: Run, out: Outside, opening: Script<Act>, a: Script<Act>, body: Script<Act>, closing: Script<Act>)
  {
    && Lawful(opening, "error") && (opening.flow.Go? <==> Opens(run, out))
    && (opening.flow.Go? && Guarded(run) ==> CheckCheckpoint(LoadedPlan(out), true) in opening.acts)
    && LawfulBody(run, out, a, body)
    && LawfulClosing(ReplyText(out), closing)
  }

  ghost predicate LawfulClosing(reply: string, s: Script<Act>) {
    if Strip(reply) == "" then s == RAISED else Lawful(s, "completed") && s.flow.Returned?
  }

  lemma ClosingLaws(reply: string)
    ensures LawfulClosing(reply, ClosingScript(reply))
  {
  }

  lemma ShapeOfRun(run: Run, out: Outside)
    ensures Shape(run, out, OpeningScript(run, out), AssembleScript(run, out), BodyScript(run, out), ClosingScript(ReplyText(out)))
  {
    BodyLaws(run, out);
    ClosingLaws(ReplyText(out));
  }

  ghost predicate NoSandbox(acts: seq<Act>) {
    forall i :: 0 <= i < |acts| ==> acts[i] != OpenSandbox && acts[i] != CloseSandbox
  }

  lemma ShapeSettles(
    run: Run, out: Outside, opening: Script<Act>, a: Script<Act>, body: Script<Act>, closing: Script<Act>)
    requires Shape(run, out, opening, a, body, closing)
    ensures NoSandbox(opening.acts) && NoSandbox(body.acts) && NoSandbox(closing.acts)
    ensures forall i :: 0 <= i < |opening.acts| ==> Plain(opening.acts[i])
    ensures forall i :: 0 <= i < |closing.acts| ==> Plain(closing.acts[i])
    ensures Settles(opening) && Settles(closing) && (AdapterSilent(out) ==> Settles(body)) && !closing.flow.Go?
  {
    LawfulIsPlain(opening, "error");
    LawfulSettles(opening, "error");
    if Strip(ReplyText(out)) != "" {
      LawfulIsPlain(closing, "completed");
      LawfulSettles(closing, "completed");
    }
    if !Asks(run, out) { LawfulSettles(body, GateStatus(run, out)); }
  }

  /** With a silent adapter a terminal event is the last event of its run, so there is at most one; only
      the closing of the sandbox may follow it. And the run that got that far returns exactly when neither
      the yield of the terminal event nor that closing is hit by a fault. */
  lemma TerminalDecides(run: Run, out: Outside, fault: Faults, t: nat)
    requires AdapterSilent(out)
    ensures var r := RunOf(run, out, fault);
      t < |r.acts| && Terminal(r.acts[t]) ==>
        && NothingAfter(r.acts, t)
        && (r.flow.Returned? <==> fault(t).None? && (t + 1 < |r.acts| ==> fault(t + 1).None?))
  {
    ShapeOfRun(run, out);
    ShapeSettles(run, out, OpeningScript(run, out), AssembleScript(run, out), BodyScript(run, out), ClosingScript(ReplyText(out)));
    if t < |RunOf(run, out, fault).acts| && Terminal(RunOf(run, out, fault).acts[t]) {
      SandboxedTerminal(fault, OpeningScript(run, out), BodyScript(run, out), ClosingScript(ReplyText(out)), t);
    }
  }

  /** A run returns exactly when no fault hits it on the way and, if it gets to ask the model, the model
      answers. */
  lemma ReturnsExactly(run: Run, out: Outside, fault: Faults)
    ensures var r := RunOf(run, out, fault);
      r.flow.Returned? <==> Smooth(fault, r.acts) && (Opens(run, out) && Asks(run, out) ==> Succeeds(out))
  {
    ShapeOfRun(run, out);
    ShapeSettles(run, out, OpeningScript(run, out), AssembleScript(run, out), BodyScript(run, out), ClosingScript(ReplyText(out)));
    SandboxedReturns(fault, OpeningScript(run, out), BodyScript(run, out), ClosingScript(ReplyText(out)));
  }

  // ----- How a returned run ended -----

  predicate LastIs(acts: seq<Act>, a: Act) { acts != [] && acts[|acts| - 1] == a }

  /** The trace ends with this terminal event, or with it and the closing of the sandbox. */
  predicate EndsWith(trace: seq<Act>, status: string) {
    || LastIs(trace, Emit("terminal", status))
    || (LastIs(trace, CloseSandbox) && LastIs(trace[..|trace| - 1], Emit("terminal", status)))
  }

  lemma SandboxedStatus(
    fault: Faults, opening: Script<Act>, body: Script<Act>, closing: Script<Act>, gate: string)
    requires Lawful(opening, "error") && (body.flow.Returned? ==> LastIs(body.acts, Emit("terminal", gate)))
    requires closing.flow.Returned? ==> LastIs(closing.acts, Emit("terminal", "completed"))
    requires Sandboxed(fault, opening, body, closing).flow.Returned?
    ensures EndsWith(Sandboxed(fault, opening, body, closing).acts,
                     if !opening.flow.Go? then "error" else if body.flow.Returned? then gate else "completed")
  {
    if opening.flow.Go? && Unhindered(fault, 0, |opening.acts|) {
      var done, inner, ending := SandboxedParts(fault, opening, body, closing);
      var trace := Bracketed(opening.acts, done, ending);
      if ending == [] {
        assert trace[..|trace| - 1] == opening.acts + [OpenSandbox] + done;
      }
    } else {
      Unopened(fault, opening, body, closing);
      var done, flow := PlayCut(fault, [], opening);
      assert [] + done == done;
    }
  }

  /** A run that returned ended with a completed terminal event exactly when every check passed. */
  lemma ReturnStatus(run: Run, out: Outside, fault: Faults)
    ensures var r := RunOf(run, out, fault);
      r.flow.Returned? ==> EndsWith(r.acts, if Opens(run, out) && GatePasses(run, out) then "completed" else "error")
  {
    ShapeOfRun(run, out);
    if RunOf(run, out, fault).flow.Returned? {
      ShapedStatus(run, out, fault, OpeningScript(run, out), AssembleScript(run, out), BodyScript(run, out),
                   ClosingScript(ReplyText(out)));
    }
  }

  lemma ShapedStatus(
    run: Run, out: Outside, fault: Faults,
    opening: Script<Act>, a: Script<Act>, body: Script<Act>, closing: Script<Act>)
    requires Shape(run, out, opening, a, body, closing)
    requires Sandboxed(fault, opening, body, closing).flow.Returned?
    ensures EndsWith(Sandboxed(fault, opening, body, closing).acts,
                     if Opens(run, out) && GatePasses(run, out) then "completed" else "error")
  {
    SandboxedStatus(fault, opening, body, closing, GateStatus(run, out));
  }

  /** The terminal event is not the run's last word: for every run that ends inside its sandbox, closing
      the sandbox can still fail, and the run raises after its terminal event. */
  lemma RaisesAfterTerminal(run: Run, out: Outside) returns (fault: Faults)
    requires Opens(run, out) && !Asks(run, out)
    ensures var r := RunOf(run, out, fault);
      && r.flow == Stopped(Raised) && LastIs(r.acts, CloseSandbox)
      && LastIs(r.acts[..|r.acts| - 1], Emit("terminal", GateStatus(run, out)))
  {
    var opening, body := OpeningScript(run, out), BodyScript(run, out);
    BodyLaws(run, out);
    fault := FaultAt(|opening.acts| + 1 + |body.acts|);
    ClosingFails(fault, opening, body, ClosingScript(ReplyText(out)));
  }

  function FaultAt(n: nat): Faults { i => if i == n then Some(Raised) else None }

  lemma ClosingFails(fault: Faults, opening: Script<Act>, body: Script<Act>, closing: Script<Act>)
    requires opening.flow.Go? && body.acts != [] && fault == FaultAt(|opening.acts| + 1 + |body.acts|)
    ensures var r := Sandboxed(fault, opening, body, closing);
      && r.flow == Stopped(Raised) && LastIs(r.acts, CloseSandbox)
      && LastIs(r.acts[..|r.acts| - 1], body.acts[|body.acts| - 1])
  {
    var done, inner, ending := SandboxedParts(fault, opening, body, closing);
    var trace := Bracketed(opening.acts, done, ending);
    assert trace[..|trace| - 1] == opening.acts + [OpenSandbox] + done;
  }

  /** A run in enforce mode whose plan cannot be captured, and whose sandbox then fails to close. */
  lemma LateRaise() returns (run: Run, out: Outside, fault: Faults)
    ensures run.mode == Enforce && AdapterSilent(out)
    ensures var r := RunOf(run, out, fault);
      r.flow == Stopped(Raised) && LastIs(r.acts, CloseSandbox)
      && LastIs(r.acts[..|r.acts| - 1], Emit("terminal", "error"))
  {
    run := Run(Enforce, None, 0, true);
    out := Outside(PlanMissing, None, CheckpointMissing, false, Some(Prepared(true, [])), 0, true, None, NoCatalog,
                   None, false, [], "", None, CompareRaised, false, []);
    fault := RaisesAfterTerminal(run, out);
  }

  // ----- The sandbox -----

  function Count(acts: seq<Act>, a: Act): nat {
    if acts == [] then 0 else Count(acts[..|acts| - 1], a) + (if acts[|acts| - 1] == a then 1 else 0)
  }

  lemma {:induction false} CountConcat(p: seq<Act>, q: seq<Act>, a: Act)
    ensures Count(p + q, a) == Count(p, a) + Count(q, a)
  {
    if q == [] {
      assert p + q == p;
    } else {
      assert (p + q)[..|p + q| - 1] == p + q[..|q| - 1];
      CountConcat(p, q[..|q| - 1], a);
    }
  }

  lemma {:induction false} CountNone(acts: seq<Act>, a: Act)
    requires forall i :: 0 <= i < |acts| ==> acts[i] != a
    ensures Count(acts, a) == 0
  {
    if acts != [] { CountNone(acts[..|acts| - 1], a); }
  }

  lemma BracketedCount(opening: seq<Act>, done: seq<Act>, ending: seq<Act>, a: Act)
    requires NoSandbox(opening) && NoSandbox(done) && NoSandbox(ending) && (a == OpenSandbox || a == CloseSandbox)
    ensures Count(Bracketed(opening, done, ending), a) == 1
  {
    CountConcat(opening, [OpenSandbox], a);
    CountConcat(opening + [OpenSandbox], done, a);
    CountConcat(opening + [OpenSandbox] + done, [CloseSandbox], a);
    CountConcat(opening + [OpenSandbox] + done + [CloseSandbox], ending, a);
    CountNone(opening, a);
    CountNone(done, a);
    CountNone(ending, a);
    assert [OpenSandbox][..0] == [] && [CloseSandbox][..0] == [];
  }

  lemma SandboxedCount(fault: Faults, opening: Script<Act>, body: Script<Act>, closing: Script<Act>, a: Act)
    requires NoSandbox(opening.acts) && NoSandbox(body.acts) && NoSandbox(closing.acts)
    requires a == OpenSandbox || a == CloseSandbox
    ensures Count(Sandboxed(fault, opening, body, closing).acts, a) ==
            if opening.flow.Go? && Unhindered(fault, 0, |opening.acts|) then 1 else 0
  {
    if opening.flow.Go? && Unhindered(fault, 0, |opening.acts|) {
      var done, inner, ending := SandboxedParts(fault, opening, body, closing);
      BracketedCount(opening.acts, done, ending, a);
    } else {
      Unopened(fault, opening, body, closing);
      var done, flow := PlayCut(fault, [], opening);
      assert [] + done == done;
      CountNone(done, a);
    }
  }

  /** The sandbox is opened once exactly when nothing before it stops the run, and closed as often. */
  lemma SandboxClosedOnce(run: Run, out: Outside, fault: Faults)
    ensures var trace, n := RunOf(run, out, fault).acts,
        if Opens(run, out) && Unhindered(fault, 0, |OpeningScript(run, out).acts|) then 1 else 0;
      Count(trace, OpenSandbox) == n && Count(trace, CloseSandbox) == n
  {
    ShapeOfRun(run, out);
    ShapedCounts(run, out, fault, OpeningScript(run, out), AssembleScript(run, out), BodyScript(run, out),
                 ClosingScript(ReplyText(out)));
  }

  lemma ShapedCounts(
    run: Run, out: Outside, fault: Faults,
    opening: Script<Act>, a: Script<Act>, body: Script<Act>, closing: Script<Act>)
    requires Shape(run, out, opening, a, body, closing)
    ensures var trace, n := Sandboxed(fault, opening, body, closing).acts,
        if Opens(run, out) && Unhindered(fault, 0, |opening.acts|) then 1 else 0;
      Count(trace, OpenSandbox) == n && Count(trace, CloseSandbox) == n
  {
    ShapeSettles(run, out, opening, a, body, closing);
    SandboxedCount(fault, opening, body, closing, OpenSandbox);
    SandboxedCount(fault, opening, body, closing, CloseSandbox);
  }

  // ----- The calls -----

  lemma {:induction false} TurnsOfPrefix(a: seq<Act>, b: seq<Act>)
    requires a <= b
    ensures Turns(a) <= Turns(b)
  {
    TurnsConcat(a, b[|a|..]);
    assert a + b[|a|..] == b;
  }

  lemma SandboxedTurns(fault: Faults, opening: Script<Act>, body: Script<Act>, closing: Script<Act>)
    requires forall i :: 0 <= i < |opening.acts| ==> !opening.acts[i].StreamTurn?
    requires forall i :: 0 <= i < |closing.acts| ==> !closing.acts[i].StreamTurn?
    requires NoSandbox(opening.acts) && NoSandbox(body.acts) && NoSandbox(closing.acts)
    ensures var trace := Sandboxed(fault, opening, body, closing).acts;
      && Turns(trace) <= (if opening.flow.Go? then Turns(body.acts) else [])
      && (Smooth(fault, trace) ==> Turns(trace) == if opening.flow.Go? then Turns(body.acts) else [])
  {
    if opening.flow.Go? && Unhindered(fault, 0, |opening.acts|) {
      OpenedTurns(fault, opening, body, closing);
    } else {
      UnopenedTurns(fault, opening, body, closing);
    }
  }

  lemma UnopenedTurns(fault: Faults, opening: Script<Act>, body: Script<Act>, closing: Script<Act>)
    requires forall i :: 0 <= i < |opening.acts| ==> !opening.acts[i].StreamTurn?
    requires NoSandbox(opening.acts) && !(opening.flow.Go? && Unhindered(fault, 0, |opening.acts|))
    ensures var trace := Sandboxed(fault, opening, body, closing).acts;
      Turns(trace) == [] && (Smooth(fault, trace) ==> !opening.flow.Go?)
  {
    Unopened(fault, opening, body, closing);
    var done, flow := PlayCut(fault, [], opening);
    assert [] + done == done;
    NoTurns(done);
    CutSmooth(fault, 0, opening, done, flow);
    assert Smooth(fault, done) <==> Unhindered(fault, 0, |done|);
  }

  lemma OpenedTurns(fault: Faults, opening: Script<Act>, body: Script<Act>, closing: Script<Act>)
    requires forall i :: 0 <= i < |opening.acts| ==> !opening.acts[i].StreamTurn?
    requires forall i :: 0 <= i < |closing.acts| ==> !closing.acts[i].StreamTurn?
    requires NoSandbox(opening.acts) && NoSandbox(body.acts) && NoSandbox(closing.acts)
    requires opening.flow.Go? && Unhindered(fault, 0, |opening.acts|)
    ensures var trace := Sandboxed(fault, opening, body, closing).acts;
      Turns(trace) <= Turns(body.acts) && (Smooth(fault, trace) ==> Turns(trace) == Turns(body.acts))
  {
    var done, inner, ending := SandboxedParts(fault, opening, body, closing);
    BracketedTurns(opening.acts, done, ending);
    TurnsOfPrefix(done, body.acts);
    SmoothParts(fault, opening.acts, done, ending);
    CutSmooth(fault, |opening.acts| + 1, body, done, inner);
  }

  lemma BracketedTurns(opening: seq<Act>, done: seq<Act>, ending: seq<Act>)
    requires forall i :: 0 <= i < |opening| ==> !opening[i].StreamTurn?
    requires forall i :: 0 <= i < |ending| ==> !ending[i].StreamTurn?
    ensures Turns(Bracketed(opening, done, ending)) == Turns(done)
  {
    TurnsConcat(opening + [OpenSandbox], done);
    TurnsConcat(opening + [OpenSandbox] + done, [CloseSandbox] + ending);
    assert Bracketed(opening, done, ending) == opening + [OpenSandbox] + done + ([CloseSandbox] + ending);
    NoTurns(opening + [OpenSandbox]);
    NoTurns([CloseSandbox] + ending);
    assert [] + Turns(done) + [] == Turns(done);
  }

  /** The stream_turn calls of a run are the first of those the answers ask for: one, and one more for
      every approval answered in a row. Where nothing goes wrong on the way they are all of them. The
      model is called only if every check passed. */
  lemma CallsExactly(run: Run, out: Outside, fault: Faults)
    ensures var trace, calls := RunOf(run, out, fault).acts, AllCalls(run, out, Opens(run, out) && Asks(run, out));
      && Turns(trace) <= calls && (Smooth(fault, trace) ==> Turns(trace) == calls)
      && |calls| == if Opens(run, out) && Asks(run, out) then 1 + AnsweredFrom(out, 0) else 0
  {
    ShapeOfRun(run, out);
    ShapedTurns(run, out, fault, OpeningScript(run, out), AssembleScript(run, out), BodyScript(run, out),
                ClosingScript(ReplyText(out)));
  }

  lemma ShapedTurns(
    run: Run, out: Outside, fault: Faults,
    opening: Script<Act>, a: Script<Act>, body: Script<Act>, closing: Script<Act>)
    requires Shape(run, out, opening, a, body, closing)
    ensures var trace, calls := Sandboxed(fault, opening, body, closing).acts, AllCalls(run, out, Opens(run, out) && Asks(run, out));
      Turns(trace) <= calls && (Smooth(fault, trace) ==> Turns(trace) == calls)
  {
    ShapeSettles(run, out, opening, a, body, closing);
    SandboxedTurns(fault, opening, body, closing);
  }

  /** The fail-closed gates, spelled out: where nothing goes wrong on the way, the model is called exactly
      when every one of them is open, and in any run only then. */
  ghost predicate GatesOpen(run: Run, out: Outside) {
    && (run.mode == Enforce && run.resumeValue.Some? ==>
          && out.planLoad.PlanLoaded? && out.resumeScopeError.None? && out.checkpoint == CheckpointAccepted
          && (out.resumeMcp <==> out.catalog == Manager))
    && (run.resumeValue.None? && out.prepared.Some? ==> out.prepared.value.allowed)
    && out.skillError.None? && (out.catalog == Manager ==> out.mcpError.None?)
    && (run.mode == Enforce && run.resumeValue.None? && out.prepared.Some? ==> out.captured.Some?)
    && (run.mode == Enforce && (run.resumeValue.Some? || out.prepared.Some?) ==>
          out.comparison == Compared(true) && out.frameMade)
    && !(run.resumeValue.None? && out.knowledgeRouted && out.bookAnswer != "")
  }

  lemma ModelCalledOnlyIf(run: Run, out: Outside, fault: Faults)
    ensures var trace := RunOf(run, out, fault).acts;
      && (Turns(trace) != [] ==> GatesOpen(run, out))
      && (Smooth(fault, trace) && GatesOpen(run, out) ==> Turns(trace) != [])
  {
    CallsExactly(run, out, fault);
    assert Opens(run, out) && Asks(run, out) <==> GatesOpen(run, out);
  }

  // ----- The gate -----

  /** The stream_turn call at i is backed: it carries a plan binding and the frame of the same plan, that
      plan was compared before and matched, and on a resumed run a checkpoint bound to it was found. */
  ghost predicate Backed(trace: seq<Act>, i: nat, resume: bool)
    requires i < |trace| && trace[i].StreamTurn?
  {
    && trace[i].binding.Some? && trace[i].frame == trace[i].binding
    && (exists j :: 0 <= j < i && trace[j] == ComparePlan(trace[i].binding.value, true))
    && (resume ==> exists j :: 0 <= j < i && trace[j] == CheckCheckpoint(trace[i].binding.value, true))
  }

  /** A stream_turn call with no plan behind it. */
  predicate Bare(a: Act) { a.StreamTurn? && a.binding.None? && a.frame.None? }

  lemma ShapedCall(
    run: Run, out: Outside, fault: Faults,
    opening: Script<Act>, a: Script<Act>, body: Script<Act>, closing: Script<Act>, i: nat)
    requires Shape(run, out, opening, a, body, closing) && run.mode == Enforce
    requires i < |Sandboxed(fault, opening, body, closing).acts| && Sandboxed(fault, opening, body, closing).acts[i].StreamTurn?
    ensures var trace := Sandboxed(fault, opening, body, closing).acts;
      && (run.Resume() || out.prepared.Some? ==> Backed(trace, i, run.Resume()))
      && (!run.Resume() && out.prepared.None? ==> Bare(trace[i]))
  {
    var o := |opening.acts|;
    ShapeSettles(run, out, opening, a, body, closing);
    if opening.flow.Go? && Unhindered(fault, 0, o) {
      OpenedCall(run, out, fault, opening, a, body, closing, i);
    } else {
      NoCallUnopened(fault, opening, body, closing, i);
    }
  }

  lemma OpenedCall(
    run: Run, out: Outside, fault: Faults,
    opening: Script<Act>, a: Script<Act>, body: Script<Act>, closing: Script<Act>, i: nat)
    requires LawfulBody(run, out, a, body) && run.mode == Enforce
    requires opening.flow.Go? && Unhindered(fault, 0, |opening.acts|)
    requires run.Resume() ==> CheckCheckpoint(LoadedPlan(out), true) in opening.acts
    requires forall k :: 0 <= k < |opening.acts| ==> Plain(opening.acts[k])
    requires forall k :: 0 <= k < |closing.acts| ==> Plain(closing.acts[k])
    requires i < |Sandboxed(fault, opening, body, closing).acts| && Sandboxed(fault, opening, body, closing).acts[i].StreamTurn?
    ensures var trace := Sandboxed(fault, opening, body, closing).acts;
      && (run.Resume() || out.prepared.Some? ==> Backed(trace, i, run.Resume()))
      && (!run.Resume() && out.prepared.None? ==> Bare(trace[i]))
  {
    var o := |opening.acts|;
    var done, inner, ending := SandboxedParts(fault, opening, body, closing);
    CallInBody(opening.acts, done, ending, i);
    assert done[i - o - 1] == body.acts[i - o - 1];
    if run.Resume() || out.prepared.Some? {
      BackedCall(run, out, opening.acts, a.acts, done, ending, i);
    }
  }

  lemma NoCallUnopened(fault: Faults, opening: Script<Act>, body: Script<Act>, closing: Script<Act>, i: nat)
    requires !(opening.flow.Go? && Unhindered(fault, 0, |opening.acts|))
    requires forall k :: 0 <= k < |opening.acts| ==> Plain(opening.acts[k])
    requires i < |Sandboxed(fault, opening, body, closing).acts|
    ensures !Sandboxed(fault, opening, body, closing).acts[i].StreamTurn?
  {
    Unopened(fault, opening, body, closing);
    var done, flow := PlayCut(fault, [], opening);
    assert [] + done == done && Plain(opening.acts[i]);
  }

  lemma CallInBody(opening: seq<Act>, done: seq<Act>, ending: seq<Act>, i: nat)
    requires forall k :: 0 <= k < |opening| ==> Plain(opening[k])
    requires forall k :: 0 <= k < |ending| ==> Plain(ending[k])
    requires i < |Bracketed(opening, done, ending)| && Bracketed(opening, done, ending)[i].StreamTurn?
    ensures |opening| < i <= |opening| + |done| && Bracketed(opening, done, ending)[i] == done[i - |opening| - 1]
  {
    BracketedAt(opening, done, ending);
  }

  lemma BracketedAt(opening: seq<Act>, done: seq<Act>, ending: seq<Act>)
    ensures var trace, c := Bracketed(opening, done, ending), |opening| + 1 + |done|;
      && (forall i :: 0 <= i < |opening| ==> trace[i] == opening[i])
      && trace[|opening|] == OpenSandbox && trace[c] == CloseSandbox
      && (forall i :: |opening| < i < c ==> trace[i] == done[i - |opening| - 1])
      && (forall i :: c < i < |trace| ==> trace[i] == ending[i - c - 1])
  {
  }

  lemma BackedCall(
    run: Run, out: Outside, opening: seq<Act>, a: seq<Act>, done: seq<Act>, ending: seq<Act>, i: nat)
    requires run.mode == Enforce && Matched(run, out, a) && (run.Resume() || out.prepared.Some?)
    requires run.Resume() ==> CheckCheckpoint(LoadedPlan(out), true) in opening
    requires |opening| + 1 + |a| <= i <= |opening| + |done| && a <= done
    requires var call := done[i - |opening| - 1];
      call.StreamTurn? && call.binding == GateOf(run, out).binding && call.frame == GateOf(run, out).frame
    ensures Bracketed(opening, done, ending)[i].StreamTurn? && Backed(Bracketed(opening, done, ending), i, run.Resume())
  {
    var trace, plan := Bracketed(opening, done, ending), GateOf(run, out).binding.value;
    assert trace[i] == done[i - |opening| - 1];
    var j :| 0 <= j < |a| && a[j] == ComparePlan(plan, true);
    assert trace[|opening| + 1 + j] == ComparePlan(plan, true);
    if run.Resume() {
      var k :| 0 <= k < |opening| && opening[k] == CheckCheckpoint(plan, true);
      assert trace[k] == CheckCheckpoint(plan, true);
    }
  }

  /** In enforce mode every stream_turn call is backed if and only if the run is resumed or a context was
      prepared; otherwise every call is bare. */
  lemma EnforcedCalls(run: Run, out: Outside, fault: Faults, i: nat)
    requires run.mode == Enforce
    ensures var trace := RunOf(run, out, fault).acts;
      i < |trace| && trace[i].StreamTurn? ==>
        && (Backed(trace, i, run.Resume()) <==> run.Resume() || out.prepared.Some?)
        && (Bare(trace[i]) <==> !run.Resume() && out.prepared.None?)
  {
    ShapeOfRun(run, out);
    if i < |RunOf(run, out, fault).acts| && RunOf(run, out, fault).acts[i].StreamTurn? {
      ShapedCall(run, out, fault, OpeningScript(run, out), AssembleScript(run, out), BodyScript(run, out),
                 ClosingScript(ReplyText(out)), i);
    }
  }

  /** An enforce run without a context controller, with no fault anywhere, calls the model with neither a
      plan binding nor a frame. */
  lemma UnpreparedRunIsNotGated() returns (run: Run, out: Outside, fault: Faults, i: nat)
    ensures run.mode == Enforce && !run.Resume() && out.prepared.None? && forall n :: fault(n).None?
    ensures i < |RunOf(run, out, fault).acts| && Bare(RunOf(run, out, fault).acts[i])
  {
    run := Run(Enforce, None, 0, true);
    out := Outside(PlanMissing, None, CheckpointMissing, false, None, 0, true, None, NoCatalog, None,
                   false, [], "", None, CompareRaised, false,
                   [Round([StreamEvent("assistant", "running", Text("hello"))], None)]);
    fault := _ => None;
    CallsExactly(run, out, fault);
    i := SomeTurn(RunOf(run, out, fault).acts);
    EnforcedCalls(run, out, fault, i);
  }

  lemma {:induction false} SomeTurn(acts: seq<Act>) returns (i: nat)
    requires Turns(acts) != []
    ensures i < |acts| && acts[i].StreamTurn?
  {
    i := |acts| - 1;
    if !acts[i].StreamTurn? { i := SomeTurn(acts[..i]); }
  }

  // ----- What the trace says to a reader of its events -----

  ghost predicate TerminalLast(trace: seq<Act>) {
    forall t :: 0 <= t < |trace| && Terminal(trace[t]) ==> NothingAfter(trace, t)
  }

  lemma {:induction false} EmittedAreEvents(acts: seq<Act>)
    ensures forall i :: 0 <= i < |Emitted(acts)| ==> Emitted(acts)[i] in acts && Emitted(acts)[i].Emit?
  {
    if acts != [] { EmittedAreEvents(acts[..|acts| - 1]); }
  }

  /** Up to its terminal event, a trace without one before. */
  lemma UpToTerminal(acts: seq<Act>, last: Act)
    requires forall i :: 0 <= i < |acts| ==> !Terminal(acts[i])
    requires last.Emit?
    ensures Emitted(acts + [last]) == Emitted(acts) + [last]
    ensures forall i :: 0 <= i < |Emitted(acts)| ==> !Terminal(Emitted(acts)[i])
  {
    OneMoreAct(acts, last);
    EmittedAreEvents(acts);
  }

  lemma OnlyOneTerminal(trace: seq<Act>, t: nat, i: nat)
    requires TerminalLast(trace) && i < t < |trace| && Terminal(trace[t])
    ensures !Terminal(trace[i])
  {
  }

  /** Among the events, a terminal one can only be the last, and it is there if the trace has one. */
  lemma EventsEndWithTerminal(trace: seq<Act>, t: nat)
    requires TerminalLast(trace) && t < |trace| && Terminal(trace[t])
    ensures var events := Emitted(trace);
      && events != [] && events[|events| - 1] == trace[t]
      && forall i :: 0 <= i < |events| - 1 ==> !Terminal(events[i])
  {
    assert NothingAfter(trace, t);
    forall i | 0 <= i < t ensures !Terminal(trace[i]) { OnlyOneTerminal(trace, t, i); }
    UpToTerminal(trace[..t], trace[t]);
    assert trace[..t + 1] == trace[..t] + [trace[t]];
    if t == |trace| - 1 {
      assert trace == trace[..t + 1];
    } else {
      assert trace == trace[..t + 1] + [CloseSandbox];
      OneMoreAct(trace[..t + 1], CloseSandbox);
    }
  }

  /** The events of a run with a silent adapter: at most the last is terminal, and it is when the run
      returned. */
  lemma EventsOfRun(run: Run, out: Outside, fault: Faults)
    requires AdapterSilent(out)
    ensures EventsSettle(RunOf(run, out, fault))
  {
    RunTerminalLast(run, out, fault);
    ReturnedHasTerminal(run, out, fault);
    EventsOfTrace(RunOf(run, out, fault));
  }

  /** Of the events of a trace at most the last is terminal, and it is when the run returned. */
  ghost predicate EventsSettle(r: Script<Act>) {
    var events := Emitted(r.acts);
    && (forall i :: 0 <= i < |events| - 1 ==> !Terminal(events[i]))
    && (r.flow.Returned? ==> events != [] && Terminal(events[|events| - 1]))
  }

  lemma RunTerminalLast(run: Run, out: Outside, fault: Faults)
    requires AdapterSilent(out)
    ensures TerminalLast(RunOf(run, out, fault).acts)
  {
    var trace := RunOf(run, out, fault).acts;
    forall t | 0 <= t < |trace| && Terminal(trace[t]) ensures NothingAfter(trace, t) {
      TerminalDecides(run, out, fault, t);
    }
  }

  ghost predicate HasTerminal(trace: seq<Act>) {
    exists t :: 0 <= t < |trace| && Terminal(trace[t])
  }

  lemma ReturnedHasTerminal(run: Run, out: Outside, fault: Faults)
    ensures RunOf(run, out, fault).flow.Returned? ==> HasTerminal(RunOf(run, out, fault).acts)
  {
    if RunOf(run, out, fault).flow.Returned? {
      ReturnStatus(run, out, fault);
      EndingIsTerminal(RunOf(run, out, fault).acts, if Opens(run, out) && GatePasses(run, out) then "completed" else "error");
    }
  }

  lemma EventsOfTrace(r: Script<Act>)
    requires TerminalLast(r.acts) && (r.flow.Returned? ==> HasTerminal(r.acts))
    ensures EventsSettle(r)
  {
    if t :| 0 <= t < |r.acts| && Terminal(r.acts[t]) {
      EventsEndWithTerminal(r.acts, t);
    } else {
      EmittedAreEvents(r.acts);
    }
  }

  lemma EndingIsTerminal(trace: seq<Act>, status: string)
    requires EndsWith(trace, status)
    ensures HasTerminal(trace)
  {
    if LastIs(trace, Emit("terminal", status)) {
      assert Terminal(trace[|trace| - 1]);
    } else {
      assert Terminal(trace[|trace| - 2]);
    }
  }

  /** A run ends: it returns or is stopped. */
  lemma RunEnds(run: Run, out: Outside, fault: Faults)
    ensures !RunOf(run, out, fault).flow.Go?
  {
    ShapeOfRun(run, out);
    ShapeSettles(run, out, OpeningScript(run, out), AssembleScript(run, out), BodyScript(run, out), ClosingScript(ReplyText(out)));
    SandboxedEnds(fault, OpeningScript(run, out), BodyScript(run, out), ClosingScript(ReplyText(out)));
  }

  /** A run whose opening ends it, with no fault before that. */
  lemma EndsEarly(fault: Faults, opening: Script<Act>, body: Script<Act>, closing: Script<Act>)
    requires !opening.flow.Go? && Unhindered(fault, 0, |opening.acts|)
    ensures Sandboxed(fault, opening, body, closing) == opening
  {
    Unopened(fault, opening, body, closing);
    PlayUnhindered(fault, [], opening);
    assert [] + opening.acts == opening.acts;
  }

  lemma SandboxedEnds(fault: Faults, opening: Script<Act>, body: Script<Act>, closing: Script<Act>)
    requires !closing.flow.Go?
    ensures !Sandboxed(fault, opening, body, closing).flow.Go?
  {
    if opening.flow.Go? && Unhindered(fault, 0, |opening.acts|) {
      var done, inner, ending := SandboxedParts(fault, opening, body, closing);
    } else {
      PlayGoes(fault, [], opening);
    }
  }
}
