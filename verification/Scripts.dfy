/** What a stretch of a run does when nothing interrupts it, and what becomes of it when something does. */
module Scripts {
  import opened Common

  /** What can end a run from outside its own control flow: an exception, a task cancellation, or the
      consumer closing the generator at a yield. */
  datatype Fault = Raised | Cancelled | Closed

  datatype Flow = Go | Returned | Stopped(fault: Fault)

  /** Acts in order, and how the run goes on after them. */
  datatype Script<A> = Script(acts: seq<A>, flow: Flow)

  /** The fault, if any, that interrupts the i-th act of the whole trace once it is made. */
  type Faults = nat -> Option<Fault>

  ghost predicate Unhindered(fault: Faults, from: nat, to: nat) {
    forall i :: from <= i < to ==> fault(i).None?
  }

  function Before<A>(acts: seq<A>, rest: Script<A>): Script<A> {
    Script(acts + rest.acts, rest.flow)
  }

  /** Play a script after the acts already made: up to the first fault. */
  function Play<A>(fault: Faults, before: seq<A>, s: Script<A>): Script<A>
    decreases |s.acts|
  {
    if s.acts == [] then Script(before, s.flow)
    else if fault(|before|).Some? then Script(before + [s.acts[0]], Stopped(fault(|before|).value))
    else Play(fault, before + [s.acts[0]], Script(s.acts[1..], s.flow))
  }

  /** What faults leave of a script whose first act is the from-th of the trace: undisturbed, all its acts
      and its flow; otherwise the acts up to the first one a fault hits, and that fault. */
  ghost predicate Cut<A(!new)>(fault: Faults, from: nat, s: Script<A>, done: seq<A>, flow: Flow) {
    && done <= s.acts
    && if Unhindered(fault, from, from + |s.acts|) then done == s.acts && flow == s.flow
       else
         && done != [] && Unhindered(fault, from, from + |done| - 1)
         && fault(from + |done| - 1).Some? && flow == Stopped(fault(from + |done| - 1).value)
  }

  lemma {:induction false} PlayCut<A(!new)>(fault: Faults, before: seq<A>, s: Script<A>)
    returns (done: seq<A>, flow: Flow)
    ensures Play(fault, before, s) == Script(before + done, flow) && Cut(fault, |before|, s, done, flow)
    decreases |s.acts|
  {
    if s.acts == [] {
      done, flow := [], s.flow;
    } else if fault(|before|).Some? {
      done, flow := [s.acts[0]], Stopped(fault(|before|).value);
    } else {
      var rest := Script(s.acts[1..], s.flow);
      done, flow := PlayCut(fault, before + [s.acts[0]], rest);
      done := [s.acts[0]] + done;
      assert before + done == before + [s.acts[0]] + done[1..];
    }
  }

  lemma PlayUnhindered<A(!new)>(fault: Faults, before: seq<A>, s: Script<A>)
    requires Unhindered(fault, |before|, |before| + |s.acts|)
    ensures Play(fault, before, s) == Script(before + s.acts, s.flow)
  {
    var done, flow := PlayCut(fault, before, s);
  }

  lemma PlayGoes<A(!new)>(fault: Faults, before: seq<A>, s: Script<A>)
    ensures Play(fault, before, s).flow.Go? <==> s.flow.Go? && Unhindered(fault, |before|, |before| + |s.acts|)
  {
    var done, flow := PlayCut(fault, before, s);
  }

  lemma {:induction false} PlayBefore<A>(fault: Faults, before: seq<A>, acts: seq<A>, rest: Script<A>)
    ensures var p := Play(fault, before, Script(acts, Go));
      Play(fault, before, Before(acts, rest)) == if p.flow.Go? then Play(fault, p.acts, rest) else p
    decreases |acts|
  {
    if acts == [] {
      assert Before(acts, rest) == rest;
    } else {
      assert Before(acts, rest).acts[1..] == acts[1..] + rest.acts;
      PlayBefore(fault, before + [acts[0]], acts[1..], rest);
    }
  }

  /** One script after another: the second is played if the first went on. */
  lemma PlayAfter<A(!new)>(fault: Faults, before: seq<A>, first: Script<A>, rest: Script<A>)
    ensures var p := Play(fault, before, first);
      first.flow.Go? ==>
        Play(fault, before, Before(first.acts, rest)) == if p.flow.Go? then Play(fault, p.acts, rest) else p
    ensures !first.flow.Go? ==> !Play(fault, before, first).flow.Go?
  {
    PlayGoes(fault, before, first);
    PlayBefore(fault, before, first.acts, rest);
  }

  /** Make these acts, up to the first fault. */
  method Perform<A(0)>(fault: Faults, before: seq<A>, acts: seq<A>) returns (r: seq<A>, flow: Flow)
    ensures Script(r, flow) == Play(fault, before, Script(acts, Go))
    ensures forall rest ::
      Play(fault, before, Before(acts, rest)) == if flow.Go? then Play(fault, r, rest) else Script(r, flow)
  {
    r, flow := before, Go;
    for i := 0 to |acts|
      invariant flow.Go? && Play(fault, before, Script(acts, Go)) == Play(fault, r, Script(acts[i..], Go))
    {
      r := r + [acts[i]];
      if fault(|r| - 1).Some? {
        flow := Stopped(fault(|r| - 1).value);
        break;
      }
    }
    forall rest
      ensures Play(fault, before, Before(acts, rest)) == if flow.Go? then Play(fault, r, rest) else Script(r, flow)
    {
      PlayBefore(fault, before, acts, rest);
    }
  }
}
