/** One call of the public answer service and what it does to the token budget, if it has one. */
module Service {
  import opened Common
  import opened Budget

  datatype Reply =
    | Replied(text: string, inputTokens: int, outputTokens: int, leaks: bool)
    | ModelRaised
    | TaskCancelled

  /** What one question meets. The private-request and leak patterns are taken as their verdicts. */
  datatype Question = Question(private: bool, evidence: seq<string>, modelReady: bool, reply: Reply)

  datatype Result =
    | Refused | NoMatch | NotConfigured | OutOfBudget | BudgetBroken | Failed | Interrupted
    | Answered(text: string, citations: seq<string>)

  /** The budget is asked only for a question that will reach the model. */
  predicate ReachesModel(q: Question) {
    !q.private && q.evidence != [] && q.modelReady
  }

  function Tokens(reply: Reply, r: Reservation): int
    requires reply.Replied?
  {
    Charge(reply.inputTokens + reply.outputTokens, r)
  }

  /** How an admitted call settles: an ordinary failure gives the reservation back, a reply is charged,
      a cancellation settles nothing. */
  function Settlement(q: Question, r: Reservation): Option<Request> {
    match q.reply
    case ModelRaised => Some(Release(r))
    case TaskCancelled => None
    case Replied(_, _, _, _) => Some(Commit(r, Tokens(q.reply, r)))
  }

  /** The store after a call that reserves on `day` and settles on `later`. */
  function StoreAfter(limits: Limits, store: Store, day: int, later: int, q: Question): Store {
    if !ReachesModel(q) then store
    else
      var (held, answer) := StoreStep(limits, store, day, Reserve);
      if !answer.Reserved? then held
      else match Settlement(q, answer.reservation)
        case None => held
        case Some(request) => StoreStep(limits, held, later, request).0
  }

  /** What the budget answers when this question asks for its reservation. */
  function Admission(limits: Limits, store: Store, day: int): Answer {
    StoreStep(limits, store, day, Reserve).1
  }

  /** The reply can be given out. */
  predicate Presentable(reply: Reply) { reply.Replied? && reply.text != "" && !reply.leaks }

  method Answer(budget: DailyTokenBudget?, q: Question, day: int, later: int) returns (r: Result)
    requires budget != null ==> budget.limits.Valid()
    modifies budget
    ensures budget != null ==> budget.Here() == StoreAfter(budget.limits, old(budget.Here()), day, later, q)
    ensures var admission := if budget == null then Reserved(Reservation(day, 0))
                             else Admission(budget.limits, old(budget.Here()), day);
      && (r.Answered? <==> ReachesModel(q) && admission.Reserved? && Presentable(q.reply))
      && (r.Answered? ==> r.text == q.reply.text && r.citations == q.evidence)
      && (r == Refused <==>
            q.private || (ReachesModel(q) && admission.Reserved? && q.reply.Replied? && !Presentable(q.reply)))
      && (r == NoMatch <==> !q.private && q.evidence == [])
      && (r == NotConfigured <==> !q.private && q.evidence != [] && !q.modelReady)
      && (r == OutOfBudget <==> ReachesModel(q) && admission.Exceeded?)
      && (r == BudgetBroken <==> ReachesModel(q) && admission.StateInvalid?)
      && (r == Failed <==> ReachesModel(q) && admission.Reserved? && q.reply.ModelRaised?)
      && (r == Interrupted <==> ReachesModel(q) && admission.Reserved? && q.reply.TaskCancelled?)
  {
    if q.private { return Refused; }
    if q.evidence == [] { return NoMatch; }
    if !q.modelReady { return NotConfigured; }
    var reservation := None;
    if budget != null {
      var admitted := budget.ReserveTokens(day);
      if admitted == Exceeded { return OutOfBudget; }
      if !admitted.Reserved? { return BudgetBroken; }
      reservation := Some(admitted.reservation);
    }
    match q.reply {
      case ModelRaised =>
        if budget != null && reservation.Some? {
          var released := budget.ReleaseTokens(later, reservation.value);
          if released == StateInvalid { return BudgetBroken; }
        }
        return Failed;
      case TaskCancelled =>
        return Interrupted;
      case Replied(text, input, output, leaks) =>
        if budget != null && reservation.Some? {
          var reported := input + output;
          var committed := budget.CommitTokens(later, reservation.value,
                                               if reported > 0 then reported else reservation.value.tokens);
          if committed == StateInvalid { return BudgetBroken; }
        }
        if text == "" || leaks { return Refused; }
        return Answered(text, q.evidence);
    }
  }

  /** What an admitted call does to the ledger of its own day, whichever back end keeps it: a failed model
      call nothing, a cancelled one keeps its reservation, a reply (answered or refused) moves to `used`
      what it is charged. Settled on a later day it leaves that day's fresh ledger alone. */
  lemma EffectOnStore(limits: Limits, store: Store, day: int, later: int, q: Question)
    requires limits.Valid() && ReachesModel(q) && Admission(limits, store, day).Reserved?
    requires store.InMemory? ==> store.ledger.reserved >= 0
    ensures var today := Rolled(if store.InMemory? then store.ledger else Decode(store.content, day).value, day);
      var after := match q.reply
        case TaskCancelled => today.(reserved := today.reserved + limits.reservationTokens)
        case ModelRaised => Rolled(today, later)
        case Replied(_, input, output, _) =>
          if later != day then Ledger(later, 0, 0)
          else today.(used := today.used + if input + output > 0 then input + output else limits.reservationTokens);
      StoreAfter(limits, store, day, later, q) == if store.InMemory? then InMemory(after) else InFile(Stored(after))
  {
  }

  /** The step that ends an admitted call. */
  function Ending(q: Question, later: int, id: nat): Step {
    match q.reply
    case ModelRaised => Fail(later, id)
    case TaskCancelled => Cancel(later, id)
    case Replied(_, input, output, _) => Finish(later, id, input + output)
  }

  /** An answered question is two steps of the budget's client system, whatever other calls do before,
      between or after: its own admission, and the settling of exactly the call it was admitted as. So
      the ledger laws over all runs hold for every interleaving of answers. */
  lemma AnswerIsTwoSteps(limits: Limits, s: System, day: int, between: seq<Step>, later: int, q: Question)
    requires Fits(limits, Rolled(s.ledger, day))
    requires forall i :: 0 <= i < |between| ==> between[i].Admit? || between[i].id != |s.calls|
    ensures var id := |s.calls|;
      var before := RunFrom(limits, Next(limits, s, Admit(day)), between);
      var after := Next(limits, before, Ending(q, later, id));
      var r := Reservation(day, limits.reservationTokens);
      && id < |before.calls| && before.calls[id] == Running(r)
      && after.ledger == (match Settlement(q, r)
                          case None => before.ledger
                          case Some(request) => MemoryStep(limits, before.ledger, later, request).0)
      && after.calls == before.calls[id :=
           match q.reply
           case ModelRaised => GivenBack(r)
           case TaskCancelled => Abandoned(r)
           case Replied(_, _, _, _) => Charged(r, Tokens(q.reply, r))]
      && (between == [] && ReachesModel(q) ==>
            InMemory(after.ledger) == StoreAfter(limits, InMemory(s.ledger), day, later, q))
  {
    OthersLeaveItRunning(limits, Next(limits, s, Admit(day)), between, |s.calls|);
  }

  function RunFrom(limits: Limits, s: System, steps: seq<Step>): System {
    if steps == [] then s
    else Next(limits, RunFrom(limits, s, steps[..|steps| - 1]), steps[|steps| - 1])
  }

  lemma {:induction false} OthersLeaveItRunning(limits: Limits, s: System, steps: seq<Step>, id: nat)
    requires id < |s.calls|
    requires forall i :: 0 <= i < |steps| ==> steps[i].Admit? || steps[i].id != id
    ensures var after := RunFrom(limits, s, steps); id < |after.calls| && after.calls[id] == s.calls[id]
  {
    if steps != [] { OthersLeaveItRunning(limits, s, steps[..|steps| - 1], id); }
  }
}
