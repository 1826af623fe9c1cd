/** The daily token budget: a reserve / commit / release ledger that starts over each day, kept either
    in memory or in a file. */
module Budget {
  import opened Common

  /** Days are numbered; the ledger belongs to one of them. */
  datatype Ledger = Ledger(day: int, used: int, reserved: int)

  datatype Limits = Limits(tokenLimit: int, reservationTokens: int) {
    predicate Valid() { 1 <= reservationTokens <= tokenLimit }
  }

  datatype Reservation = Reservation(day: int, tokens: int)

  datatype Request =
    | Reserve
    | Commit(reservation: Reservation, actual: int)
    | Release(reservation: Reservation)
    | Remaining

  datatype Answer = Reserved(reservation: Reservation) | Exceeded | Done | Left(tokens: int) | StateInvalid

  function Max(a: int, b: int): int { if a >= b then a else b }

  function Rolled(l: Ledger, today: int): Ledger {
    if l.day != today then Ledger(today, 0, 0) else l
  }

  predicate Fits(limits: Limits, l: Ledger) {
    l.used + l.reserved + limits.reservationTokens <= limits.tokenLimit
  }

  /** The body of one method, run on the opened ledger under the lock. */
  function Serve(limits: Limits, l: Ledger, request: Request): (Ledger, Answer) {
    match request
    case Reserve =>
      if !Fits(limits, l) then (l, Exceeded)
      else (l.(reserved := l.reserved + limits.reservationTokens),
            Reserved(Reservation(l.day, limits.reservationTokens)))
    case Commit(r, actual) =>
      (if r.day != l.day then l
       else l.(reserved := Max(0, l.reserved - r.tokens), used := l.used + Max(0, actual)), Done)
    case Release(r) =>
      (if r.day != l.day then l else l.(reserved := Max(0, l.reserved - r.tokens)), Done)
    case Remaining =>
      (l, Left(Max(0, limits.tokenLimit - l.used - l.reserved)))
  }

  // ----- The two back ends -----

  /** In memory the day change is stored before the body runs, so a refused reserve keeps it. */
  function MemoryStep(limits: Limits, l: Ledger, today: int, request: Request): (Ledger, Answer) {
    Serve(limits, Rolled(l, today), request)
  }

  /** What the state file can hold. Anything that is not blank and not a record does not decode. */
  datatype Content = Blank | Stored(record: Ledger) | Garbage

  function Decode(content: Content, today: int): Option<Ledger> {
    match content
    case Blank => Some(Ledger(today, 0, 0))
    case Garbage => None
    case Stored(l) => if l.used < 0 || l.reserved < 0 then None else Some(l)
  }

  /** In the file nothing is written when the body raises, not even the day change. */
  function FileStep(limits: Limits, content: Content, today: int, request: Request): (Content, Answer) {
    match Decode(content, today)
    case None => (content, StateInvalid)
    case Some(l) =>
      var (l', answer) := Serve(limits, Rolled(l, today), request);
      (if answer.Exceeded? then content else Stored(l'), answer)
  }

  /** Where a budget keeps its ledger. */
  datatype Store = InMemory(ledger: Ledger) | InFile(content: Content)

  function StoreStep(limits: Limits, store: Store, today: int, request: Request): (Store, Answer) {
    match store
    case InMemory(l) => var (l', answer) := MemoryStep(limits, l, today, request); (InMemory(l'), answer)
    case InFile(c) => var (c', answer) := FileStep(limits, c, today, request); (InFile(c'), answer)
  }

  class DailyTokenBudget {
    const limits: Limits
    const persistent: bool
    var memory: Ledger
    var file: Content

    constructor (limits: Limits, today: int, persistent: bool, file: Content)
      requires limits.Valid() && (persistent ==> Decode(file, today).Some?)
      ensures this.limits == limits && this.persistent == persistent
      ensures memory == Ledger(today, 0, 0)
      ensures this.file == if persistent then Stored(Rolled(Decode(file, today).value, today)) else file
    {
      this.limits := limits;
      this.persistent := persistent;
      memory := Ledger(today, 0, 0);
      this.file := if persistent then Stored(Rolled(Decode(file, today).value, today)) else file;
    }

    /** Enter the locked region: the ledger of today. */
    method Open(today: int) returns (state: Option<Ledger>)
      modifies this`memory
      ensures memory == if persistent then old(memory) else Rolled(old(memory), today)
      ensures persistent ==> state == match Decode(file, today)
                                      case None => None
                                      case Some(l) => Some(Rolled(l, today))
      ensures !persistent ==> state == Some(memory)
    {
      if persistent {
        var decoded := Decode(file, today);
        if decoded.None? { return None; }
        var l := decoded.value;
        if l.day != today { l := Ledger(today, 0, 0); }
        return Some(l);
      }
      if today != memory.day { memory := Ledger(today, 0, 0); }
      return Some(memory);
    }

    /** Leave the locked region normally. */
    method Close(state: Ledger)
      modifies this`memory, this`file
      ensures if persistent then memory == old(memory) && file == Stored(state)
              else memory == state && file == old(file)
    {
      if persistent { file := Stored(state); } else { memory := state; }
    }

    ghost function Here(): Store
      reads this
    {
      if persistent then InFile(file) else InMemory(memory)
    }

    /** One call did what the specification of its back end says, and left the other store alone. */
    twostate predicate Served(today: int, request: Request, answer: Answer)
      reads this
    {
      && (Here(), answer) == StoreStep(limits, old(Here()), today, request)
      && (if persistent then memory == old(memory) else file == old(file))
    }

    method ReserveTokens(today: int) returns (answer: Answer)
      modifies this
      ensures Served(today, Reserve, answer)
    {
      var entered := Open(today);
      if entered.None? { return StateInvalid; }
      var state := entered.value;
      if state.used + state.reserved + limits.reservationTokens > limits.tokenLimit { return Exceeded; }
      state := state.(reserved := state.reserved + limits.reservationTokens);
      Close(state);
      return Reserved(Reservation(state.day, limits.reservationTokens));
    }

    method CommitTokens(today: int, reservation: Reservation, actual: int) returns (answer: Answer)
      modifies this
      ensures Served(today, Commit(reservation, actual), answer)
    {
      var entered := Open(today);
      if entered.None? { return StateInvalid; }
      var state := entered.value;
      if reservation.day == state.day {
        state := state.(reserved := Max(0, state.reserved - reservation.tokens));
        state := state.(used := state.used + Max(0, actual));
      }
      Close(state);
      return Done;
    }

    method ReleaseTokens(today: int, reservation: Reservation) returns (answer: Answer)
      modifies this
      ensures Served(today, Release(reservation), answer)
    {
      var entered := Open(today);
      if entered.None? { return StateInvalid; }
      var state := entered.value;
      if reservation.day == state.day {
        state := state.(reserved := Max(0, state.reserved - reservation.tokens));
      }
      Close(state);
      return Done;
    }

    method RemainingTokens(today: int) returns (answer: Answer)
      modifies this
      ensures Served(today, Remaining, answer)
    {
      var entered := Open(today);
      if entered.None? { return StateInvalid; }
      var state := entered.value;
      Close(state);
      return Left(Max(0, limits.tokenLimit - state.used - state.reserved));
    }
  }

  // ----- The back ends agree -----

  function MemoryRun(limits: Limits, start: int, calls: seq<(int, Request)>): (Ledger, seq<Answer>) {
    if calls == [] then (Ledger(start, 0, 0), [])
    else
      var n := |calls| - 1;
      var (l, answers) := MemoryRun(limits, start, calls[..n]);
      var (l', answer) := MemoryStep(limits, l, calls[n].0, calls[n].1);
      (l', answers + [answer])
  }

  function FileRun(limits: Limits, start: int, calls: seq<(int, Request)>): (Content, seq<Answer>) {
    if calls == [] then (Stored(Ledger(start, 0, 0)), [])
    else
      var n := |calls| - 1;
      var (content, answers) := FileRun(limits, start, calls[..n]);
      var (content', answer) := FileStep(limits, content, calls[n].0, calls[n].1);
      (content', answers + [answer])
  }

  /** From a fresh start, for any calls on any days in any order: both back ends give the same answers,
      and the record in the file is the ledger in memory, because the only call that skips the write, a
      refused reserve, cannot happen on a day that has just begun. */
  lemma {:induction false} BackEndsAgree(limits: Limits, start: int, calls: seq<(int, Request)>)
    requires limits.Valid()
    ensures FileRun(limits, start, calls).1 == MemoryRun(limits, start, calls).1
    ensures FileRun(limits, start, calls).0 == Stored(MemoryRun(limits, start, calls).0)
    ensures forall today :: Decode(FileRun(limits, start, calls).0, today) == Some(MemoryRun(limits, start, calls).0)
  {
    if calls != [] {
      BackEndsAgree(limits, start, calls[..|calls| - 1]);
    }
  }

  // ----- The budget under its client, interleaved -----

  /** One call of the service that got a reservation. A cancelled call stays abandoned: only ordinary
      exceptions release. */
  datatype Call =
    | Running(reservation: Reservation)
    | Charged(reservation: Reservation, tokens: int)
    | GivenBack(reservation: Reservation)
    | Abandoned(reservation: Reservation)

  datatype System = System(ledger: Ledger, calls: seq<Call>)

  datatype Step =
    | Admit(today: int)
    | Finish(today: int, id: nat, reported: int)
    | Fail(today: int, id: nat)
    | Cancel(today: int, id: nat)

  /** What the service commits: the reported tokens, or the reservation when nothing was reported. */
  function Charge(reported: int, r: Reservation): int {
    if reported > 0 then reported else r.tokens
  }

  function Next(limits: Limits, s: System, step: Step): System {
    match step
    case Admit(today) =>
      var (l, answer) := MemoryStep(limits, s.ledger, today, Reserve);
      System(l, if answer.Reserved? then s.calls + [Running(answer.reservation)] else s.calls)
    case Finish(today, id, reported) =>
      if id < |s.calls| && s.calls[id].Running? then
        var r := s.calls[id].reservation;
        System(MemoryStep(limits, s.ledger, today, Commit(r, Charge(reported, r))).0,
               s.calls[id := Charged(r, Charge(reported, r))])
      else s
    case Fail(today, id) =>
      if id < |s.calls| && s.calls[id].Running? then
        var r := s.calls[id].reservation;
        System(MemoryStep(limits, s.ledger, today, Release(r)).0, s.calls[id := GivenBack(r)])
      else s
    case Cancel(today, id) =>
      if id < |s.calls| && s.calls[id].Running? then
        s.(calls := s.calls[id := Abandoned(s.calls[id].reservation)])
      else s
  }

  function Run(limits: Limits, start: int, steps: seq<Step>): System {
    if steps == [] then System(Ledger(start, 0, 0), [])
    else Next(limits, Run(limits, start, steps[..|steps| - 1]), steps[|steps| - 1])
  }

  /** The days on which the steps were taken. */
  function Days(steps: seq<Step>): seq<int> {
    seq(|steps|, i requires 0 <= i < |steps| => steps[i].today)
  }

  /** Some day is left and come back to. */
  ghost predicate ComesBack(days: seq<int>) {
    exists i, j, k :: 0 <= i < j < k < |days| && days[i] == days[k] && days[j] != days[k]
  }

  /** The day was there and is over. */
  ghost predicate Gone(days: seq<int>, day: int) {
    exists i, j :: 0 <= i < j < |days| && days[i] == day && days[j] != day
  }

  // ----- What the ledger should say -----

  /** Reserved for this call, if it is of this day and not settled. */
  function Held(c: Call, day: int): int {
    if c.reservation.day == day && (c.Running? || c.Abandoned?) then c.reservation.tokens else 0
  }

  function Spent(c: Call, day: int): int {
    if c.reservation.day == day && c.Charged? then c.tokens else 0
  }

  /** How far a settled call went over its reservation. */
  function Over(c: Call, day: int): int {
    if c.reservation.day == day && c.Charged? then Max(0, c.tokens - c.reservation.tokens) else 0
  }

  function Sum(f: (Call, int) -> int, calls: seq<Call>, day: int): int {
    if calls == [] then 0 else Sum(f, calls[..|calls| - 1], day) + f(calls[|calls| - 1], day)
  }

  ghost predicate Balanced(limits: Limits, s: System) {
    && s.ledger.reserved == Sum(Held, s.calls, s.ledger.day)
    && s.ledger.used == Sum(Spent, s.calls, s.ledger.day)
    && s.ledger.used + s.ledger.reserved <= limits.tokenLimit + Sum(Over, s.calls, s.ledger.day)
    && forall i :: 0 <= i < |s.calls| ==> s.calls[i].reservation.tokens == limits.reservationTokens
  }

  lemma {:induction false} SumOfUpdate(f: (Call, int) -> int, calls: seq<Call>, day: int, id: nat, c: Call)
    requires id < |calls|
    ensures Sum(f, calls[id := c], day) == Sum(f, calls, day) - f(calls[id], day) + f(c, day)
  {
    var n := |calls| - 1;
    if id == n {
      assert calls[id := c][..n] == calls[..n];
    } else {
      assert calls[id := c][..n] == calls[..n][id := c];
      SumOfUpdate(f, calls[..n], day, id, c);
    }
  }

  lemma {:induction false} SumOfAppend(f: (Call, int) -> int, calls: seq<Call>, day: int, c: Call)
    ensures Sum(f, calls + [c], day) == Sum(f, calls, day) + f(c, day)
  {
    assert (calls + [c])[..|calls|] == calls;
  }

  lemma {:induction false} SumVanishes(f: (Call, int) -> int, calls: seq<Call>, day: int)
    requires forall i :: 0 <= i < |calls| ==> f(calls[i], day) == 0
    ensures Sum(f, calls, day) == 0
  {
    if calls != [] { SumVanishes(f, calls[..|calls| - 1], day); }
  }

  lemma {:induction false} SumAtLeast(f: (Call, int) -> int, calls: seq<Call>, day: int, id: nat)
    requires id < |calls| && forall i :: 0 <= i < |calls| ==> f(calls[i], day) >= 0
    ensures Sum(f, calls, day) >= f(calls[id], day)
  {
    var n := |calls| - 1;
    if id < n {
      SumAtLeast(f, calls[..n], day, id);
    } else if n > 0 {
      SumAtLeast(f, calls[..n], day, 0);
    }
  }

  /** Every call is of the ledger's day or of a day that is over, and every day it knows was there. */
  ghost predicate Dated(s: System, days: seq<int>) {
    && (forall i :: 0 <= i < |s.calls| ==> s.calls[i].reservation.day in days)
    && (forall i :: 0 <= i < |s.calls| && s.calls[i].reservation.day != s.ledger.day ==>
          Gone(days, s.calls[i].reservation.day))
  }

  lemma GoneStays(days: seq<int>, today: int, day: int)
    requires Gone(days, day)
    ensures Gone(days + [today], day)
  {
    var i, j :| 0 <= i < j < |days| && days[i] == day && days[j] != day;
    assert (days + [today])[i] == day && (days + [today])[j] != day;
  }

  lemma LeftIsGone(days: seq<int>, today: int, day: int)
    requires day in days && today != day
    ensures Gone(days + [today], day)
  {
    var i :| 0 <= i < |days| && days[i] == day;
    assert (days + [today])[i] == day && (days + [today])[|days|] != day;
  }

  lemma GoneComesBack(days: seq<int>, today: int)
    requires Gone(days, today)
    ensures ComesBack(days + [today])
  {
    var i, j :| 0 <= i < j < |days| && days[i] == today && days[j] != today;
    var all := days + [today];
    assert all[i] == all[|days|] && all[j] != all[|days|];
  }

  lemma StayDated(s: System, days: seq<int>, today: int)
    requires Dated(s, days)
    ensures Dated(s, days + [today])
  {
    forall i | 0 <= i < |s.calls| && s.calls[i].reservation.day != s.ledger.day
      ensures Gone(days + [today], s.calls[i].reservation.day)
    {
      GoneStays(days, today, s.calls[i].reservation.day);
    }
  }

  lemma RollDated(s: System, days: seq<int>, today: int)
    requires Dated(s, days)
    ensures Dated(s.(ledger := Rolled(s.ledger, today)), days + [today])
  {
    forall i | 0 <= i < |s.calls| && s.calls[i].reservation.day != today
      ensures Gone(days + [today], s.calls[i].reservation.day)
    {
      LeftIsGone(days, today, s.calls[i].reservation.day);
    }
  }

  /** A new day starts balanced: no call belongs to it yet, unless the day has come back. */
  lemma RollBalanced(limits: Limits, s: System, days: seq<int>, today: int)
    requires limits.Valid() && Balanced(limits, s) && Dated(s, days) && !ComesBack(days + [today])
    ensures Balanced(limits, s.(ledger := Rolled(s.ledger, today)))
  {
    if s.ledger.day != today {
      forall i | 0 <= i < |s.calls| ensures s.calls[i].reservation.day != today {
        if s.calls[i].reservation.day == today { GoneComesBack(days, today); }
      }
      SumVanishes(Held, s.calls, today);
      SumVanishes(Spent, s.calls, today);
      SumVanishes(Over, s.calls, today);
    }
  }

  lemma SettleBalanced(limits: Limits, s: System, id: nat, c: Call)
    requires limits.Valid() && Balanced(limits, s) && id < |s.calls| && s.calls[id].Running?
    requires c.reservation == s.calls[id].reservation && !c.Running?
    ensures var l, r := s.ledger, c.reservation;
      && (r.day == l.day ==> l.reserved >= r.tokens)
      && Balanced(limits, System(
           if r.day != l.day || c.Abandoned? then l
           else l.(reserved := l.reserved - r.tokens, used := l.used + if c.Charged? then c.tokens else 0),
           s.calls[id := c]))
  {
    SumOfUpdate(Held, s.calls, s.ledger.day, id, c);
    SumOfUpdate(Spent, s.calls, s.ledger.day, id, c);
    SumOfUpdate(Over, s.calls, s.ledger.day, id, c);
    SumAtLeast(Held, s.calls, s.ledger.day, id);
  }

  lemma AdmitBalanced(limits: Limits, s: System)
    requires limits.Valid() && Balanced(limits, s) && Fits(limits, s.ledger)
    ensures var r := Reservation(s.ledger.day, limits.reservationTokens);
      Balanced(limits, System(s.ledger.(reserved := s.ledger.reserved + r.tokens), s.calls + [Running(r)]))
  {
    var c := Running(Reservation(s.ledger.day, limits.reservationTokens));
    SumOfAppend(Held, s.calls, s.ledger.day, c);
    SumOfAppend(Spent, s.calls, s.ledger.day, c);
    SumOfAppend(Over, s.calls, s.ledger.day, c);
    OverrunNotNegative(s.calls, s.ledger.day);
  }

  lemma {:induction false} OverrunNotNegative(calls: seq<Call>, day: int)
    ensures Sum(Over, calls, day) >= 0
  {
    if calls != [] { OverrunNotNegative(calls[..|calls| - 1], day); }
  }

  lemma NextDated(limits: Limits, s: System, days: seq<int>, step: Step)
    requires Dated(s, days)
    ensures Dated(Next(limits, s, step), days + [step.today])
  {
    StayDated(s, days, step.today);
    RollDated(s, days, step.today);
  }

  lemma NextBalanced(limits: Limits, s: System, days: seq<int>, step: Step)
    requires limits.Valid() && Balanced(limits, s) && Dated(s, days) && !ComesBack(days + [step.today])
    ensures Balanced(limits, Next(limits, s, step))
  {
    var rolled := s.(ledger := Rolled(s.ledger, step.today));
    RollBalanced(limits, s, days, step.today);
    match step
    case Admit(_) =>
      if Fits(limits, rolled.ledger) { AdmitBalanced(limits, rolled); }
    case Finish(_, id, reported) =>
      if id < |s.calls| && s.calls[id].Running? {
        var r := s.calls[id].reservation;
        SettleBalanced(limits, rolled, id, Charged(r, Charge(reported, r)));
      }
    case Fail(_, id) =>
      if id < |s.calls| && s.calls[id].Running? {
        SettleBalanced(limits, rolled, id, GivenBack(s.calls[id].reservation));
      }
    case Cancel(_, id) =>
      if id < |s.calls| && s.calls[id].Running? {
        SettleBalanced(limits, s, id, Abandoned(s.calls[id].reservation));
      }
  }

  lemma {:induction false} RunBalanced(limits: Limits, start: int, steps: seq<Step>)
    requires limits.Valid() && !ComesBack(Days(steps))
    ensures Balanced(limits, Run(limits, start, steps)) && Dated(Run(limits, start, steps), Days(steps))
  {
    if steps != [] {
      var n := |steps| - 1;
      var before := Days(steps[..n]);
      assert Days(steps) == before + [steps[n].today];
      EarlierDays(before, steps[n].today);
      RunBalanced(limits, start, steps[..n]);
      NextBalanced(limits, Run(limits, start, steps[..n]), before, steps[n]);
      NextDated(limits, Run(limits, start, steps[..n]), before, steps[n]);
    }
  }

  lemma EarlierDays(days: seq<int>, today: int)
    ensures ComesBack(days) ==> ComesBack(days + [today])
  {
    if ComesBack(days) {
      var i, j, k :| 0 <= i < j < k < |days| && days[i] == days[k] && days[j] != days[k];
      var all := days + [today];
      assert all[i] == all[k] && all[j] != all[k];
    }
  }

  /** Over any interleaving of calls, while no day is left and come back to: `reserved` is exactly what
      this day's unsettled calls hold (cancelled ones included), `used` exactly what its settled calls
      were charged, and together they exceed the limit by no more than the day's overruns. */
  lemma LedgerBalances(limits: Limits, start: int, steps: seq<Step>)
    requires limits.Valid() && !ComesBack(Days(steps))
    ensures var s := Run(limits, start, steps);
      && s.ledger.reserved == Sum(Held, s.calls, s.ledger.day)
      && s.ledger.used == Sum(Spent, s.calls, s.ledger.day)
      && s.ledger.used + s.ledger.reserved <= limits.tokenLimit + Sum(Over, s.calls, s.ledger.day)
  {
    RunBalanced(limits, start, steps);
  }

  /** So a reserve today is admitted exactly when what the unsettled calls of today hold, what its settled
      ones were charged and one more reservation fit the limit together; and the rest is what remains. */
  lemma AdmittedIffItFits(limits: Limits, start: int, steps: seq<Step>, today: int)
    requires limits.Valid() && !ComesBack(Days(steps) + [today])
    ensures var s := Run(limits, start, steps);
      var taken := Sum(Held, s.calls, today) + Sum(Spent, s.calls, today);
      && MemoryStep(limits, s.ledger, today, Reserve).1 ==
           (if taken + limits.reservationTokens <= limits.tokenLimit
            then Reserved(Reservation(today, limits.reservationTokens)) else Exceeded)
      && MemoryStep(limits, s.ledger, today, Remaining).1 ==
           Left(if taken >= limits.tokenLimit then 0 else limits.tokenLimit - taken)
  {
    EarlierDays(Days(steps), today);
    RunBalanced(limits, start, steps);
    RollBalanced(limits, Run(limits, start, steps), Days(steps), today);
  }

  /** A commit on its day adds what it was told, but never takes anything back from `used`. */
  lemma CommitAddsToUsed(limits: Limits, l: Ledger, r: Reservation, actual: int)
    ensures var (l', answer) := MemoryStep(limits, l, r.day, Commit(r, actual));
      && answer == Done && l'.day == r.day
      && l'.used == (if l.day == r.day then l.used else 0) + (if actual > 0 then actual else 0)
  {
  }

  /** The file back end refuses exactly a state file that does not hold a record with sensible counts, and
      then leaves it as it is. */
  lemma FileRefusesIffInvalid(limits: Limits, content: Content, today: int, request: Request)
    ensures var (after, answer) := FileStep(limits, content, today, request);
      && (answer == StateInvalid <==>
            content == Garbage || (content.Stored? && (content.record.used < 0 || content.record.reserved < 0)))
      && (answer == StateInvalid || answer == Exceeded ==> after == content)
  {
  }

  /** Days that do not go back never come back. */
  lemma DaysInOrder(days: seq<int>)
    requires forall i, j :: 0 <= i < j < |days| ==> days[i] <= days[j]
    ensures !ComesBack(days)
  {
  }

  // ----- The clamp at zero -----

  /** Settling this running call today meets a ledger of its day with less reserved than it holds, so the
      clamp at zero hides a difference. */
  ghost predicate ClampFires(s: System, today: int, id: nat) {
    && id < |s.calls| && s.calls[id].Running?
    && s.calls[id].reservation.day == today
    && Rolled(s.ledger, today).reserved < s.calls[id].reservation.tokens
  }

  /** It never fires while no day is left and come back to, in particular on days that do not go back. */
  lemma ClampNeverFires(limits: Limits, start: int, steps: seq<Step>, today: int, id: nat)
    requires limits.Valid() && !ComesBack(Days(steps) + [today])
    ensures !ClampFires(Run(limits, start, steps), today, id)
  {
    var s, days := Run(limits, start, steps), Days(steps);
    EarlierDays(days, today);
    RunBalanced(limits, start, steps);
    RollBalanced(limits, s, days, today);
    if id < |s.calls| && s.calls[id].Running? {
      SettleBalanced(limits, s.(ledger := Rolled(s.ledger, today)), id, GivenBack(s.calls[id].reservation));
    }
  }

  function Admissions(days: seq<int>): seq<Step> {
    seq(|days|, i requires 0 <= i < |days| => Admit(days[i]))
  }

  /** After nothing but admissions the ledger is of the last day, and every day has a running call. */
  lemma {:induction false} OnlyAdmissions(limits: Limits, start: int, days: seq<int>)
    requires limits.Valid()
    ensures var s := Run(limits, start, Admissions(days));
      && s.ledger.day == (if days == [] then start else days[|days| - 1])
      && (days == [] ==> s.ledger == Ledger(start, 0, 0))
      && forall day :: day in days ==> Running(Reservation(day, limits.reservationTokens)) in s.calls
  {
    if days != [] {
      var n := |days| - 1;
      var before := Run(limits, start, Admissions(days[..n]));
      assert Admissions(days)[..n] == Admissions(days[..n]);
      OnlyAdmissions(limits, start, days[..n]);
      assert forall day :: day in days <==> day in days[..n] || day == days[n];
      if days[n] !in days[..n] {
        assert n > 0 ==> days[n - 1] in days[..n];
        assert Fits(limits, Rolled(before.ledger, days[n]));
      }
    }
  }

  /** If a day is left and come back to, admissions alone lead to a clamp on the way. */
  lemma ClampCanFire(limits: Limits, start: int, days: seq<int>) returns (steps: seq<Step>, today: int, id: nat)
    requires limits.Valid() && ComesBack(days)
    ensures ClampOnTheWay(limits, start, days, steps, today, id)
  {
    var i, j, k :| 0 <= i < j < k < |days| && days[i] == days[k] && days[j] != days[k];
    today := days[k];
    k := FirstReturn(days, j, k);
    steps := Admissions(days[..k]);
    OnlyAdmissions(limits, start, days[..k]);
    assert Days(steps) + [today] == days[..k + 1];
    assert days[..k][i] == today && today in days[..k];
    assert Running(Reservation(today, limits.reservationTokens)) in Run(limits, start, steps).calls;
    var s := Run(limits, start, steps);
    id :| id < |s.calls| && s.calls[id] == Running(Reservation(today, limits.reservationTokens));
  }

  lemma {:induction false} FirstReturn(days: seq<int>, j: nat, k: nat) returns (first: nat)
    requires j < k < |days| && days[j] != days[k]
    ensures j < first <= k && days[first] == days[k] && days[first - 1] != days[k]
    decreases |days| - j
  {
    first := j + 1;
    if days[first] != days[k] { first := FirstReturn(days, j + 1, k); }
  }

  lemma {:induction false} PrefixComesBack(days: seq<int>, all: seq<int>)
    requires days <= all && ComesBack(days)
    ensures ComesBack(all)
  {
    var i, j, k :| 0 <= i < j < k < |days| && days[i] == days[k] && days[j] != days[k];
    assert all[i] == all[k] && all[j] != all[k];
  }

  /** Steps on the first of these days, after which settling this call fires the clamp. */
  ghost predicate ClampOnTheWay(limits: Limits, start: int, days: seq<int>, steps: seq<Step>, today: int, id: nat) {
    Days(steps) + [today] <= days && ClampFires(Run(limits, start, steps), today, id)
  }

  /** The clamp can fire on a sequence of days if and only if some day is left and come back to. */
  lemma ClampFiresIffDayComesBack(limits: Limits, start: int, days: seq<int>)
    requires limits.Valid()
    ensures ComesBack(days) <==>
      exists steps, today, id :: ClampOnTheWay(limits, start, days, steps, today, id)
  {
    if ComesBack(days) {
      var steps, today, id := ClampCanFire(limits, start, days);
    } else {
      forall steps, today, id | Days(steps) + [today] <= days
        ensures !ClampOnTheWay(limits, start, days, steps, today, id)
      {
        if ComesBack(Days(steps) + [today]) { PrefixComesBack(Days(steps) + [today], days); }
        ClampNeverFires(limits, start, steps, today, id);
      }
    }
  }
}
