/** One watchdog check after another: restart cooldown, recovery accounting and incident alerts. */
module Watchdog {
  import opened Common

  datatype Status = Unknown | Healthy | Unhealthy

  /** The fields of status.json that decide anything. */
  datatype State = State(
    status: Status, failures: int, lastRestart: Option<real>, restarts: int, recoveries: int,
    pending: bool, pendingFailures: int, lastAlert: Option<string>, lastError: Option<string>)

  const DEFAULT := State(Unknown, 0, None, 0, 0, false, 0, None, None)

  datatype Config = Config(cooldown: int, recoveryTimeout: int)

  /** `error` is None only for a healthy report. */
  datatype Report = Report(healthy: bool, restartRequired: bool, error: Option<string>)

  /** What one run meets: the clock, the first report, the restart command's fate, the report of every
      recovery attempt, and whether notifications are delivered. */
  datatype Check = Check(now: real, first: Report, restartOk: bool, attempt: nat -> Report, delivered: bool)

  /** What one run does that others can see, in order. */
  datatype Mark = Wrote(status: Status) | Restarted(at: real) | Alerted(error: string) | Announced(failures: int)

  // ----- The specification of one run -----

  function ErrorText(error: Option<string>): string {
    if error.Some? && error.value != "" then error.value else "unknown health failure"
  }

  function AfterAlert(s: State, error: Option<string>, delivered: bool): (State, seq<Mark>) {
    if s.lastAlert == Some(ErrorText(error)) || !delivered then (s, [])
    else (s.(lastAlert := Some(ErrorText(error))), [Alerted(ErrorText(error)), Wrote(s.status)])
  }

  function AfterFlush(s: State, delivered: bool): (State, seq<Mark>) {
    if !s.pending || !delivered then (s, [])
    else (s.(pending := false, pendingFailures := 0), [Announced(s.pendingFailures), Wrote(s.status)])
  }

  function Heal(s: State, recovered: bool): State {
    var t := s.(status := Healthy, failures := 0, lastAlert := None, lastError := None);
    if recovered then t.(recoveries := s.recoveries + 1, pending := true, pendingFailures := s.failures) else t
  }

  function AfterHeal(s: State, recovered: bool, delivered: bool): (State, seq<Mark>) {
    var t := Heal(s, recovered);
    var (u, marks) := AfterFlush(t, delivered);
    (u, [Wrote(Healthy)] + marks)
  }

  function FailWith(s: State, error: Option<string>): State {
    s.(status := Unhealthy, failures := s.failures + 1, lastError := error)
  }

  predicate InCooldown(config: Config, s: State, now: real) {
    s.lastRestart.Some? && 0.0 <= now - s.lastRestart.value < config.cooldown as real
  }

  /** One attempt every two seconds, and at least one. */
  function Attempts(config: Config): nat {
    if config.recoveryTimeout / 2 < 1 then 1 else config.recoveryTimeout / 2
  }

  /** After a restart: the first attempt, from `from` on, that is healthy or not worth a restart decides. */
  function AfterRestart(s: State, c: Check, from: nat, n: nat): (State, seq<Mark>, bool)
    requires from <= n
    decreases n - from
  {
    if from == n then
      (s.(lastError := Some("restart completed but health checks still fail")), [Wrote(s.status)], false)
    else
      var report := c.attempt(from);
      if report.healthy then
        var (t, marks) := AfterHeal(s, true, c.delivered);
        (t, marks, true)
      else if !report.restartRequired then
        var t := s.(lastError := report.error);
        var (u, marks) := AfterAlert(t, report.error, c.delivered);
        (u, [Wrote(t.status)] + marks, false)
      else AfterRestart(s, c, from + 1, n)
  }

  function RunOnce(config: Config, s: State, c: Check): (State, seq<Mark>, bool) {
    if c.first.healthy then
      var (t, marks) := AfterHeal(s, s.status == Unhealthy, c.delivered);
      (t, marks, true)
    else
      var t := FailWith(s, c.first.error);
      if !c.first.restartRequired then
        var (u, marks) := AfterAlert(t, c.first.error, c.delivered);
        (u, [Wrote(Unhealthy)] + marks, false)
      else if InCooldown(config, t, c.now) then (t, [Wrote(Unhealthy)], false)
      else
        var u := t.(lastRestart := Some(c.now), restarts := t.restarts + 1);
        if !c.restartOk then (u, [Wrote(Unhealthy)] + [Restarted(c.now)], false)
        else
          var (v, marks, ok) := AfterRestart(u, c, 0, Attempts(config));
          (v, [Wrote(Unhealthy)] + ([Restarted(c.now)] + marks), ok)
  }

  // ----- What one run decides -----

  /** A failure a restart may repair. */
  predicate Restartable(r: Report) { !r.healthy && r.restartRequired }

  /** No restart yet, a clock that went back, or a cooldown since the last one. */
  predicate MayRestart(config: Config, s: State, now: real) {
    s.lastRestart.None? || now < s.lastRestart.value || now - s.lastRestart.value >= config.cooldown as real
  }

  predicate Restarts(config: Config, s: State, c: Check) {
    Restartable(c.first) && MayRestart(config, s, c.now)
  }

  /** The attempt after a restart that decides; n when none does. */
  function Deciding(c: Check, from: nat, n: nat): (k: nat)
    requires from <= n
    ensures from <= k <= n && (k < n ==> !Restartable(c.attempt(k)))
    ensures forall j :: from <= j < k ==> Restartable(c.attempt(j))
    decreases n as int - from as int
  {
    if from == n || !Restartable(c.attempt(from)) then from else Deciding(c, from + 1, n)
  }

  /** The report a run ends on; None when a restart was suppressed, failed, or never came to a decision. */
  function Final(config: Config, s: State, c: Check): Option<Report> {
    if !Restartable(c.first) then Some(c.first)
    else if !Restarts(config, s, c) || !c.restartOk then None
    else Verdict(config, c)
  }

  lemma {:induction false} AfterRestartDecided(s: State, c: Check, from: nat, n: nat)
    requires from <= n
    ensures AfterRestart(s, c, from, n) == AfterRestart(s, c, Deciding(c, from, n), n)
    decreases n as int - from as int
  {
    if from < n && Restartable(c.attempt(from)) { AfterRestartDecided(s, c, from + 1, n); }
  }

  /** What the deciding attempt of a restart reports, if one decides. */
  function Verdict(config: Config, c: Check): Option<Report> {
    var k := Deciding(c, 0, Attempts(config));
    if k < Attempts(config) then Some(c.attempt(k)) else None
  }

  lemma AfterRestartRecords(config: Config, u: State, c: Check)
    requires u.status == Unhealthy
    ensures var (t, marks, ok) := AfterRestart(u, c, 0, Attempts(config));
      var final := Verdict(config, c);
      && t.restarts == u.restarts && t.lastRestart == u.lastRestart
      && (ok <==> final.Some? && final.value.healthy)
      && t.status == (if ok then Healthy else Unhealthy) && t.failures == (if ok then 0 else u.failures)
      && t.recoveries == u.recoveries + (if ok then 1 else 0)
      && t.pending == (if ok then !c.delivered else u.pending)
      && t.lastError == (if ok then None else if final.Some? then final.value.error
                         else Some("restart completed but health checks still fail"))
      && t.lastAlert == (if ok then None
                         else if final.Some? && c.delivered then Some(ErrorText(final.value.error)) else u.lastAlert)
  {
    AfterRestartDecided(u, c, 0, Attempts(config));
  }

  lemma AfterRestartTells(config: Config, u: State, c: Check)
    ensures var (t, marks, ok) := AfterRestart(u, c, 0, Attempts(config));
      var final := Verdict(config, c);
      && (forall at :: Restarted(at) !in marks)
      && (forall e :: Alerted(e) in marks <==> Alerts(u, final, c.delivered, e))
      && (forall n :: Announced(n) in marks <==>
            final.Some? && final.value.healthy && c.delivered && n == u.failures)
  {
    AfterRestartDecided(u, c, 0, Attempts(config));
    HealTells(u, true, c.delivered);
    var n := Attempts(config);
    var k := Deciding(c, 0, n);
    if k < n { AlertTells(u.(lastError := c.attempt(k).error), c.attempt(k).error, c.delivered); }
  }

  /** The run ends on a failure no restart repairs, which was not alerted last, and the message is
      delivered. */
  predicate Alerts(s: State, final: Option<Report>, delivered: bool, e: string) {
    final.Some? && !final.value.healthy && e == ErrorText(final.value.error) && s.lastAlert != Some(e) && delivered
  }

  lemma HealTells(s: State, recovered: bool, delivered: bool)
    ensures var marks := AfterHeal(s, recovered, delivered).1;
      && (forall at :: Restarted(at) !in marks) && (forall e :: Alerted(e) !in marks)
      && (forall n :: Announced(n) in marks <==>
            delivered && (s.pending || recovered) && n == if recovered then s.failures else s.pendingFailures)
  {
  }

  lemma AlertTells(s: State, error: Option<string>, delivered: bool)
    ensures var marks := AfterAlert(s, error, delivered).1;
      && (forall at :: Restarted(at) !in marks) && (forall n :: Announced(n) !in marks)
      && (forall e :: Alerted(e) in marks <==> e == ErrorText(error) && s.lastAlert != Some(e) && delivered)
  {
  }

  /** What one run records. It counts and dates a restart exactly when it makes one. It succeeds exactly
      when the report it ends on is healthy: then the state is healthy, with a recovery counted if it was
      unhealthy or restarted, pending until a message gets through; otherwise it is unhealthy with one more
      failure. */
  lemma RunOnceRecords(config: Config, s: State, c: Check)
    ensures var (t, marks, ok) := RunOnce(config, s, c);
      var final, restarts := Final(config, s, c), Restarts(config, s, c);
      var recovered := ok && (s.status == Unhealthy || restarts);
      && t.restarts == s.restarts + (if restarts then 1 else 0)
      && t.lastRestart == (if restarts then Some(c.now) else s.lastRestart)
      && (ok <==> final.Some? && final.value.healthy)
      && t.status == (if ok then Healthy else Unhealthy)
      && t.failures == (if ok then 0 else s.failures + 1)
      && t.recoveries == s.recoveries + (if recovered then 1 else 0)
      && t.pending == (if ok then (s.pending || recovered) && !c.delivered else s.pending)
      && t.lastError == (if ok then None else if final.Some? then final.value.error
                         else if restarts && c.restartOk then Some("restart completed but health checks still fail")
                         else c.first.error)
      && t.lastAlert == (if ok then None
                         else if final.Some? && c.delivered then Some(ErrorText(final.value.error)) else s.lastAlert)
  {
    if Restarts(config, s, c) && c.restartOk {
      AfterRestartRecords(config, FailWith(s, c.first.error).(lastRestart := Some(c.now), restarts := s.restarts + 1), c);
    }
  }

  /** What one run does. It restarts exactly when the failure is one a restart may repair and no cooldown is
      running. It alerts exactly when it ends on a failure no restart repairs, that is not the one alerted
      last, and the message gets through; and announces a recovery exactly when it ends healthy with one to
      announce, and the message gets through, with the number of failures it ended. */
  lemma RunOnceTells(config: Config, s: State, c: Check)
    ensures var marks, final, restarts := RunOnce(config, s, c).1, Final(config, s, c), Restarts(config, s, c);
      && (forall at :: Restarted(at) in marks <==> restarts && at == c.now)
      && (forall e :: Alerted(e) in marks <==> Alerts(s, final, c.delivered, e))
      && (forall n :: Announced(n) in marks <==>
            && final.Some? && final.value.healthy && c.delivered && (s.pending || s.status == Unhealthy || restarts)
            && n == if restarts then s.failures + 1 else if s.status == Unhealthy then s.failures else s.pendingFailures)
  {
    var t := FailWith(s, c.first.error);
    if c.first.healthy {
      HealTells(s, s.status == Unhealthy, c.delivered);
    } else if !c.first.restartRequired {
      AlertTells(t, c.first.error, c.delivered);
      TellsAfter([Wrote(Unhealthy)], AfterAlert(t, c.first.error, c.delivered).1);
    } else if Restarts(config, s, c) && c.restartOk {
      var u := t.(lastRestart := Some(c.now), restarts := s.restarts + 1);
      AfterRestartTells(config, u, c);
      TellsAfter([Wrote(Unhealthy)] + [Restarted(c.now)], AfterRestart(u, c, 0, Attempts(config)).1);
      assert RunOnce(config, s, c).1 ==
        [Wrote(Unhealthy)] + [Restarted(c.now)] + AfterRestart(u, c, 0, Attempts(config)).1;
    }
  }

  lemma TellsAfter(a: seq<Mark>, b: seq<Mark>)
    ensures forall m :: m in a + b <==> m in a || m in b
  {
  }

  // ----- The program -----

  class Watchdog {
    const config: Config
    var file: Option<State>
    ghost var marks: seq<Mark>

    constructor (config: Config)
      ensures this.config == config && file == None && marks == []
    {
      this.config := config;
      file := None;
      marks := [];
    }

    function Loaded(): State
      reads this
    {
      if file.Some? then file.value else DEFAULT
    }

    method Write(state: State)
      modifies this
      ensures file == Some(state) && marks == old(marks) + [Wrote(state.status)]
    {
      file := Some(state);
      marks := marks + [Wrote(state.status)];
    }

    method NotifyIncident(state: State, error: Option<string>, delivered: bool)
      requires file == Some(state)
      modifies this
      ensures file == Some(AfterAlert(state, error, delivered).0)
      ensures marks == old(marks) + AfterAlert(state, error, delivered).1
    {
      var text := if error.Some? && error.value != "" then error.value else "unknown health failure";
      if state.lastAlert == Some(text) { return; }
      if !delivered { return; }
      marks := marks + [Alerted(text)];
      Write(state.(lastAlert := Some(text)));
    }

    method PersistHealthy(state: State, recovered: bool) returns (t: State)
      modifies this
      ensures t == Heal(state, recovered) && file == Some(t) && marks == old(marks) + [Wrote(Healthy)]
    {
      t := state.(status := Healthy, failures := 0, lastAlert := None, lastError := None);
      if recovered {
        t := t.(recoveries := t.recoveries + 1, pending := true, pendingFailures := state.failures);
      }
      Write(t);
    }

    method FlushRecovery(state: State, delivered: bool)
      requires file == Some(state)
      modifies this
      ensures file == Some(AfterFlush(state, delivered).0)
      ensures marks == old(marks) + AfterFlush(state, delivered).1
    {
      if !state.pending { return; }
      if !delivered { return; }
      marks := marks + [Announced(state.pendingFailures)];
      Write(state.(pending := false, pendingFailures := 0));
    }

    method CheckOnce(c: Check) returns (ok: bool)
      modifies this
      ensures var (s, m, r) := RunOnce(config, old(Loaded()), c);
        file == Some(s) && marks == old(marks) + m && ok == r
    {
      var state := Loaded();
      if c.first.healthy {
        var recovered := state.status == Unhealthy;
        state := PersistHealthy(state, recovered);
        FlushRecovery(state, c.delivered);
        return true;
      }
      state := state.(status := Unhealthy, failures := state.failures + 1, lastError := c.first.error);
      if !c.first.restartRequired {
        Write(state);
        NotifyIncident(state, c.first.error, c.delivered);
        return false;
      }
      if state.lastRestart.Some? {
        var elapsed := c.now - state.lastRestart.value;
        if 0.0 <= elapsed < config.cooldown as real {
          Write(state);
          return false;
        }
      }
      state := state.(lastRestart := Some(c.now), restarts := state.restarts + 1);
      Write(state);
      marks := marks + [Restarted(c.now)];
      if !c.restartOk { return false; }
      ok := AwaitRecovery(state, c);
    }

    method AwaitRecovery(state: State, c: Check) returns (ok: bool)
      requires file == Some(state)
      modifies this
      ensures var (s, m, r) := AfterRestart(state, c, 0, Attempts(config));
        file == Some(s) && marks == old(marks) + m && ok == r
    {
      var attempts := Attempts(config);
      for attempt := 0 to attempts
        invariant file == Some(state) && marks == old(marks)
        invariant AfterRestart(state, c, 0, attempts) == AfterRestart(state, c, attempt, attempts)
      {
        var report := c.attempt(attempt);
        if report.healthy {
          var healed := PersistHealthy(state, true);
          FlushRecovery(healed, c.delivered);
          return true;
        }
        if !report.restartRequired {
          var failed := state.(lastError := report.error);
          Write(failed);
          NotifyIncident(failed, report.error, c.delivered);
          return false;
        }
      }
      Write(state.(lastError := Some("restart completed but health checks still fail")));
      return false;
    }
  }

  // ----- Every run of checks -----

  function Run(config: Config, checks: seq<Check>): (State, seq<Mark>) {
    if checks == [] then (DEFAULT, [])
    else
      var n := |checks| - 1;
      var (s, marks) := Run(config, checks[..n]);
      var (t, more, _) := RunOnce(config, s, checks[n]);
      (t, marks + more)
  }

  ghost predicate ClockForward(checks: seq<Check>) {
    forall i, j :: 0 <= i < j < |checks| ==> checks[i].now <= checks[j].now
  }

  // ----- What the marks add up to -----

  function LastStatus(marks: seq<Mark>): Status {
    if marks == [] then Unknown
    else if marks[|marks| - 1].Wrote? then marks[|marks| - 1].status
    else LastStatus(marks[..|marks| - 1])
  }

  /** Persisted changes from unhealthy to healthy. */
  function Recoveries(marks: seq<Mark>): nat {
    if marks == [] then 0
    else
      var before := marks[..|marks| - 1];
      Recoveries(before) + (if marks[|marks| - 1] == Wrote(Healthy) && LastStatus(before) == Unhealthy then 1 else 0)
  }

  function RestartTimes(marks: seq<Mark>): seq<real> {
    if marks == [] then []
    else
      var before := RestartTimes(marks[..|marks| - 1]);
      if marks[|marks| - 1].Restarted? then before + [marks[|marks| - 1].at] else before
  }

  /** The error of the last alert delivered in the current unhealthy episode. */
  function EpisodeAlert(marks: seq<Mark>): Option<string> {
    if marks == [] then None
    else
      match marks[|marks| - 1]
      case Wrote(Healthy) => None
      case Alerted(error) => Some(error)
      case _ => EpisodeAlert(marks[..|marks| - 1])
  }

  /** No alert repeats the one delivered before it in the same episode. */
  ghost predicate AlertsDiffer(marks: seq<Mark>) {
    forall i :: 0 <= i < |marks| && marks[i].Alerted? ==> EpisodeAlert(marks[..i]) != Some(marks[i].error)
  }

  ghost predicate Spaced(times: seq<real>, gap: real) {
    forall i :: 0 <= i < |times| - 1 ==> times[i + 1] - times[i] >= gap
  }

  /** The state file agrees with the marks, and the marks obey the laws. */
  ghost predicate Lawful(config: Config, s: State, marks: seq<Mark>) {
    && s.status == LastStatus(marks)
    && s.recoveries == Recoveries(marks)
    && s.lastAlert == EpisodeAlert(marks)
    && s.restarts == |RestartTimes(marks)|
    && s.lastRestart == LastOf(RestartTimes(marks))
    && Spaced(RestartTimes(marks), config.cooldown as real)
    && AlertsDiffer(marks)
  }

  function LastOf(times: seq<real>): Option<real> {
    if times == [] then None else Some(times[|times| - 1])
  }

  /** How the state file may change across one mark. */
  ghost predicate Follows(config: Config, s: State, t: State, mark: Mark) {
    match mark
    case Wrote(status) =>
      && t.status == status
      && t.recoveries == s.recoveries + (if status == Healthy && s.status == Unhealthy then 1 else 0)
      && t.lastAlert == (if status == Healthy then None else s.lastAlert)
      && t.restarts == s.restarts && t.lastRestart == s.lastRestart
    case Restarted(at) =>
      && (s.lastRestart.Some? ==> at - s.lastRestart.value >= config.cooldown as real)
      && t.lastRestart == Some(at) && t.restarts == s.restarts + 1
      && t.status == s.status && t.recoveries == s.recoveries && t.lastAlert == s.lastAlert
    case Alerted(error) =>
      && s.lastAlert != Some(error) && t.lastAlert == Some(error)
      && t.status == s.status && t.recoveries == s.recoveries
      && t.restarts == s.restarts && t.lastRestart == s.lastRestart
    case Announced(_) =>
      && t.status == s.status && t.recoveries == s.recoveries && t.lastAlert == s.lastAlert
      && t.restarts == s.restarts && t.lastRestart == s.lastRestart
  }

  lemma MarkLawful(config: Config, s: State, marks: seq<Mark>, t: State, mark: Mark)
    requires Lawful(config, s, marks) && Follows(config, s, t, mark)
    ensures Lawful(config, t, marks + [mark])
  {
    var longer := marks + [mark];
    assert longer[..|marks|] == marks;
    forall i | 0 <= i < |longer| && longer[i].Alerted?
      ensures EpisodeAlert(longer[..i]) != Some(longer[i].error)
    {
      if i < |marks| { assert longer[..i] == marks[..i]; }
    }
  }

  lemma AlertLawful(config: Config, s: State, marks: seq<Mark>, error: Option<string>, delivered: bool)
    requires Lawful(config, s, marks) && s.status == Unhealthy
    ensures var (t, more) := AfterAlert(s, error, delivered); Lawful(config, t, marks + more)
  {
    var (t, more) := AfterAlert(s, error, delivered);
    if more == [] {
      assert marks + more == marks;
    } else {
      MarkLawful(config, s, marks, t, Alerted(ErrorText(error)));
      MarkLawful(config, t, marks + [Alerted(ErrorText(error))], t, Wrote(Unhealthy));
      assert marks + more == marks + [Alerted(ErrorText(error))] + [Wrote(Unhealthy)];
    }
  }

  lemma HealLawful(config: Config, s: State, marks: seq<Mark>, recovered: bool, delivered: bool)
    requires Lawful(config, s, marks) && recovered == (s.status == Unhealthy)
    ensures var (t, more) := AfterHeal(s, recovered, delivered); Lawful(config, t, marks + more)
  {
    var t := Heal(s, recovered);
    MarkLawful(config, s, marks, t, Wrote(Healthy));
    var healed := marks + [Wrote(Healthy)];
    var (u, more) := AfterFlush(t, delivered);
    if more == [] {
      assert healed + more == healed;
    } else {
      MarkLawful(config, t, healed, t, Announced(t.pendingFailures));
      MarkLawful(config, t, healed + [Announced(t.pendingFailures)], u, Wrote(Healthy));
      assert healed + more == healed + [Announced(t.pendingFailures)] + [Wrote(Healthy)];
    }
    assert marks + ([Wrote(Healthy)] + more) == healed + more;
  }

  lemma {:induction false} RestartLawful(config: Config, s: State, marks: seq<Mark>, c: Check, from: nat, n: nat)
    requires Lawful(config, s, marks) && s.status == Unhealthy && from <= n
    ensures var (t, more, _) := AfterRestart(s, c, from, n); Lawful(config, t, marks + more)
    decreases n - from
  {
    if from == n {
      MarkLawful(config, s, marks, AfterRestart(s, c, from, n).0, Wrote(Unhealthy));
    } else if c.attempt(from).healthy {
      HealLawful(config, s, marks, true, c.delivered);
    } else if !c.attempt(from).restartRequired {
      var t := s.(lastError := c.attempt(from).error);
      MarkLawful(config, s, marks, t, Wrote(Unhealthy));
      AlertLawful(config, t, marks + [Wrote(Unhealthy)], c.attempt(from).error, c.delivered);
      var more := AfterAlert(t, c.attempt(from).error, c.delivered).1;
      assert marks + [Wrote(Unhealthy)] + more == marks + ([Wrote(Unhealthy)] + more);
    } else {
      RestartLawful(config, s, marks, c, from + 1, n);
    }
  }

  lemma RestartingLawful(config: Config, t: State, failed: seq<Mark>, c: Check)
    requires Lawful(config, t, failed) && t.status == Unhealthy && !InCooldown(config, t, c.now)
    requires t.lastRestart.Some? ==> t.lastRestart.value <= c.now
    ensures var u := t.(lastRestart := Some(c.now), restarts := t.restarts + 1);
      var (v, more, _) := AfterRestart(u, c, 0, Attempts(config));
      && Lawful(config, u, failed + [Restarted(c.now)])
      && Lawful(config, v, failed + ([Restarted(c.now)] + more))
  {
    var u := t.(lastRestart := Some(c.now), restarts := t.restarts + 1);
    MarkLawful(config, t, failed, u, Restarted(c.now));
    RestartLawful(config, u, failed + [Restarted(c.now)], c, 0, Attempts(config));
    var more := AfterRestart(u, c, 0, Attempts(config)).1;
    assert failed + ([Restarted(c.now)] + more) == failed + [Restarted(c.now)] + more;
  }

  lemma Regroup(marks: seq<Mark>, a: Mark, more: seq<Mark>)
    ensures marks + ([a] + more) == marks + [a] + more
  {
  }

  lemma FailureLawful(config: Config, s: State, marks: seq<Mark>, c: Check)
    requires Lawful(config, s, marks) && (s.lastRestart.Some? ==> s.lastRestart.value <= c.now)
    requires !c.first.healthy && c.first.restartRequired
    ensures var (t, more, _) := RunOnce(config, s, c); Lawful(config, t, marks + more)
  {
    var t := FailWith(s, c.first.error);
    MarkLawful(config, s, marks, t, Wrote(Unhealthy));
    if !InCooldown(config, t, c.now) {
      RestartingLawful(config, t, marks + [Wrote(Unhealthy)], c);
      var u := t.(lastRestart := Some(c.now), restarts := t.restarts + 1);
      var more := if c.restartOk then AfterRestart(u, c, 0, Attempts(config)).1 else [];
      Regroup(marks, Wrote(Unhealthy), if c.restartOk then [Restarted(c.now)] + more else [Restarted(c.now)]);
    }
  }

  lemma RunOnceLawful(config: Config, s: State, marks: seq<Mark>, c: Check)
    requires Lawful(config, s, marks) && (s.lastRestart.Some? ==> s.lastRestart.value <= c.now)
    ensures var (t, more, _) := RunOnce(config, s, c); Lawful(config, t, marks + more)
  {
    if c.first.healthy {
      HealLawful(config, s, marks, s.status == Unhealthy, c.delivered);
    } else if c.first.restartRequired {
      FailureLawful(config, s, marks, c);
    } else {
      var t := FailWith(s, c.first.error);
      MarkLawful(config, s, marks, t, Wrote(Unhealthy));
      AlertLawful(config, t, marks + [Wrote(Unhealthy)], c.first.error, c.delivered);
      var more := AfterAlert(t, c.first.error, c.delivered).1;
      assert marks + [Wrote(Unhealthy)] + more == marks + ([Wrote(Unhealthy)] + more);
    }
  }

  lemma {:induction false} RestartsInPast(config: Config, checks: seq<Check>, now: real)
    requires ClockForward(checks) && forall i :: 0 <= i < |checks| ==> checks[i].now <= now
    ensures var s := Run(config, checks).0; s.lastRestart.Some? ==> s.lastRestart.value <= now
  {
    if checks != [] {
      var n := |checks| - 1;
      RestartsInPast(config, checks[..n], now);
      var s := Run(config, checks[..n]).0;
      RestartOnlyNow(config, s, checks[n]);
    }
  }

  lemma RestartOnlyNow(config: Config, s: State, c: Check)
    ensures RunOnce(config, s, c).0.lastRestart in {s.lastRestart, Some(c.now)}
  {
    if !c.first.healthy && c.first.restartRequired && !InCooldown(config, FailWith(s, c.first.error), c.now) {
      var u := FailWith(s, c.first.error).(lastRestart := Some(c.now), restarts := s.restarts + 1);
      AfterRestartKeepsTime(u, c, 0, Attempts(config));
    }
  }

  lemma {:induction false} AfterRestartKeepsTime(s: State, c: Check, from: nat, n: nat)
    requires from <= n
    ensures AfterRestart(s, c, from, n).0.lastRestart == s.lastRestart
    decreases n - from
  {
    if from < n { AfterRestartKeepsTime(s, c, from + 1, n); }
  }

  /** Over any checks with a clock that does not go back: recorded restarts are a cooldown apart,
      `recovery_count` counts exactly the persisted changes from unhealthy to healthy, and no alert
      repeats the error of the one before it in the same unhealthy episode. */
  lemma {:induction false} RunLawful(config: Config, checks: seq<Check>)
    requires ClockForward(checks)
    ensures Lawful(config, Run(config, checks).0, Run(config, checks).1)
  {
    if checks != [] {
      var n := |checks| - 1;
      RunLawful(config, checks[..n]);
      RestartsInPast(config, checks[..n], checks[n].now);
      var (s, marks) := Run(config, checks[..n]);
      RunOnceLawful(config, s, marks, checks[n]);
    }
  }

  lemma {:induction false} GapsAddUp(times: seq<real>, gap: real, i: nat, j: nat)
    requires Spaced(times, gap) && i <= j < |times|
    ensures times[j] - times[i] >= (j - i) as real * gap
  {
    if i < j {
      GapsAddUp(times, gap, i, j - 1);
      assert times[j - 1 + 1] - times[j - 1] >= gap;
      assert (j - i) as real * gap == (j - 1 - i) as real * gap + gap;
    }
  }

  /** In any run, restarts i to j that fall into a span of length `span` number at most
      span / cooldown + 1. */
  lemma RestartsPerSpan(config: Config, checks: seq<Check>, span: real, i: nat, j: nat)
    requires ClockForward(checks) && config.cooldown > 0
    requires var times := RestartTimes(Run(config, checks).1);
      i <= j < |times| && times[j] - times[i] <= span
    ensures (j - i + 1) as real <= span / config.cooldown as real + 1.0
  {
    RunLawful(config, checks);
    var gap := config.cooldown as real;
    GapsAddUp(RestartTimes(Run(config, checks).1), gap, i, j);
    QuotientBound((j - i) as real, gap, span);
    assert (j - i + 1) as real == (j - i) as real + 1.0;
  }

  lemma QuotientBound(a: real, g: real, b: real)
    requires g > 0.0 && a * g <= b
    ensures a <= b / g
  {
  }
}
