/** The value stored in registry.json, the event log inside it, and what the log means.

    The registry keeps the same facts in three places: the state and sequence of every record, the
    `active` reference, and the append-only event list. `Replay` reads the event list alone; `Sound`
    says how the other two places must agree with it. */
module PackageLog {
  import opened Common

  datatype Key = Key(packageId: string, revision: string)

  datatype Status = Candidate | Active | Inactive | Revoked

  datatype Record = Record(key: Key, digest: string, status: Status, sequence: nat)

  datatype Ref = Ref(key: Key, digest: string)

  /** The three actions _append_event is called with. A withdrawal names only the revision of its
      replacement: the package is the one being withdrawn. */
  datatype Event =
    | Staged(key: Key, digest: string)
    | Activated(key: Key, digest: string)
    | Withdrawn(key: Key, digest: string, replacement: Option<string>)

  datatype Registry = Registry(active: Option<Ref>, counter: nat, packages: seq<Record>, events: seq<Event>)

  const EMPTY := Registry(None, 0, [], [])

  // ----- Lookup -----

  /** Index of the first record with this key, at or after `from`. */
  function Find(packages: seq<Record>, key: Key, from: nat := 0): (r: Option<nat>)
    requires from <= |packages|
    ensures r.None? ==> forall i :: from <= i < |packages| ==> packages[i].key != key
    ensures r.Some? ==> from <= r.value < |packages| && packages[r.value].key == key
    decreases |packages| - from
  {
    if from == |packages| then None
    else if packages[from].key == key then Some(from)
    else Find(packages, key, from + 1)
  }

  ghost predicate UniqueKeys(packages: seq<Record>) {
    forall i, j :: 0 <= i < j < |packages| ==> packages[i].key != packages[j].key
  }

  lemma {:induction false} FindUnique(packages: seq<Record>, i: nat, from: nat := 0)
    requires UniqueKeys(packages) && from <= i < |packages|
    ensures Find(packages, packages[i].key, from) == Some(i)
    decreases |packages| - from
  {
    if from < i { FindUnique(packages, i, from + 1); }
  }

  // ----- What one event does to the registry, whoever caused it -----

  /** Whatever is active stops being active. */
  function Retire(packages: seq<Record>): (r: seq<Record>)
    ensures |r| == |packages|
  {
    seq(|packages|, i requires 0 <= i < |packages| =>
      if packages[i].status == Active then packages[i].(status := Inactive) else packages[i])
  }

  /** The records with this key become active under sequence number n. */
  function Promote(packages: seq<Record>, key: Key, n: nat): (r: seq<Record>)
    ensures |r| == |packages|
  {
    seq(|packages|, i requires 0 <= i < |packages| =>
      if packages[i].key == key then packages[i].(status := Active, sequence := n) else packages[i])
  }

  /** The records with this key are revoked. */
  function Withdraw(packages: seq<Record>, key: Key): (r: seq<Record>)
    ensures |r| == |packages|
  {
    seq(|packages|, i requires 0 <= i < |packages| =>
      if packages[i].key == key then packages[i].(status := Revoked) else packages[i])
  }

  function DigestOf(packages: seq<Record>, key: Key): string {
    match Find(packages, key)
    case Some(i) => packages[i].digest
    case None => ""
  }

  function Apply(r: Registry, e: Event): Registry {
    match e
    case Staged(key, digest) =>
      r.(packages := r.packages + [Record(key, digest, Candidate, 0)], events := r.events + [e])
    case Activated(key, digest) =>
      Registry(Some(Ref(key, digest)), r.counter + 1,
               Promote(Retire(r.packages), key, r.counter + 1), r.events + [e])
    case Withdrawn(key, digest, None) =>
      r.(packages := Withdraw(r.packages, key), events := r.events + [e])
    case Withdrawn(key, digest, Some(revision)) =>
      var next := Key(key.packageId, revision);
      Registry(Some(Ref(next, DigestOf(r.packages, next))), r.counter + 1,
               Promote(Withdraw(r.packages, key), next, r.counter + 1), r.events + [e])
  }

  /** Rebuild a registry from its event log alone. */
  function Replay(events: seq<Event>): Registry {
    if events == [] then EMPTY else Apply(Replay(events[..|events| - 1]), events[|events| - 1])
  }

  // ----- The log read without folding -----

  /** The key an event made active, if it made one active. */
  function Promotes(e: Event): Option<Key> {
    match e
    case Staged(_, _) => None
    case Activated(key, _) => Some(key)
    case Withdrawn(key, _, Some(revision)) => Some(Key(key.packageId, revision))
    case Withdrawn(_, _, None) => None
  }

  /** Every activation the log records, oldest first: element i was given sequence i + 1. */
  function History(events: seq<Event>): seq<Key> {
    if events == [] then []
    else
      var before := History(events[..|events| - 1]);
      match Promotes(events[|events| - 1])
      case Some(key) => before + [key]
      case None => before
  }

  predicate Withdraws(e: Event, key: Key) {
    e.Withdrawn? && e.key == key
  }

  ghost predicate EverWithdrawn(events: seq<Event>, key: Key) {
    exists i :: 0 <= i < |events| && Withdraws(events[i], key)
  }

  /** One more than the position of the key's latest activation; 0 if it was never activated. */
  function LatestActivation(history: seq<Key>, key: Key): (n: nat)
    ensures n <= |history|
    ensures n > 0 ==> history[n - 1] == key
    ensures forall i :: n <= i < |history| ==> history[i] != key
  {
    if history == [] then 0
    else if history[|history| - 1] == key then |history|
    else LatestActivation(history[..|history| - 1], key)
  }

  /** The state a record must be in, given what the log says about its key. */
  function StatusFromLog(withdrawn: bool, sequence: nat, counter: nat): Status {
    if withdrawn then Revoked
    else if sequence == 0 then Candidate
    else if sequence == counter then Active
    else Inactive
  }

  /** Record states, sequences, counter and `active` all say what the log says. */
  ghost predicate Sound(r: Registry) {
    && r == Replay(r.events)
    && UniqueKeys(r.packages)
    && r.counter == |History(r.events)|
    && RecordsSound(r)
    && NothingElseInLog(r)
    && (r.active.None? <==> r.counter == 0)
    && (r.active.Some? ==> ActiveSound(r, r.active.value))
  }

  ghost predicate RecordsSound(r: Registry) {
    forall i :: 0 <= i < |r.packages| ==> RecordSound(r, r.packages[i])
  }

  /** The log activated and withdrew only keys that have a record. */
  ghost predicate NothingElseInLog(r: Registry) {
    forall key :: Untouched(r, key) || Find(r.packages, key).Some?
  }

  ghost predicate RecordSound(r: Registry, p: Record) {
    && p.sequence == LatestActivation(History(r.events), p.key)
    && p.status == StatusFromLog(EverWithdrawn(r.events, p.key), p.sequence, r.counter)
  }

  /** The log never activated or withdrew this key. */
  ghost predicate Untouched(r: Registry, key: Key) {
    LatestActivation(History(r.events), key) == 0 && !EverWithdrawn(r.events, key)
  }

  ghost predicate ActiveSound(r: Registry, ref: Ref) {
    match Find(r.packages, ref.key)
    case None => false
    case Some(i) => r.packages[i].status == Active && r.packages[i].digest == ref.digest
  }

  // ----- Which events the registry ever appends -----

  /** An event the log may be extended with. The lifecycle decides nothing else to be written. */
  predicate Admissible(r: Registry, e: Event) {
    match e
    case Staged(key, _) => Find(r.packages, key).None?
    case Activated(key, digest) =>
      HasRecord(r, key, digest) && r.packages[Find(r.packages, key).value].status in {Candidate, Inactive}
    case Withdrawn(key, digest, None) =>
      HasRecord(r, key, digest) && r.packages[Find(r.packages, key).value].status in {Candidate, Inactive}
    case Withdrawn(key, digest, Some(revision)) =>
      var next := Find(r.packages, Key(key.packageId, revision));
      && HasRecord(r, key, digest) && r.packages[Find(r.packages, key).value].status == Active
      && next.Some? && r.packages[next.value].status == Inactive
  }

  predicate HasRecord(r: Registry, key: Key, digest: string) {
    var i := Find(r.packages, key);
    i.Some? && r.packages[i.value].digest == digest
  }

  lemma EmptySound()
    ensures Sound(EMPTY)
  {
  }

  lemma HistoryOfAppend(events: seq<Event>, e: Event)
    ensures History(events + [e]) ==
            History(events) + (if Promotes(e).Some? then [Promotes(e).value] else [])
    ensures Replay(events + [e]) == Apply(Replay(events), e)
    ensures forall key :: EverWithdrawn(events + [e], key) <==> EverWithdrawn(events, key) || Withdraws(e, key)
  {
    var all := events + [e];
    assert all[..|all| - 1] == events;
    forall key ensures EverWithdrawn(all, key) <==> EverWithdrawn(events, key) || Withdraws(e, key) {
      if EverWithdrawn(events, key) {
        var i :| 0 <= i < |events| && Withdraws(events[i], key);
        assert Withdraws(all[i], key);
      }
      if Withdraws(e, key) {
        assert Withdraws(all[|events|], key);
      }
    }
  }

  lemma LatestOfAppend(history: seq<Key>, next: Key, key: Key)
    ensures LatestActivation(history + [next], key) ==
            if key == next then |history| + 1 else LatestActivation(history, key)
  {
    assert (history + [next])[..|history|] == history;
  }

  /** Changing states and sequences leaves every lookup where it was. */
  lemma FindByKeysAlone(ps: seq<Record>, qs: seq<Record>, key: Key, from: nat := 0)
    requires |ps| == |qs| && from <= |ps|
    requires forall i :: 0 <= i < |ps| ==> ps[i].key == qs[i].key
    ensures Find(ps, key, from) == Find(qs, key, from)
    decreases |ps| - from
  {
    if from < |ps| && ps[from].key != key {
      FindByKeysAlone(ps, qs, key, from + 1);
    }
  }

  lemma FindInExtended(ps: seq<Record>, p: Record, key: Key, from: nat := 0)
    requires from <= |ps|
    ensures Find(ps + [p], key, from) ==
            if Find(ps, key, from).Some? then Find(ps, key, from)
            else if p.key == key then Some(|ps|) else None
    decreases |ps| - from
  {
    if from < |ps| && ps[from].key != key {
      FindInExtended(ps, p, key, from + 1);
    }
  }

  /** At most one record is active in a sound registry, and it is the one `active` names. */
  lemma ActiveIsUnique(r: Registry, i: nat)
    requires Sound(r) && i < |r.packages| && r.packages[i].status == Active
    ensures r.counter > 0 && r.packages[i].sequence == r.counter
    ensures r.active == Some(Ref(r.packages[i].key, r.packages[i].digest))
  {
    assert RecordSound(r, r.packages[i]);
    var j := Find(r.packages, r.active.value.key).value;
    assert RecordSound(r, r.packages[j]);
    FindUnique(r.packages, i);
  }

  lemma StagedRecords(r: Registry, e: Event)
    requires RecordsSound(r) && Untouched(r, e.key) && e.Staged?
    ensures RecordsSound(Apply(r, e))
  {
    HistoryOfAppend(r.events, e);
    forall i | 0 <= i < |r.packages| + 1 ensures RecordSound(Apply(r, e), Apply(r, e).packages[i]) {
      assert i < |r.packages| ==> RecordSound(r, r.packages[i]);
    }
  }

  lemma StagedCoverage(r: Registry, e: Event)
    requires NothingElseInLog(r) && e.Staged?
    ensures NothingElseInLog(Apply(r, e))
  {
    HistoryOfAppend(r.events, e);
    forall key ensures Untouched(Apply(r, e), key) || Find(Apply(r, e).packages, key).Some? {
      FindInExtended(r.packages, Record(e.key, e.digest, Candidate, 0), key);
      assert Untouched(r, key) || Find(r.packages, key).Some?;
    }
  }

  lemma StagedReference(r: Registry, e: Event)
    requires UniqueKeys(r.packages) && Admissible(r, e) && e.Staged?
    requires r.active.Some? ==> ActiveSound(r, r.active.value)
    ensures UniqueKeys(Apply(r, e).packages)
    ensures r.active.Some? ==> ActiveSound(Apply(r, e), r.active.value)
  {
    if r.active.Some? {
      FindInExtended(r.packages, Record(e.key, e.digest, Candidate, 0), r.active.value.key);
    }
  }

  lemma StageSound(r: Registry, e: Event)
    requires Sound(r) && Admissible(r, e) && e.Staged?
    ensures Sound(Apply(r, e))
  {
    assert Untouched(r, e.key);
    StagedRecords(r, e);
    StagedCoverage(r, e);
    StagedReference(r, e);
    HistoryOfAppend(r.events, e);
  }

  /** One record across an event that makes `next` active: only the record that was active and the
      one that becomes active change state, and that is also what the longer log says. */
  lemma PromotedRecord(r: Registry, e: Event, i: nat)
    requires i < |r.packages| && RecordSound(r, r.packages[i]) && Promotes(e).Some?
    requires r.counter == |History(r.events)|
    requires r.packages[i].key == Promotes(e).value ==> r.packages[i].status in {Candidate, Inactive}
    requires e.Withdrawn? ==> (r.packages[i].status == Active <==> r.packages[i].key == e.key)
    ensures RecordSound(Apply(r, e), Apply(r, e).packages[i])
  {
    HistoryOfAppend(r.events, e);
    LatestOfAppend(History(r.events), Promotes(e).value, r.packages[i].key);
    assert Withdraws(e, r.packages[i].key) <==> e.Withdrawn? && r.packages[i].key == e.key;
  }

  /** Events that only change states keep the log covered by the records: they concern keys with one. */
  lemma KeyStaysCovered(r: Registry, e: Event, key: Key)
    requires Untouched(r, key) || Find(r.packages, key).Some?
    requires !e.Staged? && Find(r.packages, e.key).Some?
    requires Promotes(e).Some? ==> Find(r.packages, Promotes(e).value).Some?
    ensures Untouched(Apply(r, e), key) || Find(Apply(r, e).packages, key).Some?
  {
    if Find(r.packages, key).Some? {
      FindByKeysAlone(r.packages, Apply(r, e).packages, key);
    } else {
      StaysUntouched(r, e, key);
    }
  }

  lemma StaysUntouched(r: Registry, e: Event, key: Key)
    requires Untouched(r, key) && e.key != key && Promotes(e) != Some(key)
    ensures Untouched(Apply(r, e), key)
  {
    HistoryOfAppend(r.events, e);
    if Promotes(e).Some? { LatestOfAppend(History(r.events), Promotes(e).value, key); }
  }

  lemma LogStaysCovered(r: Registry, e: Event)
    requires NothingElseInLog(r) && Admissible(r, e) && !e.Staged?
    ensures NothingElseInLog(Apply(r, e))
  {
    forall key ensures Untouched(Apply(r, e), key) || Find(Apply(r, e).packages, key).Some? {
      KeyStaysCovered(r, e, key);
    }
  }

  lemma PromotedRecords(r: Registry, e: Event)
    requires Sound(r) && Admissible(r, e) && Promotes(e).Some?
    ensures RecordsSound(Apply(r, e))
  {
    forall i | 0 <= i < |r.packages| ensures RecordSound(Apply(r, e), Apply(r, e).packages[i]) {
      FindUnique(r.packages, i);
      if r.packages[i].status == Active { ActiveIsUnique(r, i); }
      if e.Withdrawn? { ActiveIsUnique(r, Find(r.packages, e.key).value); }
      PromotedRecord(r, e, i);
    }
  }

  lemma PromotedReference(r: Registry, e: Event)
    requires UniqueKeys(r.packages) && Admissible(r, e) && Promotes(e).Some?
    ensures UniqueKeys(Apply(r, e).packages)
    ensures Apply(r, e).active.Some? && ActiveSound(Apply(r, e), Apply(r, e).active.value)
  {
    FindByKeysAlone(r.packages, Apply(r, e).packages, Promotes(e).value);
  }

  lemma PromotionSound(r: Registry, e: Event)
    requires Sound(r) && Admissible(r, e) && Promotes(e).Some?
    ensures Sound(Apply(r, e))
  {
    PromotedRecords(r, e);
    PromotedReference(r, e);
    LogStaysCovered(r, e);
    HistoryOfAppend(r.events, e);
  }

  lemma WithdrawnRecord(r: Registry, e: Event, i: nat)
    requires Sound(r) && Admissible(r, e) && e.Withdrawn? && e.replacement.None? && i < |r.packages|
    ensures RecordSound(Apply(r, e), Apply(r, e).packages[i])
  {
    assert RecordSound(r, r.packages[i]);
    FindUnique(r.packages, i);
    HistoryOfAppend(r.events, e);
    assert EverWithdrawn(r.events + [e], r.packages[i].key) <==>
      EverWithdrawn(r.events, r.packages[i].key) || r.packages[i].key == e.key;
  }

  lemma WithdrawnReference(r: Registry, e: Event)
    requires UniqueKeys(r.packages) && Admissible(r, e) && e.Withdrawn? && e.replacement.None?
    requires r.active.Some? ==> ActiveSound(r, r.active.value)
    ensures UniqueKeys(Apply(r, e).packages)
    ensures r.active.Some? ==> ActiveSound(Apply(r, e), r.active.value)
  {
    if r.active.Some? {
      FindByKeysAlone(r.packages, Apply(r, e).packages, r.active.value.key);
    }
  }

  lemma WithdrawalSound(r: Registry, e: Event)
    requires Sound(r) && Admissible(r, e) && e.Withdrawn? && e.replacement.None?
    ensures Sound(Apply(r, e))
  {
    forall i | 0 <= i < |r.packages| ensures RecordSound(Apply(r, e), Apply(r, e).packages[i]) {
      WithdrawnRecord(r, e, i);
    }
    WithdrawnReference(r, e);
    LogStaysCovered(r, e);
    HistoryOfAppend(r.events, e);
  }

  /** Every admissible event keeps the three places in agreement. */
  lemma SoundAppend(r: Registry, e: Event)
    requires Sound(r) && Admissible(r, e)
    ensures Sound(Apply(r, e))
  {
    if e.Staged? { StageSound(r, e); }
    else if Promotes(e).Some? { PromotionSound(r, e); }
    else { WithdrawalSound(r, e); }
  }

  // ----- What agreement buys: the facts a reader of registry.json relies on -----

  /** Unique keys; one active record exactly when `active` is set, holding the counter as its sequence
      and the reference's digest; and no two records share a positive sequence. */
  lemma SoundRegistryFacts(r: Registry)
    requires Sound(r)
    ensures forall i, j :: 0 <= i < j < |r.packages| ==> r.packages[i].key != r.packages[j].key
    ensures r.active.Some? <==> exists i :: 0 <= i < |r.packages| && r.packages[i].status == Active
    ensures forall i :: 0 <= i < |r.packages| && r.packages[i].status == Active ==>
              r.active == Some(Ref(r.packages[i].key, r.packages[i].digest)) && r.packages[i].sequence == r.counter
    ensures forall i, j :: 0 <= i < j < |r.packages| && r.packages[i].sequence > 0 ==>
              r.packages[i].sequence != r.packages[j].sequence
    ensures r.counter > 0 <==> r.active.Some?
  {
    forall i | 0 <= i < |r.packages| && r.packages[i].status == Active
      ensures r.active == Some(Ref(r.packages[i].key, r.packages[i].digest)) && r.packages[i].sequence == r.counter
    {
      ActiveIsUnique(r, i);
    }
    forall i, j | 0 <= i < j < |r.packages| && r.packages[i].sequence > 0
      ensures r.packages[i].sequence != r.packages[j].sequence
    {
      assert RecordSound(r, r.packages[i]) && RecordSound(r, r.packages[j]);
    }
    if r.active.Some? {
      var i := Find(r.packages, r.active.value.key).value;
      assert r.packages[i].status == Active;
    }
  }

  // ----- Falling back -----

  /** An inactive record of the target's package, other than the target. */
  predicate Eligible(packages: seq<Record>, target: nat, i: nat)
    requires target < |packages| && i < |packages|
  {
    i != target && packages[i].key.packageId == packages[target].key.packageId && packages[i].status == Inactive
  }

  /** The head of the eligible records after a stable descending sort on sequence. */
  function Fallback(packages: seq<Record>, target: nat, from: nat := 0): (r: Option<nat>)
    requires target < |packages| && from <= |packages|
    ensures r.None? ==> forall i :: from <= i < |packages| ==> !Eligible(packages, target, i)
    ensures r.Some? ==> from <= r.value < |packages| && Eligible(packages, target, r.value)
    ensures r.Some? ==> forall i :: from <= i < |packages| && Eligible(packages, target, i) ==>
              packages[i].sequence < packages[r.value].sequence
              || (packages[i].sequence == packages[r.value].sequence && r.value <= i)
    decreases |packages| - from
  {
    if from == |packages| then None
    else
      var rest := Fallback(packages, target, from + 1);
      if !Eligible(packages, target, from) then rest
      else if rest.Some? && packages[rest.value].sequence > packages[from].sequence then rest
      else Some(from)
  }

  /** Read off the log: another revision of the target's package that was never withdrawn. */
  ghost predicate Healthy(events: seq<Event>, target: Key, key: Key) {
    key.packageId == target.packageId && key != target && !EverWithdrawn(events, key)
  }

  /** The fallback for an active record is the healthy key activated last, according to the
      activation history; there is none exactly when the history holds no healthy key. */
  lemma FallbackIsLatestHealthy(r: Registry, target: nat)
    requires Sound(r) && target < |r.packages| && r.packages[target].status == Active
    ensures var history, key, pick := History(r.events), r.packages[target].key, Fallback(r.packages, target);
      && (pick.None? <==> forall m :: 0 <= m < |history| ==> !Healthy(r.events, key, history[m]))
      && (pick.Some? ==>
            var n := r.packages[pick.value].sequence;
            && 0 < n <= |history| && history[n - 1] == r.packages[pick.value].key
            && Healthy(r.events, key, history[n - 1])
            && forall m :: n <= m < |history| ==> !Healthy(r.events, key, history[m]))
  {
    var history, key, pick := History(r.events), r.packages[target].key, Fallback(r.packages, target);
    forall m | 0 <= m < |history| && Healthy(r.events, key, history[m])
      ensures pick.Some? && m < r.packages[pick.value].sequence
    {
      HealthyIsEligible(r, target, m);
    }
    if pick.Some? { PickIsHealthy(r, target, pick.value); }
  }

  lemma PickIsHealthy(r: Registry, target: nat, pick: nat)
    requires Sound(r) && target < |r.packages| && pick < |r.packages| && Eligible(r.packages, target, pick)
    ensures var n := r.packages[pick].sequence;
      && 0 < n <= |History(r.events)| && History(r.events)[n - 1] == r.packages[pick].key
      && Healthy(r.events, r.packages[target].key, History(r.events)[n - 1])
  {
    assert RecordSound(r, r.packages[pick]);
    FindUnique(r.packages, target);
    FindUnique(r.packages, pick);
  }

  lemma HealthyIsEligible(r: Registry, target: nat, m: nat)
    requires Sound(r) && target < |r.packages| && r.packages[target].status == Active
    requires m < |History(r.events)| && Healthy(r.events, r.packages[target].key, History(r.events)[m])
    ensures Fallback(r.packages, target).Some?
    ensures m < r.packages[Fallback(r.packages, target).value].sequence
  {
    var key := History(r.events)[m];
    assert LatestActivation(History(r.events), key) > m;
    assert Untouched(r, key) || Find(r.packages, key).Some?;
    var i := Find(r.packages, key).value;
    assert RecordSound(r, r.packages[i]);
    if r.packages[i].status == Active { ActiveIsUnique(r, i); ActiveIsUnique(r, target); }
    assert Eligible(r.packages, target, i);
  }
}
