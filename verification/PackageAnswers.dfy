/** What stage, activate and revoke answer, read off the event log alone. */
module PackageAnswers {
  import opened Common
  import opened PackageLog
  import opened PackageStore

  // ----- Records and the active reference, read off the log -----

  ghost predicate InRecords(packages: seq<Record>, key: Key, digest: string) {
    exists i :: 0 <= i < |packages| && packages[i].key == key && packages[i].digest == digest
  }

  lemma ApplyKeepsRecords(r: Registry, e: Event, key: Key, digest: string)
    ensures InRecords(Apply(r, e).packages, key, digest) <==>
            InRecords(r.packages, key, digest) || e == Staged(key, digest)
  {
    var after := Apply(r, e).packages;
    forall i | 0 <= i < |r.packages|
      ensures after[i].key == r.packages[i].key && after[i].digest == r.packages[i].digest
    {
    }
    if e.Staged? { assert after[|r.packages|] == Record(e.key, e.digest, Candidate, 0); }
  }

  /** The records are the staged revisions, whatever else was logged. */
  lemma {:induction false} RecordsAreStagings(events: seq<Event>, key: Key, digest: string)
    ensures InRecords(Replay(events).packages, key, digest) <==> Staged(key, digest) in events
  {
    if events != [] {
      var n := |events| - 1;
      RecordsAreStagings(events[..n], key, digest);
      ApplyKeepsRecords(Replay(events[..n]), events[n], key, digest);
      assert events == events[..n] + [events[n]];
    }
  }

  /** The key was staged with this digest and no other. */
  lemma FoundIsStaged(r: Registry, key: Key, digest: string)
    requires Sound(r)
    ensures Staged(key, digest) in r.events <==> HasRecord(r, key, digest)
  {
    RecordsAreStagings(r.events, key, digest);
    if i :| 0 <= i < |r.packages| && r.packages[i].key == key && r.packages[i].digest == digest {
      FindUnique(r.packages, i);
    }
  }

  /** The key whose activation the log records last. */
  function LastActivated(events: seq<Event>): Option<Key> {
    var history := History(events);
    if history == [] then None else Some(history[|history| - 1])
  }

  lemma ActiveIsLastActivated(r: Registry)
    requires Sound(r)
    ensures LastActivated(r.events) == if r.active.Some? then Some(r.active.value.key) else None
    ensures r.active.Some? ==> !EverWithdrawn(r.events, r.active.value.key)
  {
    if r.active.Some? {
      var i := Find(r.packages, r.active.value.key).value;
      assert ActiveSound(r, r.active.value);
      assert RecordSound(r, r.packages[i]);
    }
  }

  // ----- What a record must be -----

  /** The status a reader of the log expects of a staged key. */
  lemma StatusByLog(r: Registry, i: nat)
    requires Sound(r) && i < |r.packages|
    ensures r.packages[i].status == Revoked <==> EverWithdrawn(r.events, r.packages[i].key)
    ensures r.packages[i].status == Active <==> LastActivated(r.events) == Some(r.packages[i].key)
  {
    assert RecordSound(r, r.packages[i]);
    ActiveIsLastActivated(r);
    FindUnique(r.packages, i);
    if r.packages[i].status == Active { ActiveIsUnique(r, i); }
    if r.active.Some? { assert ActiveSound(r, r.active.value); }
  }

  // ----- Staging -----

  /** A well-formed staging: already there exactly when the log has it with this digest, in conflict
      exactly when it has another digest, refused over a leftover file exactly when it has neither and the
      file exists, and otherwise written. */
  lemma StageAnswers(codec: Codec, disk: Disk, data: Bytes, actor: string)
    requires DiskSound(codec, disk) && SafeActor(actor) && |data| <= MAX_PACKAGE_BYTES
    requires codec.load(data).Some? && SafeKey(codec.load(data).value.key)
    ensures var p, d, events := codec.load(data).value, StageDecision(codec, disk, data, actor), Current(disk).events;
      && (d == Keep <==> Staged(p.key, p.digest) in events)
      && (d == Refuse(DigestConflict) <==> StagedOtherwise(events, p.key, p.digest))
      && (d == Commit(Staged(p.key, p.digest)) <==> p.key !in disk.files)
      && (d == Refuse(FileExists) <==>
            p.key in disk.files && Staged(p.key, p.digest) !in events && !StagedOtherwise(events, p.key, p.digest))
  {
    var p, r := codec.load(data).value, Current(disk);
    EmptySound();
    FoundIsStaged(r, p.key, p.digest);
    var found := Find(r.packages, p.key);
    if found.Some? {
      var record := r.packages[found.value];
      FoundIsStaged(r, p.key, record.digest);
      assert Load(codec, disk.files, Ref(record.key, record.digest)).Some?;
    }
    forall digest | Staged(p.key, digest) in r.events ensures HasRecord(r, p.key, digest) {
      FoundIsStaged(r, p.key, digest);
    }
  }

  ghost predicate StagedOtherwise(events: seq<Event>, key: Key, digest: string) {
    exists other :: Staged(key, other) in events && other != digest
  }

  ghost predicate EverStaged(events: seq<Event>, key: Key) {
    exists digest :: Staged(key, digest) in events
  }

  lemma FoundIffStaged(r: Registry, key: Key)
    requires Sound(r)
    ensures Find(r.packages, key).Some? <==> EverStaged(r.events, key)
    ensures Find(r.packages, key).Some? ==> Staged(key, r.packages[Find(r.packages, key).value].digest) in r.events
  {
    if Find(r.packages, key).Some? {
      FoundIsStaged(r, key, r.packages[Find(r.packages, key).value].digest);
    }
    if digest :| Staged(key, digest) in r.events { FoundIsStaged(r, key, digest); }
  }

  // ----- Activating and revoking -----

  /** The revision of the key activated last, as a caller names it. */
  function CurrentRevision(events: seq<Event>): Option<string> {
    match LastActivated(events) case None => None case Some(key) => Some(key.revision)
  }

  lemma ActiveRevisionByLog(r: Registry)
    requires Sound(r)
    ensures ActiveRevision(r) == CurrentRevision(r.events)
  {
    ActiveIsLastActivated(r);
  }

  /** Activating, with valid input: refused without a registry, for a wrong expectation, for a key never
      staged and for one ever withdrawn; already there exactly when the key is the one activated last; and
      otherwise its activation is written. */
  lemma ActivateAnswers(codec: Codec, disk: Disk, key: Key, expected: Option<string>, actor: string)
    requires DiskSound(codec, disk) && SafeKey(key) && SafeActor(actor)
    ensures var d := ActivateDecision(codec, disk, key, expected, actor);
      if disk.registry.None? then d == Refuse(NoRegistry)
      else
        var events := disk.registry.value.events;
        if CurrentRevision(events) != expected then d == Refuse(StaleExpectation)
        else if !EverStaged(events, key) then d == Refuse(UnknownRevision)
        else if EverWithdrawn(events, key) then d == Refuse(RevokedRevision)
        else if LastActivated(events) == Some(key) then d == Keep
        else d.Commit? && d.event.Activated? && d.event.key == key && Staged(key, d.event.digest) in events
  {
    if disk.registry.Some? {
      var r := disk.registry.value;
      ActiveRevisionByLog(r);
      ActiveIsLastActivated(r);
      FoundIffStaged(r, key);
      FilesNeverFail(codec, disk, key, expected, actor, "");
      if Find(r.packages, key).Some? {
        var i := Find(r.packages, key).value;
        StatusByLog(r, i);
        if r.active.Some? { FindOneKey(r, r.active.value.key, key); }
      }
    }
  }

  lemma FindOneKey(r: Registry, a: Key, b: Key)
    requires Find(r.packages, a).Some? && Find(r.packages, b).Some?
    ensures Find(r.packages, a) == Find(r.packages, b) <==> a == b
  {
  }

  /** Revoking, with valid input: refused without a registry or anything active, for a wrong expectation
      and for a key never staged; already there exactly when the key was ever withdrawn; any other key that
      is not the active one is withdrawn without a replacement. */
  lemma RevokeAnswers(
    codec: Codec, disk: Disk, key: Key, expected: Option<string>, actor: string, reason: string)
    requires DiskSound(codec, disk) && SafeKey(key) && SafeActor(actor) && GoodReason(reason)
    ensures var d := RevokeDecision(codec, disk, key, expected, actor, reason);
      if disk.registry.None? then d == Refuse(NoRegistry)
      else
        var events := disk.registry.value.events;
        if LastActivated(events).None? then d == Refuse(NothingActive)
        else if CurrentRevision(events) != expected then d == Refuse(StaleExpectation)
        else if !EverStaged(events, key) then d == Refuse(UnknownRevision)
        else if EverWithdrawn(events, key) then d == Keep
        else if LastActivated(events) != Some(key) then
          d.Commit? && d.event.Withdrawn? && d.event.key == key && d.event.replacement.None?
          && Staged(key, d.event.digest) in events
        else
          d == Refuse(NoFallback) || (d.Commit? && d.event.Withdrawn? && d.event.key == key && d.event.replacement.Some?)
  {
    if disk.registry.Some? {
      var r := disk.registry.value;
      ActiveRevisionByLog(r);
      ActiveIsLastActivated(r);
      FoundIffStaged(r, key);
      FilesNeverFail(codec, disk, key, expected, actor, reason);
      if Find(r.packages, key).Some? { StatusByLog(r, Find(r.packages, key).value); }
    }
  }

  // ----- What the stored registry says after an answer -----

  /** The status stored for the key, if it has a record. */
  function StatusOf(r: Registry, key: Key): Option<Status> {
    match Find(r.packages, key) case Some(i) => Some(r.packages[i].status) case None => None
  }

  lemma StatusOfByLog(r: Registry, key: Key)
    requires Sound(r) && Find(r.packages, key).Some?
    ensures StatusOf(r, key) == Some(Revoked) <==> EverWithdrawn(r.events, key)
    ensures StatusOf(r, key) == Some(Active) <==> LastActivated(r.events) == Some(key)
  {
    StatusByLog(r, Find(r.packages, key).value);
  }

  lemma RecordsStay(r: Registry, e: Event, key: Key)
    requires Find(r.packages, key).Some?
    ensures Find(Apply(r, e).packages, key).Some?
  {
    if e.Staged? {
      FindInExtended(r.packages, Record(e.key, e.digest, Candidate, 0), key);
    } else {
      FindByKeysAlone(r.packages, Apply(r, e).packages, key);
    }
  }

  /** A written staging gives its key a candidate record. */
  lemma StagingTakesEffect(r: Registry, e: Event)
    requires Sound(r) && Admissible(r, e) && e.Staged?
    ensures StatusOf(Apply(r, e), e.key) == Some(Candidate) && HasRecord(Apply(r, e), e.key, e.digest)
    ensures Apply(r, e).active == r.active
  {
    FindInExtended(r.packages, Record(e.key, e.digest, Candidate, 0), e.key);
  }

  /** A written activation makes its key, and nothing else, the active one. */
  lemma ActivationTakesEffect(r: Registry, e: Event)
    requires Sound(r) && Admissible(r, e) && e.Activated?
    ensures Apply(r, e).active == Some(Ref(e.key, e.digest)) && StatusOf(Apply(r, e), e.key) == Some(Active)
  {
    SoundAppend(r, e);
    HistoryOfAppend(r.events, e);
    RecordsStay(r, e, e.key);
    StatusOfByLog(Apply(r, e), e.key);
  }

  /** A written withdrawal leaves its key revoked, and its replacement, if it names one, active; without
      one the active reference stays. */
  lemma WithdrawalTakesEffect(r: Registry, e: Event)
    requires Sound(r) && Admissible(r, e) && e.Withdrawn?
    ensures StatusOf(Apply(r, e), e.key) == Some(Revoked)
    ensures e.replacement.None? ==> Apply(r, e).active == r.active
    ensures e.replacement.Some? ==>
      var next := Key(e.key.packageId, e.replacement.value);
      StatusOf(Apply(r, e), next) == Some(Active)
      && Apply(r, e).active.Some? && Apply(r, e).active.value.key == next
  {
    SoundAppend(r, e);
    HistoryOfAppend(r.events, e);
    RecordsStay(r, e, e.key);
    assert Withdraws(e, e.key);
    StatusOfByLog(Apply(r, e), e.key);
    if e.replacement.Some? {
      var next := Key(e.key.packageId, e.replacement.value);
      RecordsStay(r, e, next);
      StatusOfByLog(Apply(r, e), next);
    }
  }
}
