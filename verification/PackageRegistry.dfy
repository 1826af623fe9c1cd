/** PublishedPackageRegistry and PublishedPackageProvider, updating their state in place. Every method
    is proved to take the decision PackageStore states and to leave exactly the registry that appending
    one event (or none) describes; a call that raises leaves registry.json as it was. */
module PackageRegistry {
  import opened Common
  import opened PackageLog
  import opened PackageStore
  import opened PackageAnswers

  datatype Outcome = StagedNow | AlreadyStaged | ActivatedNow | AlreadyActive | RevokedNow | AlreadyRevoked

  datatype Receipt =
    Receipt(outcome: Outcome, record: Record, activeRevision: Option<string>, replacement: Option<string>)

  /** The answer describes the record and the active revision as they are stored now. */
  ghost predicate Describes(receipt: Receipt, registry: Option<Registry>, key: Key) {
    registry.Some? &&
    var i := Find(registry.value.packages, key);
    i.Some? && receipt.record == registry.value.packages[i.value]
    && receipt.activeRevision == ActiveRevision(registry.value)
  }

  /** A call that raises leaves registry.json as it was, also when its event no longer fitted. */
  lemma RaisingChangesNothing(
    codec: Codec, before: Disk, d: Decision, r: Result<Receipt, Error>, after: Option<Registry>, key: Key)
    requires Settled(codec, before, d, r, after, key) && r.Err?
    ensures after == before.registry
  {
  }

  /** The replacement revision a decision names. */
  function Successor(d: Decision): Option<string> {
    if d.Commit? && d.event.Withdrawn? then d.event.replacement else None
  }

  /** A call that decided `d` on `before` and ended with answer `r` and disk `after`, apart from files. */
  ghost predicate Settled(
    codec: Codec, before: Disk, d: Decision, r: Result<Receipt, Error>, after: Option<Registry>, key: Key)
  {
    && after == (if d.Commit? then WriteRegistry(codec, before, d.event).registry else before.registry)
    && (match Verdict(codec, before, d)
        case Err(e) => r == Err(e)
        case Ok(_) => r.Ok? && Describes(r.value, after, key) && r.value.replacement == Successor(d))
  }

  /** The event that withdraws record t in favour of the record at `replacement`. */
  function Removal(r: Registry, t: nat, replacement: Option<nat>): Event
    requires t < |r.packages| && (replacement.Some? ==> replacement.value < |r.packages|)
  {
    Withdrawn(r.packages[t].key, r.packages[t].digest,
              if replacement.Some? then Some(r.packages[replacement.value].key.revision) else None)
  }

  class PublishedPackageRegistry {
    const codec: Codec
    var registry: Option<Registry>
    var files: map<Key, Bytes>

    ghost function Contents(): Disk
      reads this
    {
      Disk(registry, files)
    }

    ghost predicate Valid()
      reads this
    {
      DiskSound(codec, Contents())
    }

    constructor (codec: Codec)
      ensures this.codec == codec && Contents() == Disk(None, map[]) && Valid()
    {
      this.codec := codec;
      registry := None;
      files := map[];
    }

    /** First record with this key. */
    method FindRecord(packages: seq<Record>, key: Key) returns (found: Option<nat>)
      ensures found == Find(packages, key)
    {
      var i := 0;
      while i < |packages|
        invariant 0 <= i <= |packages|
        invariant Find(packages, key) == Find(packages, key, i)
      {
        if packages[i].key == key { return Some(i); }
        i := i + 1;
      }
      return None;
    }

    /** _write_state and the answer: the registry is replaced in one write, or not at all. */
    method Conclude(state: Registry, ghost e: Event, outcome: Outcome, i: nat, replacement: Option<string>)
      returns (r: Result<Receipt, Error>)
      requires state == Apply(PackageStore.Current(Contents()), e) && replacement == Successor(Commit(e))
      requires i < |state.packages| && Find(state.packages, state.packages[i].key) == Some(i)
      modifies this`registry
      ensures Contents() == WriteRegistry(codec, old(Contents()), e)
      ensures Settled(codec, old(Contents()), Commit(e), r, registry, state.packages[i].key)
      ensures r.Ok? ==> r.value.outcome == outcome && registry == Some(state)
    {
      if codec.encodedSize(state) > MAX_REGISTRY_BYTES { return Err(RegistryTooLarge); }
      registry := Some(state);
      return Ok(Receipt(outcome, state.packages[i], ActiveRevision(state), replacement));
    }

    method StagePayload(data: Bytes, actor: string) returns (r: Result<Receipt, Error>)
      requires Valid()
      modifies this
      ensures Valid()
      ensures var d := StageDecision(codec, old(Contents()), data, actor);
        && (d.Commit? ==> files == old(files)[d.event.key := data])
        && (!d.Commit? ==> files == old(files))
        && (if codec.load(data).Some?
            then Settled(codec, old(Contents()), d, r, registry, codec.load(data).value.key)
            else d.Refuse? && r == Err(d.error) && registry == old(registry))
        && (r.Ok? ==> r.value.outcome == if d.Commit? then StagedNow else AlreadyStaged)
      ensures r.Ok? ==>
                codec.load(data).Some? && registry.Some?
                && HasRecord(registry.value, codec.load(data).value.key, codec.load(data).value.digest)
    {
      if !SafeActor(actor) { return Err(BadActor); }
      if |data| > MAX_PACKAGE_BYTES { return Err(PackageTooLarge); }
      var loaded := codec.load(data);
      if loaded.None? { return Err(PackageInvalid); }
      var package := loaded.value;
      if !SafeKey(package.key) { return Err(BadReference); }
      var state := if registry.Some? then registry.value else EMPTY;
      var existing := FindRecord(state.packages, package.key);
      if existing.Some? {
        var found := state.packages[existing.value];
        if found.digest != package.digest { return Err(DigestConflict); }
        return Ok(Receipt(AlreadyStaged, found, ActiveRevision(state), None));
      }
      if package.key in files { return Err(FileExists); }
      StageAdmissible(codec, Contents(), data, actor);
      ghost var withFile := Disk(registry, files[package.key := data]);
      StageKeepsFiles(codec, Contents(), package.key, data);
      files := files[package.key := data];
      var record := Record(package.key, package.digest, Candidate, 0);
      var event := Staged(package.key, package.digest);
      WriteKeepsSound(codec, withFile, event);
      FindInExtended(state.packages, record, package.key);
      var after := state.(packages := state.packages + [record], events := state.events + [event]);
      r := Conclude(after, event, StagedNow, |state.packages|, None);
    }

    method Activate(key: Key, expected: Option<string>, actor: string) returns (r: Result<Receipt, Error>)
      requires Valid()
      modifies this`registry
      ensures Valid()
      ensures var d := ActivateDecision(codec, old(Contents()), key, expected, actor);
        Settled(codec, old(Contents()), d, r, registry, key)
        && (r.Ok? ==> r.value.outcome == if d.Commit? then ActivatedNow else AlreadyActive)
      ensures r.Ok? ==> registry.Some? && StatusOf(registry.value, key) == Some(Active)
    {
      if !SafeKey(key) { return Err(BadReference); }
      if !SafeActor(actor) { return Err(BadActor); }
      if registry.None? { return Err(NoRegistry); }
      var state := registry.value;
      if ActiveRevision(state) != expected { return Err(StaleExpectation); }
      var target := FindRecord(state.packages, key);
      if target.None? { return Err(UnknownRevision); }
      var t := target.value;
      if state.packages[t].status == Revoked { return Err(RevokedRevision); }
      var ref := Ref(key, state.packages[t].digest);
      if Load(codec, files, ref).None? { return Err(FileUnusable); }
      var current := None;
      if state.active.Some? { current := FindRecord(state.packages, state.active.value.key); }
      if current == target {
        assert ActiveSound(state, state.active.value);
        return Ok(Receipt(AlreadyActive, state.packages[t], ActiveRevision(state), None));
      }
      ActivateAdmissible(codec, Contents(), key, expected, actor);
      ghost var event := Activated(key, ref.digest);
      WriteKeepsSound(codec, Contents(), event);
      ActivationTakesEffect(state, event);
      var after := SwitchTo(state, current, t);
      r := Conclude(after, event, ActivatedNow, t, None);
    }

    /** Demote the current record, promote the target and log it. */
    static method SwitchTo(state: Registry, current: Option<nat>, t: nat) returns (s: Registry)
      requires Sound(state) && t < |state.packages| && current != Some(t)
      requires current == if state.active.Some? then Find(state.packages, state.active.value.key) else None
      ensures s == Apply(state, Activated(state.packages[t].key, state.packages[t].digest))
      ensures Find(s.packages, state.packages[t].key) == Some(t)
    {
      SwitchInPlace(state, current, t);
      var target := state.packages[t];
      var packages := state.packages;
      if current.Some? { packages := packages[current.value := packages[current.value].(status := Inactive)]; }
      var sequence := state.counter + 1;
      packages := packages[t := packages[t].(status := Active, sequence := sequence)];
      s := Registry(Some(Ref(target.key, target.digest)), sequence, packages,
                    state.events + [Activated(target.key, target.digest)]);
      FindUnique(packages, t);
    }

    method Revoke(key: Key, expected: Option<string>, actor: string, reason: string)
      returns (r: Result<Receipt, Error>)
      requires Valid()
      modifies this`registry
      ensures Valid()
      ensures var d := RevokeDecision(codec, old(Contents()), key, expected, actor, reason);
        Settled(codec, old(Contents()), d, r, registry, key)
        && (r.Ok? ==> r.value.outcome == if d.Commit? then RevokedNow else AlreadyRevoked)
      ensures r.Ok? ==> registry.Some? && StatusOf(registry.value, key) == Some(Revoked)
    {
      if !SafeKey(key) { return Err(BadReference); }
      if !SafeActor(actor) { return Err(BadActor); }
      if !GoodReason(reason) { return Err(BadReason); }
      if registry.None? { return Err(NoRegistry); }
      var state := registry.value;
      if state.active.None? { return Err(NothingActive); }
      if ActiveRevision(state) != expected { return Err(StaleExpectation); }
      var target := FindRecord(state.packages, key);
      if target.None? { return Err(UnknownRevision); }
      var t := target.value;
      if state.packages[t].status == Revoked {
        return Ok(Receipt(AlreadyRevoked, state.packages[t], ActiveRevision(state), None));
      }
      var replacement := None;
      if state.packages[t].status == Active {
        replacement := Fallback(state.packages, t);
        if replacement.None? { return Err(NoFallback); }
        var next := state.packages[replacement.value];
        if Load(codec, files, Ref(next.key, next.digest)).None? { return Err(FileUnusable); }
      }
      RevokeAdmissible(codec, Contents(), key, expected, actor, reason);
      ghost var event := Removal(state, t, replacement);
      WriteKeepsSound(codec, Contents(), event);
      WithdrawalTakesEffect(state, event);
      var after := TakeDown(state, t, replacement);
      r := Conclude(after, event, RevokedNow, t, Removal(state, t, replacement).replacement);
    }

    /** Revoke the target, promote its replacement if there is one, and log it. */
    static method TakeDown(state: Registry, t: nat, replacement: Option<nat>) returns (s: Registry)
      requires UniqueKeys(state.packages) && t < |state.packages|
      requires replacement.Some? ==> replacement.value < |state.packages| && Eligible(state.packages, t, replacement.value)
      ensures s == Apply(state, Removal(state, t, replacement))
      ensures Find(s.packages, state.packages[t].key) == Some(t)
    {
      WithdrawInPlace(state, t, replacement);
      var target := state.packages[t];
      var packages := state.packages[t := target.(status := Revoked)];
      var active, sequence := state.active, state.counter;
      var revision := None;
      if replacement.Some? {
        var j := replacement.value;
        sequence := sequence + 1;
        packages := packages[j := packages[j].(status := Active, sequence := sequence)];
        active := Some(Ref(packages[j].key, packages[j].digest));
        revision := Some(packages[j].key.revision);
      }
      s := Registry(active, sequence, packages, state.events + [Withdrawn(target.key, target.digest, revision)]);
      FindUnique(state.packages, t);
      FindByKeysAlone(state.packages, packages, target.key);
    }
  }

  /** The new package file disturbs no registered one. */
  lemma StageKeepsFiles(codec: Codec, disk: Disk, key: Key, data: Bytes)
    requires DiskSound(codec, disk) && key !in disk.files
    ensures DiskSound(codec, disk.(files := disk.files[key := data]))
  {
    if disk.registry.Some? {
      var ps := disk.registry.value.packages;
      forall i | 0 <= i < |ps|
        ensures Load(codec, disk.files[key := data], Ref(ps[i].key, ps[i].digest)).Some?
      {
        assert Load(codec, disk.files, Ref(ps[i].key, ps[i].digest)).Some?;
      }
    }
  }

  /** Demoting the record `active` points at and promoting one other, by index, is what the event says
      for all records: nothing else was active and no key occurs twice. */
  lemma SwitchInPlace(r: Registry, current: Option<nat>, t: nat)
    requires Sound(r) && t < |r.packages| && current != Some(t)
    requires current == if r.active.Some? then Find(r.packages, r.active.value.key) else None
    ensures var packages :=
              if current.Some? then r.packages[current.value := r.packages[current.value].(status := Inactive)]
              else r.packages;
      packages[t := packages[t].(status := Active, sequence := r.counter + 1)]
        == Promote(Retire(r.packages), r.packages[t].key, r.counter + 1)
  {
    forall i | 0 <= i < |r.packages| ensures r.packages[i].status == Active <==> current == Some(i) {
      FindUnique(r.packages, i);
      if r.packages[i].status == Active { ActiveIsUnique(r, i); }
      if current == Some(i) { assert ActiveSound(r, r.active.value); }
    }
  }

  lemma WithdrawInPlace(r: Registry, t: nat, replacement: Option<nat>)
    requires UniqueKeys(r.packages) && t < |r.packages|
    requires replacement.Some? ==> replacement.value < |r.packages| && replacement.value != t
    ensures var withdrawn := r.packages[t := r.packages[t].(status := Revoked)];
      && withdrawn == Withdraw(r.packages, r.packages[t].key)
      && (replacement.Some? ==> var j := replacement.value;
            && DigestOf(r.packages, r.packages[j].key) == r.packages[j].digest
            && withdrawn[j := withdrawn[j].(status := Active, sequence := r.counter + 1)]
               == Promote(Withdraw(r.packages, r.packages[t].key), r.packages[j].key, r.counter + 1))
  {
    FindUnique(r.packages, t);
    if replacement.Some? { FindUnique(r.packages, replacement.value); }
  }

  /** Read-only resolver with a one-entry cache keyed by the active reference. */
  class PublishedPackageProvider {
    var cachedRef: Option<Ref>
    var cachedPackage: Option<Package>

    constructor ()
      ensures cachedRef == None && cachedPackage == None
    {
      cachedRef := None;
      cachedPackage := None;
    }

    /** The cache agrees with the files. */
    ghost predicate Agrees(codec: Codec, files: map<Key, Bytes>)
      reads this
    {
      cachedPackage.Some? ==> cachedRef.Some? && Load(codec, files, cachedRef.value) == cachedPackage
    }

    method Current(codec: Codec, disk: Disk) returns (r: Result<Package, Error>)
      requires DiskSound(codec, disk) && Agrees(codec, disk.files)
      modifies this
      ensures Agrees(codec, disk.files)
      ensures r.Ok? <==> disk.registry.Some? && disk.registry.value.active.Some?
      ensures r.Ok? ==> Load(codec, disk.files, disk.registry.value.active.value) == Some(r.value)
      ensures r.Err? ==> cachedRef == old(cachedRef) && cachedPackage == old(cachedPackage)
    {
      if disk.registry.None? { return Err(NoRegistry); }
      if disk.registry.value.active.None? { return Err(NothingActive); }
      var ref := disk.registry.value.active.value;
      if cachedRef == Some(ref) && cachedPackage.Some? { return Ok(cachedPackage.value); }
      ghost var i := Find(disk.registry.value.packages, ref.key).value;
      assert ActiveSound(disk.registry.value, ref);
      var package := Load(codec, disk.files, ref);
      if package.None? { return Err(FileUnusable); }
      cachedRef := Some(ref);
      cachedPackage := package;
      return Ok(package.value);
    }
  }
}
