/** One writer at a time (the registry lock), any number of caching readers, a crash between any two
    atomic writes, and a reader step between any two steps of anybody. */
module PackageSystem {
  import opened Common
  import opened PackageLog
  import opened PackageStore

  datatype Answer = NotAsked | Unavailable | Answered(ref: Ref, package: Package)

  /** A PublishedPackageProvider: `pending` holds the reference read from the registry between the two
      file reads of current(). */
  datatype Reader = Reader(cache: Option<(Ref, Package)>, pending: Option<Ref>, answer: Answer)

  const FRESH_READER := Reader(None, None, NotAsked)

  /** `writer` is the event of a staging whose package file is written and whose registry is not. */
  datatype System = System(disk: Disk, writer: Option<Event>, readers: map<nat, Reader>)

  datatype Step =
    | StageFile(data: Bytes, actor: string)
    | StageRegistry
    | Crash
    | Activate(key: Key, expected: Option<string>, actor: string)
    | Revoke(key: Key, expected: Option<string>, actor: string, reason: string)
    | ReadReference(id: nat)
    | LoadPackage(id: nat)

  const INITIAL := System(Disk(None, map[]), None, map[])

  function ReaderOf(s: System, id: nat): Reader {
    if id in s.readers then s.readers[id] else FRESH_READER
  }

  /** The event whose registry write this step attempts. A writer that finds the lock held waits. */
  function Written(codec: Codec, s: System, step: Step): Option<Event> {
    match step
    case StageRegistry => s.writer
    case Activate(key, expected, actor) =>
      var d := ActivateDecision(codec, s.disk, key, expected, actor);
      if s.writer.None? && d.Commit? then Some(d.event) else None
    case Revoke(key, expected, actor, reason) =>
      var d := RevokeDecision(codec, s.disk, key, expected, actor, reason);
      if s.writer.None? && d.Commit? then Some(d.event) else None
    case _ => None
  }

  /** One atomic step of anybody. */
  function Next(codec: Codec, s: System, step: Step): System {
    match step
    case StageFile(data, actor) =>
      var d := StageDecision(codec, s.disk, data, actor);
      if s.writer.None? && d.Commit?
      then s.(disk := s.disk.(files := s.disk.files[d.event.key := data]), writer := Some(d.event))
      else s
    case StageRegistry =>
      s.(disk := DiskAfter(codec, s, step), writer := None)
    case Crash =>
      s.(writer := None)
    case Activate(_, _, _) =>
      s.(disk := DiskAfter(codec, s, step))
    case Revoke(_, _, _, _) =>
      s.(disk := DiskAfter(codec, s, step))
    case ReadReference(id) =>
      s.(readers := s.readers[id := AfterReadReference(ReaderOf(s, id), s.disk)])
    case LoadPackage(id) =>
      s.(readers := s.readers[id := AfterLoadPackage(codec, ReaderOf(s, id), s.disk)])
  }

  function DiskAfter(codec: Codec, s: System, step: Step): Disk {
    match Written(codec, s, step)
    case Some(e) => WriteRegistry(codec, s.disk, e)
    case None => s.disk
  }

  function AfterReadReference(r: Reader, disk: Disk): Reader {
    if disk.registry.None? || disk.registry.value.active.None? then r.(pending := None, answer := Unavailable)
    else
      var ref := disk.registry.value.active.value;
      if r.cache.Some? && r.cache.value.0 == ref
      then r.(pending := None, answer := Answered(ref, r.cache.value.1))
      else r.(pending := Some(ref), answer := NotAsked)
  }

  function AfterLoadPackage(codec: Codec, r: Reader, disk: Disk): Reader {
    if r.pending.None? then r
    else
      var ref := r.pending.value;
      match Load(codec, disk.files, ref)
      case None => r.(pending := None, answer := Unavailable)
      case Some(p) => Reader(Some((ref, p)), None, Answered(ref, p))
  }

  function Run(codec: Codec, s: System, steps: seq<Step>): System {
    if steps == [] then s else Next(codec, Run(codec, s, steps[..|steps| - 1]), steps[|steps| - 1])
  }

  // ----- The invariant of every run -----

  ghost predicate Coherent(codec: Codec, s: System) {
    && DiskSound(codec, s.disk)
    && (s.writer.Some? ==> WriterSound(codec, s.disk, s.writer.value))
    && forall id :: id in s.readers ==> ReaderSound(codec, s.disk.files, s.readers[id])
  }

  ghost predicate WriterSound(codec: Codec, disk: Disk, e: Event) {
    e.Staged? && Writable(codec, disk, e)
  }

  /** What a reader holds is what a load of the files would give now, and its next load succeeds. */
  ghost predicate ReaderSound(codec: Codec, files: map<Key, Bytes>, r: Reader) {
    && (r.cache.Some? ==> Load(codec, files, r.cache.value.0) == Some(r.cache.value.1))
    && (r.pending.Some? ==> Load(codec, files, r.pending.value).Some?)
    && (r.answer.Answered? ==> Load(codec, files, r.answer.ref) == Some(r.answer.package))
  }

  /** Adding a file nobody had does not change what any load of an existing file gives. */
  lemma NewFileKeepsLoads(codec: Codec, files: map<Key, Bytes>, key: Key, data: Bytes, ref: Ref)
    requires key !in files && Load(codec, files, ref).Some?
    ensures Load(codec, files[key := data], ref) == Load(codec, files, ref)
  {
  }

  lemma StageFileCoherent(codec: Codec, s: System, data: Bytes, actor: string)
    requires Coherent(codec, s)
    ensures Coherent(codec, Next(codec, s, StageFile(data, actor)))
  {
    var d := StageDecision(codec, s.disk, data, actor);
    if s.writer.None? && d.Commit? {
      StageAdmissible(codec, s.disk, data, actor);
      var s' := Next(codec, s, StageFile(data, actor));
      if s.disk.registry.Some? {
        var ps := s.disk.registry.value.packages;
        forall i | 0 <= i < |ps| ensures Load(codec, s'.disk.files, Ref(ps[i].key, ps[i].digest)).Some? {
          NewFileKeepsLoads(codec, s.disk.files, d.event.key, data, Ref(ps[i].key, ps[i].digest));
        }
      }
    }
  }

  lemma ActivateWritable(codec: Codec, disk: Disk, key: Key, expected: Option<string>, actor: string)
    requires DiskSound(codec, disk)
    ensures var d := ActivateDecision(codec, disk, key, expected, actor); d.Commit? ==> Writable(codec, disk, d.event)
  {
    if ActivateDecision(codec, disk, key, expected, actor).Commit? {
      ActivateAdmissible(codec, disk, key, expected, actor);
    }
  }

  lemma RevokeWritable(
    codec: Codec, disk: Disk, key: Key, expected: Option<string>, actor: string, reason: string)
    requires DiskSound(codec, disk)
    ensures var d := RevokeDecision(codec, disk, key, expected, actor, reason);
      d.Commit? ==> Writable(codec, disk, d.event)
  {
    if RevokeDecision(codec, disk, key, expected, actor, reason).Commit? {
      RevokeAdmissible(codec, disk, key, expected, actor, reason);
    }
  }

  lemma WrittenAdmissible(codec: Codec, s: System, step: Step)
    requires Coherent(codec, s) && Written(codec, s, step).Some?
    ensures Writable(codec, s.disk, Written(codec, s, step).value)
  {
    match step
    case Activate(key, expected, actor) => ActivateWritable(codec, s.disk, key, expected, actor);
    case Revoke(key, expected, actor, reason) => RevokeWritable(codec, s.disk, key, expected, actor, reason);
    case _ =>
  }

  lemma DiskAfterSound(codec: Codec, s: System, step: Step)
    requires Coherent(codec, s)
    ensures DiskSound(codec, DiskAfter(codec, s, step))
    ensures DiskAfter(codec, s, step).files == s.disk.files
  {
    var e := Written(codec, s, step);
    if e.Some? {
      WrittenAdmissible(codec, s, step);
      WriteKeepsSound(codec, s.disk, e.value);
      assert DiskAfter(codec, s, step) == WriteRegistry(codec, s.disk, e.value);
    }
  }

  /** The active reference of a sound disk always loads. */
  lemma ActiveLoads(codec: Codec, disk: Disk)
    requires DiskSound(codec, disk) && disk.registry.Some? && disk.registry.value.active.Some?
    ensures Load(codec, disk.files, disk.registry.value.active.value).Some?
  {
    var r := disk.registry.value;
    assert ActiveSound(r, r.active.value);
    var i := Find(r.packages, r.active.value.key).value;
    assert Load(codec, disk.files, Ref(r.packages[i].key, r.packages[i].digest)).Some?;
  }

  lemma NextCoherent(codec: Codec, s: System, step: Step)
    requires Coherent(codec, s)
    ensures Coherent(codec, Next(codec, s, step))
  {
    match step
    case StageFile(data, actor) => StageFileCoherent(codec, s, data, actor);
    case ReadReference(id) => ReaderStepCoherent(codec, s, step, id);
    case LoadPackage(id) => ReaderStepCoherent(codec, s, step, id);
    case Crash =>
    case StageRegistry => DiskAfterSound(codec, s, step);
    case Activate(_, _, _) => ActivateOrRevokeCoherent(codec, s, step);
    case Revoke(_, _, _, _) => ActivateOrRevokeCoherent(codec, s, step);
  }

  lemma ReadsStaySound(codec: Codec, disk: Disk, r: Reader)
    requires ReaderSound(codec, disk.files, r)
    requires disk.registry.Some? && disk.registry.value.active.Some? ==>
      Load(codec, disk.files, disk.registry.value.active.value).Some?
    ensures ReaderSound(codec, disk.files, AfterReadReference(r, disk))
    ensures ReaderSound(codec, disk.files, AfterLoadPackage(codec, r, disk))
  {
  }

  lemma ReaderStepCoherent(codec: Codec, s: System, step: Step, id: nat)
    requires Coherent(codec, s) && (step == ReadReference(id) || step == LoadPackage(id))
    ensures Coherent(codec, Next(codec, s, step))
  {
    if s.disk.registry.Some? && s.disk.registry.value.active.Some? { ActiveLoads(codec, s.disk); }
    ReadsStaySound(codec, s.disk, ReaderOf(s, id));
  }

  lemma ActivateOrRevokeCoherent(codec: Codec, s: System, step: Step)
    requires Coherent(codec, s) && (step.Activate? || step.Revoke?)
    ensures Coherent(codec, Next(codec, s, step))
  {
    DiskAfterSound(codec, s, step);
  }

  /** Whatever was done, in whatever order, with crashes anywhere: the registry agrees with its log,
      every record has its file, and every reader holds exactly what a fresh load would return. */
  lemma {:induction false} RunCoherent(codec: Codec, steps: seq<Step>)
    ensures Coherent(codec, Run(codec, INITIAL, steps))
  {
    if steps != [] {
      RunCoherent(codec, steps[..|steps| - 1]);
      NextCoherent(codec, Run(codec, INITIAL, steps[..|steps| - 1]), steps[|steps| - 1]);
    }
  }

  /** After any run, replaying the event log rebuilds the registry: every record's state and sequence,
      the counter and `active`; and the record states are what the log says without folding it. */
  lemma LogRebuildsRegistry(codec: Codec, steps: seq<Step>)
    ensures var r := Current(Run(codec, INITIAL, steps).disk);
      && Replay(r.events) == r
      && r.counter == |History(r.events)|
      && (r.active.Some? ==> r.counter > 0 && r.active.value.key == History(r.events)[r.counter - 1])
      && forall i :: 0 <= i < |r.packages| ==>
           var p := r.packages[i];
           && p.sequence == LatestActivation(History(r.events), p.key)
           && p.status == StatusFromLog(EverWithdrawn(r.events, p.key), p.sequence, r.counter)
  {
    RunCoherent(codec, steps);
    EmptySound();
    var r := Current(Run(codec, INITIAL, steps).disk);
    assert Sound(r);
    if r.active.Some? {
      var i := Find(r.packages, r.active.value.key).value;
      ActiveIsUnique(r, i);
      assert RecordSound(r, r.packages[i]);
    }
    forall i | 0 <= i < |r.packages|
      ensures r.packages[i].sequence == LatestActivation(History(r.events), r.packages[i].key)
        && r.packages[i].status ==
           StatusFromLog(EverWithdrawn(r.events, r.packages[i].key), r.packages[i].sequence, r.counter)
    {
      assert RecordSound(r, r.packages[i]);
    }
  }

  // ----- What never goes back -----

  /** Later states extend earlier ones: the log grows, files stay as written, what is revoked stays
      revoked, and an active package is always followed by an active package. */
  ghost predicate Extends(a: Disk, b: Disk) {
    && RegistryExtends(Current(a), Current(b))
    && (forall key :: key in a.files ==> key in b.files && b.files[key] == a.files[key])
    && (a.registry.Some? ==> b.registry.Some?)
  }

  ghost predicate RegistryExtends(a: Registry, b: Registry) {
    && a.events <= b.events
    && |a.packages| <= |b.packages|
    && (forall i :: 0 <= i < |a.packages| ==> RecordExtends(a.packages[i], b.packages[i]))
    && (a.active.Some? ==> b.active.Some?)
  }

  ghost predicate RecordExtends(p: Record, q: Record) {
    && p.key == q.key && p.digest == q.digest && p.sequence <= q.sequence
    && (p.status == Revoked ==> q.status == Revoked)
    && (q.status == Candidate ==> p.status == Candidate)
  }

  lemma RecordMoves(r: Registry, e: Event, i: nat)
    requires i < |r.packages| && r.packages[i].sequence <= r.counter && Admissible(r, e)
    requires Find(r.packages, r.packages[i].key) == Some(i)
    ensures RecordExtends(r.packages[i], Apply(r, e).packages[i])
  {
  }

  lemma ApplyExtends(r: Registry, e: Event)
    requires Sound(r) && Admissible(r, e)
    ensures RegistryExtends(r, Apply(r, e))
  {
    forall i | 0 <= i < |r.packages| ensures RecordExtends(r.packages[i], Apply(r, e).packages[i]) {
      FindUnique(r.packages, i);
      assert RecordSound(r, r.packages[i]);
      RecordMoves(r, e, i);
    }
  }

  /** Files are only added, and only by the first write of a staging, for a key that had none. */
  lemma NextFiles(codec: Codec, s: System, step: Step)
    ensures var s' := Next(codec, s, step);
      && (forall key :: key in s.disk.files ==> key in s'.disk.files && s'.disk.files[key] == s.disk.files[key])
      && (s'.writer.Some? && s'.writer != s.writer ==> s'.writer.value.Staged? && s'.writer.value.key !in s.disk.files)
  {
  }

  /** Only a registry write changes the registry. */
  lemma NextRegistry(codec: Codec, s: System, step: Step)
    ensures Next(codec, s, step).disk.registry == DiskAfter(codec, s, step).registry
  {
  }

  lemma OnlyStagingStages(codec: Codec, s: System, step: Step)
    ensures var e := Written(codec, s, step); e.Some? && e.value.Staged? ==> s.writer == e
  {
  }

  /** A step leaves the registry alone or applies one admissible event to it. */
  lemma NextWrites(codec: Codec, s: System, step: Step) returns (e: Option<Event>)
    requires Coherent(codec, s)
    ensures var r, registry := Current(s.disk), DiskAfter(codec, s, step).registry;
      && (e.None? ==> registry == s.disk.registry)
      && (e.Some? ==> Sound(r) && Admissible(r, e.value) && registry == Some(Apply(r, e.value)))
      && (e.Some? && e.value.Staged? ==> s.writer == e)
  {
    e := Written(codec, s, step);
    if e.Some? {
      WrittenAdmissible(codec, s, step);
      OnlyStagingStages(codec, s, step);
      if codec.encodedSize(Apply(Current(s.disk), e.value)) > MAX_REGISTRY_BYTES { e := None; }
    }
  }

  lemma NextExtends(codec: Codec, s: System, step: Step)
    requires Coherent(codec, s)
    ensures Extends(s.disk, Next(codec, s, step).disk)
  {
    var e := NextWrites(codec, s, step);
    NextFiles(codec, s, step);
    NextRegistry(codec, s, step);
    if e.Some? { ApplyExtends(Current(s.disk), e.value); }
  }

  lemma ExtendsTransitive(a: Registry, b: Registry, c: Registry)
    requires RegistryExtends(a, b) && RegistryExtends(b, c)
    ensures RegistryExtends(a, c)
  {
    forall i | 0 <= i < |a.packages| ensures RecordExtends(a.packages[i], c.packages[i]) {
      assert RecordExtends(a.packages[i], b.packages[i]) && RecordExtends(b.packages[i], c.packages[i]);
    }
  }

  lemma {:induction false} RunExtends(codec: Codec, s: System, steps: seq<Step>)
    requires Coherent(codec, s)
    ensures Coherent(codec, Run(codec, s, steps)) && Extends(s.disk, Run(codec, s, steps).disk)
  {
    if steps != [] {
      var before := Run(codec, s, steps[..|steps| - 1]);
      RunExtends(codec, s, steps[..|steps| - 1]);
      NextCoherent(codec, before, steps[|steps| - 1]);
      NextExtends(codec, before, steps[|steps| - 1]);
      ExtendsTransitive(Current(s.disk), Current(before.disk), Current(Run(codec, s, steps).disk));
    }
  }

  ghost predicate LeavesReaderAlone(steps: seq<Step>, id: nat) {
    forall i :: 0 <= i < |steps| ==> steps[i] != ReadReference(id) && steps[i] != LoadPackage(id)
  }

  lemma {:induction false} ReaderFramed(codec: Codec, s: System, steps: seq<Step>, id: nat)
    requires LeavesReaderAlone(steps, id) && id in s.readers
    ensures id in Run(codec, s, steps).readers && Run(codec, s, steps).readers[id] == s.readers[id]
  {
    if steps != [] {
      ReaderFramed(codec, s, steps[..|steps| - 1], id);
    }
  }

  /** Once something is active, current() answers: whatever the writer and the other readers do between
      its two reads, including crashing, it returns the package that was active at its first read, and
      that is what loading the file gives at the end as well. */
  lemma CurrentAlwaysAnswers(codec: Codec, before: seq<Step>, between: seq<Step>, id: nat)
    requires var s := Run(codec, INITIAL, before);
      s.disk.registry.Some? && s.disk.registry.value.active.Some?
    requires LeavesReaderAlone(between, id)
    ensures var s := Run(codec, INITIAL, before);
      var ref := s.disk.registry.value.active.value;
      var end := Next(codec, Run(codec, Next(codec, s, ReadReference(id)), between), LoadPackage(id));
      && ReaderOf(end, id).answer.Answered? && ReaderOf(end, id).answer.ref == ref
      && Some(ReaderOf(end, id).answer.package) == Load(codec, s.disk.files, ref) == Load(codec, end.disk.files, ref)
  {
    var s := Run(codec, INITIAL, before);
    RunCoherent(codec, before);
    BetweenReads(codec, s, between, id, s.disk.registry.value.active.value);
    SecondReadAnswers(codec, Run(codec, Next(codec, s, ReadReference(id)), between), id, s.disk.registry.value.active.value);
  }

  /** From the first read to just before the second. */
  lemma BetweenReads(codec: Codec, s: System, between: seq<Step>, id: nat, ref: Ref)
    requires Coherent(codec, s) && LeavesReaderAlone(between, id)
    requires s.disk.registry.Some? && s.disk.registry.value.active == Some(ref)
    ensures var later := Run(codec, Next(codec, s, ReadReference(id)), between);
      && id in later.readers && AimsAt(later.readers[id], ref)
      && ReaderSound(codec, later.disk.files, later.readers[id])
      && Load(codec, later.disk.files, ref) == Load(codec, s.disk.files, ref)
  {
    ActiveLoads(codec, s.disk);
    FirstReadAimsAt(s, id, ref);
    var first := Next(codec, s, ReadReference(id));
    NextCoherent(codec, s, ReadReference(id));
    RunExtends(codec, first, between);
    ReaderFramed(codec, first, between, id);
    LoadsPersist(codec, first.disk, Run(codec, first, between).disk, ref);
  }

  /** The reader is about to answer, or has answered, for this reference. */
  predicate AimsAt(r: Reader, ref: Ref) {
    if r.pending.Some? then r.pending.value == ref else r.answer.Answered? && r.answer.ref == ref
  }

  lemma FirstReadAimsAt(s: System, id: nat, ref: Ref)
    requires s.disk.registry.Some? && s.disk.registry.value.active == Some(ref)
    ensures AimsAt(AfterReadReference(ReaderOf(s, id), s.disk), ref)
  {
  }

  lemma SecondReadAnswers(codec: Codec, s: System, id: nat, ref: Ref)
    requires id in s.readers && AimsAt(s.readers[id], ref) && ReaderSound(codec, s.disk.files, s.readers[id])
    ensures var end := Next(codec, s, LoadPackage(id));
      var answer := ReaderOf(end, id).answer;
      && end.disk == s.disk && answer.Answered? && answer.ref == ref
      && Some(answer.package) == Load(codec, s.disk.files, ref)
  {
  }

  lemma LoadsPersist(codec: Codec, a: Disk, b: Disk, ref: Ref)
    requires Extends(a, b) && Load(codec, a.files, ref).Some?
    ensures Load(codec, b.files, ref) == Load(codec, a.files, ref)
  {
  }

  // ----- The price of two writes -----

  /** A file without a record, and no staging under way that would give it one. */
  predicate Orphaned(s: System, key: Key) {
    && key in s.disk.files && Find(Current(s.disk).packages, key).None?
    && (s.writer.None? || s.writer.value.key != key)
  }

  /** An orphan closes its revision for good: no later run of any kind gets a record for the key, because
      staging it again finds the file and refuses. */
  lemma {:induction false} OrphanClosesItsRevision(codec: Codec, s: System, key: Key, steps: seq<Step>)
    requires Coherent(codec, s) && Orphaned(s, key)
    ensures var s' := Run(codec, s, steps);
      && Orphaned(s', key)
      && forall data, actor :: codec.load(data).Some? && codec.load(data).value.key == key ==>
           StageDecision(codec, s'.disk, data, actor).Refuse?
  {
    if steps != [] {
      OrphanClosesItsRevision(codec, s, key, steps[..|steps| - 1]);
      RunExtends(codec, s, steps[..|steps| - 1]);
      OrphanStep(codec, Run(codec, s, steps[..|steps| - 1]), key, steps[|steps| - 1]);
    }
  }

  lemma OrphanStep(codec: Codec, s: System, key: Key, step: Step)
    requires Coherent(codec, s) && Orphaned(s, key)
    ensures Orphaned(Next(codec, s, step), key)
  {
    var e := NextWrites(codec, s, step);
    NextFiles(codec, s, step);
    NextRegistry(codec, s, step);
    if e.Some? { StillNoRecord(Current(s.disk), e.value, key); }
  }

  /** What a caller can check of a staging before it looks at the store. */
  predicate Stageable(codec: Codec, data: Bytes, actor: string) {
    && SafeActor(actor) && |data| <= MAX_PACKAGE_BYTES
    && codec.load(data).Some? && SafeKey(codec.load(data).value.key)
  }

  /** Such a staging gets to write exactly when its package file does not exist yet. */
  lemma StagingGoesAheadIff(codec: Codec, disk: Disk, data: Bytes, actor: string)
    requires DiskSound(codec, disk) && Stageable(codec, data, actor)
    ensures StageDecision(codec, disk, data, actor).Commit? <==> codec.load(data).value.key !in disk.files
  {
    var key := codec.load(data).value.key;
    if Find(Current(disk).packages, key).Some? { FoundHasFile(codec, disk, key); }
  }

  /** Where its two writes leave the key: with a record, or orphaned, or as it was. */
  lemma StagingEnds(codec: Codec, s: System, data: Bytes, actor: string)
    requires Coherent(codec, s) && s.writer.None? && Stageable(codec, data, actor)
    ensures var p := codec.load(data).value;
      var ends, dies := Run(codec, s, [StageFile(data, actor), StageRegistry]), Run(codec, s, [StageFile(data, actor), Crash]);
      var fits := codec.encodedSize(Apply(Current(s.disk), Staged(p.key, p.digest))) <= MAX_REGISTRY_BYTES;
      var recorded := Find(Current(s.disk).packages, p.key).Some?;
      && (Find(Current(ends.disk).packages, p.key).Some? <==> recorded || (p.key !in s.disk.files && fits))
      && (Orphaned(ends, p.key) <==> !recorded && (p.key in s.disk.files || !fits))
      && (Orphaned(dies, p.key) <==> !recorded)
  {
    var p := codec.load(data).value;
    StagingGoesAheadIff(codec, s.disk, data, actor);
    TwoSteps(codec, s, StageFile(data, actor), StageRegistry);
    TwoSteps(codec, s, StageFile(data, actor), Crash);
    if Find(Current(s.disk).packages, p.key).Some? {
      FoundHasFile(codec, s.disk, p.key);
    } else if p.key !in s.disk.files {
      FindInExtended(Current(s.disk).packages, Record(p.key, p.digest, Candidate, 0), p.key);
    }
  }

  lemma FoundHasFile(codec: Codec, disk: Disk, key: Key)
    requires DiskSound(codec, disk) && Find(Current(disk).packages, key).Some?
    ensures key in disk.files
  {
    var record := Current(disk).packages[Find(Current(disk).packages, key).value];
    assert Load(codec, disk.files, Ref(record.key, record.digest)).Some?;
  }

  lemma TwoSteps(codec: Codec, s: System, a: Step, b: Step)
    ensures Run(codec, s, [a, b]) == Next(codec, Next(codec, s, a), b)
  {
    assert [a, b][..1] == [a] && [a][..0] == [];
    assert Run(codec, s, [a]) == Next(codec, s, a);
  }

  /** A revision without a record can still get one, if the registry has room for it, if and only if its
      package file does not exist. */
  lemma RevisionOpenIffNoFile(codec: Codec, s: System, data: Bytes, actor: string)
    requires Coherent(codec, s) && s.writer.None? && Stageable(codec, data, actor)
    requires Find(Current(s.disk).packages, codec.load(data).value.key).None?
    requires codec.encodedSize(Apply(Current(s.disk), Staged(codec.load(data).value.key, codec.load(data).value.digest)))
             <= MAX_REGISTRY_BYTES
    ensures var key := codec.load(data).value.key;
      (exists steps :: Find(Current(Run(codec, s, steps).disk).packages, key).Some?) <==> key !in s.disk.files
  {
    var key := codec.load(data).value.key;
    StagingEnds(codec, s, data, actor);
    if key in s.disk.files {
      forall steps ensures Find(Current(Run(codec, s, steps).disk).packages, key).None? {
        OrphanClosesItsRevision(codec, s, key, steps);
      }
    }
  }

  /** And an orphan is reachable: the very first staging, dying between its writes, leaves one. */
  lemma FirstStagingCanOrphan(codec: Codec, data: Bytes, actor: string)
    requires Stageable(codec, data, actor)
    ensures var s := Run(codec, INITIAL, [StageFile(data, actor), Crash]);
      Coherent(codec, s) && Orphaned(s, codec.load(data).value.key)
  {
    RunCoherent(codec, []);
    StagingEnds(codec, INITIAL, data, actor);
    RunCoherent(codec, [StageFile(data, actor), Crash]);
  }

  lemma StillNoRecord(r: Registry, e: Event, key: Key)
    requires Find(r.packages, key).None? && (e.Staged? ==> e.key != key)
    ensures Find(Apply(r, e).packages, key).None?
  {
    if e.Staged? {
      FindInExtended(r.packages, Record(e.key, e.digest, Candidate, 0), key);
    } else {
      FindByKeysAlone(r.packages, Apply(r, e).packages, key);
    }
  }
}
