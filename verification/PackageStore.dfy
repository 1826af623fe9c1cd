/** The directory the registry lives in, the lifecycle decisions taken on it, and every interleaving of
    one writer's atomic writes with any number of caching readers. */
module PackageStore {
  import opened Common
  import opened PackageLog

  type Bytes = string

  datatype Package = Package(key: Key, digest: string, documents: seq<string>)

  /** What the code around the registry computes: PublicPackage.load on file bytes, and the length of
      the encoded registry. Both are functions of their argument and otherwise arbitrary. */
  datatype Codec = Codec(load: Bytes -> Option<Package>, encodedSize: Registry -> nat)

  /** The package files and, once it was first written, registry.json. */
  datatype Disk = Disk(registry: Option<Registry>, files: map<Key, Bytes>)

  const MAX_PACKAGE_BYTES := 2 * 1024 * 1024
  const MAX_REGISTRY_BYTES := 8 * 1024 * 1024

  datatype Error =
    | BadActor | BadReason | BadReference | PackageTooLarge | PackageInvalid | DigestConflict | FileExists
    | NoRegistry | NothingActive | StaleExpectation | UnknownRevision | RevokedRevision | FileUnusable
    | NoFallback | RegistryTooLarge

  /** Refuse raises; Keep reports a state that already holds; Commit appends one event and writes. */
  datatype Decision = Refuse(error: Error) | Keep | Commit(event: Event)

  // ----- Input rules -----

  predicate AlphaNumeric(c: char) {
    'A' <= c <= 'Z' || 'a' <= c <= 'z' || '0' <= c <= '9'
  }

  predicate SafeName(s: string, extra: set<char>) {
    && 1 <= |s| <= 128 && AlphaNumeric(s[0])
    && forall i :: 1 <= i < |s| ==> AlphaNumeric(s[i]) || s[i] in extra
  }

  predicate SafeReference(s: string) { SafeName(s, {'.', '_', '-'}) }

  predicate SafeActor(s: string) { SafeName(s, {'@', '.', '_', '-'}) }

  predicate SafeKey(key: Key) { SafeReference(key.packageId) && SafeReference(key.revision) }

  /** The reason as str.strip() leaves it. */
  predicate GoodReason(reason: string) {
    1 <= |reason| <= 240 && forall i :: 0 <= i < |reason| ==> reason[i] >= ' '
  }

  // ----- Files -----

  /** _load_registered_package: the file exists, loads, and is what the reference says. */
  function Load(codec: Codec, files: map<Key, Bytes>, ref: Ref): Option<Package> {
    if ref.key !in files then None
    else match codec.load(files[ref.key])
      case None => None
      case Some(p) => if p.key == ref.key && p.digest == ref.digest then Some(p) else None
  }

  // ----- Decisions -----

  function Current(disk: Disk): Registry {
    if disk.registry.Some? then disk.registry.value else EMPTY
  }

  function StageDecision(codec: Codec, disk: Disk, data: Bytes, actor: string): Decision {
    if !SafeActor(actor) then Refuse(BadActor)
    else if |data| > MAX_PACKAGE_BYTES then Refuse(PackageTooLarge)
    else match codec.load(data)
      case None => Refuse(PackageInvalid)
      case Some(p) =>
        if !SafeKey(p.key) then Refuse(BadReference)
        else match Find(Current(disk).packages, p.key)
          case Some(i) => if Current(disk).packages[i].digest != p.digest then Refuse(DigestConflict) else Keep
          case None => if p.key in disk.files then Refuse(FileExists) else Commit(Staged(p.key, p.digest))
  }

  function ActiveRevision(r: Registry): Option<string> {
    match r.active case None => None case Some(ref) => Some(ref.key.revision)
  }

  function ActivateDecision(codec: Codec, disk: Disk, key: Key, expected: Option<string>, actor: string): Decision {
    if !SafeKey(key) then Refuse(BadReference)
    else if !SafeActor(actor) then Refuse(BadActor)
    else match disk.registry
      case None => Refuse(NoRegistry)
      case Some(r) =>
        if ActiveRevision(r) != expected then Refuse(StaleExpectation)
        else match Find(r.packages, key)
          case None => Refuse(UnknownRevision)
          case Some(i) =>
            var target := r.packages[i];
            if target.status == Revoked then Refuse(RevokedRevision)
            else if Load(codec, disk.files, Ref(key, target.digest)).None? then Refuse(FileUnusable)
            else if r.active.Some? && Find(r.packages, r.active.value.key) == Some(i) then Keep
            else Commit(Activated(key, target.digest))
  }

  function RevokeDecision(
    codec: Codec, disk: Disk, key: Key, expected: Option<string>, actor: string, reason: string): Decision
  {
    if !SafeKey(key) then Refuse(BadReference)
    else if !SafeActor(actor) then Refuse(BadActor)
    else if !GoodReason(reason) then Refuse(BadReason)
    else match disk.registry
      case None => Refuse(NoRegistry)
      case Some(r) =>
        if r.active.None? then Refuse(NothingActive)
        else if ActiveRevision(r) != expected then Refuse(StaleExpectation)
        else match Find(r.packages, key)
          case None => Refuse(UnknownRevision)
          case Some(i) =>
            var target := r.packages[i];
            if target.status == Revoked then Keep
            else if target.status != Active then Commit(Withdrawn(key, target.digest, None))
            else match Fallback(r.packages, i)
              case None => Refuse(NoFallback)
              case Some(j) =>
                var next := r.packages[j];
                if Load(codec, disk.files, Ref(next.key, next.digest)).None? then Refuse(FileUnusable)
                else Commit(Withdrawn(key, target.digest, Some(next.key.revision)))
  }

  /** _write_state: nothing is written when the encoded registry would be too large. */
  function WriteRegistry(codec: Codec, disk: Disk, e: Event): Disk {
    var r := Apply(Current(disk), e);
    if codec.encodedSize(r) > MAX_REGISTRY_BYTES then disk else disk.(registry := Some(r))
  }

  /** What an operation answers once its decision is taken and its writes were attempted. */
  function Verdict(codec: Codec, disk: Disk, d: Decision): Result<bool, Error> {
    match d
    case Refuse(e) => Err(e)
    case Keep => Ok(false)
    case Commit(e) =>
      if codec.encodedSize(Apply(Current(disk), e)) > MAX_REGISTRY_BYTES then Err(RegistryTooLarge) else Ok(true)
  }

  // ----- Disk invariant -----

  /** The registry agrees with its log and every record's file loads to exactly that record. */
  ghost predicate DiskSound(codec: Codec, disk: Disk) {
    disk.registry.Some? ==> Sound(disk.registry.value) && FilesSound(codec, disk.files, disk.registry.value.packages)
  }

  ghost predicate FilesSound(codec: Codec, files: map<Key, Bytes>, packages: seq<Record>) {
    forall i :: 0 <= i < |packages| ==> Load(codec, files, Ref(packages[i].key, packages[i].digest)).Some?
  }

  lemma StageAdmissible(codec: Codec, disk: Disk, data: Bytes, actor: string)
    requires DiskSound(codec, disk) && StageDecision(codec, disk, data, actor).Commit?
    ensures var e := StageDecision(codec, disk, data, actor).event;
      && e.Staged? && Sound(Current(disk)) && Admissible(Current(disk), e) && e.key !in disk.files
      && Load(codec, disk.files[e.key := data], Ref(e.key, e.digest)).Some?
  {
    EmptySound();
  }

  lemma ActivateAdmissible(codec: Codec, disk: Disk, key: Key, expected: Option<string>, actor: string)
    requires DiskSound(codec, disk) && ActivateDecision(codec, disk, key, expected, actor).Commit?
    ensures var e := ActivateDecision(codec, disk, key, expected, actor).event;
      e.Activated? && Sound(Current(disk)) && Admissible(Current(disk), e)
  {
    var r := disk.registry.value;
    var i := Find(r.packages, key).value;
    if r.packages[i].status == Active { ActiveIsUnique(r, i); }
  }

  lemma RevokeAdmissible(
    codec: Codec, disk: Disk, key: Key, expected: Option<string>, actor: string, reason: string)
    requires DiskSound(codec, disk) && RevokeDecision(codec, disk, key, expected, actor, reason).Commit?
    ensures var e := RevokeDecision(codec, disk, key, expected, actor, reason).event;
      e.Withdrawn? && Sound(Current(disk)) && Admissible(Current(disk), e)
  {
    var r := disk.registry.value;
    var i := Find(r.packages, key).value;
    if r.packages[i].status == Active {
      var j := Fallback(r.packages, i).value;
      FindUnique(r.packages, j);
    }
  }

  /** No event changes which key and digest a record stands for. */
  lemma FilesStaySound(codec: Codec, files: map<Key, Bytes>, r: Registry, e: Event)
    requires FilesSound(codec, files, r.packages)
    requires e.Staged? ==> Load(codec, files, Ref(e.key, e.digest)).Some?
    ensures FilesSound(codec, files, Apply(r, e).packages)
  {
    var ps := Apply(r, e).packages;
    forall i | 0 <= i < |ps| ensures Load(codec, files, Ref(ps[i].key, ps[i].digest)).Some? {
      if i < |r.packages| {
        assert ps[i].key == r.packages[i].key && ps[i].digest == r.packages[i].digest;
        assert Load(codec, files, Ref(r.packages[i].key, r.packages[i].digest)).Some?;
      }
    }
  }

  /** An event ready to be written to this disk. */
  ghost predicate Writable(codec: Codec, disk: Disk, e: Event) {
    && Sound(Current(disk)) && Admissible(Current(disk), e)
    && (e.Staged? ==> Load(codec, disk.files, Ref(e.key, e.digest)).Some?)
  }

  lemma WriteKeepsSound(codec: Codec, disk: Disk, e: Event)
    requires DiskSound(codec, disk) && Writable(codec, disk, e)
    ensures DiskSound(codec, WriteRegistry(codec, disk, e))
  {
    SoundAppend(Current(disk), e);
    FilesStaySound(codec, disk.files, Current(disk), e);
  }

  /** In a sound store no registered file is ever missing or changed under an operation. */
  lemma FilesNeverFail(
    codec: Codec, disk: Disk, key: Key, expected: Option<string>, actor: string, reason: string)
    requires DiskSound(codec, disk)
    ensures ActivateDecision(codec, disk, key, expected, actor) != Refuse(FileUnusable)
    ensures RevokeDecision(codec, disk, key, expected, actor, reason) != Refuse(FileUnusable)
  {
    if disk.registry.Some? {
      assert FilesSound(codec, disk.files, disk.registry.value.packages);
    }
  }

  /** Revoking the active revision: refused exactly when the log shows no other healthy activated
      revision of the package, and otherwise the one activated last takes over. */
  lemma RevokeFallsBackToLatestHealthy(
    codec: Codec, disk: Disk, key: Key, expected: Option<string>, actor: string, reason: string)
    requires DiskSound(codec, disk)
    requires SafeKey(key) && SafeActor(actor) && GoodReason(reason)
    requires disk.registry.Some? && disk.registry.value.active.Some? && disk.registry.value.active.value.key == key
    requires expected == Some(key.revision)
    ensures var r := disk.registry.value;
      var history, d := History(r.events), RevokeDecision(codec, disk, key, expected, actor, reason);
      if forall m :: 0 <= m < |history| ==> !Healthy(r.events, key, history[m])
      then d == Refuse(NoFallback)
      else
        && d.Commit? && d.event.Withdrawn? && d.event.key == key && d.event.replacement.Some?
        && exists n :: 0 <= n < |history| && history[n] == Key(key.packageId, d.event.replacement.value)
             && Healthy(r.events, key, history[n])
             && forall m :: n < m < |history| ==> !Healthy(r.events, key, history[m])
  {
    var r := disk.registry.value;
    var i := Find(r.packages, key).value;
    assert ActiveSound(r, r.active.value);
    FallbackIsLatestHealthy(r, i);
    FilesNeverFail(codec, disk, key, expected, actor, reason);
    if Fallback(r.packages, i).Some? {
      var j := Fallback(r.packages, i).value;
      var n := r.packages[j].sequence - 1;
      assert History(r.events)[n] == r.packages[j].key;
      assert Healthy(r.events, key, History(r.events)[n]);
    }
  }
}
