/** The deploy controller: which images exist, what the state file records, and what runs. */
module Deploy {
  import opened Common

  datatype Service = Api | Web | Public | PublicAgent

  datatype Image = Image(service: Service, tag: string)

  /** The recorded current and previous release; None for a missing or empty entry. */
  datatype Record = Record(current: Option<string>, previous: Option<string>)

  /** What the compose application runs. A failed switch leaves an unknown mixture. */
  datatype Running = Version(tag: string) | Mixture

  datatype Site = Site(images: set<Image>, record: Record, running: Running)

  const SERVICES := {Api, Web, Public, PublicAgent}

  predicate CommitTag(tag: string) {
    |tag| == 40 && forall i :: 0 <= i < 40 ==> '0' <= tag[i] <= '9' || 'a' <= tag[i] <= 'f'
  }

  function ImagesOf(tag: string): set<Image> {
    set s | s in SERVICES :: Image(s, tag)
  }

  // ----- The steps an operation can die at -----

  datatype ApplyStep =
    | Checks | BuildCompose | BuildAgent | StartData | Backup | Migrate | Switch | GatewayHealth | RecordApply

  /** `failing` is the step that fails, if any. `partial` is what a failing build had already produced,
      and `restorable` whether bringing the previous release up again works once its images are there. */
  datatype ApplyFate = ApplyFate(failing: Option<ApplyStep>, partial: set<Service>, restorable: bool)

  datatype RollbackStep = RollbackChecks | SwitchBack | BackHealth | RecordRollback

  /** `removed` is what a failing docker image rm had already removed. */
  datatype CleanupFate = CleanupFate(failsBefore: bool, removeFails: bool, removed: set<Image>)

  datatype Outcome =
    | Deployed | RolledBack | Cleaned | BadTag | CommitMismatch | ImageMissing
    | Failed | FailedAndRestored | FailedAndRestoreFailed

  // ----- Specification -----

  function Built(images: set<Image>, tag: string, services: set<Service>): set<Image> {
    images + set s | s in services :: Image(s, tag)
  }

  const COMPOSE_SERVICES := {Api, Web, Public}

  function Rank(step: ApplyStep): nat {
    match step
    case Checks => 0 case BuildCompose => 1 case BuildAgent => 2 case StartData => 3 case Backup => 4
    case Migrate => 5 case Switch => 6 case GatewayHealth => 7 case RecordApply => 8
  }

  /** The operation got through this step. */
  predicate Past(fate: ApplyFate, step: ApplyStep) {
    fate.failing.None? || Rank(fate.failing.value) > Rank(step)
  }

  /** Apply gets to build: the tag is a commit, the checks pass, and it is the commit checked out. */
  predicate Builds(tag: string, head: string, fate: ApplyFate) {
    CommitTag(tag) && Past(fate, Checks) && head == tag
  }

  /** The services whose images apply leaves built. */
  function BuiltServices(fate: ApplyFate): set<Service> {
    (if Past(fate, BuildCompose) then COMPOSE_SERVICES
     else if fate.failing == Some(BuildCompose) then fate.partial * COMPOSE_SERVICES else {})
    + (if Past(fate, BuildAgent) then {PublicAgent} else {})
  }

  /** The switch or the health check after it failed. */
  predicate NeedsRestore(fate: ApplyFate) { Past(fate, Migrate) && !Past(fate, GatewayHealth) }

  /** The recorded release, if apply can try to bring it up again. */
  function RestoreTarget(record: Record): Option<string> {
    if record.current.Some? && CommitTag(record.current.value) then record.current else None
  }

  predicate Restores(images: set<Image>, record: Record, fate: ApplyFate) {
    RestoreTarget(record).Some? && fate.restorable && ImagesOf(RestoreTarget(record).value) <= images
  }

  function Apply(site: Site, tag: string, head: string, fate: ApplyFate): (Site, Outcome) {
    var images := if Builds(tag, head, fate) then Built(site.images, tag, BuiltServices(fate)) else site.images;
    var record := if Builds(tag, head, fate) && fate.failing.None? then Record(Some(tag), site.record.current) else site.record;
    var running :=
      if !Builds(tag, head, fate) || !Past(fate, Migrate) then site.running
      else if Past(fate, GatewayHealth) then Version(tag)
      else if Restores(images, site.record, fate) then Version(RestoreTarget(site.record).value)
      else if RestoreTarget(site.record).Some? || fate.failing == Some(Switch) then Mixture
      else Version(tag);
    (Site(images, record, running),
     if !CommitTag(tag) then BadTag
     else if Past(fate, Checks) && head != tag then CommitMismatch
     else if fate.failing.None? then Deployed
     else if !NeedsRestore(fate) || RestoreTarget(site.record).None? then Failed
     else if Restores(images, site.record, fate) then FailedAndRestored
     else FailedAndRestoreFailed)
  }

  /** Rollback gets to switch: the tag is a commit, the checks pass, and all its images exist. */
  predicate Switches(site: Site, tag: string, failing: Option<RollbackStep>) {
    CommitTag(tag) && failing != Some(RollbackChecks) && ImagesOf(tag) <= site.images
  }

  function Rollback(site: Site, tag: string, failing: Option<RollbackStep>): (Site, Outcome) {
    var switches := Switches(site, tag, failing);
    (Site(site.images,
          if switches && failing.None? then Record(Some(tag), site.record.current) else site.record,
          if !switches then site.running else if failing == Some(SwitchBack) then Mixture else Version(tag)),
     if !CommitTag(tag) then BadTag
     else if failing != Some(RollbackChecks) && !switches then ImageMissing
     else if failing.None? then RolledBack
     else Failed)
  }

  predicate Kept(record: Record, tag: string) {
    CommitTag(tag) && (record.current == Some(tag) || record.previous == Some(tag))
  }

  function Removable(site: Site): set<Image> {
    set i | i in site.images && CommitTag(i.tag) && !Kept(site.record, i.tag)
  }

  function Cleanup(site: Site, fate: CleanupFate): (Site, Outcome) {
    if fate.failsBefore then (site, Failed)
    else if fate.removeFails && Removable(site) != {} then
      (site.(images := site.images - (fate.removed * Removable(site))), Failed)
    else (site.(images := site.images - Removable(site)), Cleaned)
  }

  lemma BuiltTwice(images: set<Image>, tag: string, a: set<Service>, b: set<Service>)
    ensures Built(Built(images, tag, a), tag, b) == Built(images, tag, a + b)
  {
  }

  /** Apply deploys exactly a commit tag that is checked out, with no step failing. Then it has recorded it
      with the release before, runs it and has its four images; otherwise the record stays. Images are only
      added, and only of this tag; what runs changes only from the switch on. */
  lemma ApplyDecides(site: Site, tag: string, head: string, fate: ApplyFate)
    ensures var (t, outcome) := Apply(site, tag, head, fate);
      && (outcome == Deployed <==> CommitTag(tag) && head == tag && fate.failing.None?)
      && (outcome == Deployed ==>
            t == Site(site.images + ImagesOf(tag), Record(Some(tag), site.record.current), Version(tag)))
      && (outcome != Deployed ==> t.record == site.record)
      && site.images <= t.images <= site.images + ImagesOf(tag)
      && (t.running != site.running ==>
            CommitTag(tag) && head == tag
            && fate.failing in {None, Some(Switch), Some(GatewayHealth), Some(RecordApply)})
      && (outcome == BadTag <==> !CommitTag(tag))
      && (outcome == CommitMismatch <==> CommitTag(tag) && fate.failing != Some(Checks) && head != tag)
  {
    AllServicesBuilt(site.images, tag);
  }

  lemma AllServicesBuilt(images: set<Image>, tag: string)
    ensures Built(images, tag, COMPOSE_SERVICES + {PublicAgent}) == images + ImagesOf(tag)
  {
    assert COMPOSE_SERVICES + {PublicAgent} == SERVICES;
  }

  /** Rollback switches exactly to a commit tag with all its images, with no step failing. Then it has
      recorded it with the release before and runs it; otherwise the record stays. Images never change. */
  lemma RollbackDecides(site: Site, tag: string, failing: Option<RollbackStep>)
    ensures var (t, outcome) := Rollback(site, tag, failing);
      && (outcome == RolledBack <==> CommitTag(tag) && ImagesOf(tag) <= site.images && failing.None?)
      && (outcome == RolledBack ==> t == Site(site.images, Record(Some(tag), site.record.current), Version(tag)))
      && (outcome != RolledBack ==> t.record == site.record)
      && t.images == site.images
      && (outcome == ImageMissing <==>
            CommitTag(tag) && failing != Some(RollbackChecks) && !(ImagesOf(tag) <= site.images))
      && (outcome in {BadTag, ImageMissing} ==> t == site)
  {
  }

  // ----- The controller -----

  class DeployController {
    var images: set<Image>
    var record: Record
    var running: Running

    constructor (site: Site)
      ensures Here() == site
    {
      images, record, running := site.images, site.record, site.running;
    }

    ghost function Here(): Site
      reads this
    {
      Site(images, record, running)
    }

    method Build(tag: string, services: set<Service>)
      modifies this`images
      ensures images == Built(old(images), tag, services)
    {
      images := images + set s | s in services :: Image(s, tag);
    }

    method ApplyRelease(tag: string, head: string, fate: ApplyFate) returns (outcome: Outcome)
      modifies this
      ensures (Here(), outcome) == Apply(old(Here()), tag, head, fate)
    {
      if !CommitTag(tag) { return BadTag; }
      if fate.failing == Some(Checks) { return Failed; }
      if head != tag { return CommitMismatch; }
      var previous := record.current;
      if fate.failing == Some(BuildCompose) {
        Build(tag, fate.partial * COMPOSE_SERVICES);
        assert BuiltServices(fate) == fate.partial * COMPOSE_SERVICES;
        return Failed;
      }
      Build(tag, COMPOSE_SERVICES);
      assert fate.failing == Some(BuildAgent) ==> BuiltServices(fate) == COMPOSE_SERVICES;
      if fate.failing == Some(BuildAgent) { return Failed; }
      Build(tag, {PublicAgent});
      BuiltTwice(old(images), tag, COMPOSE_SERVICES, {PublicAgent});
      if fate.failing == Some(StartData) { return Failed; }
      if fate.failing == Some(Backup) { return Failed; }
      if fate.failing == Some(Migrate) { return Failed; }
      running := if fate.failing == Some(Switch) then Mixture else Version(tag);
      if fate.failing == Some(Switch) || fate.failing == Some(GatewayHealth) {
        if previous.Some? && CommitTag(previous.value) {
          if fate.restorable && ImagesOf(previous.value) <= images {
            running := Version(previous.value);
            return FailedAndRestored;
          }
          running := Mixture;
          return FailedAndRestoreFailed;
        }
        return Failed;
      }
      if fate.failing == Some(RecordApply) { return Failed; }
      record := Record(Some(tag), previous);
      return Deployed;
    }

    method RollBackTo(tag: string, failing: Option<RollbackStep>) returns (outcome: Outcome)
      modifies this`record, this`running
      ensures (Here(), outcome) == Rollback(old(Here()), tag, failing)
    {
      if !CommitTag(tag) { return BadTag; }
      if failing == Some(RollbackChecks) { return Failed; }
      if !(ImagesOf(tag) <= images) { return ImageMissing; }
      var current := record.current;
      if failing == Some(SwitchBack) {
        running := Mixture;
        return Failed;
      }
      running := Version(tag);
      if failing.Some? && (failing.value.BackHealth? || failing.value.RecordRollback?) { return Failed; }
      record := Record(Some(tag), current);
      return RolledBack;
    }

    method CleanUp(fate: CleanupFate) returns (outcome: Outcome)
      modifies this`images
      ensures (Here(), outcome) == Cleanup(old(Here()), fate)
    {
      if fate.failsBefore { return Failed; }
      var removable := set i | i in images && CommitTag(i.tag) && !Kept(record, i.tag);
      if removable != {} {
        if fate.removeFails {
          images := images - (fate.removed * removable);
          return Failed;
        }
        images := images - removable;
      } else {
        assert images - removable == images;
      }
      return Cleaned;
    }
  }

  // ----- Image retention -----

  datatype Operation =
    | DoApply(tag: string, head: string, applyFate: ApplyFate)
    | DoRollback(tag: string, failing: Option<RollbackStep>)
    | DoCleanup(cleanupFate: CleanupFate)

  function Next(site: Site, op: Operation): (Site, Outcome) {
    match op
    case DoApply(tag, head, fate) => Apply(site, tag, head, fate)
    case DoRollback(tag, failing) => Rollback(site, tag, failing)
    case DoCleanup(fate) => Cleanup(site, fate)
  }

  function Run(site: Site, ops: seq<Operation>): Site {
    if ops == [] then site else Next(Run(site, ops[..|ops| - 1]), ops[|ops| - 1]).0
  }

  /** All four images of both recorded releases exist. */
  ghost predicate Retained(site: Site) {
    && (site.record.current.Some? ==> ImagesOf(site.record.current.value) <= site.images)
    && (site.record.previous.Some? ==> ImagesOf(site.record.previous.value) <= site.images)
  }

  lemma BuildCompletes(images: set<Image>, tag: string)
    ensures ImagesOf(tag) <= Built(Built(images, tag, COMPOSE_SERVICES), tag, {PublicAgent})
  {
    forall i | i in ImagesOf(tag) ensures i in Built(Built(images, tag, COMPOSE_SERVICES), tag, {PublicAgent}) {
      assert i.service in COMPOSE_SERVICES || i.service == PublicAgent;
    }
  }

  /** Removal never touches an image of a recorded release, even one recorded under an odd tag. */
  lemma RecordedNotRemovable(site: Site, tag: string)
    requires site.record.current == Some(tag) || site.record.previous == Some(tag)
    ensures ImagesOf(tag) !! Removable(site)
  {
    forall i | i in ImagesOf(tag) ensures i !in Removable(site) {
      assert i.tag == tag;
    }
  }

  lemma NextRetains(site: Site, op: Operation)
    requires Retained(site)
    ensures Retained(Next(site, op).0)
  {
    match op
    case DoApply(tag, head, fate) => BuildCompletes(site.images, tag);
    case DoRollback(tag, failing) =>
    case DoCleanup(fate) =>
      if site.record.current.Some? { RecordedNotRemovable(site, site.record.current.value); }
      if site.record.previous.Some? { RecordedNotRemovable(site, site.record.previous.value); }
  }

  /** From any site whose recorded releases have their images, whatever operations follow and wherever
      they fail: the recorded releases keep all four images. */
  lemma {:induction false} RunRetains(site: Site, ops: seq<Operation>)
    requires Retained(site)
    ensures Retained(Run(site, ops))
  {
    if ops != [] {
      RunRetains(site, ops[..|ops| - 1]);
      NextRetains(Run(site, ops[..|ops| - 1]), ops[|ops| - 1]);
    }
  }

  /** So rolling back to the recorded previous release always passes its image check. */
  lemma PreviousAlwaysAvailable(site: Site, ops: seq<Operation>, failing: Option<RollbackStep>)
    requires Retained(site) && Run(site, ops).record.previous.Some?
    ensures var s := Run(site, ops);
      var (t, outcome) := Rollback(s, s.record.previous.value, failing);
      && outcome != ImageMissing
      && (CommitTag(s.record.previous.value) && failing.None? ==>
            outcome == RolledBack && t.running == Version(s.record.previous.value)
            && t.record == Record(s.record.previous, s.record.current))
  {
    RunRetains(site, ops);
  }

  /** And a failed switch or health check in apply comes back to the recorded release unless bringing it
      up fails for a reason other than its images; the record still names that release. */
  lemma RestoreFindsItsImages(site: Site, ops: seq<Operation>, tag: string, fate: ApplyFate)
    requires Retained(site) && CommitTag(tag) && fate.failing in {Some(Switch), Some(GatewayHealth)}
    requires var s := Run(site, ops); s.record.current.Some? && CommitTag(s.record.current.value)
    ensures var s := Run(site, ops);
      var (t, outcome) := Apply(s, tag, tag, fate);
      && t.record == s.record
      && outcome == (if fate.restorable then FailedAndRestored else FailedAndRestoreFailed)
      && (fate.restorable ==> t.running == Version(s.record.current.value))
  {
    RunRetains(site, ops);
  }

  /** A cleanup that succeeds leaves Sage images of the two recorded releases only. */
  lemma CleanupLeavesRecordedOnly(site: Site, fate: CleanupFate)
    requires Cleanup(site, fate).1 == Cleaned
    ensures forall i :: i in Cleanup(site, fate).0.images <==>
              i in site.images && (CommitTag(i.tag) ==> Kept(site.record, i.tag))
  {
  }
}
