// The ownership engine of scripts/install_plan.py: a file is owned by whoever wrote the content that is
// on the disk, and only content known from the last official manifest is ever replaced or removed.

module Installer {
  import opened Options
  import opened Collections

  type Path = string
  type Content = string

  // A collision-free digest.
  datatype Digest = Sha256(content: Content)

  // The digest field of a manifest entry may be missing.
  type Manifest = map<Path, Option<Digest>>

  datatype Entry = File(content: Content) | Directory | Link

  type Disk = map<Path, Entry>

  type Backup = map<Path, Content>

  // A release: its manifest, its files, and which of them are the installed files themselves.
  datatype Package = Package(manifest: Manifest, files: map<Path, Content>, same: set<Path>, inPlace: bool)

  // ---- Decision table -----------------------------------------------------------------------

  datatype Action =
    | InstallNew | Replace | SkipCurrent | Retire
    | MissingKept | KeepModifiedRetired | KeepUnknown
    | ConflictModified | ConflictCollision | ConflictReparse | ConflictKind

  datatype Step = Step(path: Path, action: Action, backup: bool)

  predicate Writes(a: Action) {
    a.InstallNew? || a.Replace? || a.Retire?
  }

  // Is this the content the manifest recorded for the path?
  predicate Official(m: Manifest, path: Path, content: Content) {
    path in m && m[path] == Some(Sha256(content))
  }

  function Decide(newer: Manifest, older: Manifest, disk: Disk, path: Path): Option<Step> {
    if path in disk && !disk[path].File? then
      if path !in newer && path !in older && !disk[path].Link? then None
      else Some(Step(path, if disk[path].Link? then ConflictReparse else ConflictKind, false))
    else if path in newer then
      if path !in disk then Some(Step(path, if path in older then MissingKept else InstallNew, false))
      else if path !in older then Some(Step(path, ConflictCollision, true))
      else if !Official(older, path, disk[path].content) then Some(Step(path, ConflictModified, true))
      else if Official(newer, path, disk[path].content) then Some(Step(path, SkipCurrent, false))
      else Some(Step(path, Replace, true))
    else if path !in disk then None
    else if path !in older then Some(Step(path, KeepUnknown, false))
    else if Official(older, path, disk[path].content) then Some(Step(path, Retire, true))
    else Some(Step(path, KeepModifiedRetired, false))
  }

  // The steps for the first `n` paths.
  function Plan(newer: Manifest, older: Manifest, disk: Disk, order: seq<Path>, n: nat): seq<Step>
    requires n <= |order|
  {
    if n == 0 then []
    else
      var plan := Plan(newer, older, disk, order, n - 1);
      var step := Decide(newer, older, disk, order[n - 1]);
      if step.Some? then plan + [step.value] else plan
  }

  // Every path of the three tables, once.
  ghost predicate Lists(order: seq<Path>, newer: Manifest, older: Manifest, disk: Disk) {
    Distinct(order) && forall p :: p in order <==> p in newer || p in older || p in disk
  }

  method BuildPlan(newMap: Manifest, oldMap: Manifest, disk: Disk, order: seq<Path>) returns (plan: seq<Step>)
    ensures plan == Plan(newMap, oldMap, disk, order, |order|)
  {
    plan := [];
    for i := 0 to |order|
      invariant plan == Plan(newMap, oldMap, disk, order, i)
    {
      var key := order[i];
      var n, o, d := key in newMap, key in oldMap, key in disk;
      if d && !disk[key].File? {
        if !n && !o && !disk[key].Link? {
          continue;
        }
        plan := plan + [Step(key, if disk[key].Link? then ConflictReparse else ConflictKind, false)];
        continue;
      }
      var hd: Option<Digest> := if d then Some(Sha256(disk[key].content)) else None;
      if n {
        if !d {
          plan := plan + [Step(key, if o then MissingKept else InstallNew, false)];
        } else if o {
          if hd == oldMap[key] {
            plan := plan + [Step(key, if newMap[key] == hd then SkipCurrent else Replace, newMap[key] != hd)];
          } else {
            plan := plan + [Step(key, ConflictModified, true)];
          }
        } else {
          plan := plan + [Step(key, ConflictCollision, true)];
        }
      } else if d {
        if o {
          if hd == oldMap[key] {
            plan := plan + [Step(key, Retire, true)];
          } else {
            plan := plan + [Step(key, KeepModifiedRetired, false)];
          }
        } else {
          plan := plan + [Step(key, KeepUnknown, false)];
        }
      }
    }
  }

  ghost predicate Listed(order: seq<Path>, n: nat, path: Path)
    requires n <= |order|
  {
    exists i :: 0 <= i < n && order[i] == path
  }

  // Is one of the first `n` steps about this path?
  ghost predicate Reached(plan: seq<Step>, n: nat, path: Path)
    requires n <= |plan|
  {
    exists k :: 0 <= k < n && plan[k].path == path
  }

  ghost predicate OncePerPath(plan: seq<Step>) {
    forall k, l | 0 <= k < l < |plan| :: plan[k].path != plan[l].path
  }

  // Every step of a plan is the decision for its path, and every path with a decision has a step.
  ghost predicate Decided(plan: seq<Step>, newer: Manifest, older: Manifest, disk: Disk) {
    forall k | 0 <= k < |plan| :: Decide(newer, older, disk, plan[k].path) == Some(plan[k])
  }

  lemma {:induction false} PlanDecides(newer: Manifest, older: Manifest, disk: Disk, order: seq<Path>, n: nat)
    requires n <= |order|
    ensures Decided(Plan(newer, older, disk, order, n), newer, older, disk)
  {
    if n > 0 {
      PlanDecides(newer, older, disk, order, n - 1);
    }
  }

  lemma {:induction false} PlanReaches(
    newer: Manifest, older: Manifest, disk: Disk, order: seq<Path>, n: nat, path: Path)
    requires n <= |order|
    ensures
      var plan := Plan(newer, older, disk, order, n);
      Reached(plan, |plan|, path) <==> Listed(order, n, path) && Decide(newer, older, disk, path).Some?
  {
    if n > 0 {
      PlanReaches(newer, older, disk, order, n - 1, path);
      var before, plan := Plan(newer, older, disk, order, n - 1), Plan(newer, older, disk, order, n);
      assert Listed(order, n, path) <==> Listed(order, n - 1, path) || order[n - 1] == path;
      if |plan| > |before| {
        assert Reached(plan, |plan|, path) <==> Reached(before, |before|, path) || order[n - 1] == path by {
          assert plan[..|before|] == before;
          if Reached(before, |before|, path) {
            var k :| 0 <= k < |before| && before[k].path == path;
            assert plan[k].path == path;
          }
          assert plan[|before|].path == order[n - 1];
        }
      }
    }
  }

  lemma {:induction false} PlanOnce(newer: Manifest, older: Manifest, disk: Disk, order: seq<Path>, n: nat)
    requires n <= |order| && Distinct(order)
    ensures OncePerPath(Plan(newer, older, disk, order, n))
  {
    if n > 0 {
      PlanOnce(newer, older, disk, order, n - 1);
      var before := Plan(newer, older, disk, order, n - 1);
      PlanReaches(newer, older, disk, order, n - 1, order[n - 1]);
      assert !Listed(order, n - 1, order[n - 1]);
      assert forall k | 0 <= k < |before| :: before[k].path != order[n - 1];
    }
  }

  // ---- Applying a plan ----------------------------------------------------------------------

  datatype Progress = Progress(disk: Disk, backup: Backup)

  // A step saves the file it is about to replace or remove.
  function Saved(p: Progress, s: Step): Backup {
    if s.backup && s.path in p.disk && p.disk[s.path].File? then p.backup[s.path := p.disk[s.path].content]
    else p.backup
  }

  // One step; None when the source of a copy is missing, which stops the run.
  function Perform(p: Progress, s: Step, pkg: Package): Option<Progress> {
    var isFile := s.path in p.disk && p.disk[s.path].File?;
    var backup := Saved(p, s);
    match s.action
    case InstallNew => Copy(p.disk, backup, s.path, pkg)
    case Replace => Copy(p.disk, backup, s.path, pkg)
    case Retire => Some(Progress(if isFile then p.disk - {s.path} else p.disk, backup))
    case _ => Some(Progress(p.disk, backup))
  }

  function Copy(disk: Disk, backup: Backup, path: Path, pkg: Package): Option<Progress> {
    if path in disk && path in pkg.same then Some(Progress(disk, backup))
    else if path !in pkg.files then None
    else Some(Progress(disk[path := File(pkg.files[path])], backup))
  }

  function PerformAll(disk: Disk, plan: seq<Step>, n: nat, pkg: Package): Option<Progress>
    requires n <= |plan|
  {
    if n == 0 then Some(Progress(disk, map[]))
    else
      match PerformAll(disk, plan, n - 1, pkg)
      case None => None
      case Some(p) => Perform(p, plan[n - 1], pkg)
  }

  // What is on a path.
  function On(disk: Disk, path: Path): Option<Entry> {
    if path in disk then Some(disk[path]) else None
  }

  // What a completed upgrade leaves on one path: official content follows the new release, a path
  // that no manifest knew gets its new file, everything else is left as it is.
  function Upgraded(newer: Manifest, older: Manifest, disk: Disk, pkg: Package, path: Path): Option<Entry> {
    if path in disk && disk[path].File? && Official(older, path, disk[path].content) then
      if path !in newer then None
      else if Official(newer, path, disk[path].content) || path in pkg.same || path !in pkg.files then Some(disk[path])
      else Some(File(pkg.files[path]))
    else if path !in disk && path in newer && path !in older then
      if path in pkg.files then Some(File(pkg.files[path])) else None
    else On(disk, path)
  }

  // After the first `n` steps: a path has either its old or its final entry, and what was replaced or
  // removed is in the backup.
  ghost predicate SettledOn(
    path: Path, disk: Disk, plan: seq<Step>, n: nat, p: Progress, newer: Manifest, older: Manifest, pkg: Package)
    requires n <= |plan|
  {
    && On(p.disk, path) == (if Reached(plan, n, path) then Upgraded(newer, older, disk, pkg, path) else On(disk, path))
    && (path in disk && On(p.disk, path) != On(disk, path) ==>
          disk[path].File? && path in p.backup && p.backup[path] == disk[path].content)
  }

  lemma StepSettles(disk: Disk, plan: seq<Step>, n: nat, newer: Manifest, older: Manifest, pkg: Package, path: Path)
    requires n < |plan| && Decide(newer, older, disk, plan[n].path) == Some(plan[n])
    requires PerformAll(disk, plan, n, pkg).Some? && PerformAll(disk, plan, n + 1, pkg).Some?
    requires SettledOn(path, disk, plan, n, PerformAll(disk, plan, n, pkg).value, newer, older, pkg)
    requires plan[n].path == path ==> !Reached(plan, n, path)
    ensures SettledOn(path, disk, plan, n + 1, PerformAll(disk, plan, n + 1, pkg).value, newer, older, pkg)
  {
    assert Reached(plan, n + 1, path) <==> Reached(plan, n, path) || plan[n].path == path;
  }

  lemma {:induction false} ProgressSettles(
    disk: Disk, plan: seq<Step>, n: nat, newer: Manifest, older: Manifest, pkg: Package, path: Path)
    requires n <= |plan|
    requires Decided(plan, newer, older, disk) && OncePerPath(plan)
    requires PerformAll(disk, plan, n, pkg).Some?
    ensures SettledOn(path, disk, plan, n, PerformAll(disk, plan, n, pkg).value, newer, older, pkg)
  {
    if n > 0 {
      ProgressSettles(disk, plan, n - 1, newer, older, pkg, path);
      StepSettles(disk, plan, n - 1, newer, older, pkg, path);
    }
  }

  // A completed upgrade leaves exactly the upgraded disk, whatever order the paths were taken in.
  lemma CompletedUpgrade(newer: Manifest, older: Manifest, disk: Disk, pkg: Package, order: seq<Path>, path: Path)
    requires Lists(order, newer, older, disk)
    ensures
      var plan := Plan(newer, older, disk, order, |order|);
      var done := PerformAll(disk, plan, |plan|, pkg);
      done.Some? ==> On(done.value.disk, path) == Upgraded(newer, older, disk, pkg, path)
  {
    var plan := Plan(newer, older, disk, order, |order|);
    PlanDecides(newer, older, disk, order, |order|);
    PlanOnce(newer, older, disk, order, |order|);
    PlanReaches(newer, older, disk, order, |order|, path);
    if PerformAll(disk, plan, |plan|, pkg).Some? {
      ProgressSettles(disk, plan, |plan|, newer, older, pkg, path);
    }
  }

  // ---- Safety of one run, interrupted anywhere ----------------------------------------------

  // Content the recorded manifest does not vouch for stays on its path; so do links, directories and
  // everything no manifest knows.
  lemma OwnedByUserStays(
    newer: Manifest, older: Manifest, disk: Disk, pkg: Package, order: seq<Path>, n: nat, path: Path)
    requires Lists(order, newer, older, disk) && n <= |Plan(newer, older, disk, order, |order|)|
    requires path in disk && (disk[path].File? ==> !Official(older, path, disk[path].content))
    ensures
      var done := PerformAll(disk, Plan(newer, older, disk, order, |order|), n, pkg);
      done.Some? ==> On(done.value.disk, path) == Some(disk[path])
  {
    var plan := Plan(newer, older, disk, order, |order|);
    PlanDecides(newer, older, disk, order, |order|);
    PlanOnce(newer, older, disk, order, |order|);
    if PerformAll(disk, plan, n, pkg).Some? {
      ProgressSettles(disk, plan, n, newer, older, pkg, path);
    }
  }

  // No content is lost: what was on a path is still there or in the backup of this run.
  lemma NothingIsLost(newer: Manifest, older: Manifest, disk: Disk, pkg: Package, order: seq<Path>, n: nat, path: Path)
    requires Lists(order, newer, older, disk) && n <= |Plan(newer, older, disk, order, |order|)|
    requires path in disk && disk[path].File?
    ensures
      var done := PerformAll(disk, Plan(newer, older, disk, order, |order|), n, pkg);
      done.Some? ==>
        || On(done.value.disk, path) == Some(disk[path])
        || (path in done.value.backup && done.value.backup[path] == disk[path].content)
  {
    var plan := Plan(newer, older, disk, order, |order|);
    PlanDecides(newer, older, disk, order, |order|);
    PlanOnce(newer, older, disk, order, |order|);
    if PerformAll(disk, plan, n, pkg).Some? {
      ProgressSettles(disk, plan, n, newer, older, pkg, path);
    }
  }

  lemma {:induction false} QuietPlanChangesNothing(disk: Disk, plan: seq<Step>, n: nat, pkg: Package)
    requires n <= |plan| && forall k | 0 <= k < |plan| :: !Writes(plan[k].action)
    ensures PerformAll(disk, plan, n, pkg).Some? && PerformAll(disk, plan, n, pkg).value.disk == disk
  {
    if n > 0 {
      QuietPlanChangesNothing(disk, plan, n - 1, pkg);
    }
  }

  // The files a run saves before it goes on: those it will replace or remove, and those of the release that
  // are in conflict. A file that is already what the release wants, or that no release knows, is not saved.
  ghost predicate IsSaved(newer: Manifest, older: Manifest, path: Path, content: Content) {
    if path in newer then !(Official(older, path, content) && Official(newer, path, content))
    else Official(older, path, content)
  }

  // A step is marked for backup exactly when it is about such a file.
  lemma BackupFlag(newer: Manifest, older: Manifest, disk: Disk, path: Path)
    requires Decide(newer, older, disk, path).Some?
    ensures Decide(newer, older, disk, path).value.backup
       <==> path in disk && disk[path].File? && IsSaved(newer, older, path, disk[path].content)
  {
  }

  lemma {:induction false} SavedSoFar(
    disk: Disk, plan: seq<Step>, n: nat, newer: Manifest, older: Manifest, pkg: Package, path: Path)
    requires n <= |plan| && OncePerPath(plan) && Decided(plan, newer, older, disk)
    requires PerformAll(disk, plan, n, pkg).Some?
    ensures
      var p := PerformAll(disk, plan, n, pkg).value;
      && (path in p.backup <==>
            && path in disk && disk[path].File? && Reached(plan, n, path)
            && IsSaved(newer, older, path, disk[path].content))
      && (path in p.backup ==> p.backup[path] == disk[path].content)
      && (!Reached(plan, n, path) ==> On(p.disk, path) == On(disk, path))
  {
    if n > 0 {
      SavedSoFar(disk, plan, n - 1, newer, older, pkg, path);
      assert Reached(plan, n, path) <==> Reached(plan, n - 1, path) || plan[n - 1].path == path;
    }
  }

  // After a completed run the backup holds exactly these, each with the content it had.
  lemma BackupHolds(newer: Manifest, older: Manifest, disk: Disk, pkg: Package, order: seq<Path>, path: Path)
    requires Lists(order, newer, older, disk)
    ensures
      var plan := Plan(newer, older, disk, order, |order|);
      var done := PerformAll(disk, plan, |plan|, pkg);
      done.Some? ==>
        && (path in done.value.backup <==>
              path in disk && disk[path].File? && IsSaved(newer, older, path, disk[path].content))
        && (path in done.value.backup ==> done.value.backup[path] == disk[path].content)
  {
    var plan := Plan(newer, older, disk, order, |order|);
    PlanDecides(newer, older, disk, order, |order|);
    PlanOnce(newer, older, disk, order, |order|);
    PlanReaches(newer, older, disk, order, |order|, path);
    assert path in disk ==> path in order;
    if PerformAll(disk, plan, |plan|, pkg).Some? {
      SavedSoFar(disk, plan, |plan|, newer, older, pkg, path);
    }
  }

  // Installing the release whose manifest is the baseline is a run without a single write, whatever
  // is on the disk; so a second run changes nothing, even when the files of the release were not
  // what its manifest says.
  lemma SameReleaseIsQuiet(m: Manifest, disk: Disk, pkg: Package, order: seq<Path>)
    ensures
      var plan := Plan(m, m, disk, order, |order|);
      && (forall k | 0 <= k < |plan| :: !Writes(plan[k].action))
      && PerformAll(disk, plan, |plan|, pkg).Some? && PerformAll(disk, plan, |plan|, pkg).value.disk == disk
  {
    var plan := Plan(m, m, disk, order, |order|);
    PlanDecides(m, m, disk, order, |order|);
    QuietPlanChangesNothing(disk, plan, |plan|, pkg);
  }

  // Taking the upgrade further does not change what it aims at.
  lemma UpgradedStays(newer: Manifest, older: Manifest, disk: Disk, later: Disk, pkg: Package, path: Path)
    requires On(later, path) == On(disk, path) || On(later, path) == Upgraded(newer, older, disk, pkg, path)
    ensures Upgraded(newer, older, later, pkg, path) == Upgraded(newer, older, disk, pkg, path)
  {
  }

  // A run that was interrupted can be run again: the second run leaves what the first one aimed at.
  lemma RerunCompletes(
    newer: Manifest, older: Manifest, disk: Disk, pkg: Package, order: seq<Path>, n: nat, again: seq<Path>, path: Path)
    requires Lists(order, newer, older, disk) && n <= |Plan(newer, older, disk, order, |order|)|
    requires PerformAll(disk, Plan(newer, older, disk, order, |order|), n, pkg).Some?
    requires Lists(again, newer, older, PerformAll(disk, Plan(newer, older, disk, order, |order|), n, pkg).value.disk)
    ensures
      var later := PerformAll(disk, Plan(newer, older, disk, order, |order|), n, pkg).value.disk;
      var plan := Plan(newer, older, later, again, |again|);
      var done := PerformAll(later, plan, |plan|, pkg);
      done.Some? ==> On(done.value.disk, path) == Upgraded(newer, older, disk, pkg, path)
  {
    var plan := Plan(newer, older, disk, order, |order|);
    var later := PerformAll(disk, plan, n, pkg).value.disk;
    PlanDecides(newer, older, disk, order, |order|);
    PlanOnce(newer, older, disk, order, |order|);
    ProgressSettles(disk, plan, n, newer, older, pkg, path);
    UpgradedStays(newer, older, disk, later, pkg, path);
    CompletedUpgrade(newer, older, later, pkg, again, path);
  }

  // ---- An installation over time ------------------------------------------------------------

  // What a site keeps: the files, the manifest in its install record, the flat manifest beside it, and
  // one backup for every run.
  datatype Site = Site(disk: Disk, recorded: Option<Manifest>, legacy: Option<Manifest>, backups: seq<Backup>)

  // The last official manifest: named explicitly, or the recorded one, or the flat one unless that
  // is the manifest of the release itself.
  function LoadBaseline(site: Site, explicit: Option<Manifest>, pkg: Package): Option<Manifest> {
    if explicit.Some? then explicit
    else if site.recorded.Some? then site.recorded
    else if pkg.inPlace then None
    else site.legacy
  }

  // What is named explicitly comes first, then the record, and the flat manifest only when the package is
  // somewhere else.
  lemma BaselineOrder(site: Site, explicit: Option<Manifest>, pkg: Package)
    ensures explicit.Some? ==> Baseline(site, explicit, pkg) == explicit.value
    ensures explicit.None? && site.recorded.Some? ==> Baseline(site, explicit, pkg) == site.recorded.value
    ensures explicit.None? && site.recorded.None? && site.legacy.Some? && !pkg.inPlace ==>
              Baseline(site, explicit, pkg) == site.legacy.value
    ensures explicit.None? && site.recorded.None? && (site.legacy.None? || pkg.inPlace) ==>
              Baseline(site, explicit, pkg) == map[]
  {
  }

  function Baseline(site: Site, explicit: Option<Manifest>, pkg: Package): Manifest {
    var m := LoadBaseline(site, explicit, pkg);
    if m.Some? then m.value else map[]
  }

  // Without any baseline a run that would meet existing files refuses to start.
  predicate NeedsReview(site: Site, explicit: Option<Manifest>, pkg: Package) {
    LoadBaseline(site, explicit, pkg).None? && exists p | p in pkg.manifest :: p in site.disk
  }

  function PlanAt(site: Site, explicit: Option<Manifest>, pkg: Package, order: seq<Path>): seq<Step> {
    Plan(pkg.manifest, Baseline(site, explicit, pkg), site.disk, order, |order|)
  }

  // How far the last thing a run does has come: the flat manifest is written first, then the record.
  datatype Records = Unwritten | FlatOnly | Complete

  function WriteRecords(site: Site, pkg: Package, records: Records): Site {
    match records
    case Unwritten => site
    case FlatOnly => site.(legacy := Some(pkg.manifest))
    case Complete => site.(recorded := Some(pkg.manifest), legacy := Some(pkg.manifest))
  }

  // A run that gets through `steps` steps of its plan and, when these are all, through `records`; or
  // an edit made by the user.
  datatype Event =
    | Upgrade(pkg: Package, explicit: Option<Manifest>, order: seq<Path>, steps: nat, records: Records)
    | Edit(disk: Disk)

  ghost predicate Possible(site: Site, e: Event) {
    e.Upgrade? && !NeedsReview(site, e.explicit, e.pkg) ==>
      && Lists(e.order, e.pkg.manifest, Baseline(site, e.explicit, e.pkg), site.disk)
      && e.steps <= |PlanAt(site, e.explicit, e.pkg, e.order)|
      && PerformAll(site.disk, PlanAt(site, e.explicit, e.pkg, e.order), e.steps, e.pkg).Some?
  }

  ghost function AfterEvent(site: Site, e: Event): Site
    requires Possible(site, e)
  {
    match e
    case Edit(disk) => site.(disk := disk)
    case Upgrade(pkg, explicit, order, steps, records) =>
      if NeedsReview(site, explicit, pkg) then site
      else
        var plan := PlanAt(site, explicit, pkg, order);
        var p := PerformAll(site.disk, plan, steps, pkg).value;
        var next := site.(disk := p.disk, backups := site.backups + [p.backup]);
        if steps == |plan| then WriteRecords(next, pkg, records) else next
  }

  // A possible history: upgrades, each possibly cut short, with edits in between.
  ghost predicate Happens(start: Site, events: seq<Event>, n: nat)
    requires n <= |events|
    decreases n, 0
  {
    n == 0 || (Happens(start, events, n - 1) && Possible(SiteAt(start, events, n - 1), events[n - 1]))
  }

  ghost function SiteAt(start: Site, events: seq<Event>, n: nat): Site
    requires n <= |events| && Happens(start, events, n)
    decreases n, 1
  {
    if n == 0 then start else AfterEvent(SiteAt(start, events, n - 1), events[n - 1])
  }

  // The event neither edits the path nor holds a manifest that vouches for what is on it.
  ghost predicate LeavesToUser(site: Site, e: Event, path: Path) {
    match e
    case Edit(disk) => On(disk, path) == On(site.disk, path)
    case Upgrade(pkg, explicit, _, _, _) =>
      path in site.disk && site.disk[path].File? ==>
        !Official(Baseline(site, explicit, pkg), path, site.disk[path].content)
  }

  ghost predicate LeavesAt(start: Site, events: seq<Event>, k: nat, path: Path)
    requires k < |events|
  {
    Happens(start, events, k) ==> LeavesToUser(SiteAt(start, events, k), events[k], path)
  }

  // Upgrading to a release a second time, whatever baseline the first time had, writes nothing on the
  // disk: the recorded manifest is the baseline now.
  lemma SecondUpgradeIsQuiet(
    site: Site, pkg: Package, explicit: Option<Manifest>, order: seq<Path>, again: seq<Path>, steps: nat,
    records: Records)
    requires !NeedsReview(site, explicit, pkg)
    requires Possible(site, Upgrade(pkg, explicit, order, |PlanAt(site, explicit, pkg, order)|, Complete))
    requires
      var first := AfterEvent(site, Upgrade(pkg, explicit, order, |PlanAt(site, explicit, pkg, order)|, Complete));
      Possible(first, Upgrade(pkg, None, again, steps, records))
    ensures
      var first := AfterEvent(site, Upgrade(pkg, explicit, order, |PlanAt(site, explicit, pkg, order)|, Complete));
      var second := AfterEvent(first, Upgrade(pkg, None, again, steps, records));
      && (forall k | 0 <= k < |PlanAt(first, None, pkg, again)| :: !Writes(PlanAt(first, None, pkg, again)[k].action))
      && second.disk == first.disk && second.recorded == first.recorded == Some(pkg.manifest)
  {
    var first := AfterEvent(site, Upgrade(pkg, explicit, order, |PlanAt(site, explicit, pkg, order)|, Complete));
    assert Baseline(first, None, pkg) == pkg.manifest;
    SameReleaseIsQuiet(pkg.manifest, first.disk, pkg, again);
    QuietPlanChangesNothing(first.disk, PlanAt(first, None, pkg, again), steps, pkg);
  }

  lemma EventLeaves(site: Site, e: Event, path: Path)
    requires Possible(site, e) && LeavesToUser(site, e, path) && path in site.disk
    ensures On(AfterEvent(site, e).disk, path) == Some(site.disk[path])
  {
    if e.Upgrade? && !NeedsReview(site, e.explicit, e.pkg) {
      OwnedByUserStays(e.pkg.manifest, Baseline(site, e.explicit, e.pkg), site.disk, e.pkg, e.order, e.steps, path);
    }
  }

  // Over any sequence of upgrades, complete or not, a file that differs from the baseline recorded at
  // each of them, or has none, is never overwritten and never deleted.
  lemma {:induction false} UserFilesStay(start: Site, events: seq<Event>, n: nat, path: Path)
    requires n <= |events| && Happens(start, events, n) && path in start.disk
    requires forall k | 0 <= k < n :: LeavesAt(start, events, k, path)
    ensures On(SiteAt(start, events, n).disk, path) == Some(start.disk[path])
  {
    if n > 0 {
      UserFilesStay(start, events, n - 1, path);
      assert LeavesAt(start, events, n - 1, path);
      EventLeaves(SiteAt(start, events, n - 1), events[n - 1], path);
    }
  }

  ghost predicate InBackup(backups: seq<Backup>, path: Path, content: Content) {
    exists b :: 0 <= b < |backups| && path in backups[b] && backups[b][path] == content
  }

  // Any file that was ever there is still on its path or in the backup of some run, unless the user
  // has edited that path since.
  lemma {:induction false} ContentSurvives(
    start: Site, events: seq<Event>, k: nat, n: nat, path: Path, content: Content)
    requires k <= n <= |events| && Happens(start, events, n) && Happens(start, events, k)
    requires On(SiteAt(start, events, k).disk, path) == Some(File(content))
    requires forall i | k <= i < n ::
               Happens(start, events, i) && events[i].Edit? ==>
                 On(events[i].disk, path) == On(SiteAt(start, events, i).disk, path)
    ensures On(SiteAt(start, events, n).disk, path) == Some(File(content))
         || InBackup(SiteAt(start, events, n).backups, path, content)
    decreases n
  {
    if k < n {
      ContentSurvives(start, events, k, n - 1, path, content);
      var site, e, after := SiteAt(start, events, n - 1), events[n - 1], SiteAt(start, events, n);
      if e.Upgrade? && !NeedsReview(site, e.explicit, e.pkg) {
        assert after.backups[..|site.backups|] == site.backups;
        if On(site.disk, path) == Some(File(content)) {
          NothingIsLost(e.pkg.manifest, Baseline(site, e.explicit, e.pkg), site.disk, e.pkg, e.order, e.steps, path);
          var b := |site.backups|;
          assert On(after.disk, path) == Some(File(content))
            || (path in after.backups[b] && after.backups[b][path] == content);
        } else {
          var b :| 0 <= b < |site.backups| && path in site.backups[b] && site.backups[b][path] == content;
          assert after.backups[b] == site.backups[b];
        }
      }
    }
  }

  // An official file the user has deleted is not brought back, as long as every release in between
  // still contains it.
  lemma {:induction false} DeletedStaysDeleted(start: Site, events: seq<Event>, n: nat, path: Path)
    requires n <= |events| && Happens(start, events, n)
    requires path !in start.disk && start.recorded.Some? && path in start.recorded.value
    requires forall k | 0 <= k < n ::
               Happens(start, events, k) ==>
                 match events[k]
                 case Edit(disk) => On(disk, path) == On(SiteAt(start, events, k).disk, path)
                 case Upgrade(pkg, explicit, _, _, _) => explicit.None? && path in pkg.manifest
    ensures
      var site := SiteAt(start, events, n);
      path !in site.disk && site.recorded.Some? && path in site.recorded.value
  {
    if n > 0 {
      DeletedStaysDeleted(start, events, n - 1, path);
      var site, e := SiteAt(start, events, n - 1), events[n - 1];
      if e.Upgrade? {
        var older := Baseline(site, e.explicit, e.pkg);
        var plan := PlanAt(site, e.explicit, e.pkg, e.order);
        PlanDecides(e.pkg.manifest, older, site.disk, e.order, |e.order|);
        PlanOnce(e.pkg.manifest, older, site.disk, e.order, |e.order|);
        ProgressSettles(site.disk, plan, e.steps, e.pkg.manifest, older, e.pkg, path);
      }
    }
  }

  // ---- The installer ------------------------------------------------------------------------

  predicate IsConflict(a: Action) {
    a.ConflictModified? || a.ConflictCollision? || a.ConflictReparse? || a.ConflictKind? || a.KeepModifiedRetired?
  }

  function Conflicts(plan: seq<Step>, n: nat): seq<Step>
    requires n <= |plan|
  {
    if n == 0 then []
    else if IsConflict(plan[n - 1].action) then Conflicts(plan, n - 1) + [plan[n - 1]]
    else Conflicts(plan, n - 1)
  }

  lemma {:induction false} ConflictsReach(
    plan: seq<Step>, n: nat, newer: Manifest, older: Manifest, disk: Disk, path: Path)
    requires n <= |plan| && Decided(plan, newer, older, disk)
    ensures Reached(Conflicts(plan, n), |Conflicts(plan, n)|, path)
       <==> Reached(plan, n, path) && IsConflict(Decide(newer, older, disk, path).value.action)
  {
    if n > 0 {
      ConflictsReach(plan, n - 1, newer, older, disk, path);
      assert Reached(plan, n, path) <==> Reached(plan, n - 1, path) || plan[n - 1].path == path;
      var before, after := Conflicts(plan, n - 1), Conflicts(plan, n);
      if IsConflict(plan[n - 1].action) {
        assert Reached(after, |after|, path) <==> Reached(before, |before|, path) || plan[n - 1].path == path by {
          assert after[|before|] == plan[n - 1] && after[..|before|] == before;
          if Reached(before, |before|, path) {
            var k :| 0 <= k < |before| && before[k].path == path;
            assert after[k].path == path;
          }
        }
      }
    }
  }

  // The links, the directories in the way, and the listed files that the baseline does not vouch for.
  predicate InConflict(newer: Manifest, older: Manifest, disk: Disk, path: Path) {
    && path in disk
    && match disk[path]
       case Link => true
       case Directory => path in newer || path in older
       case File(content) => (path in newer || path in older) && !Official(older, path, content)
  }

  lemma ConflictIsDecided(newer: Manifest, older: Manifest, disk: Disk, path: Path)
    ensures
      var step := Decide(newer, older, disk, path);
      step.Some? && IsConflict(step.value.action) <==> InConflict(newer, older, disk, path)
  {
  }

  // Whatever is kept against the release is reported, and nothing else is.
  lemma ConflictsReported(newer: Manifest, older: Manifest, disk: Disk, order: seq<Path>, path: Path)
    requires Lists(order, newer, older, disk)
    ensures
      var plan := Plan(newer, older, disk, order, |order|);
      var conflicts := Conflicts(plan, |plan|);
      Reached(conflicts, |conflicts|, path) <==> InConflict(newer, older, disk, path)
  {
    var plan := Plan(newer, older, disk, order, |order|);
    PlanDecides(newer, older, disk, order, |order|);
    PlanReaches(newer, older, disk, order, |order|, path);
    ConflictsReach(plan, |plan|, newer, older, disk, path);
    ConflictIsDecided(newer, older, disk, path);
    assert path in disk ==> path in order;
  }

  // How a path in conflict is reported, and which step of a plan that is.
  lemma ConflictKinds(newer: Manifest, older: Manifest, disk: Disk, order: seq<Path>, path: Path) returns (s: Step)
    requires Lists(order, newer, older, disk) && InConflict(newer, older, disk, path)
    ensures
      var plan := Plan(newer, older, disk, order, |order|);
      s in Conflicts(plan, |plan|) && s.path == path
    ensures s.action.ConflictReparse? <==> disk[path].Link?
    ensures s.action.ConflictKind? <==> disk[path].Directory?
    ensures s.action.ConflictCollision? <==> disk[path].File? && path in newer && path !in older
    ensures s.action.ConflictModified? <==> disk[path].File? && path in newer && path in older
    ensures s.action.KeepModifiedRetired? <==> disk[path].File? && path !in newer
  {
    var plan := Plan(newer, older, disk, order, |order|);
    ConflictsReported(newer, older, disk, order, path);
    var k :| 0 <= k < |Conflicts(plan, |plan|)| && Conflicts(plan, |plan|)[k].path == path;
    s := Conflicts(plan, |plan|)[k];
    ConflictsAreSteps(plan, |plan|, s);
    PlanDecides(newer, older, disk, order, |order|);
  }

  lemma {:induction false} ConflictsAreSteps(plan: seq<Step>, n: nat, s: Step)
    requires n <= |plan| && s in Conflicts(plan, n)
    ensures s in plan
  {
    if s in Conflicts(plan, n - 1) {
      ConflictsAreSteps(plan, n - 1, s);
    }
  }

  // A run that repeats an interrupted one still has the old baseline, so beside the conflicts of the
  // first run it reports those files the first run had written already, unless the old release had
  // them with the same content.
  lemma RerunReports(
    newer: Manifest, older: Manifest, disk: Disk, pkg: Package, order: seq<Path>, n: nat, again: seq<Path>, path: Path)
    requires Lists(order, newer, older, disk) && n <= |Plan(newer, older, disk, order, |order|)|
    requires PerformAll(disk, Plan(newer, older, disk, order, |order|), n, pkg).Some?
    requires Lists(again, newer, older, PerformAll(disk, Plan(newer, older, disk, order, |order|), n, pkg).value.disk)
    ensures
      var later := PerformAll(disk, Plan(newer, older, disk, order, |order|), n, pkg).value.disk;
      var plan := Plan(newer, older, later, again, |again|);
      var conflicts := Conflicts(plan, |plan|);
      Reached(conflicts, |conflicts|, path) <==>
      || InConflict(newer, older, disk, path)
      || (&& On(later, path) != On(disk, path) && path in later && later[path].File?
          && !Official(older, path, later[path].content))
  {
    var plan := Plan(newer, older, disk, order, |order|);
    var later := PerformAll(disk, plan, n, pkg).value.disk;
    PlanDecides(newer, older, disk, order, |order|);
    PlanOnce(newer, older, disk, order, |order|);
    ProgressSettles(disk, plan, n, newer, older, pkg, path);
    ConflictsReported(newer, older, later, again, path);
  }

  // Such a run: of two official files the first has been replaced, and the recorded manifest is still
  // the old one. That file was no conflict before; any run that follows reports it.
  lemma RerunReportsItsOwnWork(
    a: Path, b: Path, x: Content, y: Content, legacy: Option<Manifest>)
    returns (site: Site, e: Event)
    requires a != b && x != y
    ensures e.Upgrade? && e.explicit.None? && Possible(site, e) && !NeedsReview(site, None, e.pkg)
    ensures
      var later := AfterEvent(site, e);
      && later.recorded == site.recorded && later.recorded.Some? && !NeedsReview(later, None, e.pkg)
      && later.disk == site.disk[a := File(y)]
      && !InConflict(e.pkg.manifest, site.recorded.value, site.disk, a)
      && InConflict(e.pkg.manifest, later.recorded.value, later.disk, a)
      && forall again | Lists(again, e.pkg.manifest, later.recorded.value, later.disk) ::
           var plan := PlanAt(later, None, e.pkg, again);
           Reached(Conflicts(plan, |plan|), |Conflicts(plan, |plan|)|, a)
  {
    var older: Manifest := map[a := Some(Sha256(x)), b := Some(Sha256(x))];
    var newer: Manifest := map[a := Some(Sha256(y)), b := Some(Sha256(y))];
    var disk: Disk := map[a := File(x), b := File(x)];
    var pkg, order := Package(newer, map[a := y, b := y], {}, false), [a, b];
    site := Site(disk, Some(older), legacy, []);
    e := Upgrade(pkg, None, order, 1, Unwritten);
    TwoReplaced(a, b, newer, older, disk, order);
    var plan := Plan(newer, older, disk, order, 2);
    assert PerformAll(disk, plan, 0, pkg) == Some(Progress(disk, map[]));
    assert PerformAll(disk, plan, 1, pkg) == Perform(Progress(disk, map[]), plan[0], pkg);
    var later := AfterEvent(site, e);
    forall again | Lists(again, newer, older, later.disk)
      ensures
        var plan := PlanAt(later, None, pkg, again);
        Reached(Conflicts(plan, |plan|), |Conflicts(plan, |plan|)|, a)
    {
      ConflictsReported(newer, older, later.disk, again, a);
    }
  }

  lemma TwoReplaced(a: Path, b: Path, newer: Manifest, older: Manifest, disk: Disk, order: seq<Path>)
    requires order == [a, b]
    requires forall p | p in order :: Decide(newer, older, disk, p) == Some(Step(p, Replace, true))
    ensures Plan(newer, older, disk, order, 2) == [Step(a, Replace, true), Step(b, Replace, true)]
  {
    assert order[0] == a && order[1] == b && a in order && b in order;
    assert Plan(newer, older, disk, order, 0) == [];
    assert Plan(newer, older, disk, order, 1) == [Step(a, Replace, true)];
  }

  datatype Outcome = Completed | ReviewNeeded | SourceMissing

  class Installation {
    var disk: Disk
    var recorded: Option<Manifest>
    var legacy: Option<Manifest>
    var backups: seq<Backup>

    ghost function AsSite(): Site
      reads this
    {
      Site(disk, recorded, legacy, backups)
    }

    constructor (disk: Disk)
      ensures AsSite() == Site(disk, None, None, [])
    {
      this.disk := disk;
      recorded, legacy := None, None;
      backups := [];
    }

    method ApplyPlan(plan: seq<Step>, pkg: Package) returns (conflicts: seq<Step>, ok: bool, ghost done: nat)
      modifies `disk, `backups
      ensures done <= |plan| && PerformAll(old(disk), plan, done, pkg).Some?
      ensures
        var p := PerformAll(old(disk), plan, done, pkg).value;
        if ok then
          && done == |plan| && conflicts == Conflicts(plan, |plan|)
          && disk == p.disk && backups == old(backups) + [p.backup]
        else
          && done < |plan| && PerformAll(old(disk), plan, done + 1, pkg).None?
          && disk == p.disk && backups == old(backups) + [Saved(p, plan[done])]
    {
      conflicts := [];
      ok := true;
      var backup: Backup := map[];
      for i := 0 to |plan|
        modifies `disk, `backups
        invariant backups == old(backups)
        invariant PerformAll(old(disk), plan, i, pkg) == Some(Progress(disk, backup))
        invariant conflicts == Conflicts(plan, i)
      {
        var step := plan[i];
        done := i;
        ghost var before := backup;
        if step.backup && step.path in disk && disk[step.path].File? {
          backup := backup[step.path := disk[step.path].content];
        }
        if step.action.InstallNew? || step.action.Replace? {
          if step.path in disk && step.path in pkg.same {
            continue;
          }
          if step.path !in pkg.files {
            backups := backups + [backup];
            return conflicts, false, i;
          }
          disk := disk[step.path := File(pkg.files[step.path])];
        } else if step.action.Retire? {
          if step.path in disk && disk[step.path].File? {
            disk := disk - {step.path};
          }
        } else if IsConflict(step.action) {
          conflicts := conflicts + [step];
        }
      }
      backups := backups + [backup];
      done := |plan|;
    }

    // cmd_apply: refuse without a baseline, otherwise plan, apply and record.
    method Apply(pkg: Package, explicit: Option<Manifest>, order: seq<Path>)
      returns (outcome: Outcome, conflicts: seq<Step>, ghost steps: nat)
      requires Lists(order, pkg.manifest, Baseline(AsSite(), explicit, pkg), disk)
      modifies this
      ensures Possible(old(AsSite()), Upgrade(pkg, explicit, order, steps, Complete))
      ensures outcome.ReviewNeeded? <==> NeedsReview(old(AsSite()), explicit, pkg)
      ensures !outcome.SourceMissing? ==>
        AsSite() == AfterEvent(old(AsSite()), Upgrade(pkg, explicit, order, steps, Complete))
      ensures outcome.Completed? ==> conflicts == Conflicts(PlanAt(old(AsSite()), explicit, pkg, order), steps)
      ensures outcome.SourceMissing? ==>
        // A missing source stops the run before its record is written; the backup made so far is kept.
        && AsSite().(backups := [])
           == AfterEvent(old(AsSite()), Upgrade(pkg, explicit, order, steps, Complete)).(backups := [])
        && |backups| == |old(backups)| + 1 && backups[..|old(backups)|] == old(backups)
    {
      steps, conflicts := 0, [];
      var baseline: Option<Manifest>;
      if explicit.Some? {
        baseline := explicit;
      } else if recorded.Some? {
        baseline := recorded;
      } else if !pkg.inPlace {
        baseline := legacy;
      } else {
        baseline := None;
      }
      if baseline.None? && exists p | p in pkg.manifest :: p in disk {
        return ReviewNeeded, [], 0;
      }
      var plan := BuildPlan(pkg.manifest, if baseline.Some? then baseline.value else map[], disk, order);
      var ok;
      conflicts, ok, steps := ApplyPlan(plan, pkg);
      if !ok {
        assert steps < |plan|;
        return SourceMissing, conflicts, steps;
      }
      recorded := Some(pkg.manifest);
      legacy := Some(pkg.manifest);
      return Completed, conflicts, steps;
    }
  }
}
