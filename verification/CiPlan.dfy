/**
 The CI plan: which packages and which segments a set of changed paths selects.  The classification of a
 single path (by name and by the text of its old and new contents) is an input; accumulation, closure and
 the segment rules that follow are modelled.
 */
module CiPlan {
  import opened Text
  import opened CiGraph

  datatype Segment =
    | Fast | RustSegment | Msrv | Android | Tor | Vendor | VendorExtra | DocsContract | InstallerSh
    | InstallerWindows | Release | Features | Stress | Regression | NativePortability | Required
    | LicenseOffline | LicenseAudit | LicenseLifecycle

  type Target = nat

  /** Changed paths, numbered in their sorted order. */
  type Path = nat

  /** What one changed path contributes, or that it has no mapping.  `portableIfNative` is the rule that asks
      for the portability segment once any native target has been collected. */
  datatype Yield =
    | Unmapped
    | Yields(segments: set<Segment>, seeds: set<Id>, dependencySeeds: set<Id>, native: set<Target>,
             portableIfNative: bool)

  /** Everything the plan depends on besides the changed paths. */
  datatype Config = Config(
    licenseStack: bool, realTor: bool, pullRequest: bool, sprintFull: bool,
    // the graph, with the packages that the rules refer to by name
    members: set<Id>, forward: Edges, reverse: Edges, torUpstream: set<Id>, proxy: set<Id>, shipping: set<Id>,
    nativeDeps: set<Id>, windowsDeps: set<Id>,
    // whether the workspace has every package that the commands name when they have nothing else to name
    shippingPresent: bool, representativePresent: bool,
    allTargets: set<Target>, linuxTargets: set<Target>, windowsTargets: set<Target>, x86Targets: set<Target>,
    // what single paths say
    yieldOf: Path -> Yield, torProxy: Path -> bool, licenseInterface: Path -> bool, manifest: Path -> bool,
    buildRs: Path -> bool, sdkOrVendor: Path -> bool)

  datatype Acc = Acc(segments: set<Segment>, seeds: set<Id>, dependencySeeds: set<Id>, native: set<Target>)

  datatype Plan = Plan(packages: set<Id>, segments: set<Segment>, native: set<Target>)

  /** `add`: some segments are never run on this event. */
  function Add(c: Config, a: Acc, s: Segment): (r: Acc)
    ensures r.seeds == a.seeds && AtMost(a, r)
  {
    if (s.Tor? && !c.realTor) || (s.LicenseLifecycle? && (!c.pullRequest || c.sprintFull)) then a
    else a.(segments := a.segments + {s})
  }

  function AddIf(c: Config, cond: bool, a: Acc, s: Segment): (r: Acc)
    ensures r.seeds == a.seeds && AtMost(a, r)
  {
    if cond then Add(c, a, s) else a
  }

  function AddNative(cond: bool, a: Acc, targets: set<Target>): (r: Acc)
    ensures r.seeds == a.seeds && AtMost(a, r)
  {
    if cond then a.(native := a.native + targets) else a
  }

  function Allowed(c: Config, s: set<Segment>): set<Segment> {
    s - (if c.realTor then {} else {Tor}) - (if c.pullRequest && !c.sprintFull then {} else {LicenseLifecycle})
  }

  const START := Acc({Fast}, {}, {}, {})

  /** One round of the loop over the changed paths. */
  function Collect(c: Config, a: Acc, y: Yield): Acc {
    match y
    case Unmapped => a
    case Yields(segments, seeds, deps, native, portable) =>
      var a1 := Acc(a.segments + Allowed(c, segments), a.seeds + seeds, a.dependencySeeds + deps,
                    a.native + native);
      AddIf(c, portable && a1.native != {}, a1, NativePortability)
  }

  function CollectAll(c: Config, paths: seq<Path>): Acc {
    if paths == [] then START
    else Collect(c, CollectAll(c, paths[..|paths| - 1]), c.yieldOf(paths[|paths| - 1]))
  }

  predicate Any(paths: seq<Path>, f: Path -> bool) {
    exists i :: 0 <= i < |paths| && f(paths[i])
  }

  ghost predicate Mapped(c: Config, paths: seq<Path>) {
    forall i | 0 <= i < |paths| :: !c.yieldOf(paths[i]).Unmapped?
  }

  function RustSegments(c: Config, a: Acc, selected: set<Id>): (r: Acc)
    ensures r.seeds == a.seeds && AtMost(a, r)
  {
    if selected == {} then a
    else AddIf(c, selected * c.shipping != {}, Add(c, Add(c, a, RustSegment), Msrv), Android)
  }

  function FullSegments(c: Config, a: Acc): (r: Acc)
    ensures r.seeds == a.seeds && AtMost(a, r)
  {
    if !c.sprintFull then a
    else
      var all := {RustSegment, Msrv, Android, Tor, Vendor, VendorExtra, DocsContract, InstallerSh,
                  InstallerWindows, Release, Features, Stress, Regression, NativePortability, Required};
      var licensed := if c.licenseStack then {LicenseOffline, LicenseAudit} else {};
      a.(segments := a.segments + Allowed(c, all + licensed), native := a.native + c.allTargets)
  }

  /** A changed native dependency of the proxy asks for the portability builds. */
  function NativeRules(c: Config, a: Acc, selected: set<Id>): (r: Acc)
    ensures r.seeds == a.seeds && AtMost(a, r)
  {
    var hit := c.proxy * c.members * selected != {} && a.dependencySeeds * c.nativeDeps != {};
    var a1 := AddNative(hit && a.dependencySeeds - c.windowsDeps != {}, a, c.linuxTargets);
    AddIf(c, hit, AddNative(hit, a1, c.windowsTargets), NativePortability)
  }

  /** Licensing changes that pull the proxy into the plan. */
  predicate LicenseTouched(c: Config, selected: set<Id>, paths: seq<Path>) {
    && c.licenseStack && !c.sprintFull
    && (Any(paths, c.licenseInterface) || (c.proxy * c.members * selected != {} && Any(paths, c.manifest)))
  }

  function LicenseAudits(c: Config, a: Acc, paths: seq<Path>): (r: Acc)
    ensures r.seeds == a.seeds && AtMost(a, r)
  {
    if !c.licenseStack || c.sprintFull then a
    else
      var a1 := AddIf(c, Any(paths, c.manifest), a, LicenseAudit);
      AddIf(c, Any(paths, c.buildRs), a1, LicenseOffline)
  }

  function PullProxy(c: Config, a: Acc, touched: bool): (r: Acc)
    ensures r.seeds == a.seeds + (if touched then c.proxy * c.members else {}) && AtMost(a, r)
  {
    if !touched then a
    else
      var a1 := Add(c, Add(c, a, LicenseOffline), LicenseAudit);
      var a2 := AddNative(true, a1.(seeds := a1.seeds + c.proxy * c.members), c.x86Targets);
      Add(c, Add(c, a2, NativePortability), LicenseLifecycle)
  }

  function LicenseRules(c: Config, a: Acc, selected: set<Id>, paths: seq<Path>): (r: Acc)
    ensures r.seeds == a.seeds + (if LicenseTouched(c, selected, paths) then c.proxy * c.members else {})
    ensures AtMost(a, r)
  {
    PullProxy(c, LicenseAudits(c, a, paths), LicenseTouched(c, selected, paths))
  }

  function ProxyRules(c: Config, a: Acc, selected: set<Id>, paths: seq<Path>): (r: Acc)
    ensures r.seeds == a.seeds && AtMost(a, r)
  {
    var hit := c.proxy * c.members * selected != {};
    var vendored := c.licenseStack && hit && Any(paths, c.sdkOrVendor);
    var a1 := AddIf(c, vendored, AddIf(c, vendored, a, LicenseLifecycle), LicenseAudit);
    var a2 := AddIf(c, vendored, AddNative(vendored, a1, c.x86Targets), NativePortability);
    var built := hit && Any(paths, c.buildRs);
    AddIf(c, built, AddNative(built, a2, c.x86Targets), NativePortability)
  }

  function GeneralRules(c: Config, a: Acc, selected: set<Id>, paths: seq<Path>): (r: Acc)
    ensures r.seeds == a.seeds && AtMost(a, r)
  {
    var a1 := AddIf(c, a.seeds * c.torUpstream != {} || Any(paths, c.torProxy), a, Tor);
    RustSegments(c, FullSegments(c, a1), selected)
  }

  /** Everything between the two closures, given the members selected by the first. */
  function Rules(c: Config, a: Acc, first: set<Id>, paths: seq<Path>): Acc {
    var selected := if c.sprintFull then c.members else first;
    var a1 := NativeRules(c, GeneralRules(c, a, selected, paths), selected);
    ProxyRules(c, LicenseRules(c, a1, selected, paths), selected, paths)
  }

  /** The members that are, or depend on, a seed. */
  ghost function AffectedBy(c: Config, seeds: set<Id>): set<Id> {
    set m | m in c.members && ReachedFrom(c.reverse, seeds, m)
  }

  ghost function PlanOf(c: Config, paths: seq<Path>): Plan {
    var a := CollectAll(c, paths);
    var a1 := Rules(c, a, AffectedBy(c, a.seeds), paths);
    var selected := if c.sprintFull then c.members else AffectedBy(c, a1.seeds);
    Finished(c, selected, RustSegments(c, a1, selected))
  }

  /** The portability segment always has a target to build. */
  function Finished(c: Config, selected: set<Id>, a: Acc): Plan {
    Plan(selected, a.segments, if NativePortability in a.segments && a.native == {} then c.x86Targets else a.native)
  }

  /** What a graph built from complete metadata gives: the reverse edges are the dependencies turned around. */
  ghost predicate Valid(c: Config) {
    && Closed(c.forward) && Closed(c.reverse) && Transposed(c.forward, c.reverse)
    && c.members <= c.reverse.Keys && c.proxy <= c.reverse.Keys
    && forall p :: c.yieldOf(p).Yields? ==> c.yieldOf(p).seeds <= c.reverse.Keys
  }

  /** No enabled command is left without packages: the shipped packages are always needed, and the representative
      ones when a Rust segment is on and no member is selected. */
  predicate HasRequired(c: Config, plan: Plan) {
    && c.shippingPresent
    && (plan.packages != {} || (RustSegment !in plan.segments && Msrv !in plan.segments) || c.representativePresent)
  }

  /** The loop over the changed paths; one without a mapping ends it. */
  method CollectPaths(c: Config, paths: seq<Path>) returns (collected: Option<Acc>)
    requires Valid(c)
    ensures collected.Some? <==> Mapped(c, paths)
    ensures collected.Some? ==> collected.value == CollectAll(c, paths) && collected.value.seeds <= c.reverse.Keys
  {
    var a := START;
    for i := 0 to |paths|
      invariant a == CollectAll(c, paths[..i]) && Mapped(c, paths[..i])
      invariant a.seeds <= c.reverse.Keys
    {
      var y := c.yieldOf(paths[i]);
      if y.Unmapped? {
        return None;
      }
      assert paths[..i + 1][..i] == paths[..i];
      a := Collect(c, a, y);
    }
    assert paths[..|paths|] == paths;
    collected := Some(a);
  }

  /** The plan itself: the changed paths, then rules, two worklist closures and the checks for required
      packages. */
  method MakePlan(c: Config, paths: seq<Path>) returns (plan: Option<Plan>)
    requires Valid(c)
    ensures plan.Some? <==> Mapped(c, paths) && HasRequired(c, PlanOf(c, paths))
    ensures plan.Some? ==> plan.value == PlanOf(c, paths)
    ensures plan.None? <==>
      || (exists i :: 0 <= i < |paths| && c.yieldOf(paths[i]).Unmapped?)
      || !c.shippingPresent
      || (!c.representativePresent && PlanOf(c, paths).packages == {}
          && (Asks(c, paths, {}, RustSegment) || Asks(c, paths, {}, Msrv)))
    ensures plan.Some? ==>
      && (forall s :: s in plan.value.segments <==> Asks(c, paths, plan.value.packages, s))
      && (forall t :: t in plan.value.native <==> AsksTarget(c, paths, t))
  {
    forall s ensures s in PlanOf(c, paths).segments <==> Asks(c, paths, PlanOf(c, paths).packages, s) {
      PlanRunsExactly(c, paths, s);
    }
    forall t ensures t in PlanOf(c, paths).native <==> AsksTarget(c, paths, t) {
      PlanBuildsExactly(c, paths, t);
    }
    var collected := CollectPaths(c, paths);
    if collected.None? {
      return None;
    }
    var a := collected.value;
    var first := Graph.Closure(a.seeds, c.reverse);
    assert first * c.members == AffectedBy(c, a.seeds);
    var a1 := Rules(c, a, first * c.members, paths);
    SeedsAfterRules(c, a, first * c.members, paths);
    var second := Graph.Closure(a1.seeds, c.reverse);
    assert second * c.members == AffectedBy(c, a1.seeds);
    var selected := if c.sprintFull then c.members else second * c.members;
    var whole := Finished(c, selected, RustSegments(c, a1, selected));
    if selected == {} && (RustSegment in whole.segments || Msrv in whole.segments) && !c.representativePresent {
      return None;
    }
    if !c.shippingPresent {
      return None;
    }
    plan := Some(whole);
  }

  lemma SeedsAfterRules(c: Config, a: Acc, first: set<Id>, paths: seq<Path>)
    ensures Rules(c, a, first, paths).seeds ==
      a.seeds + (if LicenseTouched(c, first, paths) then c.proxy * c.members else {})
  {
  }

  // ---------------------------------------------------------------------------------------------
  // What a plan runs, segment by segment
  // ---------------------------------------------------------------------------------------------

  /** Some path yields the segment; likewise for packages, changed dependencies and native targets. */
  ghost predicate Says(c: Config, paths: seq<Path>, s: Segment) {
    exists i :: 0 <= i < |paths| && c.yieldOf(paths[i]).Yields? && s in c.yieldOf(paths[i]).segments
  }

  ghost predicate SeededBy(c: Config, paths: seq<Path>, s: Id) {
    exists i :: 0 <= i < |paths| && c.yieldOf(paths[i]).Yields? && s in c.yieldOf(paths[i]).seeds
  }

  ghost predicate Upgrades(c: Config, paths: seq<Path>, d: Id) {
    exists i :: 0 <= i < |paths| && c.yieldOf(paths[i]).Yields? && d in c.yieldOf(paths[i]).dependencySeeds
  }

  ghost predicate Names(c: Config, paths: seq<Path>, t: Target) {
    exists i :: 0 <= i < |paths| && c.yieldOf(paths[i]).Yields? && t in c.yieldOf(paths[i]).native
  }

  ghost predicate NamesAny(c: Config, paths: seq<Path>) {
    exists t :: Names(c, paths, t)
  }

  /** Some path asks for the portability builds, and it or a path before it names a native target. */
  ghost predicate AsksPortability(c: Config, paths: seq<Path>) {
    exists i: nat :: PortableAt(c, paths, i)
  }

  ghost predicate PortableAt(c: Config, paths: seq<Path>, i: nat) {
    && i < |paths| && c.yieldOf(paths[i]).Yields? && c.yieldOf(paths[i]).portableIfNative
    && NamesAny(c, paths[..i + 1])
  }

  /** The proxy is a member and is, or depends on, a package seeded by one of the paths. */
  ghost predicate ProxyAffected(c: Config, paths: seq<Path>) {
    exists m ::
      && m in c.proxy && m in c.members
      && (c.sprintFull || exists s :: SeededBy(c, paths, s) && Reaches(c.forward, m, s))
  }

  ghost predicate LicensingAffected(c: Config, paths: seq<Path>) {
    && c.licenseStack && !c.sprintFull
    && (|| (exists i :: 0 <= i < |paths| && c.licenseInterface(paths[i]))
        || (ProxyAffected(c, paths) && exists i :: 0 <= i < |paths| && c.manifest(paths[i])))
  }

  ghost predicate ProxyVendored(c: Config, paths: seq<Path>) {
    c.licenseStack && ProxyAffected(c, paths) && exists i :: 0 <= i < |paths| && c.sdkOrVendor(paths[i])
  }

  ghost predicate ProxyBuildChanged(c: Config, paths: seq<Path>) {
    ProxyAffected(c, paths) && exists i :: 0 <= i < |paths| && c.buildRs(paths[i])
  }

  ghost predicate NativeUpgraded(c: Config, paths: seq<Path>) {
    ProxyAffected(c, paths) && exists d :: Upgrades(c, paths, d) && d in c.nativeDeps
  }

  /** Why a plan for these packages runs a segment, read off the configuration and the paths. */
  ghost predicate Asks(c: Config, paths: seq<Path>, packages: set<Id>, s: Segment) {
    match s
    case Fast => true
    case RustSegment => Says(c, paths, s) || c.sprintFull || packages != {}
    case Msrv => Says(c, paths, s) || c.sprintFull || packages != {}
    case Android => Says(c, paths, s) || c.sprintFull || exists m :: m in packages && m in c.shipping
    case Tor =>
      && c.realTor
      && (|| Says(c, paths, s) || c.sprintFull
          || (exists i :: 0 <= i < |paths| && c.torProxy(paths[i]))
          || exists r :: SeededBy(c, paths, r) && r in c.torUpstream)
    case NativePortability =>
      || Says(c, paths, s) || c.sprintFull || AsksPortability(c, paths) || NativeUpgraded(c, paths)
      || LicensingAffected(c, paths) || ProxyVendored(c, paths) || ProxyBuildChanged(c, paths)
    case LicenseOffline =>
      || Says(c, paths, s) || LicensingAffected(c, paths)
      || (c.licenseStack && (c.sprintFull || exists i :: 0 <= i < |paths| && c.buildRs(paths[i])))
    case LicenseAudit =>
      || Says(c, paths, s) || LicensingAffected(c, paths) || ProxyVendored(c, paths)
      || (c.licenseStack && (c.sprintFull || exists i :: 0 <= i < |paths| && c.manifest(paths[i])))
    case LicenseLifecycle =>
      && c.pullRequest && !c.sprintFull
      && (Says(c, paths, s) || LicensingAffected(c, paths) || ProxyVendored(c, paths))
    case _ => Says(c, paths, s) || c.sprintFull
  }

  ghost predicate CollectsTarget(c: Config, paths: seq<Path>, t: Target) {
    || Names(c, paths, t)
    || (c.sprintFull && t in c.allTargets)
    || (NativeUpgraded(c, paths) && t in c.windowsTargets)
    || (NativeUpgraded(c, paths) && t in c.linuxTargets && exists d :: Upgrades(c, paths, d) && d !in c.windowsDeps)
    || (t in c.x86Targets
        && (LicensingAffected(c, paths) || ProxyVendored(c, paths) || ProxyBuildChanged(c, paths)))
  }

  /** Why a plan builds a native target. */
  ghost predicate AsksTarget(c: Config, paths: seq<Path>, t: Target) {
    || CollectsTarget(c, paths, t)
    || (t in c.x86Targets && (forall u :: !CollectsTarget(c, paths, u)) && Asks(c, paths, {}, NativePortability))
  }

  /** The last path counts like the others. */
  lemma OneMorePath(c: Config, paths: seq<Path>)
    requires paths != []
    ensures var front, y := paths[..|paths| - 1], c.yieldOf(paths[|paths| - 1]);
      && (forall s :: Says(c, paths, s) <==> Says(c, front, s) || (y.Yields? && s in y.segments))
      && (forall d :: Upgrades(c, paths, d) <==> Upgrades(c, front, d) || (y.Yields? && d in y.dependencySeeds))
      && (forall t :: Names(c, paths, t) <==> Names(c, front, t) || (y.Yields? && t in y.native))
      && (forall r :: SeededBy(c, paths, r) <==> SeededBy(c, front, r) || (y.Yields? && r in y.seeds))
  {
    var front := paths[..|paths| - 1];
    assert paths == front + [paths[|paths| - 1]];
    assert forall i | 0 <= i < |front| :: paths[i] == front[i];
  }

  lemma OneMorePortable(c: Config, paths: seq<Path>)
    requires paths != []
    ensures var front, y := paths[..|paths| - 1], c.yieldOf(paths[|paths| - 1]);
      AsksPortability(c, paths) <==>
        AsksPortability(c, front) || (y.Yields? && y.portableIfNative && NamesAny(c, paths))
  {
    var front := paths[..|paths| - 1];
    forall i: nat | i < |front| ensures PortableAt(c, paths, i) <==> PortableAt(c, front, i) {
      assert paths[i] == front[i] && paths[..i + 1] == front[..i + 1];
    }
    assert paths[..|front| + 1] == paths;
    assert PortableAt(c, paths, |front|) <==>
      c.yieldOf(paths[|front|]).Yields? && c.yieldOf(paths[|front|]).portableIfNative
      && NamesAny(c, paths);
  }

  lemma {:induction false} Collected(c: Config, paths: seq<Path>)
    ensures var a := CollectAll(c, paths);
      && (forall s :: s in a.segments <==>
            || s.Fast? || (s.NativePortability? && AsksPortability(c, paths))
            || (Says(c, paths, s) && s in Allowed(c, {s})))
      && (forall d :: d in a.dependencySeeds <==> Upgrades(c, paths, d))
      && (forall t :: t in a.native <==> Names(c, paths, t))
      && (forall r :: r in a.seeds <==> SeededBy(c, paths, r))
  {
    if paths != [] {
      Collected(c, paths[..|paths| - 1]);
      OneMorePath(c, paths);
      OneMorePortable(c, paths);
    }
  }

  /** What the rules for a full run and for planned packages add. */
  lemma FullAdds(c: Config, a: Acc, s: Segment, t: Target)
    ensures s in FullSegments(c, a).segments <==>
      || s in a.segments
      || (c.sprintFull && !s.Fast? && !s.LicenseLifecycle? && (s.Tor? ==> c.realTor)
          && (s.LicenseOffline? || s.LicenseAudit? ==> c.licenseStack))
    ensures t in FullSegments(c, a).native <==> t in a.native || (c.sprintFull && t in c.allTargets)
    ensures FullSegments(c, a).dependencySeeds == a.dependencySeeds
  {
  }

  lemma RustAdds(c: Config, a: Acc, selected: set<Id>, s: Segment)
    ensures s in RustSegments(c, a, selected).segments <==>
      || s in a.segments
      || ((s.RustSegment? || s.Msrv?) && selected != {})
      || (s.Android? && exists m :: m in selected && m in c.shipping)
    ensures RustSegments(c, a, selected).native == a.native
    ensures RustSegments(c, a, selected).dependencySeeds == a.dependencySeeds
  {
    assert forall m :: m in selected * c.shipping <==> m in selected && m in c.shipping;
  }

  /** What the rules for the proxy add, given whether it is hit. */
  lemma NativeAdds(c: Config, a: Acc, selected: set<Id>, s: Segment, t: Target)
    ensures var r := NativeRules(c, a, selected);
      var upgraded := c.proxy * c.members * selected != {} && a.dependencySeeds * c.nativeDeps != {};
      && (s in r.segments <==> s in a.segments || (s.NativePortability? && upgraded))
      && (t in r.native <==>
            || t in a.native || (upgraded && t in c.windowsTargets)
            || (upgraded && t in c.linuxTargets && a.dependencySeeds - c.windowsDeps != {}))
  {
  }

  lemma LicenseAdds(c: Config, a: Acc, selected: set<Id>, paths: seq<Path>, s: Segment, t: Target)
    ensures var r := LicenseRules(c, a, selected, paths);
      var touched := LicenseTouched(c, selected, paths);
      var audits := c.licenseStack && !c.sprintFull;
      && (s in r.segments <==>
            || s in a.segments || (s.NativePortability? && touched)
            || (s.LicenseOffline? && (touched || (audits && Any(paths, c.buildRs))))
            || (s.LicenseAudit? && (touched || (audits && Any(paths, c.manifest))))
            || (s.LicenseLifecycle? && touched && c.pullRequest && !c.sprintFull))
      && (t in r.native <==> t in a.native || (touched && t in c.x86Targets))
  {
  }

  lemma ProxyAdds(c: Config, a: Acc, selected: set<Id>, paths: seq<Path>, s: Segment, t: Target)
    ensures var r := ProxyRules(c, a, selected, paths);
      var hit := c.proxy * c.members * selected != {};
      var vendored := c.licenseStack && hit && Any(paths, c.sdkOrVendor);
      var built := hit && Any(paths, c.buildRs);
      && (s in r.segments <==>
            || s in a.segments || (s.NativePortability? && (vendored || built)) || (s.LicenseAudit? && vendored)
            || (s.LicenseLifecycle? && vendored && c.pullRequest && !c.sprintFull))
      && (t in r.native <==> t in a.native || (t in c.x86Targets && (vendored || built)))
  {
  }

  lemma TorAdds(c: Config, a: Acc, cond: bool, s: Segment)
    ensures s in AddIf(c, cond, a, Tor).segments <==> s in a.segments || (s.Tor? && cond && c.realTor)
    ensures AddIf(c, cond, a, Tor) == a.(segments := AddIf(c, cond, a, Tor).segments)
  {
  }

  /** The proxy is hit by the first closure exactly when it is affected. */
  lemma HitIsAffected(c: Config, paths: seq<Path>)
    requires Valid(c)
    ensures var first := AffectedBy(c, CollectAll(c, paths).seeds);
      var selected := if c.sprintFull then c.members else first;
      && (c.proxy * c.members * selected != {} <==> ProxyAffected(c, paths))
      && (LicenseTouched(c, selected, paths) <==> LicensingAffected(c, paths))
  {
    var seeds := CollectAll(c, paths).seeds;
    var selected := if c.sprintFull then c.members else AffectedBy(c, seeds);
    Collected(c, paths);
    forall m | m in c.members
      ensures m in AffectedBy(c, seeds) <==> exists s :: SeededBy(c, paths, s) && Reaches(c.forward, m, s)
    {
      forall s ensures Reaches(c.forward, m, s) <==> Reaches(c.reverse, s, m) {
        ReachesReversed(c.forward, c.reverse, m, s);
      }
    }
    assert forall m :: m in c.proxy * c.members * selected <==> m in c.proxy && m in c.members && m in selected;
  }

  /** The accumulator that both final rounds start from. */
  ghost function AfterRules(c: Config, paths: seq<Path>): Acc {
    Rules(c, CollectAll(c, paths), AffectedBy(c, CollectAll(c, paths).seeds), paths)
  }

  lemma FirstIsPlanned(c: Config, paths: seq<Path>)
    ensures FirstSelected(c, paths) <= PlanOf(c, paths).packages
  {
    var a := CollectAll(c, paths);
    SeedsAfterRules(c, a, AffectedBy(c, a.seeds), paths);
  }

  /** What the rules add to the segments of any accumulator they start from. */
  ghost predicate GeneralAdded(c: Config, a: Acc, selected: set<Id>, paths: seq<Path>, s: Segment) {
    || (s.Tor? && c.realTor && (a.seeds * c.torUpstream != {} || Any(paths, c.torProxy)))
    || (c.sprintFull && !s.Fast? && !s.LicenseLifecycle? && (s.Tor? ==> c.realTor)
        && (s.LicenseOffline? || s.LicenseAudit? ==> c.licenseStack))
    || ((s.RustSegment? || s.Msrv?) && selected != {})
    || (s.Android? && exists m :: m in selected && m in c.shipping)
  }

  ghost predicate ProxyAdded(c: Config, deps: set<Id>, selected: set<Id>, paths: seq<Path>, s: Segment) {
    var hit := c.proxy * c.members * selected != {};
    var touched := LicenseTouched(c, selected, paths);
    var vendored := c.licenseStack && hit && Any(paths, c.sdkOrVendor);
    || (s.NativePortability?
        && ((hit && deps * c.nativeDeps != {}) || touched || vendored || (hit && Any(paths, c.buildRs))))
    || (s.LicenseOffline? && (touched || (c.licenseStack && !c.sprintFull && Any(paths, c.buildRs))))
    || (s.LicenseAudit? && (touched || vendored || (c.licenseStack && !c.sprintFull && Any(paths, c.manifest))))
    || (s.LicenseLifecycle? && c.pullRequest && !c.sprintFull && (touched || vendored))
  }

  ghost predicate ProxyAddedTarget(c: Config, deps: set<Id>, selected: set<Id>, paths: seq<Path>, t: Target) {
    var hit := c.proxy * c.members * selected != {};
    var upgraded := hit && deps * c.nativeDeps != {};
    || (upgraded && t in c.windowsTargets)
    || (upgraded && t in c.linuxTargets && deps - c.windowsDeps != {})
    || (t in c.x86Targets
        && (|| LicenseTouched(c, selected, paths) || (c.licenseStack && hit && Any(paths, c.sdkOrVendor))
            || (hit && Any(paths, c.buildRs))))
  }

  lemma GeneralAdds(c: Config, a: Acc, selected: set<Id>, paths: seq<Path>, s: Segment, t: Target)
    ensures var r := GeneralRules(c, a, selected, paths);
      && r.dependencySeeds == a.dependencySeeds
      && (s in r.segments <==> s in a.segments || GeneralAdded(c, a, selected, paths, s))
      && (t in r.native <==> t in a.native || (c.sprintFull && t in c.allTargets))
  {
    var tor := a.seeds * c.torUpstream != {} || Any(paths, c.torProxy);
    var a1 := AddIf(c, tor, a, Tor);
    TorAdds(c, a, tor, s);
    FullAdds(c, a1, s, t);
    RustAdds(c, FullSegments(c, a1), selected, s);
  }

  lemma ProxyPartAdds(c: Config, a: Acc, selected: set<Id>, paths: seq<Path>, s: Segment, t: Target)
    ensures var r := ProxyRules(c, LicenseRules(c, NativeRules(c, a, selected), selected, paths), selected, paths);
      && (s in r.segments <==> s in a.segments || ProxyAdded(c, a.dependencySeeds, selected, paths, s))
      && (t in r.native <==> t in a.native || ProxyAddedTarget(c, a.dependencySeeds, selected, paths, t))
  {
    var a1 := NativeRules(c, a, selected);
    NativeAdds(c, a, selected, s, t);
    LicenseAdds(c, a1, selected, paths, s, t);
    ProxyAdds(c, LicenseRules(c, a1, selected, paths), selected, paths, s, t);
  }

  lemma RulesAdd(c: Config, a: Acc, first: set<Id>, paths: seq<Path>, s: Segment, t: Target)
    ensures var r, selected := Rules(c, a, first, paths), if c.sprintFull then c.members else first;
      && (s in r.segments <==>
            || s in a.segments || GeneralAdded(c, a, selected, paths, s)
            || ProxyAdded(c, a.dependencySeeds, selected, paths, s))
      && (t in r.native <==>
            || t in a.native || (c.sprintFull && t in c.allTargets)
            || ProxyAddedTarget(c, a.dependencySeeds, selected, paths, t))
  {
    var selected := if c.sprintFull then c.members else first;
    GeneralAdds(c, a, selected, paths, s, t);
    ProxyPartAdds(c, GeneralRules(c, a, selected, paths), selected, paths, s, t);
  }

  /** The sets the rules look at, read off the paths. */
  lemma CollectedMeets(c: Config, paths: seq<Path>)
    ensures var a := CollectAll(c, paths);
      && (a.dependencySeeds * c.nativeDeps != {} <==> exists d :: Upgrades(c, paths, d) && d in c.nativeDeps)
      && (a.dependencySeeds - c.windowsDeps != {} <==> exists d :: Upgrades(c, paths, d) && d !in c.windowsDeps)
      && (a.seeds * c.torUpstream != {} <==> exists r :: SeededBy(c, paths, r) && r in c.torUpstream)
  {
    Collected(c, paths);
    var a := CollectAll(c, paths);
    assert forall d :: d in a.dependencySeeds * c.nativeDeps <==> Upgrades(c, paths, d) && d in c.nativeDeps;
    assert forall d :: d in a.dependencySeeds - c.windowsDeps <==> Upgrades(c, paths, d) && d !in c.windowsDeps;
    assert forall r :: r in a.seeds * c.torUpstream <==> SeededBy(c, paths, r) && r in c.torUpstream;
  }

  /** A plan runs exactly the segments that its paths, its mode and its packages ask for. */
  lemma PlanRunsExactly(c: Config, paths: seq<Path>, s: Segment)
    requires Valid(c)
    ensures s in PlanOf(c, paths).segments <==> Asks(c, paths, PlanOf(c, paths).packages, s)
  {
    AfterRulesRun(c, paths, s);
    FirstIsPlanned(c, paths);
    RustAdds(c, AfterRules(c, paths), PlanOf(c, paths).packages, s);
  }

  ghost function FirstSelected(c: Config, paths: seq<Path>): set<Id> {
    if c.sprintFull then c.members else AffectedBy(c, CollectAll(c, paths).seeds)
  }

  /** The accumulator and the selected members read the paths as they should. */
  ghost predicate Reads(c: Config, a: Acc, selected: set<Id>, paths: seq<Path>) {
    && (a.dependencySeeds * c.nativeDeps != {} <==> exists d :: Upgrades(c, paths, d) && d in c.nativeDeps)
    && (a.dependencySeeds - c.windowsDeps != {} <==> exists d :: Upgrades(c, paths, d) && d !in c.windowsDeps)
    && (a.seeds * c.torUpstream != {} <==> exists r :: SeededBy(c, paths, r) && r in c.torUpstream)
    && (c.proxy * c.members * selected != {} <==> ProxyAffected(c, paths))
    && (LicenseTouched(c, selected, paths) <==> LicensingAffected(c, paths))
  }

  ghost predicate ReadsSegment(c: Config, a: Acc, paths: seq<Path>, s: Segment) {
    s in a.segments <==>
      || s.Fast? || (s.NativePortability? && AsksPortability(c, paths))
      || (Says(c, paths, s) && s in Allowed(c, {s}))
  }

  lemma CollectedReads(c: Config, paths: seq<Path>, s: Segment, t: Target)
    requires Valid(c)
    ensures var a := CollectAll(c, paths);
      && Reads(c, a, FirstSelected(c, paths), paths) && ReadsSegment(c, a, paths, s)
      && (t in a.native <==> Names(c, paths, t))
  {
    Collected(c, paths);
    CollectedMeets(c, paths);
    HitIsAffected(c, paths);
  }

  lemma RulesRun(c: Config, a: Acc, first: set<Id>, selected: set<Id>, paths: seq<Path>, s: Segment)
    requires selected == if c.sprintFull then c.members else first
    requires Reads(c, a, selected, paths) && ReadsSegment(c, a, paths, s)
    ensures s in Rules(c, a, first, paths).segments <==> Asks(c, paths, selected, s)
  {
    RulesAdd(c, a, first, paths, s, 0);
    if IsProxySegment(s) {
      ProxyAddedIsAsked(c, a, selected, paths, s);
    } else {
      AddedIsAsked(c, a, selected, paths, s);
    }
  }

  lemma AfterRulesRun(c: Config, paths: seq<Path>, s: Segment)
    requires Valid(c)
    ensures s in AfterRules(c, paths).segments <==> Asks(c, paths, FirstSelected(c, paths), s)
  {
    var a := CollectAll(c, paths);
    CollectedReads(c, paths, s, 0);
    RulesRun(c, a, AffectedBy(c, a.seeds), FirstSelected(c, paths), paths, s);
  }

  /** What the rules decide and what a plan asks for, for the segments of the proxy and for the others. */
  lemma AddedIsAsked(c: Config, a: Acc, selected: set<Id>, paths: seq<Path>, s: Segment)
    requires ReadsSegment(c, a, paths, s) && !IsProxySegment(s)
    requires a.seeds * c.torUpstream != {} <==> exists r :: SeededBy(c, paths, r) && r in c.torUpstream
    ensures s in a.segments || GeneralAdded(c, a, selected, paths, s) <==> Asks(c, paths, selected, s)
  {
  }

  lemma ProxyAddedIsAsked(c: Config, a: Acc, selected: set<Id>, paths: seq<Path>, s: Segment)
    requires ReadsSegment(c, a, paths, s) && IsProxySegment(s)
    requires a.dependencySeeds * c.nativeDeps != {} <==> exists d :: Upgrades(c, paths, d) && d in c.nativeDeps
    requires c.proxy * c.members * selected != {} <==> ProxyAffected(c, paths)
    requires LicenseTouched(c, selected, paths) <==> LicensingAffected(c, paths)
    ensures
      || s in a.segments || GeneralAdded(c, a, selected, paths, s)
      || ProxyAdded(c, a.dependencySeeds, selected, paths, s)
      <==> Asks(c, paths, selected, s)
  {
  }

  lemma TargetsAreAsked(c: Config, a: Acc, selected: set<Id>, paths: seq<Path>, t: Target)
    requires Reads(c, a, selected, paths) && (t in a.native <==> Names(c, paths, t))
    ensures
      || t in a.native || (c.sprintFull && t in c.allTargets)
      || ProxyAddedTarget(c, a.dependencySeeds, selected, paths, t)
      <==> CollectsTarget(c, paths, t)
  {
  }

  predicate IsProxySegment(s: Segment) {
    s.NativePortability? || s.LicenseOffline? || s.LicenseAudit? || s.LicenseLifecycle?
  }

  /** A plan builds exactly the native targets that its paths and its mode ask for. */
  lemma PlanBuildsExactly(c: Config, paths: seq<Path>, t: Target)
    requires Valid(c)
    ensures t in PlanOf(c, paths).native <==> AsksTarget(c, paths, t)
  {
    forall u ensures u in AfterRules(c, paths).native <==> CollectsTarget(c, paths, u) {
      RulesCollect(c, paths, u);
    }
    RustAdds(c, AfterRules(c, paths), PlanOf(c, paths).packages, NativePortability);
    PlanRunsExactly(c, paths, NativePortability);
  }

  lemma RulesCollect(c: Config, paths: seq<Path>, t: Target)
    requires Valid(c)
    ensures t in AfterRules(c, paths).native <==> CollectsTarget(c, paths, t)
  {
    var a := CollectAll(c, paths);
    CollectedReads(c, paths, Fast, t);
    RulesAdd(c, a, AffectedBy(c, a.seeds), paths, Fast, t);
    TargetsAreAsked(c, a, FirstSelected(c, paths), paths, t);
  }

  // ---------------------------------------------------------------------------------------------
  // Monotonicity
  // ---------------------------------------------------------------------------------------------

  predicate AtMost(a: Acc, b: Acc) {
    && a.segments <= b.segments && a.seeds <= b.seeds && a.dependencySeeds <= b.dependencySeeds
    && a.native <= b.native
  }

  ghost predicate Within(p: seq<Path>, q: seq<Path>) {
    forall i | 0 <= i < |p| :: p[i] in q
  }

  ghost predicate Increasing(p: seq<Path>) {
    forall i, j | 0 <= i < j < |p| :: p[i] < p[j]
  }

  lemma CollectIsMonotone(c: Config, a: Acc, b: Acc, y: Yield)
    requires AtMost(a, b)
    ensures AtMost(Collect(c, a, y), Collect(c, b, y)) && AtMost(a, Collect(c, b, y))
  {
  }

  /** Collecting more paths, in sorted order, collects at least as much. */
  lemma {:induction false} CollectAllIsMonotone(c: Config, p: seq<Path>, q: seq<Path>)
    requires Increasing(p) && Increasing(q) && Within(p, q)
    ensures AtMost(CollectAll(c, p), CollectAll(c, q))
    decreases |p| + |q|
  {
    if q != [] {
      var p', q' := if p == [] then [] else p[..|p| - 1], q[..|q| - 1];
      if p != [] && p[|p| - 1] == q[|q| - 1] {
        forall i | 0 <= i < |p'| ensures p'[i] in q' {
          assert p[i] in q && p[i] < q[|q| - 1];
        }
        CollectAllIsMonotone(c, p', q');
        CollectIsMonotone(c, CollectAll(c, p'), CollectAll(c, q'), c.yieldOf(q[|q| - 1]));
      } else {
        forall i | 0 <= i < |p| ensures p[i] in q' {
          assert p[i] in q;
          assert p[|p| - 1] in q && (i < |p| - 1 ==> p[i] < p[|p| - 1]);
        }
        CollectAllIsMonotone(c, p, q');
        CollectIsMonotone(c, CollectAll(c, p), CollectAll(c, q'), c.yieldOf(q[|q| - 1]));
      }
    }
  }

  lemma AnyIsMonotone(p: seq<Path>, q: seq<Path>, f: Path -> bool)
    requires Within(p, q)
    ensures Any(p, f) ==> Any(q, f)
  {
    if Any(p, f) {
      var i :| 0 <= i < |p| && f(p[i]);
      var j :| 0 <= j < |q| && q[j] == p[i];
    }
  }

  lemma RustSegmentsIsMonotone(c: Config, a: Acc, b: Acc, s: set<Id>, t: set<Id>)
    requires AtMost(a, b) && s <= t
    ensures AtMost(RustSegments(c, a, s), RustSegments(c, b, t))
  {
    assert s * c.shipping <= t * c.shipping;
  }

  lemma NativeRulesIsMonotone(c: Config, a: Acc, b: Acc, s: set<Id>, t: set<Id>)
    requires AtMost(a, b) && s <= t
    ensures AtMost(NativeRules(c, a, s), NativeRules(c, b, t))
  {
    assert c.proxy * c.members * s <= c.proxy * c.members * t;
    assert a.dependencySeeds * c.nativeDeps <= b.dependencySeeds * c.nativeDeps;
    assert a.dependencySeeds - c.windowsDeps <= b.dependencySeeds - c.windowsDeps;
  }

  lemma PullProxyIsMonotone(c: Config, a: Acc, b: Acc, x: bool, y: bool)
    requires AtMost(a, b) && (x ==> y)
    ensures AtMost(PullProxy(c, a, x), PullProxy(c, b, y))
  {
  }

  lemma LicenseRulesIsMonotone(c: Config, a: Acc, b: Acc, s: set<Id>, t: set<Id>, p: seq<Path>, q: seq<Path>)
    requires AtMost(a, b) && s <= t && Within(p, q)
    ensures AtMost(LicenseRules(c, a, s, p), LicenseRules(c, b, t, q))
  {
    assert c.proxy * c.members * s <= c.proxy * c.members * t;
    AnyIsMonotone(p, q, c.licenseInterface);
    AnyIsMonotone(p, q, c.manifest);
    AnyIsMonotone(p, q, c.buildRs);
    PullProxyIsMonotone(c, LicenseAudits(c, a, p), LicenseAudits(c, b, q),
                        LicenseTouched(c, s, p), LicenseTouched(c, t, q));
  }

  lemma ProxyRulesIsMonotone(c: Config, a: Acc, b: Acc, s: set<Id>, t: set<Id>, p: seq<Path>, q: seq<Path>)
    requires AtMost(a, b) && s <= t && Within(p, q)
    ensures AtMost(ProxyRules(c, a, s, p), ProxyRules(c, b, t, q))
  {
    assert c.proxy * c.members * s <= c.proxy * c.members * t;
    AnyIsMonotone(p, q, c.sdkOrVendor);
    AnyIsMonotone(p, q, c.buildRs);
  }

  lemma RulesIsMonotone(c: Config, a: Acc, b: Acc, s: set<Id>, t: set<Id>, p: seq<Path>, q: seq<Path>)
    requires AtMost(a, b) && s <= t && Within(p, q)
    ensures AtMost(Rules(c, a, s, p), Rules(c, b, t, q))
  {
    var s', t' := if c.sprintFull then c.members else s, if c.sprintFull then c.members else t;
    assert a.seeds * c.torUpstream <= b.seeds * c.torUpstream;
    AnyIsMonotone(p, q, c.torProxy);
    var a1 := AddIf(c, a.seeds * c.torUpstream != {} || Any(p, c.torProxy), a, Tor);
    var b1 := AddIf(c, b.seeds * c.torUpstream != {} || Any(q, c.torProxy), b, Tor);
    assert AtMost(FullSegments(c, a1), FullSegments(c, b1));
    RustSegmentsIsMonotone(c, FullSegments(c, a1), FullSegments(c, b1), s', t');
    var a2, b2 := RustSegments(c, FullSegments(c, a1), s'), RustSegments(c, FullSegments(c, b1), t');
    NativeRulesIsMonotone(c, a2, b2, s', t');
    var a3, b3 := NativeRules(c, a2, s'), NativeRules(c, b2, t');
    LicenseRulesIsMonotone(c, a3, b3, s', t', p, q);
    ProxyRulesIsMonotone(c, LicenseRules(c, a3, s', p), LicenseRules(c, b3, t', q), s', t', p, q);
  }

  /** Adding changed paths to a plan that still succeeds never removes a package or a segment. */
  lemma MorePathsNeverRemove(c: Config, p: seq<Path>, q: seq<Path>)
    requires Increasing(p) && Increasing(q) && Within(p, q)
    ensures PlanOf(c, p).packages <= PlanOf(c, q).packages
    ensures PlanOf(c, p).segments <= PlanOf(c, q).segments
  {
    CollectAllIsMonotone(c, p, q);
    var a, b := CollectAll(c, p), CollectAll(c, q);
    var s, t := AffectedBy(c, a.seeds), AffectedBy(c, b.seeds);
    RulesIsMonotone(c, a, b, s, t, p, q);
    var a1, b1 := Rules(c, a, s, p), Rules(c, b, t, q);
    RustSegmentsIsMonotone(c, a1, b1, PlanOf(c, p).packages, PlanOf(c, q).packages);
  }

  /** In affected mode a plan lists exactly the members that are, or transitively depend on, a package seeded by one
      of the paths, or the proxy where a licensing change pulls it in. */
  lemma PlanListsTheAffected(c: Config, paths: seq<Path>, m: Id)
    requires Valid(c) && !c.sprintFull
    ensures m in PlanOf(c, paths).packages <==>
      m in c.members && exists s :: IsSeed(c, paths, s) && Reaches(c.forward, m, s)
  {
    forall s ensures Reaches(c.forward, m, s) <==> Reaches(c.reverse, s, m) {
      ReachesReversed(c.forward, c.reverse, m, s);
    }
    var a := CollectAll(c, paths);
    Collected(c, paths);
    HitIsAffected(c, paths);
    SeedsAfterRules(c, a, AffectedBy(c, a.seeds), paths);
    assert forall s :: s in AfterRules(c, paths).seeds <==> IsSeed(c, paths, s);
  }

  ghost predicate IsSeed(c: Config, paths: seq<Path>, s: Id) {
    SeededBy(c, paths, s) || (s in c.proxy && s in c.members && LicensingAffected(c, paths))
  }
}
