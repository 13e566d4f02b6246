/**
 The layered merge of health-check configuration (gateway/health_check_executor.go): external below
 local below unified services, service by service and check by check.
 */
module ConfigMerge {
  import opened Prelude

  // ------------------------------------------------------------------ overlaying keyed lists

  /** The entry a map built by scanning the list would hold: the last one with the key. */
  function Lookup<T>(key: T -> string, xs: seq<T>, k: string): (r: Option<T>)
    ensures r.Some? ==> r.value in xs && key(r.value) == k
  {
    if xs == [] then None
    else if key(xs[|xs| - 1]) == k then Some(xs[|xs| - 1])
    else Lookup(key, xs[..|xs| - 1], k)
  }

  predicate HasKey<T>(key: T -> string, xs: seq<T>, k: string) { Lookup(key, xs, k).Some? }

  function PatchOne<T>(key: T -> string, combine: (T, T) -> T, x: T, over: seq<T>): T {
    match Lookup(key, over, key(x))
    case Some(y) => combine(x, y)
    case None => x
  }

  /** Every base entry, combined with the overriding entry of its key if there is one. */
  function Patch<T>(key: T -> string, combine: (T, T) -> T, base: seq<T>, over: seq<T>): (r: seq<T>)
    ensures |r| == |base|
  {
    if base == [] then [] else Patch(key, combine, base[..|base| - 1], over) + [PatchOne(key, combine, base[|base| - 1], over)]
  }

  /** The overriding entries whose key the base does not have. */
  function Extra<T>(key: T -> string, base: seq<T>, over: seq<T>): seq<T> {
    if over == [] then []
    else Extra(key, base, over[..|over| - 1])
         + if HasKey(key, base, key(over[|over| - 1])) then [] else [over[|over| - 1]]
  }

  function Overlay<T>(key: T -> string, combine: (T, T) -> T, base: seq<T>, over: seq<T>): seq<T> {
    Patch(key, combine, base, over) + Extra(key, base, over)
  }

  ghost predicate KeepsKey<T(!new)>(key: T -> string, combine: (T, T) -> T) {
    forall x, y :: key(x) == key(y) ==> key(combine(x, y)) == key(x)
  }

  ghost predicate Associates<T(!new)>(key: T -> string, combine: (T, T) -> T) {
    forall x, y, z :: key(x) == key(y) == key(z) ==> combine(combine(x, y), z) == combine(x, combine(y, z))
  }

  // ------------------------------------------------------------------ lookups after an overlay

  lemma {:induction false} LookupAppend<T>(key: T -> string, xs: seq<T>, ys: seq<T>, k: string)
    ensures Lookup(key, xs + ys, k) == if HasKey(key, ys, k) then Lookup(key, ys, k) else Lookup(key, xs, k)
    decreases |ys|
  {
    if ys == [] {
      assert xs + ys == xs;
    } else {
      var n := |ys| - 1;
      assert (xs + ys)[..|xs + ys| - 1] == xs + ys[..n];
      LookupAppend(key, xs, ys[..n], k);
    }
  }

  lemma {:induction false} LookupPatch<T(!new)>(key: T -> string, combine: (T, T) -> T, base: seq<T>, over: seq<T>, k: string)
    requires KeepsKey(key, combine)
    ensures Lookup(key, Patch(key, combine, base, over), k)
            == match Lookup(key, base, k) case None => None case Some(x) => Some(PatchOne(key, combine, x, over))
    decreases |base|
  {
    if base != [] {
      var n := |base| - 1;
      LookupPatch(key, combine, base[..n], over, k);
      assert Patch(key, combine, base, over)[..n] == Patch(key, combine, base[..n], over);
    }
  }

  lemma {:induction false} LookupExtra<T>(key: T -> string, base: seq<T>, over: seq<T>, k: string)
    ensures Lookup(key, Extra(key, base, over), k) == if HasKey(key, base, k) then None else Lookup(key, over, k)
    decreases |over|
  {
    if over != [] {
      var n := |over| - 1;
      LookupExtra(key, base, over[..n], k);
      LookupAppend(key, Extra(key, base, over[..n]), [over[n]], k);
      assert [over[n]][..0] == [];
      if HasKey(key, base, key(over[n])) {
        assert Extra(key, base, over) == Extra(key, base, over[..n]);
      }
    }
  }

  /** Right-biased override: a key is in the overlay exactly when it is in either list, with the two
      entries combined when it is in both. */
  lemma LookupOverlay<T(!new)>(key: T -> string, combine: (T, T) -> T, base: seq<T>, over: seq<T>, k: string)
    requires KeepsKey(key, combine)
    ensures Lookup(key, Overlay(key, combine, base, over), k)
            == match (Lookup(key, base, k), Lookup(key, over, k))
               case (Some(x), Some(y)) => Some(combine(x, y))
               case (Some(x), None) => Some(x)
               case (None, y) => y
  {
    LookupAppend(key, Patch(key, combine, base, over), Extra(key, base, over), k);
    LookupPatch(key, combine, base, over, k);
    LookupExtra(key, base, over, k);
  }

  // ------------------------------------------------------------------ associativity

  lemma {:induction false} PatchAppend<T>(key: T -> string, combine: (T, T) -> T, xs: seq<T>, ys: seq<T>, over: seq<T>)
    ensures Patch(key, combine, xs + ys, over) == Patch(key, combine, xs, over) + Patch(key, combine, ys, over)
    decreases |ys|
  {
    if ys == [] {
      assert xs + ys == xs;
    } else {
      var n := |ys| - 1;
      PatchAppend(key, combine, xs, ys[..n], over);
      assert (xs + ys)[..|xs + ys| - 1] == xs + ys[..n];
    }
  }

  lemma {:induction false} ExtraAppend<T>(key: T -> string, base: seq<T>, xs: seq<T>, ys: seq<T>)
    ensures Extra(key, base, xs + ys) == Extra(key, base, xs) + Extra(key, base, ys)
    decreases |ys|
  {
    if ys == [] {
      assert xs + ys == xs;
    } else {
      var n := |ys| - 1;
      ExtraAppend(key, base, xs, ys[..n]);
      assert (xs + ys)[..|xs + ys| - 1] == xs + ys[..n];
    }
  }

  lemma {:induction false} PatchTwice<T(!new)>(key: T -> string, combine: (T, T) -> T, a: seq<T>, b: seq<T>, c: seq<T>)
    requires KeepsKey(key, combine) && Associates(key, combine)
    ensures Patch(key, combine, Patch(key, combine, a, b), c) == Patch(key, combine, a, Overlay(key, combine, b, c))
    decreases |a|
  {
    if a != [] {
      var n := |a| - 1;
      var x := a[n];
      PatchTwice(key, combine, a[..n], b, c);
      assert Patch(key, combine, a, b)[..n] == Patch(key, combine, a[..n], b);
      LookupOverlay(key, combine, b, c, key(x));
    }
  }

  lemma {:induction false} PatchExtra<T(!new)>(key: T -> string, combine: (T, T) -> T, a: seq<T>, b: seq<T>, c: seq<T>)
    requires KeepsKey(key, combine)
    ensures Patch(key, combine, Extra(key, a, b), c) == Extra(key, a, Patch(key, combine, b, c))
    decreases |b|
  {
    if b != [] {
      var n := |b| - 1;
      PatchExtra(key, combine, a, b[..n], c);
      var p := Patch(key, combine, b, c);
      assert p[..n] == Patch(key, combine, b[..n], c);
      assert key(p[n]) == key(b[n]);
      if HasKey(key, a, key(b[n])) {
        assert Extra(key, a, b) == Extra(key, a, b[..n]);
      } else {
        assert Extra(key, a, b)[..|Extra(key, a, b[..n])|] == Extra(key, a, b[..n]);
      }
    }
  }

  lemma {:induction false} ExtraTwice<T(!new)>(key: T -> string, combine: (T, T) -> T, a: seq<T>, b: seq<T>, c: seq<T>)
    requires KeepsKey(key, combine)
    ensures Extra(key, Overlay(key, combine, a, b), c) == Extra(key, a, Extra(key, b, c))
    decreases |c|
  {
    if c != [] {
      var n := |c| - 1;
      ExtraTwice(key, combine, a, b, c[..n]);
      LookupOverlay(key, combine, a, b, key(c[n]));
      if HasKey(key, b, key(c[n])) {
        assert Extra(key, b, c) == Extra(key, b, c[..n]);
      } else {
        assert Extra(key, b, c)[..|Extra(key, b, c[..n])|] == Extra(key, b, c[..n]);
      }
    }
  }

  /** Three layers side by side: what `a` has, what only `b` adds, what only `c` adds. */
  function ThreeLayers<T>(key: T -> string, combine: (T, T) -> T, a: seq<T>, b: seq<T>, c: seq<T>): seq<T> {
    Patch(key, combine, a, Overlay(key, combine, b, c)) + Extra(key, a, Patch(key, combine, b, c)) + Extra(key, a, Extra(key, b, c))
  }

  lemma LeftNested<T(!new)>(key: T -> string, combine: (T, T) -> T, a: seq<T>, b: seq<T>, c: seq<T>)
    requires KeepsKey(key, combine) && Associates(key, combine)
    ensures Overlay(key, combine, Overlay(key, combine, a, b), c) == ThreeLayers(key, combine, a, b, c)
  {
    PatchAppend(key, combine, Patch(key, combine, a, b), Extra(key, a, b), c);
    PatchTwice(key, combine, a, b, c);
    PatchExtra(key, combine, a, b, c);
    ExtraTwice(key, combine, a, b, c);
  }

  lemma RightNested<T>(key: T -> string, combine: (T, T) -> T, a: seq<T>, b: seq<T>, c: seq<T>)
    ensures Overlay(key, combine, a, Overlay(key, combine, b, c)) == ThreeLayers(key, combine, a, b, c)
  {
    ExtraAppend(key, a, Patch(key, combine, b, c), Extra(key, b, c));
  }

  /** The order in which three layers are merged does not matter, as an exact equality of lists. */
  lemma OverlayAssociates<T(!new)>(key: T -> string, combine: (T, T) -> T, a: seq<T>, b: seq<T>, c: seq<T>)
    requires KeepsKey(key, combine) && Associates(key, combine)
    ensures Overlay(key, combine, Overlay(key, combine, a, b), c) == Overlay(key, combine, a, Overlay(key, combine, b, c))
  {
    LeftNested(key, combine, a, b, c);
    RightNested(key, combine, a, b, c);
  }

  lemma {:induction false} OverlayIdentity<T>(key: T -> string, combine: (T, T) -> T, xs: seq<T>)
    ensures Overlay(key, combine, [], xs) == xs && Overlay(key, combine, xs, []) == xs
    decreases |xs|
  {
    if xs != [] {
      var n := |xs| - 1;
      OverlayIdentity(key, combine, xs[..n]);
    }
  }

  // ------------------------------------------------------------------ uniqueness

  predicate Unique<T>(key: T -> string, xs: seq<T>) {
    forall i, j :: 0 <= i < j < |xs| ==> key(xs[i]) != key(xs[j])
  }

  lemma {:induction false} KeyAt<T>(key: T -> string, xs: seq<T>, k: string, i: nat)
    requires i < |xs| && key(xs[i]) == k
    ensures HasKey(key, xs, k)
    decreases |xs|
  {
    if key(xs[|xs| - 1]) != k {
      KeyAt(key, xs[..|xs| - 1], k, i);
    }
  }

  lemma {:induction false} UniqueSnoc<T>(key: T -> string, xs: seq<T>, y: T)
    requires Unique(key, xs) && !HasKey(key, xs, key(y))
    ensures Unique(key, xs + [y])
  {
    forall i | 0 <= i < |xs|
      ensures key(xs[i]) != key(y)
    {
      if key(xs[i]) == key(y) {
        KeyAt(key, xs, key(y), i);
      }
    }
  }

  lemma {:induction false} PatchKeys<T(!new)>(key: T -> string, combine: (T, T) -> T, base: seq<T>, over: seq<T>, i: nat)
    requires KeepsKey(key, combine) && i < |base|
    ensures key(Patch(key, combine, base, over)[i]) == key(base[i])
    decreases |base|
  {
    if i < |base| - 1 {
      PatchKeys(key, combine, base[..|base| - 1], over, i);
    }
  }

  lemma {:induction false} OverlayUnique<T(!new)>(key: T -> string, combine: (T, T) -> T, base: seq<T>, over: seq<T>)
    requires KeepsKey(key, combine) && Unique(key, base) && Unique(key, over)
    ensures Unique(key, Overlay(key, combine, base, over))
    decreases |over|
  {
    var patch := Patch(key, combine, base, over);
    forall i | 0 <= i < |base|
      ensures key(patch[i]) == key(base[i])
    {
      PatchKeys(key, combine, base, over, i);
    }
    ExtraUnique(key, patch, base, over);
  }

  lemma {:induction false} ExtraUnique<T>(key: T -> string, patch: seq<T>, base: seq<T>, over: seq<T>)
    requires |patch| == |base| && Unique(key, base) && Unique(key, over)
    requires forall i :: 0 <= i < |base| ==> key(patch[i]) == key(base[i])
    ensures Unique(key, patch + Extra(key, base, over))
    decreases |over|
  {
    if over == [] {
      assert patch + [] == patch;
    } else {
      var n := |over| - 1;
      var y := over[n];
      ExtraUnique(key, patch, base, over[..n]);
      var so := patch + Extra(key, base, over[..n]);
      if HasKey(key, base, key(y)) {
        assert patch + Extra(key, base, over) == so;
      } else {
        LookupAppend(key, patch, Extra(key, base, over[..n]), key(y));
        LookupExtra(key, base, over[..n], key(y));
        Absent(key, patch, base, key(y));
        EarlierIsOther(key, over, n);
        UniqueSnoc(key, so, y);
        assert so + [y] == patch + Extra(key, base, over);
      }
    }
  }

  lemma {:induction false} Absent<T>(key: T -> string, patch: seq<T>, base: seq<T>, k: string)
    requires |patch| == |base| && forall i :: 0 <= i < |base| ==> key(patch[i]) == key(base[i])
    requires !HasKey(key, base, k)
    ensures !HasKey(key, patch, k)
    decreases |base|
  {
    if base != [] {
      var n := |base| - 1;
      assert key(patch[n]) == key(base[n]);
      Absent(key, patch[..n], base[..n], k);
    }
  }

  lemma EarlierIsOther<T>(key: T -> string, over: seq<T>, n: nat)
    requires Unique(key, over) && n < |over|
    ensures !HasKey(key, over[..n], key(over[n]))
  {
  }

  // ------------------------------------------------------------------ health-check configuration

  /** A check is its name and everything else about it, which a merge only ever takes whole. */
  datatype Check = Check(name: string, settings: string)

  datatype Service = Service(
    id: string,
    checkInterval: int,
    enabled: Option<bool>,
    syncAllowance: Option<int>,
    checks: seq<Check>)

  function CheckName(c: Check): string { c.name }

  function Later(x: Check, y: Check): Check { y }

  function ServiceId(s: Service): string { s.id }

  function MergeService(external: Service, local: Service): Service {
    Service(
      local.id,
      if local.checkInterval > 0 then local.checkInterval else external.checkInterval,
      if local.enabled.Some? then local.enabled else external.enabled,
      if local.syncAllowance.Some? then local.syncAllowance else external.syncAllowance,
      Overlay(CheckName, Later, external.checks, local.checks))
  }

  function MergeConfigs(external: seq<Service>, local: seq<Service>): seq<Service> {
    Overlay(ServiceId, MergeService, external, local)
  }

  lemma MergeServiceLaws()
    ensures KeepsKey(CheckName, Later) && Associates(CheckName, Later)
    ensures KeepsKey(ServiceId, MergeService) && Associates(ServiceId, MergeService)
  {
    forall x: Service, y: Service, z: Service | ServiceId(x) == ServiceId(y) == ServiceId(z)
      ensures MergeService(MergeService(x, y), z) == MergeService(x, MergeService(y, z))
    {
      OverlayAssociates(CheckName, Later, x.checks, y.checks, z.checks);
    }
  }

  /** Merging configuration layers is associative with the empty layer as identity. */
  lemma MergeConfigsIsMonoid(a: seq<Service>, b: seq<Service>, c: seq<Service>)
    ensures MergeConfigs(MergeConfigs(a, b), c) == MergeConfigs(a, MergeConfigs(b, c))
    ensures MergeConfigs([], a) == a && MergeConfigs(a, []) == a
  {
    MergeServiceLaws();
    OverlayAssociates(ServiceId, MergeService, a, b, c);
    OverlayIdentity(ServiceId, MergeService, a);
  }

  lemma MergedChecksOverride(x: Service, y: Service, name: string)
    ensures Lookup(CheckName, MergeService(x, y).checks, name)
            == if HasKey(CheckName, y.checks, name) then Lookup(CheckName, y.checks, name)
               else Lookup(CheckName, x.checks, name)
  {
    MergeServiceLaws();
    LookupOverlay(CheckName, Later, x.checks, y.checks, name);
  }

  // ------------------------------------------------------------------ what the highest layer sets

  /** The highest of three layers that has a value. */
  ghost function Highest<T>(top: Option<T>, middle: Option<T>, bottom: Option<T>): Option<T> {
    if top.Some? then top else if middle.Some? then middle else bottom
  }

  ghost function EnabledIn(s: Option<Service>): Option<bool> { if s.Some? then s.value.enabled else None }

  ghost function AllowanceIn(s: Option<Service>): Option<int> { if s.Some? then s.value.syncAllowance else None }

  ghost function IntervalIn(s: Option<Service>): Option<int> {
    if s.Some? && s.value.checkInterval > 0 then Some(s.value.checkInterval) else None
  }

  ghost function CheckIn(s: Option<Service>, name: string): Option<Check> {
    if s.Some? then Lookup(CheckName, s.value.checks, name) else None
  }

  /** A service is there when some layer has it. Its switch, its allowance, its interval and each of its
      checks are those of the highest layer that sets them; an interval no layer sets is the one of the
      lowest layer that has the service. */
  ghost predicate Overridden(top: Option<Service>, middle: Option<Service>, bottom: Option<Service>, r: Option<Service>) {
    && (r.Some? <==> top.Some? || middle.Some? || bottom.Some?)
    && (r.Some? ==>
          && r.value.enabled == Highest(EnabledIn(top), EnabledIn(middle), EnabledIn(bottom))
          && r.value.syncAllowance == Highest(AllowanceIn(top), AllowanceIn(middle), AllowanceIn(bottom))
          && var interval := Highest(IntervalIn(top), IntervalIn(middle), IntervalIn(bottom));
          && r.value.checkInterval == (if interval.Some? then interval.value else Highest(bottom, middle, top).value.checkInterval)
          && forall name :: CheckIn(r, name) == Highest(CheckIn(top, name), CheckIn(middle, name), CheckIn(bottom, name)))
  }

  /** What a merge of two layers leaves of a service. */
  function Merged(bottom: Option<Service>, top: Option<Service>): Option<Service> {
    match (bottom, top)
    case (Some(x), Some(y)) => Some(MergeService(x, y))
    case (Some(x), None) => Some(x)
    case (None, y) => y
  }

  lemma MergedIsLookup(a: seq<Service>, b: seq<Service>, id: string)
    ensures Lookup(ServiceId, MergeConfigs(a, b), id) == Merged(Lookup(ServiceId, a, id), Lookup(ServiceId, b, id))
  {
    MergeServiceLaws();
    LookupOverlay(ServiceId, MergeService, a, b, id);
  }

  lemma MergedChecks(bottom: Option<Service>, top: Option<Service>, name: string)
    ensures CheckIn(Merged(bottom, top), name) == Highest(CheckIn(top, name), CheckIn(bottom, name), None)
  {
    if bottom.Some? && top.Some? {
      MergedChecksOverride(bottom.value, top.value, name);
    }
  }

  lemma MergedOverrides(bottom: Option<Service>, middle: Option<Service>, top: Option<Service>)
    ensures Overridden(top, middle, bottom, Merged(Merged(bottom, middle), top))
  {
    forall name
      ensures CheckIn(Merged(Merged(bottom, middle), top), name)
              == Highest(CheckIn(top, name), CheckIn(middle, name), CheckIn(bottom, name))
    {
      MergedChecks(bottom, middle, name);
      MergedChecks(Merged(bottom, middle), top, name);
    }
  }

  /** Each service's merged entry, field by field and check by check. */
  lemma MergeConfigsOverrides(a: seq<Service>, b: seq<Service>, id: string)
    ensures Overridden(Lookup(ServiceId, b, id), Lookup(ServiceId, a, id), None, Lookup(ServiceId, MergeConfigs(a, b), id))
  {
    MergedIsLookup(a, b, id);
    MergedOverrides(None, Lookup(ServiceId, a, id), Lookup(ServiceId, b, id));
  }

  /** The same for the three layers of a deployment. */
  lemma LayersOverride(external: seq<Service>, local: seq<Service>, unified: seq<Service>, id: string)
    ensures Overridden(Lookup(ServiceId, unified, id), Lookup(ServiceId, local, id), Lookup(ServiceId, external, id),
                       Lookup(ServiceId, MergeConfigs(MergeConfigs(external, local), unified), id))
  {
    MergedIsLookup(external, local, id);
    MergedIsLookup(MergeConfigs(external, local), unified, id);
    MergedOverrides(Lookup(ServiceId, external, id), Lookup(ServiceId, local, id), Lookup(ServiceId, unified, id));
  }

  predicate WellFormed(layer: seq<Service>) {
    Unique(ServiceId, layer) && forall i :: 0 <= i < |layer| ==> Unique(CheckName, layer[i].checks)
  }

  lemma {:induction false} PatchedWellFormed(a: seq<Service>, b: seq<Service>, i: nat)
    requires WellFormed(a) && WellFormed(b) && i < |a|
    ensures Unique(CheckName, Patch(ServiceId, MergeService, a, b)[i].checks)
    decreases |a|
  {
    var n := |a| - 1;
    if i < n {
      PatchedWellFormed(a[..n], b, i);
    } else if HasKey(ServiceId, b, a[n].id) {
      MergeServiceLaws();
      var y := Lookup(ServiceId, b, a[n].id).value;
      OverlayUnique(CheckName, Later, a[n].checks, y.checks);
    }
  }

  lemma {:induction false} ExtraFrom<T>(key: T -> string, base: seq<T>, over: seq<T>, i: nat)
    requires i < |Extra(key, base, over)|
    ensures Extra(key, base, over)[i] in over
    decreases |over|
  {
    var n := |over| - 1;
    if i < |Extra(key, base, over[..n])| {
      ExtraFrom(key, base, over[..n], i);
    }
  }

  /** Layers without repeated services or repeated checks merge into one without either. */
  lemma MergeKeepsUniqueness(a: seq<Service>, b: seq<Service>)
    requires WellFormed(a) && WellFormed(b)
    ensures WellFormed(MergeConfigs(a, b))
  {
    MergeServiceLaws();
    OverlayUnique(ServiceId, MergeService, a, b);
    var merged := MergeConfigs(a, b);
    forall i | 0 <= i < |merged|
      ensures Unique(CheckName, merged[i].checks)
    {
      if i < |a| {
        PatchedWellFormed(a, b, i);
      } else {
        ExtraFrom(ServiceId, a, b, i - |a|);
      }
    }
  }

  // ------------------------------------------------------------------ the merging code

  /** GetServiceConfigs skips merges with an empty layer. */
  method GetServiceConfigs(external: seq<Service>, local: seq<Service>, unified: seq<Service>) returns (r: seq<Service>)
    ensures r == MergeConfigs(MergeConfigs(external, local), unified)
    ensures r == MergeConfigs(external, MergeConfigs(local, unified))
    ensures forall id :: Overridden(Lookup(ServiceId, unified, id), Lookup(ServiceId, local, id),
                                    Lookup(ServiceId, external, id), Lookup(ServiceId, r, id))
  {
    forall id {
      LayersOverride(external, local, unified, id);
    }
    MergeConfigsIsMonoid(external, local, unified);
    MergeConfigsIsMonoid(local, unified, []);
    MergeConfigsIsMonoid(unified, [], []);
    var base: seq<Service> := external;
    if |local| > 0 {
      if |base| > 0 {
        base := MergeLayers(base, local);
      } else {
        base := local;
      }
    }
    if |unified| > 0 {
      if |base| > 0 {
        r := MergeLayers(base, unified);
        return;
      }
      return unified;
    }
    return base;
  }

  /** The map a scan of the list builds: later entries replace earlier ones. */
  method Index<T>(key: T -> string, xs: seq<T>) returns (m: map<string, T>)
    ensures forall k :: k in m <==> HasKey(key, xs, k)
    ensures forall k :: k in m ==> Lookup(key, xs, k) == Some(m[k])
  {
    m := map[];
    for i := 0 to |xs|
      invariant forall k :: k in m <==> HasKey(key, xs[..i], k)
      invariant forall k :: k in m ==> Lookup(key, xs[..i], k) == Some(m[k])
    {
      assert xs[..i + 1][..i] == xs[..i];
      m := m[key(xs[i]) := xs[i]];
    }
    assert xs[..|xs|] == xs;
  }

  method MergeLayers(external: seq<Service>, local: seq<Service>) returns (result: seq<Service>)
    ensures result == MergeConfigs(external, local)
  {
    var localByService := Index(ServiceId, local);
    var processed := {};
    result := [];
    for i := 0 to |external|
      invariant result == Patch(ServiceId, MergeService, external[..i], local)
      invariant forall k :: k in processed <==> HasKey(ServiceId, external[..i], k) && HasKey(ServiceId, local, k)
    {
      assert external[..i + 1][..i] == external[..i];
      if external[i].id in localByService {
        var merged := MergeServices(external[i], localByService[external[i].id]);
        result := result + [merged];
        processed := processed + {external[i].id};
      } else {
        result := result + [external[i]];
      }
    }
    assert external[..|external|] == external;
    ghost var patched := result;
    for i := 0 to |local|
      invariant result == patched + Extra(ServiceId, external, local[..i])
    {
      assert local[..i + 1][..i] == local[..i];
      KeyAt(ServiceId, local, local[i].id, i);
      if local[i].id !in processed {
        result := result + [local[i]];
      }
    }
    assert local[..|local|] == local;
  }

  method MergeServices(external: Service, local: Service) returns (merged: Service)
    ensures merged == MergeService(external, local)
    ensures merged.id == local.id && Overridden(Some(local), Some(external), None, Some(merged))
  {
    MergedOverrides(None, Some(external), Some(local));
    var byName := Index(CheckName, local.checks);
    var checks: seq<Check> := [];
    var processed := {};
    for i := 0 to |external.checks|
      invariant checks == Patch(CheckName, Later, external.checks[..i], local.checks)
      invariant forall k :: k in processed <==> HasKey(CheckName, external.checks[..i], k) && HasKey(CheckName, local.checks, k)
    {
      assert external.checks[..i + 1][..i] == external.checks[..i];
      var name := external.checks[i].name;
      if name in byName {
        checks := checks + [byName[name]];
        processed := processed + {name};
      } else {
        checks := checks + [external.checks[i]];
      }
    }
    assert external.checks[..|external.checks|] == external.checks;
    ghost var patched := checks;
    for i := 0 to |local.checks|
      invariant checks == patched + Extra(CheckName, external.checks, local.checks[..i])
    {
      assert local.checks[..i + 1][..i] == local.checks[..i];
      KeyAt(CheckName, local.checks, local.checks[i].name, i);
      if local.checks[i].name !in processed {
        checks := checks + [local.checks[i]];
      }
    }
    assert local.checks[..|local.checks|] == local.checks;
    var interval := if local.checkInterval > 0 then local.checkInterval else external.checkInterval;
    var enabled := if local.enabled.Some? then local.enabled else external.enabled;
    var allowance := if local.syncAllowance.Some? then local.syncAllowance else external.syncAllowance;
    merged := Service(local.id, interval, enabled, allowance, checks);
  }
}
