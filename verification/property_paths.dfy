/** The property paths a sequence entry varies: dotted DART paths such as
    `Coeff_diff.Temperatures.ThermalFunction[3].meanT`, each an indexed list
    element followed by a fixed attribute path. */
module PropertyPaths {
  import opened Optional
  import opened Text

  datatype Axis = X | Y | Z

  /** What a sequence entry varies. */
  datatype Target =
    | ObjectScale(objectIndex: nat, axis: Axis)   // scale of one 3-D object
    | ThermalMeanT(slot: nat)                     // mean temperature of a thermal function
    | ProspectCab(opticalIndex: nat)              // chlorophyll of a PROSPECT leaf optical property
    | ProspectCw(opticalIndex: nat)               // water thickness of a PROSPECT leaf optical property

  const ObjectPrefix := "object_3d.ObjectList.Object["
  const ThermalPrefix := "Coeff_diff.Temperatures.ThermalFunction["
  const LambertianPrefix := "Coeff_diff.Surfaces." + "LambertianMultiFunctions." + "LambertianMulti["
  const MeanTSuffix := "].meanT"
  const ProspectPath := "].Lambertian." + "ProspectExternalModule." + "ProspectExternParameters."
  const CabSuffix := ProspectPath + "Cab"
  const CwSuffix := ProspectPath + "Cw"

  function AxisName(a: Axis): string {
    match a
    case X => "x"
    case Y => "y"
    case Z => "z"
  }

  function ScaleSuffix(a: Axis): string {
    "].GeometricProperties.ScaleProperties." + AxisName(a) + "scale"
  }

  /** The `propertyName` attribute written for a target. */
  function PropertyName(t: Target): string {
    match t
    case ObjectScale(i, a) => ObjectPrefix + NatToString(i) + ScaleSuffix(a)
    case ThermalMeanT(j) => ThermalPrefix + NatToString(j) + MeanTSuffix
    case ProspectCab(i) => LambertianPrefix + NatToString(i) + CabSuffix
    case ProspectCw(i) => LambertianPrefix + NatToString(i) + CwSuffix
  }

  /** The index of `prefix + digits + suffix`. */
  function IndexBetween(s: string, prefix: string, suffix: string): (r: Option<nat>)
    ensures r.Some? ==> StartsWith(s, prefix) && EndsWith(s, suffix)
  {
    if |prefix| + |suffix| <= |s| && s[..|prefix|] == prefix && s[|s| - |suffix|..] == suffix then
      ParseNat(s[|prefix|..|s| - |suffix|])
    else
      None
  }

  /** Reads a property path back into the target it names. */
  function ParsePropertyName(s: string): (r: Option<Target>) {
    match IndexBetween(s, ObjectPrefix, ScaleSuffix(X))
    case Some(i) => Some(ObjectScale(i, X))
    case None =>
    match IndexBetween(s, ObjectPrefix, ScaleSuffix(Y))
    case Some(i) => Some(ObjectScale(i, Y))
    case None =>
    match IndexBetween(s, ObjectPrefix, ScaleSuffix(Z))
    case Some(i) => Some(ObjectScale(i, Z))
    case None =>
    match IndexBetween(s, ThermalPrefix, MeanTSuffix)
    case Some(j) => Some(ThermalMeanT(j))
    case None =>
    match IndexBetween(s, LambertianPrefix, CabSuffix)
    case Some(i) => Some(ProspectCab(i))
    case None =>
    match IndexBetween(s, LambertianPrefix, CwSuffix)
    case Some(i) => Some(ProspectCw(i))
    case None => None
  }

  lemma IndexBetweenOf(prefix: string, n: nat, suffix: string)
    ensures IndexBetween(prefix + NatToString(n) + suffix, prefix, suffix) == Some(n)
  {
    var s := prefix + NatToString(n) + suffix;
    assert s[..|prefix|] == prefix;
    assert s[|s| - |suffix|..] == suffix;
    assert s[|prefix|..|s| - |suffix|] == NatToString(n);
    ParseNatToString(n);
  }

  /** A path that differs from a prefix at one of its positions does not
      match that prefix. */
  lemma PrefixClash(s: string, q: string, suffix: string, j: nat)
    requires j < |q| && j < |s| && s[j] != q[j]
    ensures IndexBetween(s, q, suffix).None?
  {
    if |q| <= |s| {
      assert s[..|q|][j] == s[j];
    }
  }

  /** Paths whose suffixes differ at a common distance from the end never
      match each other's suffix. */
  lemma SuffixClash(prefix: string, mid: string, p: string, q: string, j: nat)
    requires 0 < j <= |p| && j <= |q| && p[|p| - j] != q[|q| - j]
    ensures IndexBetween(prefix + mid + p, prefix, q).None?
  {
    var s := prefix + mid + p;
    if |q| <= |s| {
      assert s[|s| - |q|..][|q| - j] == s[|s| - j] == p[|p| - j] != q[|q| - j];
    }
  }

  lemma ParseObjectScaleName(i: nat, a: Axis)
    ensures ParsePropertyName(PropertyName(ObjectScale(i, a))) == Some(ObjectScale(i, a))
  {
    IndexBetweenOf(ObjectPrefix, i, ScaleSuffix(a));
    if a != X {
      SuffixClash(ObjectPrefix, NatToString(i), ScaleSuffix(a), ScaleSuffix(X), 6);
    }
    if a == Z {
      SuffixClash(ObjectPrefix, NatToString(i), ScaleSuffix(a), ScaleSuffix(Y), 6);
    }
  }

  lemma ParseThermalName(j: nat)
    ensures ParsePropertyName(PropertyName(ThermalMeanT(j))) == Some(ThermalMeanT(j))
  {
    IndexBetweenOf(ThermalPrefix, j, MeanTSuffix);
    var s := ThermalPrefix + NatToString(j) + MeanTSuffix;
    assert s[0] == ThermalPrefix[0] == 'C' && ObjectPrefix[0] == 'o';
    PrefixClash(s, ObjectPrefix, ScaleSuffix(X), 0);
    PrefixClash(s, ObjectPrefix, ScaleSuffix(Y), 0);
    PrefixClash(s, ObjectPrefix, ScaleSuffix(Z), 0);
  }

  /** A Lambertian path matches neither an object nor a thermal prefix. */
  lemma LambertianNameSkipsOthers(mid: string, suffix: string)
    ensures var s := LambertianPrefix + mid + suffix;
      && IndexBetween(s, ObjectPrefix, ScaleSuffix(X)).None?
      && IndexBetween(s, ObjectPrefix, ScaleSuffix(Y)).None?
      && IndexBetween(s, ObjectPrefix, ScaleSuffix(Z)).None?
      && IndexBetween(s, ThermalPrefix, MeanTSuffix).None?
  {
    var s := LambertianPrefix + mid + suffix;
    assert s[0] == LambertianPrefix[0] == 'C' && ObjectPrefix[0] == 'o';
    assert s[11] == LambertianPrefix[11] == 'S' && ThermalPrefix[11] == 'T';
    PrefixClash(s, ObjectPrefix, ScaleSuffix(X), 0);
    PrefixClash(s, ObjectPrefix, ScaleSuffix(Y), 0);
    PrefixClash(s, ObjectPrefix, ScaleSuffix(Z), 0);
    PrefixClash(s, ThermalPrefix, MeanTSuffix, 11);
  }

  lemma ParseCabName(i: nat)
    ensures ParsePropertyName(PropertyName(ProspectCab(i))) == Some(ProspectCab(i))
  {
    IndexBetweenOf(LambertianPrefix, i, CabSuffix);
    LambertianNameSkipsOthers(NatToString(i), CabSuffix);
  }

  lemma ParseCwName(i: nat)
    ensures ParsePropertyName(PropertyName(ProspectCw(i))) == Some(ProspectCw(i))
  {
    IndexBetweenOf(LambertianPrefix, i, CwSuffix);
    LambertianNameSkipsOthers(NatToString(i), CwSuffix);
    assert CwSuffix[|CwSuffix| - 2] == 'C' && CabSuffix[|CabSuffix| - 2] == 'a';
    SuffixClash(LambertianPrefix, NatToString(i), CwSuffix, CabSuffix, 2);
  }

  /** Every property path written is read back as the target it was written
      for. */
  lemma ParsePropertyNameOf(t: Target)
    ensures ParsePropertyName(PropertyName(t)) == Some(t)
  {
    match t
    case ObjectScale(i, a) => ParseObjectScaleName(i, a);
    case ThermalMeanT(j) => ParseThermalName(j);
    case ProspectCab(i) => ParseCabName(i);
    case ProspectCw(i) => ParseCwName(i);
  }

  /** Rendering is injective: two targets with the same path are equal. */
  lemma PropertyNameInjective(t: Target, u: Target)
    requires PropertyName(t) == PropertyName(u)
    ensures t == u
  {
    ParsePropertyNameOf(t);
    ParsePropertyNameOf(u);
  }
}
