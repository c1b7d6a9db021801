/** `update_coeff_diff.py`: the optical and thermal property registries of
    `coeff_diff.xml`, whose list positions the sequence descriptor and the
    3-D objects refer to. */
module CoeffDiff {
  import opened Optional
  import opened Text
  import opened Config
  import opened PositionFile

  /** A `ThermalFunction` element; the four flag attributes are written as
      the fixed strings `0`, `1`, `0`, `0`. */
  datatype ThermalFunction = ThermalFunction(
    idTemperature: string,
    meanT: real,
    deltaT: real,
    override3DMatrix: string,
    singleTemperatureSurface: string,
    useOpticalFactorMatrix: string,
    usePrecomputedIPARs: string)

  /** `create_thermal_function(id_temperature, mean_t, delta_t)` */
  function CreateThermalFunction(idTemperature: string, meanT: real, deltaT: real): (t: ThermalFunction)
    ensures t.idTemperature == idTemperature && t.meanT == meanT && t.deltaT == deltaT
    ensures t.override3DMatrix == "0" && t.singleTemperatureSurface == "1"
    ensures t.useOpticalFactorMatrix == "0" && t.usePrecomputedIPARs == "0"
  {
    ThermalFunction(idTemperature, meanT, deltaT, "0", "1", "0", "0")
  }

  /** A `LambertianMulti` element with its `Lambertian` and
      `ProspectExternalModule` children; `prospectParameters` is the
      `ProspectExternParameters` child, absent or its attributes in order. */
  datatype LambertianMulti = LambertianMulti(
    ident: string,
    modelName: string,
    databaseName: string,
    useProspectExternalModule: string,
    prospectParameters: Option<seq<(string, string)>>)

  /** Python truthiness of the optional parameter dictionary. */
  predicate Truthy(params: Option<seq<(string, string)>>) {
    params.Some? && |params.value| > 0
  }

  /** `create_lambertian_multi(ident, model_name, database_name, use_prospect, prospect_params)` */
  function CreateLambertianMulti(
    ident: string, modelName: string, databaseName: string,
    useProspect: bool, prospectParams: Option<seq<(string, string)>>): (l: LambertianMulti)
    ensures l.ident == ident && l.modelName == modelName && l.databaseName == databaseName
    ensures l.useProspectExternalModule == "1" <==> useProspect
    ensures l.useProspectExternalModule == "0" <==> !useProspect
    ensures l.prospectParameters.Some? <==> useProspect && Truthy(prospectParams)
    ensures l.prospectParameters.Some? ==> l.prospectParameters == prospectParams
  {
    LambertianMulti(
      ident, modelName, databaseName,
      if useProspect then "1" else "0",
      if useProspect && Truthy(prospectParams) then prospectParams else None)
  }

  /** The fixed PROSPECT parameters every leaf starts with. */
  const ProspectDefaults: seq<(string, string)> := [
    ("CBrown", "0.0"), ("Cab", "60.0"), ("Car", "30.0"), ("Cbc", "0.009"),
    ("Cm", "0.01"), ("Cp", "0.001"), ("Cw", "0.012"), ("N", "1.5"),
    ("anthocyanin", "0.0"),
    ("inputProspectFile", "Prospect_Fluspect/Optipar2021_ProspectPRO.txt"),
    ("isV2Z", "0"), ("useCm", "0")]

  function LeafIdent(i: nat): string { "leaf_" + NatToString(i) }
  function LeafTemperature(i: nat): string { "Temp_leaf_" + NatToString(i) }
  function TrunkTemperature(i: nat): string { "Temp_trunk_" + NatToString(i) }

  const SoilTemperature := "Temp_soil"
  const SharedTreeTemperature := "Temperature_290_310"

  /** The PROSPECT leaf optical properties `leaf_0 .. leaf_{n-1}`. */
  function LeafOpticals(numTrees: nat): (ls: seq<LambertianMulti>)
    ensures |ls| == numTrees
    ensures forall i | 0 <= i < numTrees :: ls[i].ident == LeafIdent(i)
    ensures forall i | 0 <= i < numTrees :: ls[i].useProspectExternalModule == "1"
    ensures forall i | 0 <= i < numTrees :: ls[i].prospectParameters == Some(ProspectDefaults)
    ensures forall i | 0 <= i < numTrees :: ls[i].modelName == "reflect_equal_1_trans_equal_0_0"
    ensures forall i | 0 <= i < numTrees :: ls[i].databaseName == "Lambertian_vegetation.db"
  {
    seq(numTrees, i requires 0 <= i < numTrees =>
      CreateLambertianMulti(LeafIdent(i), "reflect_equal_1_trans_equal_0_0", "Lambertian_vegetation.db",
        true, Some(ProspectDefaults)))
  }

  const Trunk := CreateLambertianMulti("trunk", "bark_spruce", "Lambertian_vegetation.db", false, None)
  const Soil := CreateLambertianMulti("soil", "reflect_equal_1_trans_equal_0_0", "Lambertian_mineral.db", false, None)

  /** The `LambertianMultiFunctions` list: leaf `i` at index `i` when leaf
      chemistry varies, then the trunk and the soil; only the leaves use
      PROSPECT. */
  function Lambertians(params: ParamsToVary, numTrees: nat): (ls: seq<LambertianMulti>)
    ensures |ls| == (if params.IndividualOptical() then numTrees + 2 else 2)
    ensures params.IndividualOptical() ==> forall i | 0 <= i < numTrees ::
      ls[i].ident == LeafIdent(i) && ls[i].useProspectExternalModule == "1"
      && ls[i].prospectParameters == Some(ProspectDefaults)
    ensures ls[|ls| - 2].ident == "trunk" && ls[|ls| - 2].useProspectExternalModule == "0"
    ensures ls[|ls| - 2].prospectParameters.None?
    ensures ls[|ls| - 1].ident == "soil" && ls[|ls| - 1].useProspectExternalModule == "0"
    ensures ls[|ls| - 1].prospectParameters.None?
  {
    (if params.IndividualOptical() then LeafOpticals(numTrees) else []) + [Trunk, Soil]
  }

  /** The per-tree loop: a leaf then a trunk function per tree. */
  function TreeTemperatures(numTrees: nat): (ts: seq<ThermalFunction>)
    ensures |ts| == 2 * numTrees
  {
    if numTrees == 0 then []
    else
      TreeTemperatures(numTrees - 1)
      + [CreateThermalFunction(LeafTemperature(numTrees - 1), 300.0, 0.0),
         CreateThermalFunction(TrunkTemperature(numTrees - 1), 300.0, 0.0)]
  }

  /** The `Temperatures` list. */
  function Temperatures(params: ParamsToVary, numTrees: nat): seq<ThermalFunction> {
    [CreateThermalFunction(SoilTemperature, 300.0, 0.0)]
    + if params.treeTemperature then TreeTemperatures(numTrees)
      else [CreateThermalFunction(SharedTreeTemperature, 300.0, 10.0)]
  }

  /** The registries written to `coeff_diff.xml`. */
  datatype CoeffDiffDocument = CoeffDiffDocument(lambertians: seq<LambertianMulti>, temperatures: seq<ThermalFunction>)

  /** `update_coeff_diff_xml`: nothing is built or written when the position
      file holds no tree. */
  function UpdateCoeffDiff(file: TextFile, params: ParamsToVary): (r: Option<CoeffDiffDocument>)
    ensures r.None? <==> CountTrees(file) == 0
  {
    var numTrees := CountTrees(file);
    if numTrees == 0 then None
    else Some(CoeffDiffDocument(Lambertians(params, numTrees), Temperatures(params, numTrees)))
  }

  // ---------------------------------------------------------------------
  // Layout of the registries

  /** Slot `k` of the per-tree list holds leaf `k / 2`'s function when `k`
      is even and trunk `k / 2`'s when it is odd, with mean 300 K and no
      spread. */
  lemma {:induction false} TreeTemperatureAt(numTrees: nat, k: nat)
    requires k < 2 * numTrees
    ensures var t := TreeTemperatures(numTrees)[k];
      && t.meanT == 300.0 && t.deltaT == 0.0
      && t.idTemperature == if k % 2 == 0 then LeafTemperature(k / 2) else TrunkTemperature(k / 2)
  {
    var ts := TreeTemperatures(numTrees);
    if k < 2 * (numTrees - 1) {
      TreeTemperatureAt(numTrees - 1, k);
      assert ts[k] == TreeTemperatures(numTrees - 1)[k];
    } else if k == 2 * (numTrees - 1) {
      assert k % 2 == 0 && k / 2 == numTrees - 1;
    } else {
      assert k % 2 == 1 && k / 2 == numTrees - 1;
    }
  }

  /** Leaf `i`'s function sits at `2i` and trunk `i`'s at `2i + 1` of the
      per-tree list, all with mean 300 K and no spread. */
  lemma TreeTemperaturesLayout(numTrees: nat)
    ensures var ts := TreeTemperatures(numTrees);
      && |ts| == 2 * numTrees
      && (forall i | 0 <= i < numTrees :: ts[2 * i].idTemperature == LeafTemperature(i))
      && (forall i | 0 <= i < numTrees :: ts[2 * i + 1].idTemperature == TrunkTemperature(i))
      && (forall k | 0 <= k < |ts| :: ts[k].meanT == 300.0 && ts[k].deltaT == 0.0)
  {
    var ts := TreeTemperatures(numTrees);
    forall i | 0 <= i < numTrees
      ensures ts[2 * i].idTemperature == LeafTemperature(i)
      ensures ts[2 * i + 1].idTemperature == TrunkTemperature(i)
    {
      TreeTemperatureAt(numTrees, 2 * i);
      TreeTemperatureAt(numTrees, 2 * i + 1);
      assert (2 * i) % 2 == 0 && (2 * i) / 2 == i;
      assert (2 * i + 1) % 2 == 1 && (2 * i + 1) / 2 == i;
    }
    forall k | 0 <= k < |ts| ensures ts[k].meanT == 300.0 && ts[k].deltaT == 0.0 {
      TreeTemperatureAt(numTrees, k);
    }
  }

  /** `Temp_soil` comes first; then either leaf `i` at `1 + 2i` and trunk
      `i` at `2 + 2i`, or the single shared `Temperature_290_310`. */
  lemma TemperaturesLayout(params: ParamsToVary, numTrees: nat)
    ensures var ts := Temperatures(params, numTrees);
      && ts[0] == CreateThermalFunction(SoilTemperature, 300.0, 0.0)
      && (params.treeTemperature ==>
            && |ts| == 1 + 2 * numTrees
            && (forall i | 0 <= i < numTrees :: ts[1 + 2 * i].idTemperature == LeafTemperature(i))
            && (forall i | 0 <= i < numTrees :: ts[2 + 2 * i].idTemperature == TrunkTemperature(i)))
      && (!params.treeTemperature ==>
            ts == [CreateThermalFunction(SoilTemperature, 300.0, 0.0),
                   CreateThermalFunction(SharedTreeTemperature, 300.0, 10.0)])
  {
    if params.treeTemperature {
      TreeTemperaturesLayout(numTrees);
      var tree := TreeTemperatures(numTrees);
      var ts := Temperatures(params, numTrees);
      forall i | 0 <= i < numTrees
        ensures ts[1 + 2 * i].idTemperature == LeafTemperature(i)
        ensures ts[2 + 2 * i].idTemperature == TrunkTemperature(i)
      {
        assert ts[1 + 2 * i] == tree[2 * i];
        assert ts[2 + 2 * i] == tree[2 * i + 1];
      }
    }
  }

  // ---------------------------------------------------------------------
  // Identifiers are unique

  lemma LeafTemperatureInjective(i: nat, j: nat)
    requires LeafTemperature(i) == LeafTemperature(j)
    ensures i == j
  {
    var p := "Temp_leaf_";
    assert LeafTemperature(i)[|p|..] == NatToString(i);
    assert LeafTemperature(j)[|p|..] == NatToString(j);
    NatToStringInjective(i, j);
  }

  lemma TrunkTemperatureInjective(i: nat, j: nat)
    requires TrunkTemperature(i) == TrunkTemperature(j)
    ensures i == j
  {
    var p := "Temp_trunk_";
    assert TrunkTemperature(i)[|p|..] == NatToString(i);
    assert TrunkTemperature(j)[|p|..] == NatToString(j);
    NatToStringInjective(i, j);
  }

  lemma LeafIdentInjective(i: nat, j: nat)
    requires LeafIdent(i) == LeafIdent(j)
    ensures i == j
  {
    assert LeafIdent(i)[5..] == NatToString(i);
    assert LeafIdent(j)[5..] == NatToString(j);
    NatToStringInjective(i, j);
  }

  /** No two optical properties share an identifier. */
  lemma LambertianIdentsDistinct(params: ParamsToVary, numTrees: nat, a: nat, b: nat)
    requires a < b < |Lambertians(params, numTrees)|
    ensures Lambertians(params, numTrees)[a].ident != Lambertians(params, numTrees)[b].ident
  {
    var ls := Lambertians(params, numTrees);
    var leaves := |ls| - 2;
    if b < leaves {
      if ls[a].ident == ls[b].ident {
        LeafIdentInjective(a, b);
      }
    } else if a < leaves {
      assert ls[a].ident[0] == 'l';
      assert ls[b].ident[0] != 'l';
    } else {
      assert ls[a].ident == "trunk" && ls[b].ident == "soil";
    }
  }

  lemma TemperatureLetters(i: nat)
    ensures LeafTemperature(i)[..5] == "Temp_" && LeafTemperature(i)[5] == 'l'
    ensures TrunkTemperature(i)[..5] == "Temp_" && TrunkTemperature(i)[5] == 't'
  {
  }

  /** The per-tree names start `Temp_l` or `Temp_t`, never `Temp_s`. */
  lemma TreeTemperatureLetter(numTrees: nat, k: nat)
    requires k < 2 * numTrees
    ensures var name := TreeTemperatures(numTrees)[k].idTemperature;
      |name| > 5 && name[..5] == "Temp_" && (name[5] == 'l' || name[5] == 't')
  {
    TreeTemperatureAt(numTrees, k);
    TemperatureLetters(k / 2);
  }

  /** No two functions of the per-tree list share an identifier. */
  lemma TreeTemperatureIdsDistinct(numTrees: nat, a: nat, b: nat)
    requires a < b < 2 * numTrees
    ensures TreeTemperatures(numTrees)[a].idTemperature != TreeTemperatures(numTrees)[b].idTemperature
  {
    var tree := TreeTemperatures(numTrees);
    TreeTemperatureAt(numTrees, a);
    TreeTemperatureAt(numTrees, b);
    var i, j := a / 2, b / 2;
    assert a == 2 * i + a % 2 && b == 2 * j + b % 2;
    TemperatureLetters(i);
    TemperatureLetters(j);
    if a % 2 == b % 2 && tree[a].idTemperature == tree[b].idTemperature {
      if a % 2 == 0 {
        LeafTemperatureInjective(i, j);
      } else {
        TrunkTemperatureInjective(i, j);
      }
    }
  }

  /** No two thermal functions share an identifier. */
  lemma TemperatureIdsDistinct(params: ParamsToVary, numTrees: nat, a: nat, b: nat)
    requires a < b < |Temperatures(params, numTrees)|
    ensures Temperatures(params, numTrees)[a].idTemperature != Temperatures(params, numTrees)[b].idTemperature
  {
    var ts := Temperatures(params, numTrees);
    if params.treeTemperature {
      var tree := TreeTemperatures(numTrees);
      assert ts[b] == tree[b - 1];
      if a == 0 {
        TreeTemperatureLetter(numTrees, b - 1);
        assert ts[a].idTemperature[5] == 's';
      } else {
        assert ts[a] == tree[a - 1];
        TreeTemperatureIdsDistinct(numTrees, a - 1, b - 1);
      }
    } else {
      assert ts[1].idTemperature[4] == 'e';
    }
  }
}
