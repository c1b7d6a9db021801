/** Whether the links the objects and the maket carry resolve in the
    registries `update_coeff_diff.py` writes to `coeff_diff.xml`, and
    whether `update_objects.py` and the other scripts agree on how many
    trees there are. Each mismatch is stated for the code as written, next
    to a corrected definition with the property the scripts evidently rely
    on. */
module ObjectLinks {
  import opened Optional
  import opened Text
  import opened Sequences
  import opened Config
  import opened PositionFile
  import opened CoeffDiff
  import Objects
  import Maket

  /** Some `LambertianMulti` of the list carries `ident`. */
  predicate DefinesOptical(ls: seq<LambertianMulti>, ident: string) {
    exists k | 0 <= k < |ls| :: ls[k].ident == ident
  }

  /** Some `ThermalFunction` of the list carries `id`. */
  predicate DefinesTemperature(ts: seq<ThermalFunction>, id: string) {
    exists k | 0 <= k < |ts| :: ts[k].idTemperature == id
  }

  // ---------------------------------------------------------------------
  // Tree count against object count

  /** The line `0` is counted as a tree but is no placement record. */
  lemma BareTreeLineIsNoRecord()
    ensures IsTreeLine("0") && !IsRecordLine("0")
  {
    assert Strip("0") == "0";
    assert Words("0") == ["0"];
  }

  /** As written: a position file holding only the line `0` has one tree for
      `coeff_diff.xml` and the sequence, and no placement for the objects. */
  lemma BareTreeFileCounts(parse: FloatParser)
    ensures CountTrees(Some(["0"])) == 1
    ensures ReadPositions(Some(["0"]), parse) == Some([])
  {
    BareTreeLineIsNoRecord();
    assert ["0"][1..] == [];
  }

  /** As written: when every placement line starts with `0`, a line starting
      with `0` that is no placement leaves fewer objects than counted
      trees. */
  lemma FewerObjectsThanTrees(file: TextFile, parse: FloatParser, j: nat)
    requires file.Some? && ReadPositions(file, parse).Some?
    requires forall k | 0 <= k < |file.value| :: IsRecordLine(file.value[k]) ==> IsTreeLine(file.value[k])
    requires j < |file.value| && IsTreeLine(file.value[j]) && !IsRecordLine(file.value[j])
    ensures |ReadPositions(file, parse).value| < CountTrees(file)
  {
    RecordsFromSpec(file.value, parse);
    FilterStrictlyStronger(file.value, IsTreeLine, IsRecordLine, j);
  }

  /** As written: when every line starting with `0` is a placement, a
      placement that does not start with `0` gives more objects than counted
      trees. */
  lemma MoreObjectsThanTrees(file: TextFile, parse: FloatParser, j: nat)
    requires file.Some? && ReadPositions(file, parse).Some?
    requires forall k | 0 <= k < |file.value| :: IsTreeLine(file.value[k]) ==> IsRecordLine(file.value[k])
    requires j < |file.value| && IsRecordLine(file.value[j]) && !IsTreeLine(file.value[j])
    ensures CountTrees(file) < |ReadPositions(file, parse).value|
  {
    RecordsFromSpec(file.value, parse);
    FilterStrictlyStronger(file.value, IsRecordLine, IsTreeLine, j);
  }

  /** The tree count taken from the lines `update_objects.py` turns into
      objects. */
  function CorrectedCountTrees(file: TextFile): nat {
    match file
    case None => 0
    case Some(lines) => |Filter(lines, IsRecordLine)|
  }

  /** Corrected: the tree count is the number of objects written. */
  lemma CorrectedCountIsObjectCount(file: TextFile, parse: FloatParser)
    requires ReadPositions(file, parse).Some?
    ensures |ReadPositions(file, parse).value| == CorrectedCountTrees(file)
  {
    RecordsFromSpec(file.value, parse);
  }

  // ---------------------------------------------------------------------
  // Identifiers defined in coeff_diff.xml

  /** With one thermal function per tree, `Temp_leaf_i` and `Temp_trunk_i`
      are defined exactly for the trees counted. */
  lemma TreeTemperatureDefined(params: ParamsToVary, numTrees: nat, i: nat)
    requires params.treeTemperature
    ensures DefinesTemperature(Temperatures(params, numTrees), LeafTemperature(i)) <==> i < numTrees
    ensures DefinesTemperature(Temperatures(params, numTrees), TrunkTemperature(i)) <==> i < numTrees
  {
    var ts := Temperatures(params, numTrees);
    TemperaturesLayout(params, numTrees);
    TemperatureLetters(i);
    if i < numTrees {
      assert ts[1 + 2 * i].idTemperature == LeafTemperature(i);
      assert ts[2 + 2 * i].idTemperature == TrunkTemperature(i);
    } else {
      forall k | 0 <= k < |ts|
        ensures ts[k].idTemperature != LeafTemperature(i)
        ensures ts[k].idTemperature != TrunkTemperature(i)
      {
        UncountedTreeNotAt(params, numTrees, i, k);
      }
    }
  }

  /** Slot `k` holds no function of a tree beyond the count. */
  lemma UncountedTreeNotAt(params: ParamsToVary, numTrees: nat, i: nat, k: nat)
    requires params.treeTemperature && numTrees <= i && k < |Temperatures(params, numTrees)|
    ensures Temperatures(params, numTrees)[k].idTemperature != LeafTemperature(i)
    ensures Temperatures(params, numTrees)[k].idTemperature != TrunkTemperature(i)
  {
    var ts := Temperatures(params, numTrees);
    TemperatureLetters(i);
    if k == 0 {
      assert ts[0].idTemperature[5] == 's';
    } else {
      assert ts[k] == TreeTemperatures(numTrees)[k - 1];
      UncountedTreeNotInList(numTrees, i, k - 1);
    }
  }

  /** The per-tree list holds no function of a tree beyond the count. */
  lemma UncountedTreeNotInList(numTrees: nat, i: nat, k: nat)
    requires numTrees <= i && k < 2 * numTrees
    ensures TreeTemperatures(numTrees)[k].idTemperature != LeafTemperature(i)
    ensures TreeTemperatures(numTrees)[k].idTemperature != TrunkTemperature(i)
  {
    var m := k / 2;
    TreeTemperatureAt(numTrees, k);
    TemperatureLetters(m);
    TemperatureLetters(i);
    if k % 2 == 0 {
      if LeafTemperature(m) == LeafTemperature(i) {
        LeafTemperatureInjective(m, i);
      }
    } else {
      if TrunkTemperature(m) == TrunkTemperature(i) {
        TrunkTemperatureInjective(m, i);
      }
    }
  }

  /** With individual optics, `leaf_i` is defined exactly for the trees
      counted. */
  lemma LeafOpticalDefined(params: ParamsToVary, numTrees: nat, i: nat)
    requires params.IndividualOptical()
    ensures DefinesOptical(Lambertians(params, numTrees), LeafIdent(i)) <==> i < numTrees
  {
    var ls := Lambertians(params, numTrees);
    if i < numTrees {
      assert ls[i].ident == LeafIdent(i);
    } else {
      forall k | 0 <= k < |ls| ensures ls[k].ident != LeafIdent(i) {
        if k < numTrees {
          if ls[k].ident == LeafIdent(i) {
            LeafIdentInjective(k, i);
          }
        } else {
          assert LeafIdent(i)[0] == 'l';
          assert ls[k].ident[0] != 'l';
        }
      }
    }
  }

  /** Without individual optics, only `trunk` and `soil` are written, so the
      shared `leaf_0` is not defined. */
  lemma SharedLeafOpticalUndefined(params: ParamsToVary, numTrees: nat)
    requires !params.IndividualOptical()
    ensures !DefinesOptical(Lambertians(params, numTrees), LeafIdent(0))
  {
    var ls := Lambertians(params, numTrees);
    assert LeafIdent(0)[0] == 'l';
    assert ls[0].ident[0] != 'l' && ls[1].ident[0] != 'l';
  }

  /** As written: the object of placement `i` finds its trunk optics, finds
      its leaf optics only with individual optics and `i` below the tree
      count, and finds its thermal functions when they are shared or `i` is
      below the tree count. */
  lemma ObjectLinksResolve(p: PositionRecord, i: nat, objFile: string, params: ParamsToVary, numTrees: nat)
    ensures var o := Objects.CreateObject(p, i, objFile, params.treeTemperature, params.IndividualOptical());
      var ls, ts := Lambertians(params, numTrees), Temperatures(params, numTrees);
      && DefinesOptical(ls, o.trunk.opticalIdent)
      && (DefinesOptical(ls, o.leaves.opticalIdent) <==> params.IndividualOptical() && i < numTrees)
      && (DefinesTemperature(ts, o.leaves.idTemperature) <==> !params.treeTemperature || i < numTrees)
      && (DefinesTemperature(ts, o.trunk.idTemperature) <==> !params.treeTemperature || i < numTrees)
  {
    var ls, ts := Lambertians(params, numTrees), Temperatures(params, numTrees);
    assert ls[|ls| - 2].ident == "trunk";
    if params.IndividualOptical() {
      LeafOpticalDefined(params, numTrees, i);
    } else {
      SharedLeafOpticalUndefined(params, numTrees);
    }
    TemperaturesLayout(params, numTrees);
    if params.treeTemperature {
      TreeTemperatureDefined(params, numTrees, i);
    } else {
      assert ts[1].idTemperature == SharedTreeTemperature;
    }
  }

  /** As written, on the scripts' own files: object `i` of `update_objects.py`
      finds its links in the `coeff_diff.xml` written for the counted trees
      exactly as `ObjectLinksResolve` says. */
  lemma WrittenObjectsResolve(
    file: TextFile, parse: FloatParser, walk: seq<string>, multiTree: bool,
    params: ParamsToVary, choice: nat -> nat, i: nat)
    requires |Objects.GetObjFiles(walk)| > 0 ==> forall j: nat :: choice(j) < |Objects.GetObjFiles(walk)|
    requires Objects.UpdateObject3d(file, parse, walk, multiTree, params, choice).Written?
    requires i < |Objects.UpdateObject3d(file, parse, walk, multiTree, params, choice).objects|
    ensures var o := Objects.UpdateObject3d(file, parse, walk, multiTree, params, choice).objects[i];
      var n := CountTrees(file);
      var ls, ts := Lambertians(params, n), Temperatures(params, n);
      && (n > 0 ==> UpdateCoeffDiff(file, params) == Some(CoeffDiffDocument(ls, ts)))
      && DefinesOptical(ls, o.trunk.opticalIdent)
      && (DefinesOptical(ls, o.leaves.opticalIdent) <==> params.IndividualOptical() && i < n)
      && (DefinesTemperature(ts, o.leaves.idTemperature) <==> !params.treeTemperature || i < n)
      && (DefinesTemperature(ts, o.trunk.idTemperature) <==> !params.treeTemperature || i < n)
  {
    var r := Objects.UpdateObject3d(file, parse, walk, multiTree, params, choice);
    var positions, objFiles := ReadPositions(file, parse).value, Objects.GetObjFiles(walk);
    assert r.objects[i] == Objects.CreateObject(positions[i], i,
      Objects.ObjFileFor(objFiles, multiTree, choice, i), params.treeTemperature, params.IndividualOptical());
    ObjectLinksResolve(positions[i], i, Objects.ObjFileFor(objFiles, multiTree, choice, i), params, CountTrees(file));
  }

  /** Corrected `LambertianMultiFunctions`: the leaf property the objects
      link is written whenever the objects link it, that is `leaf_0` alone
      when the leaves share one. */
  function CorrectedLambertians(params: ParamsToVary, numTrees: nat): (ls: seq<LambertianMulti>)
    ensures params.IndividualOptical() ==> ls == Lambertians(params, numTrees)
  {
    LeafOpticals(if params.IndividualOptical() then numTrees else 1) + [Trunk, Soil]
  }

  /** Corrected: every link of an object whose index is below the tree
      count resolves, whatever the switches. */
  lemma CorrectedObjectLinksResolve(p: PositionRecord, i: nat, objFile: string, params: ParamsToVary, numTrees: nat)
    requires i < numTrees
    ensures var o := Objects.CreateObject(p, i, objFile, params.treeTemperature, params.IndividualOptical());
      var ls, ts := CorrectedLambertians(params, numTrees), Temperatures(params, numTrees);
      && DefinesOptical(ls, o.trunk.opticalIdent)
      && DefinesOptical(ls, o.leaves.opticalIdent)
      && DefinesTemperature(ts, o.leaves.idTemperature)
      && DefinesTemperature(ts, o.trunk.idTemperature)
  {
    var o := Objects.CreateObject(p, i, objFile, params.treeTemperature, params.IndividualOptical());
    var ls := CorrectedLambertians(params, numTrees);
    var leaves := if params.IndividualOptical() then numTrees else 1;
    assert ls[leaves].ident == "trunk";
    if params.IndividualOptical() {
      assert ls[i].ident == LeafIdent(i);
    } else {
      assert ls[0].ident == LeafIdent(0);
    }
    ObjectLinksResolve(p, i, objFile, params, numTrees);
  }

  /** Corrected, on the scripts' own files: with the tree count taken from
      the placements and the shared leaf property written, every link of
      every written object resolves. */
  lemma CorrectedWrittenObjectsResolve(
    file: TextFile, parse: FloatParser, walk: seq<string>, multiTree: bool,
    params: ParamsToVary, choice: nat -> nat, i: nat)
    requires |Objects.GetObjFiles(walk)| > 0 ==> forall j: nat :: choice(j) < |Objects.GetObjFiles(walk)|
    requires Objects.UpdateObject3d(file, parse, walk, multiTree, params, choice).Written?
    requires i < |Objects.UpdateObject3d(file, parse, walk, multiTree, params, choice).objects|
    ensures var o := Objects.UpdateObject3d(file, parse, walk, multiTree, params, choice).objects[i];
      var n := CorrectedCountTrees(file);
      var ls, ts := CorrectedLambertians(params, n), Temperatures(params, n);
      && DefinesOptical(ls, o.trunk.opticalIdent)
      && DefinesOptical(ls, o.leaves.opticalIdent)
      && DefinesTemperature(ts, o.leaves.idTemperature)
      && DefinesTemperature(ts, o.trunk.idTemperature)
  {
    var r := Objects.UpdateObject3d(file, parse, walk, multiTree, params, choice);
    var positions, objFiles := ReadPositions(file, parse).value, Objects.GetObjFiles(walk);
    assert r.objects[i] == Objects.CreateObject(positions[i], i,
      Objects.ObjFileFor(objFiles, multiTree, choice, i), params.treeTemperature, params.IndividualOptical());
    CorrectedCountIsObjectCount(file, parse);
    CorrectedObjectLinksResolve(positions[i], i, Objects.ObjFileFor(objFiles, multiTree, choice, i),
      params, CorrectedCountTrees(file));
  }

  // ---------------------------------------------------------------------
  // The maket's links

  /** The `ident`s `update_maket.py` reads back from the optical properties
      written to `coeff_diff.xml`. */
  function WrittenIdents(ls: seq<LambertianMulti>): (idents: seq<Option<string>>)
    ensures |idents| == |ls|
    ensures forall k | 0 <= k < |ls| :: idents[k] == Some(ls[k].ident)
  {
    seq(|ls|, k requires 0 <= k < |ls| => Some(ls[k].ident))
  }

  /** `coeff_diff.xml` as written defines no `soil_` property, so the maket
      always gets the plain `soil`, which is defined; its thermal link is the
      function at slot 0, the one the sequence's soil entry varies. */
  lemma MaketLinksResolve(params: ParamsToVary, numTrees: nat, multiSol: bool, simulationPath: string)
    ensures var ls := Lambertians(params, numTrees);
      var f := Maket.Parsed(WrittenIdents(ls));
      var name := Maket.DetermineSoilName(multiSol, f);
      && Maket.GetSoilNames(f) == Some([])
      && name == "soil"
      && DefinesOptical(ls, name)
      && Maket.DetermineThermalFunction(simulationPath, name) == Temperatures(params, numTrees)[0].idTemperature
  {
    var ls := Lambertians(params, numTrees);
    var idents := WrittenIdents(ls);
    forall k | 0 <= k < |idents| ensures !Maket.IsSoilIdent(idents[k]) {
      if k < |ls| - 2 {
        assert ls[k].ident == LeafIdent(k) && ls[k].ident[0] == 'l';
      } else if k == |ls| - 2 {
        assert ls[k].ident[0] == 't';
      } else {
        assert |ls[k].ident| == 4;
      }
    }
    FilterNone(idents, Maket.IsSoilIdent);
    assert ls[|ls| - 1].ident == "soil";
    TemperaturesLayout(params, numTrees);
  }
}
