/** `update_maket.py`: points the scene's ground (`maket.xml`) at a soil
    optical property and the soil thermal function, keeping a one-time
    backup of the original file. */
module Maket {
  import opened Optional
  import opened Text
  import opened Sequences

  // ---------------------------------------------------------------------
  // get_soil_names_from_coeff_diff, determine_soil_name,
  // determine_thermal_function

  /** `coeff_diff.xml` as the script sees it: missing, not well-formed, or
      the `ident` attributes of its `LambertianMulti` elements in document
      order (`None` where the attribute is absent). */
  datatype CoeffDiffFile = NotFound | Unparsable | Parsed(idents: seq<Option<string>>)

  predicate IsSoilIdent(ident: Option<string>) {
    ident.Some? && StartsWith(ident.value, "soil_")
  }

  function Values(xs: seq<Option<string>>): (vs: seq<string>)
    requires forall k | 0 <= k < |xs| :: xs[k].Some?
    ensures |vs| == |xs|
    ensures forall k | 0 <= k < |xs| :: vs[k] == xs[k].value
  {
    seq(|xs|, k requires 0 <= k < |xs| => xs[k].value)
  }

  /** `get_soil_names_from_coeff_diff(simulation_path)`: the identifiers
      starting with `soil_`, in document order; the plain `soil` is not one
      of them. */
  function GetSoilNames(f: CoeffDiffFile): (r: Option<seq<string>>)
    ensures r.None? <==> !f.Parsed?
    ensures r.Some? ==> forall k | 0 <= k < |r.value| :: StartsWith(r.value[k], "soil_")
    ensures r.Some? ==> "soil" !in r.value
    ensures r.Some? ==> forall k | 0 <= k < |f.idents| :: IsSoilIdent(f.idents[k]) ==> f.idents[k].value in r.value
    ensures r.Some? ==> IsSubsequence(r.value, Values(Filter(f.idents, IsSoilIdent)))
    ensures r.Some? ==> |r.value| == |Filter(f.idents, IsSoilIdent)|
  {
    match f
    case Parsed(idents) =>
      var soils := Filter(idents, IsSoilIdent);
      forall k | 0 <= k < |idents| && IsSoilIdent(idents[k]) ensures idents[k].value in Values(soils) {
        FilterKeeps(idents, IsSoilIdent, idents[k]);
        var j :| 0 <= j < |soils| && soils[j] == idents[k];
        assert Values(soils)[j] == idents[k].value;
      }
      SubsequenceOfItself(Values(soils));
      Some(Values(soils))
    case _ => None
  }

  lemma {:induction false} SubsequenceOfItself(xs: seq<string>)
    ensures IsSubsequence(xs, xs)
    decreases |xs|
  {
    if |xs| > 0 {
      SubsequenceOfItself(xs[1..]);
    }
  }

  /** `determine_soil_name(config_path, simulation_path)` */
  function DetermineSoilName(multiSol: bool, f: CoeffDiffFile): (name: string)
    ensures !multiSol ==> name == "soil"
    ensures multiSol && (GetSoilNames(f).None? || GetSoilNames(f) == Some([])) ==> name == "soil"
    ensures name == "soil" || (multiSol && GetSoilNames(f).Some? && name == GetSoilNames(f).value[0])
    ensures name != "soil" ==> StartsWith(name, "soil_")
  {
    if !multiSol then "soil"
    else
      match GetSoilNames(f)
      case None => "soil"
      case Some(names) => if names == [] then "soil" else names[0]
  }

  /** A `soil_` name is chosen exactly when multi-soil runs are on and one
      is defined, and it is then the first defined. */
  lemma SoilNameChoice(multiSol: bool, f: CoeffDiffFile)
    ensures var names := GetSoilNames(f);
      DetermineSoilName(multiSol, f) != "soil" <==> multiSol && names.Some? && names.value != []
  {
    var names := GetSoilNames(f);
    if multiSol && names.Some? && names.value != [] {
      assert StartsWith(names.value[0], "soil_");
      assert names.value[0][4] == '_';
    }
  }

  /** `determine_thermal_function(simulation_path, soil_name)`: the soil
      thermal function, whatever soil was chosen. */
  function DetermineThermalFunction(simulationPath: string, soilName: string): (id: string)
    ensures id == "Temp_soil"
  {
    "Temp_soil"
  }

  // ---------------------------------------------------------------------
  // update_maket_xml

  /** `maket.xml`: not well-formed, or the `ident` attributes of its
      `OpticalPropertyLink` elements and the `idTemperature` attributes of
      its `ThermalPropertyLink` elements, each in document order. */
  datatype MaketContent =
    | Garbled
    | MaketDoc(opticalLinks: seq<Option<string>>, thermalLinks: seq<Option<string>>)

  /** `maket.xml` and `maket.xml.backup`, each absent or present. */
  datatype Disk = Disk(maket: Option<MaketContent>, backup: Option<MaketContent>)

  datatype MaketResult = MaketResult(ok: bool, disk: Disk)

  /** `shutil.copy2` only when there is no backup yet. */
  function WithBackup(disk: Disk): (d: Disk)
    requires disk.maket.Some?
    ensures d.maket == disk.maket
    ensures disk.backup.Some? ==> d.backup == disk.backup
    ensures disk.backup.None? ==> d.backup == disk.maket
  {
    if disk.backup.None? then Disk(disk.maket, disk.maket) else disk
  }

  /** Sets the first attribute of a list of links. */
  function SetFirst(links: seq<Option<string>>, value: string): (r: seq<Option<string>>)
    requires links != []
    ensures |r| == |links| && r[0] == Some(value) && r[1..] == links[1..]
  {
    [Some(value)] + links[1..]
  }

  /** `update_maket_xml(config_path)` on the two files, `multi_sol` and
      `coeff_diff.xml`. */
  function UpdateMaket(disk: Disk, multiSol: bool, coeff: CoeffDiffFile): (r: MaketResult)
    ensures disk.maket.None? ==> r == MaketResult(false, disk)
    ensures disk.maket.Some? ==> r.disk.backup == (if disk.backup.Some? then disk.backup else disk.maket)
    ensures r.ok ==> disk.maket.Some? && disk.maket.value.MaketDoc? && disk.maket.value.opticalLinks != []
    ensures disk.maket.Some? ==> (r.ok <==> disk.maket.value.MaketDoc? && disk.maket.value.opticalLinks != [])
    ensures !r.ok ==> r.disk.maket == disk.maket
  {
    match disk.maket
    case None => MaketResult(false, disk)
    case Some(content) =>
      var backedUp := WithBackup(disk);
      var soilName := DetermineSoilName(multiSol, coeff);
      var thermal := DetermineThermalFunction("", soilName);
      match content
      case Garbled => MaketResult(false, backedUp)
      case MaketDoc(optical, thermalLinks) =>
        if optical == [] then MaketResult(false, backedUp)
        else
          var updated := MaketDoc(
            SetFirst(optical, soilName),
            if thermalLinks == [] then [] else SetFirst(thermalLinks, thermal));
          MaketResult(true, Disk(Some(updated), backedUp.backup))
  }

  /** A successful update sets the first optical link to the chosen soil
      and the first thermal link (if any) to `Temp_soil`; no other link
      changes. */
  lemma UpdateMaketChangesFirstLinksOnly(disk: Disk, multiSol: bool, coeff: CoeffDiffFile)
    requires UpdateMaket(disk, multiSol, coeff).ok
    ensures var before, after := disk.maket.value, UpdateMaket(disk, multiSol, coeff).disk.maket.value;
      && after.MaketDoc?
      && |after.opticalLinks| == |before.opticalLinks|
      && after.opticalLinks[0] == Some(DetermineSoilName(multiSol, coeff))
      && after.opticalLinks[1..] == before.opticalLinks[1..]
      && |after.thermalLinks| == |before.thermalLinks|
      && (after.thermalLinks != [] ==> after.thermalLinks[0] == Some("Temp_soil"))
      && (after.thermalLinks != [] ==> after.thermalLinks[1..] == before.thermalLinks[1..])
  {
  }

  /** However often the script runs, the backup holds the maket as it was
      before the first run. */
  lemma BackupKeepsOriginal(disk: Disk, multiSol: bool, coeff: CoeffDiffFile, multiSol2: bool, coeff2: CoeffDiffFile)
    requires disk.maket.Some? && disk.backup.None?
    ensures var once := UpdateMaket(disk, multiSol, coeff).disk;
      && once.backup == disk.maket
      && UpdateMaket(once, multiSol2, coeff2).disk.backup == disk.maket
  {
    var once := UpdateMaket(disk, multiSol, coeff).disk;
    assert once.maket.Some?;
  }

  /** Running the script twice with the same inputs gives the same maket as
      running it once. */
  lemma UpdateMaketIdempotent(disk: Disk, multiSol: bool, coeff: CoeffDiffFile)
    ensures var once := UpdateMaket(disk, multiSol, coeff).disk;
      UpdateMaket(once, multiSol, coeff).disk.maket == once.maket
  {
    var once := UpdateMaket(disk, multiSol, coeff);
    if once.ok {
      var doc := once.disk.maket.value;
      var name := DetermineSoilName(multiSol, coeff);
      assert SetFirst(doc.opticalLinks, name) == doc.opticalLinks;
      if doc.thermalLinks != [] {
        assert SetFirst(doc.thermalLinks, "Temp_soil") == doc.thermalLinks;
      }
    }
  }
}
