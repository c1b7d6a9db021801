/** How the scripts agree with each other: the thermal slots the sequence
    varies against the `Temperatures` list `update_coeff_diff.py` writes,
    and the tree count against the scales read from the same file. Each
    mismatch is stated for the code as written, next to a corrected
    definition with the property the scripts evidently rely on. */
module Consistency {
  import opened Optional
  import opened Text
  import opened Sequences
  import opened Config
  import opened PositionFile
  import opened PropertyPaths
  import opened CoeffDiff
  import opened SequenceGenerator

  // ---------------------------------------------------------------------
  // Thermal slots

  /** Every tree temperature the sequence varies lands on the function of
      that tree: slot `LeafSlot(n, i)` holds `Temp_leaf_i` and slot
      `TrunkSlot(n, i)` holds `Temp_trunk_i`. */
  predicate WrittenSlotsAgree(params: ParamsToVary, numTrees: nat)
    requires params.treeTemperature
  {
    TemperaturesLayout(params, numTrees);
    forall i | 0 <= i < numTrees ::
      && Temperatures(params, numTrees)[LeafSlot(numTrees, i)].idTemperature == LeafTemperature(i)
      && Temperatures(params, numTrees)[TrunkSlot(numTrees, i)].idTemperature == TrunkTemperature(i)
  }

  /** As written, the blocked slots (leaves 1..n, trunks n+1..2n) address
      the interleaved list correctly only when there is at most one tree. */
  lemma WrittenSlotsAgreeOnlyForOneTree(params: ParamsToVary, numTrees: nat)
    requires params.treeTemperature
    ensures WrittenSlotsAgree(params, numTrees) <==> numTrees <= 1
  {
    TemperaturesLayout(params, numTrees);
    if numTrees >= 2 {
      TwoTreesMisaddressed(params, numTrees);
    }
  }

  /** With two or more trees, the entry for leaf 1 varies slot 2, which
      holds `Temp_trunk_0`. */
  lemma TwoTreesMisaddressed(params: ParamsToVary, numTrees: nat)
    requires params.treeTemperature && numTrees >= 2
    ensures LeafSlot(numTrees, 1) == 2
    ensures Temperatures(params, numTrees)[LeafSlot(numTrees, 1)].idTemperature == TrunkTemperature(0)
    ensures TrunkTemperature(0) != LeafTemperature(1)
  {
    TemperaturesLayout(params, numTrees);
    assert Temperatures(params, numTrees)[2 + 2 * 0].idTemperature == TrunkTemperature(0);
    TemperatureLetters(0);
    TemperatureLetters(1);
  }

  /** The slot of leaf `i` and trunk `i` in the interleaved list. */
  function CorrectedLeafSlot(i: nat): nat { 1 + 2 * i }
  function CorrectedTrunkSlot(i: nat): nat { 2 + 2 * i }

  /** The tree-temperature entries with the interleaved slots, each still
      varying its own column of the rows. */
  function CorrectedTreeEntries(rows: seq<seq<real>>, numTrees: nat): (es: seq<SequenceEntry>)
    requires RowsSized(rows, numTrees)
    ensures |es| == 2 * numTrees
    ensures AllEnumerate(es, |rows|)
  {
    seq(numTrees, i requires 0 <= i < numTrees =>
      Enumerate(ThermalMeanT(CorrectedLeafSlot(i)), Column(rows, i + 1)))
    + seq(numTrees, i requires 0 <= i < numTrees =>
      Enumerate(ThermalMeanT(CorrectedTrunkSlot(i)), Column(rows, i + numTrees + 1)))
  }

  /** With the corrected slots, leaf `i`'s entry varies `Temp_leaf_i` and
      trunk `i`'s varies `Temp_trunk_i`, for any number of trees. */
  lemma CorrectedEntriesTargetTheirTree(params: ParamsToVary, rows: seq<seq<real>>, numTrees: nat, i: nat)
    requires params.treeTemperature && RowsSized(rows, numTrees) && i < numTrees
    ensures var es, ts := CorrectedTreeEntries(rows, numTrees), Temperatures(params, numTrees);
      && es[i].target.ThermalMeanT? && es[i].target.slot < |ts|
      && ts[es[i].target.slot].idTemperature == LeafTemperature(i)
      && es[i].values == Column(rows, i + 1)
      && es[numTrees + i].target.ThermalMeanT? && es[numTrees + i].target.slot < |ts|
      && ts[es[numTrees + i].target.slot].idTemperature == TrunkTemperature(i)
      && es[numTrees + i].values == Column(rows, i + numTrees + 1)
  {
    TemperaturesLayout(params, numTrees);
    var es := CorrectedTreeEntries(rows, numTrees);
    assert es[i] == Enumerate(ThermalMeanT(CorrectedLeafSlot(i)), Column(rows, i + 1));
    assert es[numTrees + i] == Enumerate(ThermalMeanT(CorrectedTrunkSlot(i)), Column(rows, i + numTrees + 1));
  }

  /** For a single tree the corrected entries are the ones written. */
  lemma CorrectedEntriesMatchWrittenForOneTree(params: ParamsToVary, rows: seq<seq<real>>, numTrees: nat)
    requires params.treeTemperature && RowsSized(rows, numTrees) && numTrees <= 1
    ensures CorrectedTreeEntries(rows, numTrees) == TreeBlock(params, rows, numTrees)
  {
    var leaves, trunks := LeafEntries(rows, numTrees), TrunkEntries(rows, numTrees);
    if numTrees == 1 {
      assert leaves == [Enumerate(ThermalMeanT(1), Column(rows, 1))];
      assert trunks == [Enumerate(ThermalMeanT(2), Column(rows, 2))];
    }
  }

  // ---------------------------------------------------------------------
  // Tree count against scale count

  /** As written: when there is at least one run, scales vary, every
      x-scale parses and some line has one, a single tree line with fewer
      than seven fields makes `scales[i]` fail on the last tree. */
  lemma ShortTreeLineRaises(
    nbrSimulation: int, file: TextFile, params: ParamsToVary, parse: FloatParser, d: Draws, s: nat, j: nat)
    requires WellShaped(d, Trials(nbrSimulation), CountTrees(file))
    requires nbrSimulation > 0 && params.scale && file.Some?
    requires forall line | line in file.value && IsScaleLine(line) :: parse(ScaleToken(line)).Some?
    requires s < |file.value| && IsScaleLine(file.value[s])
    requires j < |file.value| && IsTreeLine(file.value[j]) && !IsScaleLine(file.value[j])
    ensures CreateSequence(nbrSimulation, file, params, parse, d).ScaleIndexError?
  {
    var lines := file.value;
    ScalesCoverScaleLines(file, parse);
    FilterKeeps(lines, IsScaleLine, lines[s]);
    FilterStrictlyStronger(lines, IsTreeLine, IsScaleLine, j);
  }

  /** The line `0` is counted as a tree but has no x-scale field. */
  lemma BareTreeLine()
    ensures IsTreeLine("0") && !IsScaleLine("0")
  {
    assert Strip("0") == "0";
    assert Words("0") == ["0"];
  }

  /** The tree lines of the position file, in file order. */
  function TreeLines(file: TextFile): (ls: seq<string>)
    ensures |ls| == CountTrees(file)
  {
    if file.None? then [] else Filter(file.value, IsTreeLine)
  }

  /** The x-scale read for each tree line, in tree-line order: `None` for a
      line with fewer than seven fields, and for every line from the first
      token `float()` rejects on, where the reading stops. */
  function TreeScales(treeLines: seq<string>, parse: FloatParser): (ss: seq<Option<real>>)
    ensures |ss| == |treeLines|
    decreases |treeLines|
  {
    if treeLines == [] then []
    else if IsScaleLine(treeLines[0]) && parse(ScaleToken(treeLines[0])).None? then
      seq(|treeLines|, k => None)
    else [ScaleOf(parse)(treeLines[0])] + TreeScales(treeLines[1..], parse)
  }

  /** A tree line's scale is the parsed x-scale token of that very line. */
  lemma {:induction false} TreeScaleIsOwn(treeLines: seq<string>, parse: FloatParser, i: nat)
    requires i < |treeLines| && TreeScales(treeLines, parse)[i].Some?
    ensures IsScaleLine(treeLines[i])
    ensures parse(ScaleToken(treeLines[i])) == TreeScales(treeLines, parse)[i]
    decreases |treeLines|
  {
    var rest := TreeScales(treeLines[1..], parse);
    if i > 0 {
      assert TreeScales(treeLines, parse)[i] == rest[i - 1];
      TreeScaleIsOwn(treeLines[1..], parse, i - 1);
    }
  }

  /** When every tree line has an x-scale that parses, each tree line's
      scale is its own token's value. */
  lemma {:induction false} TreeScalesWhenAllParse(treeLines: seq<string>, parse: FloatParser)
    requires forall k | 0 <= k < |treeLines| :: IsScaleLine(treeLines[k]) && parse(ScaleToken(treeLines[k])).Some?
    ensures forall k | 0 <= k < |treeLines| :: TreeScales(treeLines, parse)[k] == parse(ScaleToken(treeLines[k]))
    decreases |treeLines|
  {
    if treeLines != [] {
      TreeScalesWhenAllParse(treeLines[1..], parse);
      var ss := TreeScales(treeLines, parse);
      forall k | 0 < k < |treeLines| ensures ss[k] == parse(ScaleToken(treeLines[k])) {
        assert ss[k] == TreeScales(treeLines[1..], parse)[k - 1];
      }
    }
  }

  /** The three entries varying tree `i`'s scale around `scale`. */
  function OwnScaleEntries(i: nat, scale: real, us: seq<real>): seq<SequenceEntry>
    requires AllUnits(us)
  {
    var deviations := Deviations(scale, us);
    [Enumerate(ObjectScale(i, X), deviations), Enumerate(ObjectScale(i, Y), deviations),
     Enumerate(ObjectScale(i, Z), deviations)]
  }

  /** The corrected scale loop from tree `i` on: the three entries of each
      tree that has a scale, around that tree's own scale. */
  function CorrectedScaleEntries(slots: seq<Option<real>>, draws: seq<seq<real>>, trials: nat, i: nat): (es: seq<SequenceEntry>)
    requires |draws| == |slots| && i <= |slots|
    requires forall j | 0 <= j < |slots| :: |draws[j]| == trials && AllUnits(draws[j])
    ensures AllEnumerate(es, trials)
    ensures forall e | e in es ::
      && e.target.ObjectScale? && i <= e.target.objectIndex < |slots|
      && slots[e.target.objectIndex].Some?
      && e.values == Deviations(slots[e.target.objectIndex].value, draws[e.target.objectIndex])
    decreases |slots| - i
  {
    if i == |slots| then []
    else
      var own := if slots[i].Some? then OwnScaleEntries(i, slots[i].value, draws[i]) else [];
      own + CorrectedScaleEntries(slots, draws, trials, i + 1)
  }

  /** Each tree from `i` on that has a scale gets its three entries. */
  lemma {:induction false} CorrectedScaleEntriesCover(
    slots: seq<Option<real>>, draws: seq<seq<real>>, trials: nat, i: nat, j: nat)
    requires |draws| == |slots| && i <= j < |slots| && slots[j].Some?
    requires forall k | 0 <= k < |slots| :: |draws[k]| == trials && AllUnits(draws[k])
    ensures var es, own := CorrectedScaleEntries(slots, draws, trials, i), OwnScaleEntries(j, slots[j].value, draws[j]);
      own[0] in es && own[1] in es && own[2] in es
    decreases |slots| - i
  {
    var es, rest := CorrectedScaleEntries(slots, draws, trials, i), CorrectedScaleEntries(slots, draws, trials, i + 1);
    var here := if slots[i].Some? then OwnScaleEntries(i, slots[i].value, draws[i]) else [];
    assert es == here + rest;
    if i < j {
      CorrectedScaleEntriesCover(slots, draws, trials, i + 1, j);
    } else {
      assert es[..3] == here;
    }
  }

  /** Where every tree has a scale, the corrected loop writes what the loop
      as written does. */
  lemma {:induction false} CorrectedScaleEntriesAsWritten(
    scales: seq<real>, slots: seq<Option<real>>, draws: seq<seq<real>>, trials: nat, i: nat)
    requires |slots| == |scales| == |draws| && i <= |slots|
    requires forall k | 0 <= k < |slots| :: slots[k] == Some(scales[k])
    requires forall k | 0 <= k < |slots| :: |draws[k]| == trials && AllUnits(draws[k])
    ensures CorrectedScaleEntries(slots, draws, trials, i) == ScaleEntries(scales, draws, |slots|, trials)[3 * i..]
    decreases |slots| - i
  {
    if i < |slots| {
      var written := ScaleEntries(scales, draws, |slots|, trials);
      var own, rest := OwnScaleEntries(i, scales[i], draws[i]), CorrectedScaleEntries(slots, draws, trials, i + 1);
      CorrectedScaleEntriesAsWritten(scales, slots, draws, trials, i + 1);
      WrittenScaleEntriesOfTree(scales, draws, |slots|, trials, i);
      assert 3 * (i + 1) == 3 * i + 3;
      SliceSplit(written, 3 * i, 3 * i + 3);
      assert CorrectedScaleEntries(slots, draws, trials, i) == own + rest;
    }
  }

  /** Entries `3i` to `3i + 2` of the loop as written are tree `i`'s own. */
  lemma WrittenScaleEntriesOfTree(scales: seq<real>, draws: seq<seq<real>>, numTrees: nat, trials: nat, i: nat)
    requires numTrees <= |scales| && numTrees <= |draws| && i < numTrees
    requires forall k | 0 <= k < numTrees :: |draws[k]| == trials && AllUnits(draws[k])
    ensures ScaleEntries(scales, draws, numTrees, trials)[3 * i..3 * i + 3] == OwnScaleEntries(i, scales[i], draws[i])
  {
    var written := ScaleEntries(scales, draws, numTrees, trials);
    var deviations := Deviations(scales[i], draws[i]);
    assert (3 * i) / 3 == i && (3 * i + 1) / 3 == i && (3 * i + 2) / 3 == i;
    assert AxisAt(3 * i) == X && AxisAt(3 * i + 1) == Y && AxisAt(3 * i + 2) == Z;
    assert written[3 * i] == Enumerate(ObjectScale(i, X), deviations);
    assert written[3 * i + 1] == Enumerate(ObjectScale(i, Y), deviations);
    assert written[3 * i + 2] == Enumerate(ObjectScale(i, Z), deviations);
  }

  /** The scale entries with the loop over the tree lines, each tree
      varying its own x-scale and a tree without one getting no entry. */
  function CorrectedScaleBlock(file: TextFile, params: ParamsToVary, parse: FloatParser, d: Draws, trials: nat): (es: seq<SequenceEntry>)
    requires |d.scale| == CountTrees(file)
    requires forall i | 0 <= i < CountTrees(file) :: |d.scale[i]| == trials && AllUnits(d.scale[i])
    ensures AllEnumerate(es, trials)
    ensures forall e | e in es ::
      var slots := TreeScales(TreeLines(file), parse);
      && e.target.ObjectScale? && e.target.objectIndex < CountTrees(file)
      && slots[e.target.objectIndex].Some?
      && e.values == Deviations(slots[e.target.objectIndex].value, d.scale[e.target.objectIndex])
  {
    if EmitsScales(params, ScalesRead(file, params, parse)) then
      CorrectedScaleEntries(TreeScales(TreeLines(file), parse), d.scale, trials, 0)
    else []
  }

  /** `create_sequence_xml` with the scale loop giving each tree line its
      own scale. */
  function CorrectedCreateSequence(
    nbrSimulation: int, file: TextFile, params: ParamsToVary, parse: FloatParser, d: Draws): (r: SequenceOutcome)
    requires WellShaped(d, Trials(nbrSimulation), CountTrees(file))
    ensures !r.ScaleIndexError?
    ensures r.NoTrees? <==> CountTrees(file) == 0
    ensures r.Generated? ==> AllEnumerate(r.descriptor.entries, Trials(nbrSimulation))
  {
    var numTrees := CountTrees(file);
    if numTrees == 0 then NoTrees
    else
      var rv := GenerateRandomValues(nbrSimulation, numTrees, d);
      var se := CorrectedScaleBlock(file, params, parse, d, Trials(nbrSimulation));
      EntriesEnumerate(params, numTrees, rv, se, Trials(nbrSimulation));
      Generated(Descriptor("sequence;;sequence", "group1", Entries(params, numTrees, rv, se)))
  }

  /** When the scale loop as written does not fail, every tree line has an
      x-scale and the scales read are theirs, in order. */
  lemma ScalesAreTreeScales(file: TextFile, params: ParamsToVary, parse: FloatParser)
    requires EmitsScales(params, ScalesRead(file, params, parse))
    requires |ScalesRead(file, params, parse)| >= CountTrees(file)
    ensures var scales, slots := ScalesRead(file, params, parse), TreeScales(TreeLines(file), parse);
      && |scales| == |slots|
      && forall k | 0 <= k < |slots| :: slots[k] == Some(scales[k])
  {
    var lines := file.value;
    var scales := ScalesFrom(lines, parse);
    var scaleLines, treeLines := Filter(lines, IsScaleLine), Filter(lines, IsTreeLine);
    ScalesFromSpec(lines, parse);
    FilterStronger(lines, IsTreeLine, IsScaleLine);
    FilterSameLength(lines, IsTreeLine, IsScaleLine);
    TreeScalesWhenAllParse(treeLines, parse);
  }

  /** Where the script as written succeeds and, should it have no run, has
      a scale for every tree, the corrected one writes the same descriptor. */
  lemma CorrectedAgreesWhereWrittenSucceeds(
    nbrSimulation: int, file: TextFile, params: ParamsToVary, parse: FloatParser, d: Draws)
    requires WellShaped(d, Trials(nbrSimulation), CountTrees(file))
    requires !CreateSequence(nbrSimulation, file, params, parse, d).ScaleIndexError?
    requires var scales := ScalesRead(file, params, parse);
      Trials(nbrSimulation) == 0 && EmitsScales(params, scales) ==> |scales| >= CountTrees(file)
    ensures CorrectedCreateSequence(nbrSimulation, file, params, parse, d)
      == CreateSequence(nbrSimulation, file, params, parse, d)
  {
    var scales := ScalesRead(file, params, parse);
    if CountTrees(file) > 0 && EmitsScales(params, scales) {
      ScalesNeverExceedTrees(file, parse);
      ScalesAreTreeScales(file, params, parse);
      CorrectedScaleEntriesAsWritten(scales, TreeScales(TreeLines(file), parse), d.scale, Trials(nbrSimulation), 0);
    }
  }

  /** With the corrected loop, tree line `i` gets three entries varying its
      own x, y and z scale exactly when it has an x-scale that was read,
      and they stay within 20% of that line's own x-scale. */
  lemma CorrectedScalesOwnTree(
    nbrSimulation: int, file: TextFile, params: ParamsToVary, parse: FloatParser, d: Draws, i: nat)
    requires WellShaped(d, Trials(nbrSimulation), CountTrees(file))
    requires EmitsScales(params, ScalesRead(file, params, parse)) && i < CountTrees(file)
    ensures var slots, trials := TreeScales(TreeLines(file), parse), Trials(nbrSimulation);
      var es := CorrectedScaleBlock(file, params, parse, d, trials);
      && (slots[i].Some? ==>
            && IsScaleLine(TreeLines(file)[i]) && parse(ScaleToken(TreeLines(file)[i])) == slots[i]
            && OwnScaleEntries(i, slots[i].value, d.scale[i])[0] in es
            && OwnScaleEntries(i, slots[i].value, d.scale[i])[1] in es
            && OwnScaleEntries(i, slots[i].value, d.scale[i])[2] in es)
      && (slots[i].None? ==> forall e | e in es :: e.target.objectIndex != i)
      && (forall e | e in es && e.target.objectIndex == i :: forall k | 0 <= k < trials ::
            0.0 <= slots[i].value ==> 0.8 * slots[i].value <= e.values[k] <= 1.2 * slots[i].value)
  {
    var slots, trials := TreeScales(TreeLines(file), parse), Trials(nbrSimulation);
    if slots[i].Some? {
      TreeScaleIsOwn(TreeLines(file), parse, i);
      CorrectedBlockCoversTree(file, params, parse, d, trials, i);
    }
    CorrectedBlockEntriesOfTree(file, params, parse, d, trials, i);
  }

  /** A tree line with a scale gets its three own entries. */
  lemma CorrectedBlockCoversTree(file: TextFile, params: ParamsToVary, parse: FloatParser, d: Draws, trials: nat, i: nat)
    requires |d.scale| == CountTrees(file)
    requires forall j | 0 <= j < CountTrees(file) :: |d.scale[j]| == trials && AllUnits(d.scale[j])
    requires EmitsScales(params, ScalesRead(file, params, parse))
    requires i < CountTrees(file) && TreeScales(TreeLines(file), parse)[i].Some?
    ensures var slots, es := TreeScales(TreeLines(file), parse), CorrectedScaleBlock(file, params, parse, d, trials);
      var own := OwnScaleEntries(i, slots[i].value, d.scale[i]);
      own[0] in es && own[1] in es && own[2] in es
  {
    CorrectedScaleEntriesCover(TreeScales(TreeLines(file), parse), d.scale, trials, 0, i);
  }

  /** Every entry of tree `i` varies around tree `i`'s own scale, so tree
      `i` has one. */
  lemma CorrectedBlockEntriesOfTree(file: TextFile, params: ParamsToVary, parse: FloatParser, d: Draws, trials: nat, i: nat)
    requires |d.scale| == CountTrees(file)
    requires forall j | 0 <= j < CountTrees(file) :: |d.scale[j]| == trials && AllUnits(d.scale[j])
    requires i < CountTrees(file)
    ensures var slots := TreeScales(TreeLines(file), parse);
      forall e | e in CorrectedScaleBlock(file, params, parse, d, trials) && e.target.objectIndex == i ::
        && slots[i].Some? && |e.values| == trials
        && forall k | 0 <= k < trials ::
             0.0 <= slots[i].value ==> 0.8 * slots[i].value <= e.values[k] <= 1.2 * slots[i].value
  {
    var slots := TreeScales(TreeLines(file), parse);
    forall e | e in CorrectedScaleBlock(file, params, parse, d, trials) && e.target.objectIndex == i
      ensures slots[i].Some? && |e.values| == trials
      ensures forall k | 0 <= k < trials ::
        0.0 <= slots[i].value ==> 0.8 * slots[i].value <= e.values[k] <= 1.2 * slots[i].value
    {
      assert e.values == Deviations(slots[i].value, d.scale[i]);
    }
  }

  /** The bare tree line `0` ahead of a line with a scale: the bare tree
      gets no scale entry. */
  lemma BareTreeHasNoScale(parse: FloatParser)
    ensures TreeScales(["0"], parse) == [None]
  {
    BareTreeLine();
  }
}
