/** `generate_sequence_from_config.py`: the DART sequence descriptor that
    varies tree scales, temperatures and leaf chemistry over a number of
    simulations. */
module SequenceGenerator {
  import opened Optional
  import opened Text
  import opened Config
  import opened PositionFile
  import opened PropertyPaths

  // ---------------------------------------------------------------------
  // generate_random_values

  /** `len(range(n))` */
  function Trials(nbrSimulation: int): nat {
    if nbrSimulation < 0 then 0 else nbrSimulation
  }

  /** A value of `random.random()`. */
  predicate IsUnit(u: real) {
    0.0 <= u < 1.0
  }

  predicate AllUnits(us: seq<real>) {
    forall k | 0 <= k < |us| :: IsUnit(us[k])
  }

  /** `random.uniform(a, b)` from the unit draw behind it. */
  function Uniform(a: real, b: real, u: real): real {
    a + (b - a) * u
  }

  /** The unit draws behind one temperature row: the soil, then one per
      leaf, then one per trunk. */
  datatype TemperatureDraw = TemperatureDraw(soil: real, leaf: seq<real>, trunk: seq<real>)

  /** The unit draws of one run of the script; `scale[i]` are the draws
      behind the scale deviations of tree `i`. */
  datatype Draws = Draws(
    cab: seq<real>,
    cw: seq<real>,
    temperature: seq<TemperatureDraw>,
    scale: seq<seq<real>>)

  predicate TemperatureDrawShaped(t: TemperatureDraw, numTrees: nat) {
    && IsUnit(t.soil)
    && |t.leaf| == numTrees && AllUnits(t.leaf)
    && |t.trunk| == numTrees && AllUnits(t.trunk)
  }

  /** One draw per value the script asks `random` for. */
  predicate WellShaped(d: Draws, trials: nat, numTrees: nat) {
    && |d.cab| == trials && AllUnits(d.cab)
    && |d.cw| == trials && AllUnits(d.cw)
    && |d.temperature| == trials
    && (forall k | 0 <= k < trials :: TemperatureDrawShaped(d.temperature[k], numTrees))
    && |d.scale| == numTrees
    && (forall i | 0 <= i < numTrees :: |d.scale[i]| == trials && AllUnits(d.scale[i]))
  }

  /** The three tables `generate_random_values` returns, before `str()`. */
  datatype RandomValues = RandomValues(cab: seq<real>, cw: seq<real>, temperature: seq<seq<real>>)

  /** One row: soil in [290, 310), then each leaf `uniform(1, 10)` below
      the soil, then each trunk `uniform(0.5, 5)` below the soil. */
  function TemperatureRow(t: TemperatureDraw, numTrees: nat): (row: seq<real>)
    requires TemperatureDrawShaped(t, numTrees)
    ensures |row| == 1 + 2 * numTrees
    ensures 290.0 <= row[0] < 310.0
    ensures forall j | 1 <= j <= numTrees :: row[0] - 10.0 < row[j] <= row[0] - 1.0
    ensures forall j | numTrees < j <= 2 * numTrees :: row[0] - 5.0 < row[j] <= row[0] - 0.5
  {
    var soil := Uniform(290.0, 310.0, t.soil);
    var leaves := seq(numTrees, i requires 0 <= i < numTrees => soil - Uniform(1.0, 10.0, t.leaf[i]));
    var trunks := seq(numTrees, i requires 0 <= i < numTrees => soil - Uniform(0.5, 5.0, t.trunk[i]));
    var row := [soil] + leaves + trunks;
    assert forall j | 1 <= j <= numTrees :: row[j] == leaves[j - 1];
    assert forall j | numTrees < j <= 2 * numTrees :: row[j] == trunks[j - 1 - numTrees];
    row
  }

  /** One soil, `n` leaf and `n` trunk temperatures per row. */
  predicate RowsSized(rows: seq<seq<real>>, numTrees: nat) {
    forall k | 0 <= k < |rows| :: |rows[k]| == 1 + 2 * numTrees
  }

  /** Temperature rows as the script lays them out. */
  predicate RowsShaped(rows: seq<seq<real>>, numTrees: nat) {
    && RowsSized(rows, numTrees)
    && forall k | 0 <= k < |rows| ::
      && 290.0 <= rows[k][0] < 310.0
      && (forall j | 1 <= j <= numTrees :: rows[k][0] - 10.0 < rows[k][j] <= rows[k][0] - 1.0)
      && (forall j | numTrees < j <= 2 * numTrees :: rows[k][0] - 5.0 < rows[k][j] <= rows[k][0] - 0.5)
  }

  /** `generate_random_values(nbr_simulation, num_trees)` */
  function GenerateRandomValues(nbrSimulation: int, numTrees: nat, d: Draws): (r: RandomValues)
    requires WellShaped(d, Trials(nbrSimulation), numTrees)
    ensures |r.cab| == Trials(nbrSimulation)
    ensures forall k | 0 <= k < |r.cab| :: 20.0 <= r.cab[k] < 90.0
    ensures |r.cw| == Trials(nbrSimulation)
    ensures forall k | 0 <= k < |r.cw| :: 0.01 <= r.cw[k] < 0.05
    ensures |r.temperature| == Trials(nbrSimulation)
    ensures RowsShaped(r.temperature, numTrees)
  {
    var n := Trials(nbrSimulation);
    RandomValues(
      seq(n, k requires 0 <= k < n => d.cab[k] * 70.0 + 20.0),
      seq(n, k requires 0 <= k < n => d.cw[k] * 0.04 + 0.01),
      seq(n, k requires 0 <= k < n => TemperatureRow(d.temperature[k], numTrees)))
  }

  // ---------------------------------------------------------------------
  // The entries of create_sequence_xml

  /** One `DartSequencerDescriptorEntry`: `args` is the `;`-join of the
      printed values, `type` is always `enumerate`. */
  datatype SequenceEntry = SequenceEntry(target: Target, values: seq<real>, entryType: string)

  /** The descriptor written to `sequence.xml`, with its single group. */
  datatype Descriptor = Descriptor(sequenceName: string, groupName: string, entries: seq<SequenceEntry>)

  function Enumerate(t: Target, values: seq<real>): SequenceEntry {
    SequenceEntry(t, values, "enumerate")
  }

  /** Every entry is an `enumerate` entry with one value per simulation. */
  predicate AllEnumerate(es: seq<SequenceEntry>, trials: nat) {
    forall k | 0 <= k < |es| :: es[k].entryType == "enumerate" && |es[k].values| == trials
  }

  /** `[temp_list[j] for temp_list in temp_values]` */
  function Column(rows: seq<seq<real>>, j: nat): (c: seq<real>)
    requires forall k | 0 <= k < |rows| :: j < |rows[k]|
    ensures |c| == |rows|
    ensures forall k | 0 <= k < |rows| :: c[k] == rows[k][j]
  {
    seq(|rows|, k requires 0 <= k < |rows| => rows[k][j])
  }

  /** The scale deviations of one tree: its x-scale times a factor drawn in
      [0.8, 1.2). */
  function Deviations(scale: real, us: seq<real>): (r: seq<real>)
    requires AllUnits(us)
    ensures |r| == |us|
    ensures forall k | 0 <= k < |r| :: 0.0 <= scale ==> 0.8 * scale <= r[k] <= 1.2 * scale
    ensures forall k | 0 <= k < |r| :: scale <= 0.0 ==> 1.2 * scale <= r[k] <= 0.8 * scale
  {
    var r := seq(|us|, k requires 0 <= k < |us| => scale * (0.8 + 0.4 * us[k]));
    forall k | 0 <= k < |r| ensures 0.0 <= scale ==> 0.8 * scale <= r[k] <= 1.2 * scale
      ensures scale <= 0.0 ==> 1.2 * scale <= r[k] <= 0.8 * scale
    {
      assert r[k] == scale * (0.8 + 0.4 * us[k]);
      ScaledFactor(scale, us[k]);
    }
    r
  }

  lemma ScaledFactor(scale: real, u: real)
    requires IsUnit(u)
    ensures 0.0 <= scale ==> 0.8 * scale <= scale * (0.8 + 0.4 * u) <= 1.2 * scale
    ensures scale <= 0.0 ==> 1.2 * scale <= scale * (0.8 + 0.4 * u) <= 0.8 * scale
  {
    assert scale * (0.8 + 0.4 * u) == 0.8 * scale + 0.4 * (scale * u);
    if 0.0 <= scale {
      assert 0.0 <= scale * u <= scale * 1.0;
    } else {
      assert scale * 1.0 <= scale * u <= 0.0;
    }
  }

  function AxisAt(k: nat): Axis {
    if k % 3 == 0 then X else if k % 3 == 1 then Y else Z
  }

  /** The deviation list of tree `i`, a comprehension over the runs:
      `scales[i]` is read only inside it, so with no runs the list is empty
      even for a tree without a scale. */
  function TreeDeviations(scales: seq<real>, us: seq<real>, i: nat): (r: seq<real>)
    requires AllUnits(us) && (i < |scales| || us == [])
    ensures |r| == |us|
    ensures i < |scales| ==> r == Deviations(scales[i], us)
  {
    if us == [] then [] else Deviations(scales[i], us)
  }

  /** Three entries per tree, x then y then z, sharing one deviation list;
      with no runs every tree gets its entries, scale or not. */
  function ScaleEntries(scales: seq<real>, draws: seq<seq<real>>, numTrees: nat, trials: nat): (es: seq<SequenceEntry>)
    requires (numTrees <= |scales| || trials == 0) && numTrees <= |draws|
    requires forall i | 0 <= i < numTrees :: |draws[i]| == trials && AllUnits(draws[i])
    ensures AllEnumerate(es, trials)
  {
    seq(3 * numTrees, k requires 0 <= k < 3 * numTrees =>
      Enumerate(ObjectScale(k / 3, AxisAt(k)), TreeDeviations(scales, draws[k / 3], k / 3)))
  }

  /** The thermal-function slot the descriptor varies for leaf `i` and
      trunk `i`: as written, leaves fill slots 1..n and trunks n+1..2n. */
  function LeafSlot(numTrees: nat, i: nat): nat { i + 1 }
  function TrunkSlot(numTrees: nat, i: nat): nat { i + numTrees + 1 }

  function SoilEntry(rows: seq<seq<real>>, numTrees: nat): SequenceEntry
    requires RowsSized(rows, numTrees)
  {
    Enumerate(ThermalMeanT(0), Column(rows, 0))
  }

  function LeafEntries(rows: seq<seq<real>>, numTrees: nat): seq<SequenceEntry>
    requires RowsSized(rows, numTrees)
  {
    seq(numTrees, i requires 0 <= i < numTrees =>
      Enumerate(ThermalMeanT(LeafSlot(numTrees, i)), Column(rows, i + 1)))
  }

  function TrunkEntries(rows: seq<seq<real>>, numTrees: nat): seq<SequenceEntry>
    requires RowsSized(rows, numTrees)
  {
    seq(numTrees, i requires 0 <= i < numTrees =>
      Enumerate(ThermalMeanT(TrunkSlot(numTrees, i)), Column(rows, i + numTrees + 1)))
  }

  /** The leaf chemistry a PROSPECT entry varies. */
  datatype Chemistry = Cab | Cw

  function ChemistryTarget(c: Chemistry, i: nat): Target {
    match c
    case Cab => ProspectCab(i)
    case Cw => ProspectCw(i)
  }

  /** One entry per tree, all sharing the same value list. */
  function ChemistryEntries(c: Chemistry, values: seq<real>, numTrees: nat): seq<SequenceEntry> {
    seq(numTrees, i requires 0 <= i < numTrees => Enumerate(ChemistryTarget(c, i), values))
  }

  /** The entries of the group, in the order the script appends them. */
  function Entries(
    params: ParamsToVary, numTrees: nat, rv: RandomValues, scaleEntries: seq<SequenceEntry>): (es: seq<SequenceEntry>)
    requires RowsSized(rv.temperature, numTrees)
  {
    scaleEntries
    + SoilBlock(params, rv.temperature, numTrees)
    + TreeBlock(params, rv.temperature, numTrees)
    + CabBlock(params, rv, numTrees)
    + CwBlock(params, rv, numTrees)
  }

  /** Every entry is an `enumerate` entry with one value per simulation. */
  lemma EntriesEnumerate(params: ParamsToVary, numTrees: nat, rv: RandomValues, scaleEntries: seq<SequenceEntry>, trials: nat)
    requires RowsSized(rv.temperature, numTrees)
    requires |rv.cab| == |rv.cw| == |rv.temperature| == trials && AllEnumerate(scaleEntries, trials)
    ensures AllEnumerate(Entries(params, numTrees, rv, scaleEntries), trials)
  {
    var es := Entries(params, numTrees, rv, scaleEntries);
    var b, c, d, e := SoilBlock(params, rv.temperature, numTrees), TreeBlock(params, rv.temperature, numTrees),
      CabBlock(params, rv, numTrees), CwBlock(params, rv, numTrees);
    AllEnumerateAppend(scaleEntries, b, trials);
    AllEnumerateAppend(scaleEntries + b, c, trials);
    AllEnumerateAppend(scaleEntries + b + c, d, trials);
    AllEnumerateAppend(scaleEntries + b + c + d, e, trials);
  }

  lemma AllEnumerateAppend(xs: seq<SequenceEntry>, ys: seq<SequenceEntry>, trials: nat)
    requires AllEnumerate(xs, trials) && AllEnumerate(ys, trials)
    ensures AllEnumerate(xs + ys, trials)
  {
    forall k | 0 <= k < |xs + ys| ensures (xs + ys)[k].entryType == "enumerate" && |(xs + ys)[k].values| == trials {
      if k >= |xs| {
        assert (xs + ys)[k] == ys[k - |xs|];
      }
    }
  }

  /** What a run of the script produces. */
  datatype SequenceOutcome =
    | NoTrees                         // "No trees found", nothing written
    | ScaleIndexError(treeIndex: nat) // `scales[i]` raised `IndexError`, nothing written
    | Generated(descriptor: Descriptor)

  /** The scales read: none unless scales vary. */
  function ScalesRead(file: TextFile, params: ParamsToVary, parse: FloatParser): seq<real> {
    if params.scale then ReadScales(file, parse) else []
  }

  /** The scale entries are emitted when scales vary and some were read. */
  predicate EmitsScales(params: ParamsToVary, scales: seq<real>) {
    params.scale && scales != []
  }

  /** How many scale entries a run writes: three per tree when they are
      emitted. */
  function ScaleEntryCount(params: ParamsToVary, scales: seq<real>, numTrees: nat): nat {
    if EmitsScales(params, scales) then 3 * numTrees else 0
  }

  /** `create_sequence_xml` on the configured run count, position file,
      switches and draws. */
  function CreateSequence(
    nbrSimulation: int, file: TextFile, params: ParamsToVary, parse: FloatParser, d: Draws): (r: SequenceOutcome)
    requires WellShaped(d, Trials(nbrSimulation), CountTrees(file))
    ensures r.NoTrees? <==> CountTrees(file) == 0
    ensures r.ScaleIndexError? <==>
      var scales := ScalesRead(file, params, parse);
      0 < CountTrees(file) && EmitsScales(params, scales) && |scales| < CountTrees(file)
      && Trials(nbrSimulation) > 0
    ensures r.ScaleIndexError? ==> r.treeIndex == |ReadScales(file, parse)| < CountTrees(file)
    ensures r.Generated? ==> r.descriptor.sequenceName == "sequence;;sequence" && r.descriptor.groupName == "group1"
    ensures r.Generated? ==> AllEnumerate(r.descriptor.entries, Trials(nbrSimulation))
  {
    var numTrees := CountTrees(file);
    if numTrees == 0 then NoTrees
    else
      var rv := GenerateRandomValues(nbrSimulation, numTrees, d);
      var scales := ScalesRead(file, params, parse);
      if EmitsScales(params, scales) && |scales| < numTrees && Trials(nbrSimulation) > 0 then
        ScaleIndexError(|scales|)
      else
        var se := ScaleBlock(nbrSimulation, file, params, parse, d);
        EntriesEnumerate(params, numTrees, rv, se, Trials(nbrSimulation));
        Generated(Descriptor("sequence;;sequence", "group1", Entries(params, numTrees, rv, se)))
  }

  /** The scale entries of a run that does not fail on `scales[i]`. */
  function ScaleBlock(nbrSimulation: int, file: TextFile, params: ParamsToVary, parse: FloatParser, d: Draws): seq<SequenceEntry>
    requires WellShaped(d, Trials(nbrSimulation), CountTrees(file))
    requires var scales := ScalesRead(file, params, parse);
      !(EmitsScales(params, scales) && |scales| < CountTrees(file) && Trials(nbrSimulation) > 0)
  {
    var scales := ScalesRead(file, params, parse);
    if EmitsScales(params, scales) then ScaleEntries(scales, d.scale, CountTrees(file), Trials(nbrSimulation)) else []
  }

  /** The entries of a generated descriptor, block by block. */
  lemma GeneratedEntries(nbrSimulation: int, file: TextFile, params: ParamsToVary, parse: FloatParser, d: Draws)
    requires WellShaped(d, Trials(nbrSimulation), CountTrees(file))
    requires CreateSequence(nbrSimulation, file, params, parse, d).Generated?
    ensures var n := CountTrees(file);
      var se := ScaleBlock(nbrSimulation, file, params, parse, d);
      && RowsShaped(GenerateRandomValues(nbrSimulation, n, d).temperature, n)
      && CreateSequence(nbrSimulation, file, params, parse, d).descriptor.entries
         == Entries(params, n, GenerateRandomValues(nbrSimulation, n, d), se)
      && |se| == ScaleEntryCount(params, ScalesRead(file, params, parse), n)
  {
  }

  // ---------------------------------------------------------------------
  // The layout of the entries

  /** Where each block of entries starts, after `scaleCount` scale entries. */
  datatype Layout = Layout(soil: nat, leaves: nat, trunks: nat, cab: nat, cw: nat, end: nat)

  function LayoutOf(params: ParamsToVary, numTrees: nat, scaleCount: nat): Layout {
    var soil := scaleCount;
    var leaves := soil + (if params.soilTemperature then 1 else 0);
    var trunks := leaves + (if params.treeTemperature then numTrees else 0);
    var cab := trunks + (if params.treeTemperature then numTrees else 0);
    var cw := cab + (if params.chlorophyl then numTrees else 0);
    Layout(soil, leaves, trunks, cab, cw, cw + (if params.waterThickness then numTrees else 0))
  }

  lemma ConcatOfFive<T>(a: seq<T>, b: seq<T>, c: seq<T>, d: seq<T>, e: seq<T>)
    ensures |a + b + c + d + e| == |a| + |b| + |c| + |d| + |e|
    ensures (a + b + c + d + e)[..|a|] == a
  {
    assert a + b + c + d + e == a + (b + c + d + e);
  }

  /** `xs` with a block `m` at offset `|p|`. */
  lemma BlockAt<T>(xs: seq<T>, p: seq<T>, m: seq<T>, q: seq<T>, i: nat)
    requires xs == p + m + q && i < |m|
    ensures xs[|p| + i] == m[i]
  {
  }

  function SoilBlock(params: ParamsToVary, rows: seq<seq<real>>, numTrees: nat): (es: seq<SequenceEntry>)
    requires RowsSized(rows, numTrees)
    ensures AllEnumerate(es, |rows|)
  {
    if params.soilTemperature then [SoilEntry(rows, numTrees)] else []
  }

  function TreeBlock(params: ParamsToVary, rows: seq<seq<real>>, numTrees: nat): (es: seq<SequenceEntry>)
    requires RowsSized(rows, numTrees)
    ensures AllEnumerate(es, |rows|)
  {
    if params.treeTemperature then LeafEntries(rows, numTrees) + TrunkEntries(rows, numTrees) else []
  }

  function CabBlock(params: ParamsToVary, rv: RandomValues, numTrees: nat): (es: seq<SequenceEntry>)
    ensures AllEnumerate(es, |rv.cab|)
  {
    if params.chlorophyl then ChemistryEntries(Cab, rv.cab, numTrees) else []
  }

  function CwBlock(params: ParamsToVary, rv: RandomValues, numTrees: nat): (es: seq<SequenceEntry>)
    ensures AllEnumerate(es, |rv.cw|)
  {
    if params.waterThickness then ChemistryEntries(Cw, rv.cw, numTrees) else []
  }

  /** The entries as their five blocks. */
  lemma EntriesBlocks(params: ParamsToVary, numTrees: nat, rv: RandomValues, scaleEntries: seq<SequenceEntry>)
    requires RowsSized(rv.temperature, numTrees)
    ensures var l := LayoutOf(params, numTrees, |scaleEntries|);
      var b, c, d, e := SoilBlock(params, rv.temperature, numTrees), TreeBlock(params, rv.temperature, numTrees),
        CabBlock(params, rv, numTrees), CwBlock(params, rv, numTrees);
      && Entries(params, numTrees, rv, scaleEntries) == scaleEntries + b + c + d + e
      && |b| == l.leaves - l.soil && |c| == l.cab - l.leaves && |d| == l.cw - l.cab && |e| == l.end - l.cw
      && l.soil == |scaleEntries|
  {
  }

  /** The scale entries come first, and the blocks fill the layout. */
  lemma EntriesSize(params: ParamsToVary, numTrees: nat, rv: RandomValues, scaleEntries: seq<SequenceEntry>)
    requires RowsSized(rv.temperature, numTrees)
    ensures var es := Entries(params, numTrees, rv, scaleEntries);
      && |es| == LayoutOf(params, numTrees, |scaleEntries|).end
      && es[..|scaleEntries|] == scaleEntries
  {
    var es := Entries(params, numTrees, rv, scaleEntries);
    EntriesBlocks(params, numTrees, rv, scaleEntries);
    var b, c, d, e := SoilBlock(params, rv.temperature, numTrees), TreeBlock(params, rv.temperature, numTrees),
      CabBlock(params, rv, numTrees), CwBlock(params, rv, numTrees);
    ConcatOfFive(scaleEntries, b, c, d, e);
  }

  /** The soil entry follows the scale entries and varies slot 0 with the
      soil column. */
  lemma EntriesSoil(params: ParamsToVary, numTrees: nat, rv: RandomValues, scaleEntries: seq<SequenceEntry>)
    requires RowsSized(rv.temperature, numTrees) && params.soilTemperature
    ensures Entries(params, numTrees, rv, scaleEntries)[|scaleEntries|]
      == Enumerate(ThermalMeanT(0), Column(rv.temperature, 0))
  {
    EntriesBlocks(params, numTrees, rv, scaleEntries);
    var b, c, d, e := SoilBlock(params, rv.temperature, numTrees), TreeBlock(params, rv.temperature, numTrees),
      CabBlock(params, rv, numTrees), CwBlock(params, rv, numTrees);
    BlockAt(Entries(params, numTrees, rv, scaleEntries), scaleEntries, b, c + d + e, 0);
  }

  /** Leaf `i` varies column `i + 1` of the rows, trunk `i` column
      `i + n + 1`, each in its own slot. */
  lemma EntriesTrees(params: ParamsToVary, numTrees: nat, rv: RandomValues, scaleEntries: seq<SequenceEntry>, i: nat)
    requires RowsSized(rv.temperature, numTrees) && params.treeTemperature && i < numTrees
    ensures var es, l, rows := Entries(params, numTrees, rv, scaleEntries), LayoutOf(params, numTrees, |scaleEntries|), rv.temperature;
      && l.trunks == l.leaves + numTrees
      && es[l.leaves + i] == Enumerate(ThermalMeanT(LeafSlot(numTrees, i)), Column(rows, i + 1))
      && es[l.trunks + i] == Enumerate(ThermalMeanT(TrunkSlot(numTrees, i)), Column(rows, i + numTrees + 1))
  {
    EntriesBlocks(params, numTrees, rv, scaleEntries);
    var es := Entries(params, numTrees, rv, scaleEntries);
    var b, c, d, e := SoilBlock(params, rv.temperature, numTrees), TreeBlock(params, rv.temperature, numTrees),
      CabBlock(params, rv, numTrees), CwBlock(params, rv, numTrees);
    var leaves, trunks := LeafEntries(rv.temperature, numTrees), TrunkEntries(rv.temperature, numTrees);
    BlockAt(c, [], leaves, trunks, i);
    BlockAt(c, leaves, trunks, [], i);
    BlockAt(es, scaleEntries + b, c, d + e, i);
    BlockAt(es, scaleEntries + b, c, d + e, numTrees + i);
  }

  /** Every Cab entry varies its own leaf optical property with the one
      shared Cab list. */
  lemma EntriesCab(params: ParamsToVary, numTrees: nat, rv: RandomValues, scaleEntries: seq<SequenceEntry>, i: nat)
    requires RowsSized(rv.temperature, numTrees) && params.chlorophyl && i < numTrees
    ensures Entries(params, numTrees, rv, scaleEntries)[LayoutOf(params, numTrees, |scaleEntries|).cab + i]
      == Enumerate(ProspectCab(i), rv.cab)
  {
    EntriesBlocks(params, numTrees, rv, scaleEntries);
    var b, c, d, e := SoilBlock(params, rv.temperature, numTrees), TreeBlock(params, rv.temperature, numTrees),
      CabBlock(params, rv, numTrees), CwBlock(params, rv, numTrees);
    BlockAt(Entries(params, numTrees, rv, scaleEntries), scaleEntries + b + c, d, e, i);
  }

  /** Every Cw entry varies its own leaf optical property with the one
      shared Cw list. */
  lemma EntriesCw(params: ParamsToVary, numTrees: nat, rv: RandomValues, scaleEntries: seq<SequenceEntry>, i: nat)
    requires RowsSized(rv.temperature, numTrees) && params.waterThickness && i < numTrees
    ensures Entries(params, numTrees, rv, scaleEntries)[LayoutOf(params, numTrees, |scaleEntries|).cw + i]
      == Enumerate(ProspectCw(i), rv.cw)
  {
    EntriesBlocks(params, numTrees, rv, scaleEntries);
    var b, c, d, e := SoilBlock(params, rv.temperature, numTrees), TreeBlock(params, rv.temperature, numTrees),
      CabBlock(params, rv, numTrees), CwBlock(params, rv, numTrees);
    BlockAt(Entries(params, numTrees, rv, scaleEntries), scaleEntries + b + c + d, e, [], i);
  }

  /** Tree `i` owns entries `3i`, `3i+1`, `3i+2` for the x, y and z scales,
      and all three carry the same list: the tree's x-scale times factors in
      [0.8, 1.2). */
  lemma ScaleEntriesOfTree(scales: seq<real>, draws: seq<seq<real>>, numTrees: nat, trials: nat, i: nat)
    requires numTrees <= |scales| && numTrees <= |draws|
    requires forall j | 0 <= j < numTrees :: |draws[j]| == trials && AllUnits(draws[j])
    requires i < numTrees
    ensures var es := ScaleEntries(scales, draws, numTrees, trials);
      && |es| == 3 * numTrees
      && es[3 * i].target == ObjectScale(i, X)
      && es[3 * i + 1].target == ObjectScale(i, Y)
      && es[3 * i + 2].target == ObjectScale(i, Z)
      && es[3 * i].values == es[3 * i + 1].values == es[3 * i + 2].values
      && (forall k | 0 <= k < trials :: 0.0 <= scales[i] ==> 0.8 * scales[i] <= es[3 * i].values[k] <= 1.2 * scales[i])
  {
    assert (3 * i) / 3 == i && (3 * i + 1) / 3 == i && (3 * i + 2) / 3 == i;
    assert (3 * i) % 3 == 0 && (3 * i + 1) % 3 == 1 && (3 * i + 2) % 3 == 2;
  }

  /** With no run, `scales[i]` is never evaluated: whatever number of
      scales was read, the descriptor starts with three entries per tree,
      each with an empty list. */
  lemma NoRunsWriteEmptyScaleEntries(
    nbrSimulation: int, file: TextFile, params: ParamsToVary, parse: FloatParser, d: Draws)
    requires WellShaped(d, Trials(nbrSimulation), CountTrees(file))
    requires nbrSimulation <= 0 && 0 < CountTrees(file) && EmitsScales(params, ScalesRead(file, params, parse))
    ensures var r := CreateSequence(nbrSimulation, file, params, parse, d);
      && r.Generated?
      && 3 * CountTrees(file) <= |r.descriptor.entries|
      && forall k | 0 <= k < 3 * CountTrees(file) ::
           r.descriptor.entries[k] == Enumerate(ObjectScale(k / 3, AxisAt(k)), [])
  {
    var n := CountTrees(file);
    var rv, se := GenerateRandomValues(nbrSimulation, n, d), ScaleBlock(nbrSimulation, file, params, parse, d);
    var es := CreateSequence(nbrSimulation, file, params, parse, d).descriptor.entries;
    GeneratedEntries(nbrSimulation, file, params, parse, d);
    EntriesSize(params, n, rv, se);
    forall k | 0 <= k < 3 * n ensures es[k] == Enumerate(ObjectScale(k / 3, AxisAt(k)), []) {
      assert es[k] == es[..|se|][k] == se[k];
    }
  }

  /** The number of entries written: three per tree for scales (when
      scales vary and some were read), one for the soil, two per tree for
      tree temperatures, one per tree for each leaf chemistry. */
  lemma EntryCount(nbrSimulation: int, file: TextFile, params: ParamsToVary, parse: FloatParser, d: Draws)
    requires WellShaped(d, Trials(nbrSimulation), CountTrees(file))
    requires CreateSequence(nbrSimulation, file, params, parse, d).Generated?
    ensures var n := CountTrees(file);
      |CreateSequence(nbrSimulation, file, params, parse, d).descriptor.entries|
      == ScaleEntryCount(params, ScalesRead(file, params, parse), n)
       + (if params.soilTemperature then 1 else 0)
       + (if params.treeTemperature then 2 * n else 0)
       + (if params.chlorophyl then n else 0)
       + (if params.waterThickness then n else 0)
  {
    var n := CountTrees(file);
    GeneratedEntries(nbrSimulation, file, params, parse, d);
    EntriesSize(params, n, GenerateRandomValues(nbrSimulation, n, d), ScaleBlock(nbrSimulation, file, params, parse, d));
  }

  /** In run `k`, with the soil entry at `s`: leaf `i`'s entry at
      `s + 1 + i` is at least 1 K and trunk `i`'s at `s + 1 + n + i` at
      least 0.5 K cooler than the soil. */
  predicate TreesCoolerThanSoil(es: seq<SequenceEntry>, s: nat, numTrees: nat, i: nat, k: nat) {
    var leaf, trunk := s + 1 + i, s + 1 + numTrees + i;
    && trunk < |es|
    && k < |es[s].values| && k < |es[leaf].values| && k < |es[trunk].values|
    && es[s].target == ThermalMeanT(0)
    && es[leaf].target == ThermalMeanT(LeafSlot(numTrees, i))
    && es[trunk].target == ThermalMeanT(TrunkSlot(numTrees, i))
    && es[leaf].values[k] <= es[s].values[k] - 1.0
    && es[trunk].values[k] <= es[s].values[k] - 0.5
  }

  /** On shaped rows, each leaf and each trunk entry is, run by run,
      strictly cooler than the soil entry. */
  lemma EntriesTreesCoolerThanSoil(
    params: ParamsToVary, numTrees: nat, rv: RandomValues, scaleEntries: seq<SequenceEntry>, i: nat, k: nat)
    requires RowsShaped(rv.temperature, numTrees)
    requires params.soilTemperature && params.treeTemperature
    requires i < numTrees && k < |rv.temperature|
    ensures TreesCoolerThanSoil(Entries(params, numTrees, rv, scaleEntries), |scaleEntries|, numTrees, i, k)
  {
    EntriesSize(params, numTrees, rv, scaleEntries);
    EntriesSoil(params, numTrees, rv, scaleEntries);
    EntriesTrees(params, numTrees, rv, scaleEntries, i);
    var row := rv.temperature[k];
    assert row[1 + i] <= row[0] - 1.0;
    assert row[1 + numTrees + i] <= row[0] - 0.5;
  }

  /** When both temperatures vary, each leaf and each trunk entry is, run
      by run, strictly cooler than the soil entry that follows the scale
      entries. */
  lemma TreeEntriesCoolerThanSoil(
    nbrSimulation: int, file: TextFile, params: ParamsToVary, parse: FloatParser, d: Draws, i: nat, k: nat)
    requires WellShaped(d, Trials(nbrSimulation), CountTrees(file))
    requires CreateSequence(nbrSimulation, file, params, parse, d).Generated?
    requires params.soilTemperature && params.treeTemperature
    requires i < CountTrees(file) && k < Trials(nbrSimulation)
    ensures TreesCoolerThanSoil(
      CreateSequence(nbrSimulation, file, params, parse, d).descriptor.entries,
      ScaleEntryCount(params, ScalesRead(file, params, parse), CountTrees(file)), CountTrees(file), i, k)
  {
    var n := CountTrees(file);
    var rv, se := GenerateRandomValues(nbrSimulation, n, d), ScaleBlock(nbrSimulation, file, params, parse, d);
    GeneratedEntries(nbrSimulation, file, params, parse, d);
    EntriesTreesCoolerThanSoil(params, n, rv, se, i, k);
  }

  // ---------------------------------------------------------------------
  // The args attribute

  /** `";".join(values)` for values printed by `fmt`. */
  function Args(values: seq<real>, fmt: real -> string): string {
    Join(";", seq(|values|, k requires 0 <= k < |values| => fmt(values[k])))
  }

  /** When the printer never writes `;`, splitting `args` at `;` gives back
      exactly one printed value per simulation. */
  lemma ArgsRoundTrip(values: seq<real>, fmt: real -> string)
    requires |values| > 0
    requires forall v: real :: ';' !in fmt(v)
    ensures var parts := Split(Args(values, fmt), ";");
      && |parts| == |values|
      && forall k | 0 <= k < |values| :: parts[k] == fmt(values[k])
  {
    var printed := seq(|values|, k requires 0 <= k < |values| => fmt(values[k]));
    assert forall k | 0 <= k < |printed| :: ';' !in printed[k] by {
      forall k | 0 <= k < |printed| ensures ';' !in printed[k] {
        var v := values[k];
        assert ';' !in fmt(v);
        assert printed[k] == fmt(v);
      }
    }
    SplitJoin(';', printed);
  }

  /** With no simulations the list is empty and `args` is the empty string,
      which reads back as one empty value. */
  lemma ArgsOfNoSimulation(fmt: real -> string)
    ensures Args([], fmt) == ""
    ensures Split(Args([], fmt), ";") == [""]
  {
    IndexOfAbsent("", ';');
  }
}
