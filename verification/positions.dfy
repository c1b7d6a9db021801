/** The switches of `config.json` that the modelled scripts consult. */
module Config {

  /** `parameters_to_vary`: which simulation inputs the sequence varies. */
  datatype ParamsToVary = ParamsToVary(
    scale: bool,
    soilTemperature: bool,
    treeTemperature: bool,
    chlorophyl: bool,
    waterThickness: bool)
  {
    /** Leaves get one optical property each (`leaf_<i>`) when a leaf
        chemistry parameter varies. */
    predicate IndividualOptical() {
      chlorophyl || waterThickness
    }
  }
}

/** The tree-position file (`positions.txt`) and the three ways the scripts
    read it: counting tree lines, collecting x-scales, and parsing full
    10-field placement records. */
module PositionFile {
  import opened Optional
  import opened Text
  import opened Sequences

  /** Python's `float()` on one token. Float syntax is not modelled: the
      parser is a parameter, `None` standing for the `ValueError`. */
  type FloatParser = string -> Option<real>

  /** A text file as its lines (each possibly ending in a newline), or
      `None` when `open` fails. */
  type TextFile = Option<seq<string>>

  // ---------------------------------------------------------------------
  // count_trees_in_position_file and read_scale_from_positions

  /** A tree line: its stripped text starts with the digit `0`. */
  predicate IsTreeLine(line: string) {
    StartsWith(Strip(line), "0")
  }

  /** A tree line with at least seven whitespace-separated fields, so that
      field 4 (the x-scale) exists. */
  predicate IsScaleLine(line: string) {
    IsTreeLine(line) && |Words(Strip(line))| >= 7
  }

  function ScaleToken(line: string): string
    requires IsScaleLine(line)
  {
    Words(Strip(line))[4]
  }

  /** `count_trees_in_position_file`: the number of tree lines, 0 when the
      file cannot be read. */
  function CountTrees(file: TextFile): nat {
    match file
    case None => 0
    case Some(lines) => |Filter(lines, IsTreeLine)|
  }

  /** `float()` on the x-scale token of a scale line. */
  function ScaleOf(parse: FloatParser): string -> Option<real> {
    line => if IsScaleLine(line) then parse(ScaleToken(line)) else None
  }

  /** The loop of `read_scale_from_positions`: the x-scale of each scale
      line in file order, stopping at the first token `float()` rejects (the
      exception leaves the loop and the scales read so far are returned). */
  function ScalesFrom(lines: seq<string>, parse: FloatParser): seq<real> {
    CollectWhile(lines, IsScaleLine, ScaleOf(parse))
  }

  /** The scales read are the parsed x-scale tokens of the scale lines, in
      file order, up to the first token that does not parse. */
  lemma ScalesFromSpec(lines: seq<string>, parse: FloatParser)
    ensures var r, f := ScalesFrom(lines, parse), Filter(lines, IsScaleLine);
      && |r| <= |f|
      && (forall k | 0 <= k < |r| :: parse(ScaleToken(f[k])) == Some(r[k]))
      && (|r| < |f| ==> parse(ScaleToken(f[|r|])).None?)
  {
    CollectWhileSpec(lines, IsScaleLine, ScaleOf(parse));
  }

  /** `read_scale_from_positions`: an unreadable file gives no scales. */
  function ReadScales(file: TextFile, parse: FloatParser): seq<real> {
    match file
    case None => []
    case Some(lines) => ScalesFrom(lines, parse)
  }

  /** The two readers of the same file: every scale line is a tree line, so
      there are never more scales than counted trees. */
  lemma ScalesNeverExceedTrees(file: TextFile, parse: FloatParser)
    ensures |ReadScales(file, parse)| <= CountTrees(file)
    ensures file.None? ==> ReadScales(file, parse) == [] && CountTrees(file) == 0
  {
    if file.Some? {
      ScalesFromSpec(file.value, parse);
      FilterStronger(file.value, IsTreeLine, IsScaleLine);
    }
  }

  /** When every x-scale token parses, there is exactly one scale per scale
      line. */
  lemma ScalesCoverScaleLines(file: TextFile, parse: FloatParser)
    requires file.Some?
    requires forall line | line in file.value && IsScaleLine(line) :: parse(ScaleToken(line)).Some?
    ensures |ReadScales(file, parse)| == |Filter(file.value, IsScaleLine)|
  {
    var lines := file.value;
    var r := ScalesFrom(lines, parse);
    var f := Filter(lines, IsScaleLine);
    ScalesFromSpec(lines, parse);
    if |r| < |f| {
      FilterMember(lines, IsScaleLine, |r|);
    }
  }

  // ---------------------------------------------------------------------
  // read_positions_file (update_objects.py)

  datatype Triple = Triple(x: real, y: real, z: real)

  /** One placement: `index`, then position, scale and rotation triples. */
  datatype PositionRecord = PositionRecord(index: int, position: Triple, scale: Triple, rotation: Triple)

  /** Comment lines, blank lines and the trailer line are skipped. */
  predicate IsSkippedLine(line: string) {
    StartsWith(line, "//") || Strip(line) == "" || Strip(line) == "complete transformation"
  }

  /** A line that yields a record: not skipped, exactly ten fields. */
  predicate IsRecordLine(line: string) {
    !IsSkippedLine(line) && |Words(Strip(line))| == 10
  }

  /** Three `float()` calls; `None` when one of them raises. */
  function ParseTriple(a: string, b: string, c: string, parse: FloatParser): (r: Option<Triple>)
    ensures r.None? <==> parse(a).None? || parse(b).None? || parse(c).None?
    ensures r.Some? ==> r.value.x == parse(a).value && r.value.y == parse(b).value && r.value.z == parse(c).value
  {
    match (parse(a), parse(b), parse(c))
    case (Some(x), Some(y), Some(z)) => Some(Triple(x, y, z))
    case _ => None
  }

  /** `int()` on field 0 and `float()` on fields 1-9; `None` when one of
      them raises. */
  function ParseRecord(fields: seq<string>, parse: FloatParser): (r: Option<PositionRecord>)
    requires |fields| == 10
    ensures r.Some? ==> ParseInt(fields[0]) == Some(r.value.index)
  {
    match (ParseInt(fields[0]),
           ParseTriple(fields[1], fields[2], fields[3], parse),
           ParseTriple(fields[4], fields[5], fields[6], parse),
           ParseTriple(fields[7], fields[8], fields[9], parse))
    case (Some(i), Some(p), Some(s), Some(t)) => Some(PositionRecord(i, p, s, t))
    case _ => None
  }

  /** Fields 1-3, 4-6 and 7-9 are the position, scale and rotation, and a
      record is missing exactly when one of the ten conversions raises. */
  lemma ParseRecordSpec(fields: seq<string>, parse: FloatParser)
    requires |fields| == 10
    ensures var r := ParseRecord(fields, parse);
      && (r.None? <==> ParseInt(fields[0]).None? || exists k | 1 <= k < 10 :: parse(fields[k]).None?)
      && (r.Some? ==>
            && r.value.position == Triple(parse(fields[1]).value, parse(fields[2]).value, parse(fields[3]).value)
            && r.value.scale == Triple(parse(fields[4]).value, parse(fields[5]).value, parse(fields[6]).value)
            && r.value.rotation == Triple(parse(fields[7]).value, parse(fields[8]).value, parse(fields[9]).value))
  {
    var r := ParseRecord(fields, parse);
    if r.Some? {
      forall k | 1 <= k < 10 ensures parse(fields[k]).Some? {
        assert k in {1, 2, 3, 4, 5, 6, 7, 8, 9};
      }
    }
  }

  function RecordFields(line: string): seq<string> {
    Words(Strip(line))
  }

  /** The record of a record line. */
  function RecordOf(parse: FloatParser): string -> Option<PositionRecord> {
    line => if IsRecordLine(line) then ParseRecord(RecordFields(line), parse) else None
  }

  /** The loop of `read_positions_file`: one record per record line, in file
      order; `None` when a field does not parse (the `ValueError` is not
      caught and the whole script stops). */
  function RecordsFrom(lines: seq<string>, parse: FloatParser): Option<seq<PositionRecord>> {
    CollectAll(lines, IsRecordLine, RecordOf(parse))
  }

  /** Exactly one record per record line, in file order, or `None` when one
      of those lines does not parse. */
  lemma RecordsFromSpec(lines: seq<string>, parse: FloatParser)
    ensures var r, f := RecordsFrom(lines, parse), Filter(lines, IsRecordLine);
      && (r.Some? ==> |r.value| == |f|)
      && (r.Some? ==> forall k | 0 <= k < |f| :: ParseRecord(RecordFields(f[k]), parse) == Some(r.value[k]))
      && (r.None? <==> exists k | 0 <= k < |f| :: ParseRecord(RecordFields(f[k]), parse).None?)
  {
    var f := Filter(lines, IsRecordLine);
    CollectAllSpec(lines, IsRecordLine, RecordOf(parse));
    assert forall k | 0 <= k < |f| :: RecordOf(parse)(f[k]) == ParseRecord(RecordFields(f[k]), parse);
  }

  /** `read_positions_file`: `None` when the file cannot be opened or a
      record line does not parse. */
  function ReadPositions(file: TextFile, parse: FloatParser): Option<seq<PositionRecord>> {
    match file
    case None => None
    case Some(lines) => RecordsFrom(lines, parse)
  }
}
