/** `saveTIFF.py`: the image size read from a DART image header, which bands
    are thermal, the parameters read from the sequencer's properties file,
    and which band folders go into each sequence's GeoTIFF. */
module SaveTiff {
  import opened Optional
  import opened Text
  import opened Sequences
  import opened Sorting
  import opened Soils

  // ---------------------------------------------------------------------
  // extract_size_from_config

  /** The width and height of a band image. */
  datatype ImageSize = ImageSize(columns: nat, rows: nat)

  /** Length of the run of decimal digits starting at `i`: what a greedy
      `\d+` or `\d*` takes there. */
  function DigitRun(s: string, i: nat): (n: nat)
    ensures n == 0 || i + n <= |s|
    ensures forall k | i <= k < i + n :: IsDigit(s[k])
    ensures i + n < |s| ==> !IsDigit(s[i + n])
    decreases |s| - i
  {
    if i < |s| && IsDigit(s[i]) then 1 + DigitRun(s, i + 1) else 0
  }

  /** Length of the run of whitespace starting at `i`: what a greedy `\s*`
      or `\s+` takes there. */
  function SpaceRun(s: string, i: nat): (n: nat)
    ensures n == 0 || i + n <= |s|
    decreases |s| - i
  {
    if i < |s| && IsSpace(s[i]) then 1 + SpaceRun(s, i + 1) else 0
  }

  /** `int()` of the `n` digits at `i`. */
  function NumberAt(s: string, i: nat, n: nat): nat
    requires i + n <= |s|
    requires forall k | i <= k < i + n :: IsDigit(s[k])
  {
    SliceDigits(s, i, n);
    DigitsValue(s[i..i + n])
  }

  lemma SliceDigits(s: string, i: nat, n: nat)
    requires i + n <= |s|
    requires forall k | i <= k < i + n :: IsDigit(s[k])
    ensures AllDigits(s[i..i + n])
  {
    var t := s[i..i + n];
    forall k | 0 <= k < |t| ensures IsDigit(t[k]) {
      assert t[k] == s[i + k];
    }
  }

  /** `Size=(\d+)\s+(\d+)` tried at position `i`. Each greedy run must be
      taken whole: giving a character back leaves a digit or a blank where
      the next part cannot start. */
  function SizeAt(s: string, i: nat): Option<ImageSize> {
    if OccursAt(s, "Size=", i) then SizeAfter(s, i + 5) else None
  }

  /** `(\d+)\s+(\d+)` tried at position `a`. */
  function SizeAfter(s: string, a: nat): Option<ImageSize> {
    var b := a + DigitRun(s, a);
    var w := SpaceRun(s, b);
    SizeOf(NumberFrom(s, a), w, NumberFrom(s, b + w))
  }

  /** The size from its two numbers and the length of the blank run between
      them. */
  function SizeOf(columns: Option<nat>, w: nat, rows: Option<nat>): Option<ImageSize> {
    if columns.Some? && w > 0 && rows.Some? then Some(ImageSize(columns.value, rows.value)) else None
  }

  /** `(\d+)` tried at position `i`. */
  function NumberFrom(s: string, i: nat): Option<nat> {
    var n := DigitRun(s, i);
    if n == 0 then None else Some(NumberAt(s, i, n))
  }

  /** `<name>\s*=\s*(\d+)` tried at position `i`. */
  function NamedAt(s: string, name: string, i: nat): Option<nat> {
    if !OccursAt(s, name, i) then None
    else
      var a := i + |name|;
      var b := a + SpaceRun(s, a);
      if !(b < |s| && s[b] == '=') then None
      else NumberFrom(s, b + 1 + SpaceRun(s, b + 1))
  }

  /** The leftmost position in `i..n` where `at` matches. */
  function Search<T>(n: nat, at: nat -> Option<T>, i: nat): (r: Option<nat>)
    ensures r.Some? ==> i <= r.value <= n && at(r.value).Some?
    ensures r.Some? ==> forall j | i <= j < r.value :: at(j).None?
    ensures r.None? ==> forall j | i <= j <= n :: at(j).None?
    decreases n + 1 - i
  {
    if i > n then None
    else if at(i).Some? then Some(i)
    else Search(n, at, i + 1)
  }

  /** `re.search` over a string of length `n`: the match at the leftmost
      position where there is one. */
  function FirstMatch<T>(n: nat, at: nat -> Option<T>): Option<T> {
    match Search(n, at, 0)
    case None => None
    case Some(j) => at(j)
  }

  /** The first match is the one at a matching position before which
      nothing matches. */
  lemma FirstMatchAt<T>(n: nat, at: nat -> Option<T>, m: nat)
    requires m <= n && at(m).Some?
    requires forall j | 0 <= j < m :: at(j).None?
    ensures FirstMatch(n, at) == at(m)
  {
    assert Search(n, at, 0) == Some(m);
  }

  function SizeMatch(content: string): Option<ImageSize> {
    FirstMatch(|content|, j => SizeAt(content, j))
  }

  function NamedMatch(content: string, name: string): Option<nat> {
    FirstMatch(|content|, j => NamedAt(content, name, j))
  }

  /** The named match is the one at a matching position before which the
      name does not match. */
  lemma NamedMatchAt(s: string, name: string, m: nat)
    requires m <= |s| && NamedAt(s, name, m).Some?
    requires forall j | 0 <= j < m :: NamedAt(s, name, j).None?
    ensures NamedMatch(s, name) == NamedAt(s, name, m)
  {
    FirstMatchAt(|s|, j => NamedAt(s, name, j), m);
  }

  /** `extract_size_from_config(content)`: `None` for the `ValueError`. The
      first `Size=` match wins; only without one are `ncols=` and `nrows=`
      looked up, and both must be found. */
  function ExtractSize(content: string): (r: Option<ImageSize>)
    ensures SizeMatch(content).Some? ==> r == SizeMatch(content)
    ensures SizeMatch(content).None? ==>
      (r.Some? <==> NamedMatch(content, "ncols").Some? && NamedMatch(content, "nrows").Some?)
    ensures SizeMatch(content).None? && r.Some? ==>
      r.value == ImageSize(NamedMatch(content, "ncols").value, NamedMatch(content, "nrows").value)
  {
    match SizeMatch(content)
    case Some(size) => Some(size)
    case None =>
      match (NamedMatch(content, "ncols"), NamedMatch(content, "nrows"))
      case (Some(columns), Some(rows)) => Some(ImageSize(columns, rows))
      case _ => None
  }

  /** A run of digits followed by a non-digit (or the end) is taken whole. */
  lemma {:induction false} DigitRunOf(s: string, i: nat, d: string)
    requires i + |d| <= |s| && s[i..i + |d|] == d && AllDigits(d)
    requires i + |d| == |s| || !IsDigit(s[i + |d|])
    ensures DigitRun(s, i) == |d|
    decreases |d|
  {
    if |d| > 0 {
      assert s[i] == d[0];
      assert s[i + 1..i + |d|] == d[1..];
      DigitRunOf(s, i + 1, d[1..]);
    }
  }

  /** Where `Size=` occurs, the string holds an `S`. */
  lemma SizeNeedsS(s: string, j: nat)
    requires OccursAt(s, "Size=", j)
    ensures j < |s| && s[j] == 'S'
  {
    assert s[j..j + 5][0] == s[j];
  }

  /** Two digit runs `c` at `a..b` and `r` at `e..f`, separated by a blank
      at `b` and followed by the end or a non-digit, match at `a` with their
      values. */
  lemma SizeAfterWritten(s: string, a: nat, b: nat, e: nat, f: nat, c: string, r: string)
    requires |c| > 0 && AllDigits(c) && |r| > 0 && AllDigits(r)
    requires b == a + |c| && e == b + 1 && f == e + |r| && f <= |s|
    requires s[a..b] == c && s[b] == ' ' && s[e..f] == r
    requires f == |s| || !IsDigit(s[f])
    ensures SizeAfter(s, a) == Some(ImageSize(DigitsValue(c), DigitsValue(r)))
  {
    NumberFromOf(s, e, r);
    NumberFromOf(s, a, c);
    DigitRunStarts(s, e);
    SingleSpace(s, b);
    SizeAfterValue(s, a, b, e, DigitsValue(c), DigitsValue(r));
  }

  /** A non-empty digit run starts with a digit. */
  lemma DigitRunStarts(s: string, i: nat)
    requires DigitRun(s, i) > 0
    ensures i < |s| && IsDigit(s[i])
  {
  }

  /** A blank followed by a digit is a whitespace run of one. */
  lemma SingleSpace(s: string, b: nat)
    requires b + 1 < |s| && s[b] == ' ' && IsDigit(s[b + 1])
    ensures SpaceRun(s, b) == 1
  {
    assert !IsSpace(s[b + 1]);
  }

  /** The size match from the positions where its two numbers start. */
  lemma SizeAfterValue(s: string, a: nat, b: nat, e: nat, columns: nat, rows: nat)
    requires b == a + DigitRun(s, a) && e == b + SpaceRun(s, b) && e > b
    requires NumberFrom(s, a) == Some(columns) && NumberFrom(s, e) == Some(rows)
    ensures SizeAfter(s, a) == Some(ImageSize(columns, rows))
  {
  }

  /** The digits `d` found at `i`, followed by the end or a non-digit, are
      matched whole and read as their value. */
  lemma NumberFromOf(s: string, i: nat, d: string)
    requires |d| > 0 && AllDigits(d)
    requires i + |d| <= |s| && s[i..i + |d|] == d
    requires i + |d| == |s| || !IsDigit(s[i + |d|])
    ensures DigitRun(s, i) == |d|
    ensures NumberFrom(s, i) == Some(DigitsValue(d))
  {
    DigitRunOf(s, i, d);
    assert NumberAt(s, i, |d|) == DigitsValue(d);
  }

  /** `prefix + "Size=" + c + " " + r + rest` split back into its pieces. */
  lemma SizeHeaderPieces(prefix: string, c: string, r: string, rest: string)
    ensures var s, p := prefix + "Size=" + c + " " + r + rest, |prefix|;
      && |s| == p + 6 + |c| + |r| + |rest|
      && s[..p] == prefix
      && s[p..p + 5] == "Size="
      && s[p + 5..p + 5 + |c|] == c
      && s[p + 5 + |c|] == ' '
      && s[p + 6 + |c|..p + 6 + |c| + |r|] == r
      && s[p + 6 + |c| + |r|..] == rest
  {
  }

  /** A header written as `Size=<c> <r>` for two digit runs, after any text
      without an `S` and before any text not starting with a digit, reads
      back as the runs' values. */
  lemma SizeHeaderOf(prefix: string, c: string, r: string, rest: string)
    requires 'S' !in prefix
    requires |c| > 0 && AllDigits(c) && |r| > 0 && AllDigits(r)
    requires rest == [] || !IsDigit(rest[0])
    ensures ExtractSize(prefix + "Size=" + c + " " + r + rest) == Some(ImageSize(DigitsValue(c), DigitsValue(r)))
  {
    var s, p := prefix + "Size=" + c + " " + r + rest, |prefix|;
    SizeHeaderPieces(prefix, c, r, rest);
    var a := p + 5;
    var f := a + |c| + 1 + |r|;
    assert f < |s| ==> s[f] == rest[0];
    SizeAfterWritten(s, a, a + |c|, a + |c| + 1, f, c, r);
    assert OccursAt(s, "Size=", p);
    forall j | 0 <= j < p ensures SizeAt(s, j).None? {
      assert s[j] == s[..p][j];
      if OccursAt(s, "Size=", j) {
        SizeNeedsS(s, j);
      }
    }
    FirstMatchAt(|s|, j => SizeAt(s, j), p);
  }

  /** `Size=<columns> <rows>` as `str()` writes the numbers, after any text
      without an `S` and before any text not starting with a digit, reads
      back as those two numbers. */
  lemma SizeHeaderRoundTrip(prefix: string, columns: nat, rows: nat, rest: string)
    requires 'S' !in prefix
    requires rest == [] || !IsDigit(rest[0])
    ensures ExtractSize(prefix + "Size=" + NatToString(columns) + " " + NatToString(rows) + rest)
      == Some(ImageSize(columns, rows))
  {
    SizeHeaderOf(prefix, NatToString(columns), NatToString(rows), rest);
    ParseNatToString(columns);
    ParseNatToString(rows);
  }

  /** `<name>=<d>` at `i`, with the `=` at `a` and the digits `d` at
      `b..e` followed by the end or a non-digit, matches there with the
      value of `d`. */
  lemma NamedAtWritten(s: string, name: string, i: nat, a: nat, b: nat, e: nat, d: string)
    requires |d| > 0 && AllDigits(d)
    requires OccursAt(s, name, i)
    requires a == i + |name| && b == a + 1 && e == b + |d| && e <= |s|
    requires s[a] == '=' && s[b..e] == d
    requires e == |s| || !IsDigit(s[e])
    ensures NamedAt(s, name, i) == Some(DigitsValue(d))
  {
    NumberFromOf(s, b, d);
    DigitRunStarts(s, b);
    NoSpaceRun(s, a);
    NoSpaceRun(s, b);
    NamedAtValue(s, name, i, DigitsValue(d));
  }

  /** `NamedAt` when no whitespace surrounds the `=`. */
  lemma NamedAtValue(s: string, name: string, i: nat, v: nat)
    requires OccursAt(s, name, i)
    requires i + |name| < |s| && s[i + |name|] == '='
    requires SpaceRun(s, i + |name|) == 0 && SpaceRun(s, i + |name| + 1) == 0
    requires NumberFrom(s, i + |name| + 1) == Some(v)
    ensures NamedAt(s, name, i) == Some(v)
  {
  }

  /** At `=` or a digit, a whitespace run is empty. */
  lemma NoSpaceRun(s: string, a: nat)
    requires a < |s| && (s[a] == '=' || IsDigit(s[a]))
    ensures SpaceRun(s, a) == 0
  {
    assert !IsSpace(s[a]);
  }

  /** `s` is `"ncols=" + c + "\nnrows=" + r`, cut into its pieces. */
  predicate GridLayout(s: string, c: string, r: string) {
    && |s| == 13 + |c| + |r|
    && s[..6] == "ncols="
    && s[6..6 + |c|] == c
    && s[6 + |c|..13 + |c|] == "\nnrows="
    && s[13 + |c|..] == r
  }

  lemma GridHeaderPieces(c: string, r: string)
    ensures GridLayout("ncols=" + c + "\nnrows=" + r, c, r)
  {
  }

  /** Which characters the grid header holds where. */
  lemma GridLetters(s: string, c: string, r: string)
    requires GridLayout(s, c, r) && AllDigits(c) && AllDigits(r)
    ensures forall j | 0 <= j < |s| :: s[j] != 'S' && (s[j] == 'n' ==> j == 0 || j == 7 + |c|)
    ensures s[1] == 'c'
  {
    forall j | 0 <= j < |s| ensures s[j] != 'S' && (s[j] == 'n' ==> j == 0 || j == 7 + |c|) {
      if j < 6 {
        assert s[j] == s[..6][j];
      } else if j < 6 + |c| {
        assert s[j] == s[6..6 + |c|][j - 6];
      } else if j < 13 + |c| {
        assert s[j] == s[6 + |c|..13 + |c|][j - 6 - |c|];
      } else {
        assert s[j] == s[13 + |c|..][j - 13 - |c|];
      }
    }
    assert s[1] == s[..6][1];
  }

  /** Where a pattern occurs, the string starts there with the pattern's
      first two characters. */
  lemma OccursAtHead(s: string, pat: string, j: nat)
    requires |pat| >= 2
    ensures OccursAt(s, pat, j) ==> j + 1 < |s| && s[j] == pat[0] && s[j + 1] == pat[1]
  {
    if OccursAt(s, pat, j) {
      assert s[j..j + |pat|][0] == s[j] && s[j..j + |pat|][1] == s[j + 1];
    }
  }

  /** A string without an `S` has no size match. */
  lemma NoSizeMatch(s: string)
    requires forall j | 0 <= j < |s| :: s[j] != 'S'
    ensures SizeMatch(s).None?
  {
    forall j | 0 <= j <= |s| ensures SizeAt(s, j).None? {
      if OccursAt(s, "Size=", j) {
        SizeNeedsS(s, j);
      }
    }
    assert Search(|s|, j => SizeAt(s, j), 0).None?;
  }

  /** The fixed characters of the grid header that the matches rely on. */
  lemma GridMarks(s: string, c: string, r: string)
    requires GridLayout(s, c, r)
    ensures OccursAt(s, "ncols", 0) && s[5] == '=' && s[6 + |c|] == '\n'
    ensures OccursAt(s, "nrows", 7 + |c|) && s[12 + |c|] == '='
  {
    var t := s[6 + |c|..13 + |c|];
    assert s[..5] == s[..6][..5];
    assert s[5] == s[..6][5];
    assert s[6 + |c|] == t[0];
    assert s[12 + |c|] == t[6];
    var u := s[7 + |c|..12 + |c|];
    forall k | 0 <= k < 5 ensures u[k] == "nrows"[k] {
      assert u[k] == t[k + 1];
    }
    assert u == "nrows";
  }

  lemma GridColumns(s: string, c: string, r: string)
    requires GridLayout(s, c, r) && |c| > 0 && AllDigits(c)
    ensures NamedMatch(s, "ncols") == Some(DigitsValue(c))
  {
    GridMarks(s, c, r);
    assert s[6 + |c|] == '\n';
    NamedAtWritten(s, "ncols", 0, 5, 6, 6 + |c|, c);
    NamedMatchAt(s, "ncols", 0);
  }

  lemma GridRows(s: string, c: string, r: string)
    requires GridLayout(s, c, r) && |c| > 0 && AllDigits(c) && |r| > 0 && AllDigits(r)
    ensures NamedMatch(s, "nrows") == Some(DigitsValue(r))
  {
    var m := 7 + |c|;
    GridMarks(s, c, r);
    assert s[13 + |c|..|s|] == r;
    NamedAtWritten(s, "nrows", m, 12 + |c|, 13 + |c|, |s|, r);
    GridNoEarlierRows(s, c, r);
    NamedMatchAt(s, "nrows", m);
  }

  /** `nrows` occurs nowhere before its line. */
  lemma GridNoEarlierRows(s: string, c: string, r: string)
    requires GridLayout(s, c, r) && AllDigits(c) && AllDigits(r)
    ensures forall j | 0 <= j < 7 + |c| :: NamedAt(s, "nrows", j).None?
  {
    GridLetters(s, c, r);
    forall j | 0 <= j < 7 + |c| ensures NamedAt(s, "nrows", j).None? {
      OccursAtHead(s, "nrows", j);
    }
  }

  /** A header giving the size only as `ncols=<c>` and `nrows=<r>` lines
      reads back as the values of the two digit runs. */
  lemma GridHeaderOf(c: string, r: string)
    requires |c| > 0 && AllDigits(c) && |r| > 0 && AllDigits(r)
    ensures ExtractSize("ncols=" + c + "\nnrows=" + r) == Some(ImageSize(DigitsValue(c), DigitsValue(r)))
  {
    var s := "ncols=" + c + "\nnrows=" + r;
    GridHeaderPieces(c, r);
    GridLetters(s, c, r);
    NoSizeMatch(s);
    GridColumns(s, c, r);
    GridRows(s, c, r);
  }

  /** `ncols=<columns>` and `nrows=<rows>` as `str()` writes the numbers
      read back as those two numbers. */
  lemma GridHeaderRoundTrip(columns: nat, rows: nat)
    ensures ExtractSize("ncols=" + NatToString(columns) + "\nnrows=" + NatToString(rows))
      == Some(ImageSize(columns, rows))
  {
    GridHeaderOf(NatToString(columns), NatToString(rows));
    ParseNatToString(columns);
    ParseNatToString(rows);
  }

  // ---------------------------------------------------------------------
  // get_band_mode_dict, is_thermal_band

  /** `get_band_mode_dict(simulation_path)`: the band table of `phase.xml`,
      or no entry at all when it cannot be read. */
  function GetBandModeDict(phase: PhaseFile): map<int, int> {
    match GetSpectralIntervals(phase)
    case None => map[]
    case Some(modes) => modes
  }

  /** `is_thermal_band(band_num, band_modes)`: spectral mode 2. */
  predicate IsThermalBand(band: int, modes: map<int, int>) {
    band in modes && modes[band] == 2
  }

  /** Without a band table every band is treated as a reflectance band. */
  lemma NoIntervalsNoThermal(phase: PhaseFile, band: int)
    requires GetSpectralIntervals(phase).None?
    ensures !IsThermalBand(band, GetBandModeDict(phase))
  {
  }

  /** A band is thermal when its last complete `SpectralIntervalsProperties`
      element gives mode 2, and reflectance when it gives any other mode. */
  lemma ThermalFromLastElement(phase: PhaseFile, j: nat)
    requires GetSpectralIntervals(phase).Some?
    requires var bands := phase.spectralIntervals.value;
      && j < |bands| && Complete(bands[j])
      && forall k | j < k < |bands| && Complete(bands[k]) ::
           ParseInt(bands[k].bandNumber.value) != ParseInt(bands[j].bandNumber.value)
    ensures var e := phase.spectralIntervals.value[j];
      && ParseInt(e.bandNumber.value).Some? && ParseInt(e.spectralDartMode.value).Some?
      && (IsThermalBand(ParseInt(e.bandNumber.value).value, GetBandModeDict(phase))
          <==> ParseInt(e.spectralDartMode.value).value == 2)
  {
    BandTableLastWins(phase.spectralIntervals.value, j);
  }

  // ---------------------------------------------------------------------
  // the dart.sequenceur.properties loop

  /** `float()`: the number a string spells, if any. */
  type FloatParser = string -> Option<real>

  /** The number of line pairs the loop visits: `k` runs over the odd
      numbers below `len(lines) - 1`. */
  function PairCount(lines: seq<string>): nat {
    if |lines| == 0 then 0 else (|lines| - 1) / 2
  }

  /** `s.split(sep)[-1]` */
  function LastPiece(s: string, sep: string): string
    requires |sep| > 0
  {
    var pieces := Split(s, sep);
    pieces[|pieces| - 1]
  }

  /** The entry of pair `t` (lines `2t + 1` and `2t + 2`): the last dotted
      segment of the text between the first and second `:` of the name
      line, with `t` appended, and `float()` of the text between the first
      and second `:` of the value line. No entry past the last line, when a line has no `:`, or when
      `float()` fails. */
  function PairEntry(lines: seq<string>, parse: FloatParser, t: nat): Option<(string, real)> {
    if !(2 * t + 2 < |lines|) then None
    else
      var name, value := lines[2 * t + 1], lines[2 * t + 2];
      if !(':' in name && ':' in value) then None
      else
        var nameParts, valueParts := Split(name, ":"), Split(value, ":");
        if !(|nameParts| > 1 && |valueParts| > 1) then None
        else
          match parse(valueParts[1])
          case None => None
          case Some(v) => Some((LastPiece(nameParts[1], ".") + NatToString(t), v))
  }

  /** `[f(0), ..., f(n - 1)]` */
  function Tabulate<T>(n: nat, f: nat -> T): (xs: seq<T>)
    ensures |xs| == n
    ensures forall t | 0 <= t < n :: xs[t] == f(t)
  {
    seq(n, t requires 0 <= t => f(t))
  }

  /** A dictionary filled by assigning the present entries in order. */
  function Updates<K, V>(entries: seq<Option<(K, V)>>): map<K, V>
    decreases |entries|
  {
    if |entries| == 0 then map[]
    else
      var last := entries[|entries| - 1];
      var before := Updates(entries[..|entries| - 1]);
      if last.None? then before else before[last.value.0 := last.value.1]
  }

  /** A key is present exactly when some entry assigns it. */
  lemma {:induction false} UpdatesKeys<K, V>(entries: seq<Option<(K, V)>>, key: K)
    ensures key in Updates(entries) <==>
      exists t | 0 <= t < |entries| :: entries[t].Some? && entries[t].value.0 == key
    decreases |entries|
  {
    if |entries| > 0 {
      var init := entries[..|entries| - 1];
      UpdatesKeys(init, key);
      if exists t | 0 <= t < |init| :: init[t].Some? && init[t].value.0 == key {
        var t :| 0 <= t < |init| && init[t].Some? && init[t].value.0 == key;
        assert entries[t] == init[t];
      }
      if exists t | 0 <= t < |entries| :: entries[t].Some? && entries[t].value.0 == key {
        var t :| 0 <= t < |entries| && entries[t].Some? && entries[t].value.0 == key;
        if t < |init| {
          assert init[t] == entries[t];
        }
      }
    }
  }

  /** A key holds the value of the last entry that assigns it. */
  lemma {:induction false} UpdatesLastWins<K, V>(entries: seq<Option<(K, V)>>, t: nat)
    requires t < |entries| && entries[t].Some?
    requires forall u | t < u < |entries| :: entries[u].None? || entries[u].value.0 != entries[t].value.0
    ensures entries[t].value.0 in Updates(entries)
    ensures Updates(entries)[entries[t].value.0] == entries[t].value.1
    decreases |entries|
  {
    var init := entries[..|entries| - 1];
    if t < |init| {
      assert init[t] == entries[t];
      forall u | t < u < |init| ensures init[u].None? || init[u].value.0 != init[t].value.0 {
        assert init[u] == entries[u];
      }
      UpdatesLastWins(init, t);
    }
  }

  /** A key is present exactly when one of the `n` entries assigns it. */
  lemma TabulatedKeys<K, V>(n: nat, f: nat -> Option<(K, V)>, key: K)
    ensures key in Updates(Tabulate(n, f)) <==> exists t | 0 <= t < n :: f(t).Some? && f(t).value.0 == key
  {
    var es := Tabulate(n, f);
    UpdatesKeys(es, key);
    if key in Updates(es) {
      var t :| 0 <= t < |es| && es[t].Some? && es[t].value.0 == key;
      assert f(t) == es[t];
    }
  }

  /** The value of the last of the `n` entries that assigns a key is the
      one stored under it. */
  lemma TabulatedLastWins<K, V>(n: nat, f: nat -> Option<(K, V)>, t: nat)
    requires t < n && f(t).Some?
    requires forall u | t < u < n :: f(u).None? || f(u).value.0 != f(t).value.0
    ensures f(t).value.0 in Updates(Tabulate(n, f))
    ensures Updates(Tabulate(n, f))[f(t).value.0] == f(t).value.1
  {
    var es := Tabulate(n, f);
    forall u | t < u < |es| ensures es[u].None? || es[u].value.0 != es[t].value.0 {
      assert es[u] == f(u);
    }
    UpdatesLastWins(es, t);
  }

  /** The entries of the pairs, by pair number. */
  function Entries(lines: seq<string>, parse: FloatParser): nat -> Option<(string, real)> {
    (t: nat) => PairEntry(lines, parse, t)
  }

  /** `props_dict` for the lines of `dart.sequenceur.properties`. */
  function PropsOfLines(lines: seq<string>, parse: FloatParser): map<string, real> {
    Updates(Tabulate(PairCount(lines), Entries(lines, parse)))
  }

  /** `props_dict` for the content of `dart.sequenceur.properties`. */
  function ParseProperties(content: string, parse: FloatParser): map<string, real> {
    PropsOfLines(Split(content, "\n"), parse)
  }

  /** A key of `props_dict` comes from some visited pair. */
  lemma PropsKeys(lines: seq<string>, parse: FloatParser, key: string)
    ensures key in PropsOfLines(lines, parse) <==>
      exists t | 0 <= t < PairCount(lines) :: PairEntry(lines, parse, t).Some? && PairEntry(lines, parse, t).value.0 == key
  {
    var f := Entries(lines, parse);
    TabulatedKeys(PairCount(lines), f, key);
    if key in PropsOfLines(lines, parse) {
      var t :| 0 <= t < PairCount(lines) && f(t).Some? && f(t).value.0 == key;
      assert PairEntry(lines, parse, t) == f(t);
    } else {
      forall t | 0 <= t < PairCount(lines) ensures !(PairEntry(lines, parse, t).Some? && PairEntry(lines, parse, t).value.0 == key) {
        assert PairEntry(lines, parse, t) == f(t);
      }
    }
  }

  /** The value of the pair producing a key, when no later pair produces
      the same key, is the value stored under it. */
  lemma PropsLastWins(lines: seq<string>, parse: FloatParser, t: nat)
    requires t < PairCount(lines) && PairEntry(lines, parse, t).Some?
    requires forall u | t < u < PairCount(lines) ::
      PairEntry(lines, parse, u).None? || PairEntry(lines, parse, u).value.0 != PairEntry(lines, parse, t).value.0
    ensures var e := PairEntry(lines, parse, t).value;
      e.0 in PropsOfLines(lines, parse) && PropsOfLines(lines, parse)[e.0] == e.1
  {
    var f := Entries(lines, parse);
    forall u | t < u < PairCount(lines) ensures f(u).None? || f(u).value.0 != f(t).value.0 {
      assert f(u) == PairEntry(lines, parse, u);
    }
    TabulatedLastWins(PairCount(lines), f, t);
  }

  /** The entry of a pair whose lines read `<label>:<path>` and
      `<label'>:<number>`, with `<path>` the dotted segments of a
      parameter's name: the last segment, numbered by the pair, mapped to
      the number. */
  lemma PairEntryOf(lines: seq<string>, parse: FloatParser, t: nat,
                    nameLabel: string, segments: seq<string>, valueLabel: string, number: string)
    requires t < PairCount(lines)
    requires |segments| > 0 && forall k | 0 <= k < |segments| :: '.' !in segments[k] && ':' !in segments[k]
    requires ':' !in nameLabel && ':' !in valueLabel && ':' !in number
    requires lines[2 * t + 1] == nameLabel + ":" + Join(".", segments)
    requires lines[2 * t + 2] == valueLabel + ":" + number
    requires parse(number).Some?
    ensures PairEntry(lines, parse, t) == Some((segments[|segments| - 1] + NatToString(t), parse(number).value))
  {
    var path := Join(".", segments);
    JoinAvoids(':', ".", segments);
    ColonSplit(nameLabel, path);
    ColonSplit(valueLabel, number);
    SplitJoin('.', segments);
  }

  /** A line `<label>:<rest>` without another `:` splits into those two. */
  lemma ColonSplit(head: string, rest: string)
    requires ':' !in head && ':' !in rest
    ensures ':' in head + ":" + rest
    ensures Split(head + ":" + rest, ":") == [head, rest]
  {
    assert (head + ":" + rest)[|head|] == ':';
    SplitJoin(':', [head, rest]);
    assert Join(":", [head, rest]) == head + ":" + rest by {
      assert Join(":", [rest]) == rest;
    }
  }

  // ---------------------------------------------------------------------
  // the band loop of save_tiff_and_props

  /** An `ITERX/IMAGES_DART` folder: its listing, the text of the first
      `ima*mpr` header in it (decoded, undecodable bytes dropped), and the
      number of doubles in the first `ima*mp#` image. */
  datatype ImageFolder = ImageFolder(files: seq<string>, header: string, pixels: nat)

  /** An entry of a sequence's `output` folder, with its `BRF` and `Tapp`
      image folders where they exist. */
  datatype BandDir = BandDir(name: string, isDir: bool, brf: Option<ImageFolder>, tapp: Option<ImageFolder>)

  datatype FolderType = BRF | Tapp

  /** A band that made it into `bands_arr`: its image size and the factor
      its values were multiplied by before the cast to 16 bits. */
  datatype LoadedBand = LoadedBand(name: string, size: ImageSize, scale: nat)

  predicate IsBandDir(d: BandDir) {
    StartsWith(d.name, "BAND") && d.isDir
  }

  function DirNames(ds: seq<BandDir>): (names: seq<string>)
    ensures |names| == |ds|
    ensures forall k | 0 <= k < |ds| :: names[k] == ds[k].name
  {
    seq(|ds|, k requires 0 <= k < |ds| => ds[k].name)
  }

  /** `sorted(available_bands)` */
  function SortedBandNames(listing: seq<BandDir>): (names: seq<string>)
    ensures Sorted(names)
    ensures multiset(names) == multiset(DirNames(Filter(listing, IsBandDir)))
  {
    Sort(DirNames(Filter(listing, IsBandDir)))
  }

  /** The first entry of the listing with a given name. */
  function FindDir(listing: seq<BandDir>, name: string): (r: Option<BandDir>)
    ensures r.Some? ==> r.value in listing && r.value.name == name
    ensures r.None? ==> forall k | 0 <= k < |listing| :: listing[k].name != name
  {
    if |listing| == 0 then None
    else if listing[0].name == name then Some(listing[0])
    else FindDir(listing[1..], name)
  }

  /** `int(band.replace("BAND", ""))`; `None` where `int()` raises. */
  function BandNumber(name: string): Option<int> {
    ParseInt(ReplaceAll(name, "BAND", ""))
  }

  function Folder(d: BandDir, t: FolderType): Option<ImageFolder> {
    if t == BRF then d.brf else d.tapp
  }

  /** The folder read: `Tapp` for a thermal band and `BRF` otherwise, the
      other one when that is missing, none when both are. */
  function ChooseFolder(d: BandDir, thermal: bool): (r: Option<FolderType>)
    ensures r.Some? ==> Folder(d, r.value).Some?
    ensures r.None? <==> d.brf.None? && d.tapp.None?
    ensures r.Some? && r.value != (if thermal then Tapp else BRF) ==>
      Folder(d, if thermal then Tapp else BRF).None?
  {
    var preferred := if thermal then Tapp else BRF;
    var other := if thermal then BRF else Tapp;
    if Folder(d, preferred).Some? then Some(preferred)
    else if Folder(d, other).Some? then Some(other)
    else None
  }

  /** The factor applied before the cast to 16 bits: temperatures are kept
      in hundredths, reflectances in ten-thousandths. */
  function ScaleFactor(thermal: bool, folder: FolderType): nat {
    if thermal || folder == Tapp then 100 else 10000
  }

  predicate IsImaFile(n: string) { StartsWith(n, "ima") }
  predicate IsHeaderFile(n: string) { EndsWith(n, "mpr") }
  predicate IsImageFile(n: string) { EndsWith(n, "mp#") }

  /** The size of the image an image folder yields, if the header and image
      steps all succeed: some `ima` file, an `mpr` header among them whose
      size can be extracted, an `mp#` image among them, at least one double
      in the image (else `np.min` raises) and as many doubles as the
      header's columns times rows (else `np.reshape` raises). */
  function LoadImage(f: ImageFolder): (r: Option<ImageSize>)
    ensures r.Some? <==>
      var ima := Filter(f.files, IsImaFile);
      && |Filter(ima, IsHeaderFile)| > 0 && |Filter(ima, IsImageFile)| > 0
      && ExtractSize(f.header).Some?
      && 0 < f.pixels == ExtractSize(f.header).value.columns * ExtractSize(f.header).value.rows
    ensures r.Some? ==> ExtractSize(f.header) == r
  {
    var ima := Filter(f.files, IsImaFile);
    if |ima| == 0 then None
    else if |Filter(ima, IsHeaderFile)| == 0 then None
    else
      match ExtractSize(f.header)
      case None => None
      case Some(size) =>
        if |Filter(ima, IsImageFile)| == 0 then None
        else if f.pixels == 0 then None
        else if f.pixels != size.columns * size.rows then None
        else Some(size)
  }

  /** One pass of the band loop for a band whose number parsed. */
  function LoadBand(d: BandDir, number: int, modes: map<int, int>): (r: Option<LoadedBand>)
    ensures r.Some? ==> r.value.name == d.name
    ensures r.Some? ==> r.value.scale == 100 || r.value.scale == 10000
  {
    var thermal := IsThermalBand(number, modes);
    match ChooseFolder(d, thermal)
    case None => None
    case Some(folder) =>
      match LoadImage(Folder(d, folder).value)
      case None => None
      case Some(size) => Some(LoadedBand(d.name, size, ScaleFactor(thermal, folder)))
  }

  /** The band named `name` of the listing, as the loop loads it. */
  function LoadNamed(listing: seq<BandDir>, modes: map<int, int>, name: string): Option<LoadedBand> {
    match FindDir(listing, name)
    case None => None
    case Some(d) =>
      match BandNumber(name)
      case None => None
      case Some(number) => LoadBand(d, number, modes)
  }

  /** A band loaded by name comes from the first entry with that name. */
  lemma LoadNamedFrom(listing: seq<BandDir>, modes: map<int, int>, name: string) returns (d: BandDir)
    requires LoadNamed(listing, modes, name).Some?
    ensures d in listing && d.name == name && BandNumber(name).Some?
    ensures LoadBand(d, BandNumber(name).value, modes) == LoadNamed(listing, modes, name)
    ensures LoadNamed(listing, modes, name).value.name == name
  {
    d := FindDir(listing, name).value;
  }

  /** The loader of the bands of a listing, by name. */
  function Loader(listing: seq<BandDir>, modes: map<int, int>): string -> Option<LoadedBand> {
    name => LoadNamed(listing, modes, name)
  }

  function NameOf(b: LoadedBand): string {
    b.name
  }

  /** `bands_arr`, with each entry's band, for the sorted band names. */
  function LoadBands(names: seq<string>, listing: seq<BandDir>, modes: map<int, int>): (bands: seq<LoadedBand>)
    ensures |bands| <= |names|
  {
    FilterMap(names, Loader(listing, modes))
  }

  /** The loaded bands are the bands that load, in the order of the names,
      each as it loads. */
  lemma LoadBandsSpec(names: seq<string>, listing: seq<BandDir>, modes: map<int, int>)
    ensures var bands, load := LoadBands(names, listing, modes), Loader(listing, modes);
      && Map(bands, NameOf) == Filter(names, Succeeds(load))
      && forall k | 0 <= k < |bands| :: load(bands[k].name) == Some(bands[k])
  {
    var load := Loader(listing, modes);
    forall k | 0 <= k < |names| ensures load(names[k]).Some? ==> NameOf(load(names[k]).value) == names[k] {
      if load(names[k]).Some? {
        var d := FindDir(listing, names[k]).value;
        assert load(names[k]) == LoadBand(d, BandNumber(names[k]).value, modes);
      }
    }
    FilterMapSpec(names, load, NameOf);
  }

  /** What the band loop produces: `None` when some band name makes `int()`
      raise, which ends the script; otherwise the bands in `bands_arr`. */
  function BandLoop(listing: seq<BandDir>, modes: map<int, int>): (r: Option<seq<LoadedBand>>)
    ensures r.None? <==> exists k | 0 <= k < |SortedBandNames(listing)| :: BandNumber(SortedBandNames(listing)[k]).None?
  {
    var names := SortedBandNames(listing);
    if exists k | 0 <= k < |names| :: BandNumber(names[k]).None? then None
    else Some(LoadBands(names, Filter(listing, IsBandDir), modes))
  }

  /** A band's scale factor: 100 for a thermal band and for any band read
      from `Tapp`, 10000 for a reflectance band read from `BRF`. A thermal
      band is read from `Tapp` when it has one, a reflectance band from
      `BRF` when it has one. */
  lemma LoadBandScale(d: BandDir, number: int, modes: map<int, int>)
    requires LoadBand(d, number, modes).Some?
    ensures var b, thermal := LoadBand(d, number, modes).value, IsThermalBand(number, modes);
      && (thermal ==> b.scale == 100)
      && (!thermal && d.brf.Some? ==> b.scale == 10000 && LoadImage(d.brf.value) == Some(b.size))
      && (!thermal && d.brf.None? ==> b.scale == 100 && LoadImage(d.tapp.value) == Some(b.size))
      && (thermal && d.tapp.Some? ==> LoadImage(d.tapp.value) == Some(b.size))
      && (thermal && d.tapp.None? ==> LoadImage(d.brf.value) == Some(b.size))
  {
  }

  /** Filtering a sorted list keeps it sorted. */
  lemma {:induction false} FilterSorted(xs: seq<string>, p: string -> bool)
    requires Sorted(xs)
    ensures Sorted(Filter(xs, p))
    decreases |xs|
  {
    if |xs| > 0 {
      SortedTail(xs);
      FilterSorted(xs[1..], p);
      var rest := Filter(xs[1..], p);
      if p(xs[0]) {
        var r := Filter(xs, p);
        assert r == [xs[0]] + rest;
        forall i, j | 0 <= i < j < |r| ensures LexLe(r[i], r[j]) {
          if i == 0 {
            FilterMember(xs[1..], p, j - 1);
            var m :| 0 <= m < |xs[1..]| && xs[1..][m] == rest[j - 1];
            assert xs[m + 1] == r[j];
          } else {
            assert r[i] == rest[i - 1] && r[j] == rest[j - 1];
          }
        }
      }
    }
  }

  /** When no band name makes `int()` raise, the bands in `bands_arr` are
      the sorted `BAND` folders that load, in sorted order. */
  lemma BandLoopOrder(listing: seq<BandDir>, modes: map<int, int>)
    requires BandLoop(listing, modes).Some?
    ensures var bands, names := BandLoop(listing, modes).value, SortedBandNames(listing);
      var load := Loader(Filter(listing, IsBandDir), modes);
      && Map(bands, NameOf) == Filter(names, Succeeds(load))
      && Sorted(Map(bands, NameOf))
      && IsSubsequence(Map(bands, NameOf), names)
  {
    var names := SortedBandNames(listing);
    var available := Filter(listing, IsBandDir);
    LoadBandsSpec(names, available, modes);
    FilterSorted(names, Succeeds(Loader(available, modes)));
    FilterIsSubsequence(names, Succeeds(Loader(available, modes)));
  }

  /** A loaded band comes from a `BAND` folder of the listing with its name. */
  lemma LoadedBandsAreBandDirs(listing: seq<BandDir>, modes: map<int, int>, k: nat)
    requires BandLoop(listing, modes).Some? && k < |BandLoop(listing, modes).value|
    ensures var b := BandLoop(listing, modes).value[k];
      exists d | d in listing :: IsBandDir(d) && d.name == b.name && BandNumber(d.name).Some?
        && LoadBand(d, BandNumber(d.name).value, modes) == Some(b)
  {
    var names := SortedBandNames(listing);
    var available := Filter(listing, IsBandDir);
    var bands := LoadBands(names, available, modes);
    assert BandLoop(listing, modes).value == bands;
    LoadBandsSpec(names, available, modes);
    var b := bands[k];
    assert LoadNamed(available, modes, b.name) == Some(b);
    var d := LoadNamedFrom(available, modes, b.name);
    var i :| 0 <= i < |available| && available[i] == d;
    FilterMember(listing, IsBandDir, i);
  }

  // ---------------------------------------------------------------------
  // band descriptions of the GeoTIFF

  /** The descriptions as written: `band_names[i]` for the `i`-th band of
      `bands_arr`, where `band_names` holds every band tried, including
      those skipped for missing folders or files. */
  function WrittenDescriptions(names: seq<string>, bands: seq<LoadedBand>): seq<string>
    requires |bands| <= |names|
  {
    names[..|bands|]
  }

  /** The descriptions corrected: the name of the band each layer holds. */
  function Descriptions(bands: seq<LoadedBand>): (ds: seq<string>)
    ensures |ds| == |bands|
    ensures forall i | 0 <= i < |bands| :: ds[i] == bands[i].name
  {
    Map(bands, NameOf)
  }

  /** As written, when the first sorted band is skipped and the second one
      loads, the GeoTIFF's first layer holds the second band's data but is
      described with the first band's name. */
  lemma WrittenDescriptionsShift(names: seq<string>, listing: seq<BandDir>, modes: map<int, int>)
    requires |names| >= 2 && names[0] != names[1]
    requires LoadNamed(listing, modes, names[0]).None? && LoadNamed(listing, modes, names[1]).Some?
    ensures var bands := LoadBands(names, listing, modes);
      && |bands| > 0
      && Descriptions(bands)[0] == names[1]
      && WrittenDescriptions(names, bands)[0] == names[0]
  {
    FirstLoadedIsSecond(names, listing, modes);
  }

  lemma FirstLoadedIsSecond(names: seq<string>, listing: seq<BandDir>, modes: map<int, int>)
    requires |names| >= 2
    requires LoadNamed(listing, modes, names[0]).None? && LoadNamed(listing, modes, names[1]).Some?
    ensures |LoadBands(names, listing, modes)| > 0 && LoadBands(names, listing, modes)[0].name == names[1]
  {
    var load := Loader(listing, modes);
    var _ := LoadNamedFrom(listing, modes, names[1]);
    assert load(names[0]) == LoadNamed(listing, modes, names[0]);
    assert load(names[1]) == LoadNamed(listing, modes, names[1]);
    ShiftedFirstName(names, load);
  }

  /** When the first name does not load and the second does, under its own
      name, the first value is the second name's. */
  lemma ShiftedFirstName(names: seq<string>, load: string -> Option<LoadedBand>)
    requires |names| >= 2
    requires load(names[0]).None? && load(names[1]).Some? && load(names[1]).value.name == names[1]
    ensures var bands := FilterMap(names, load);
      |bands| > 0 && bands[0].name == names[1] && Descriptions(bands)[0] == names[1]
  {
    FilterMapSkipsHead(names, load);
  }

  /** A band folder holding neither `BRF` nor `Tapp` images is skipped: for
      instance `BAND0` ahead of a `BAND1` that loads. */
  lemma BandWithoutFoldersSkipped(listing: seq<BandDir>, modes: map<int, int>, name: string)
    requires FindDir(listing, name).Some?
    requires FindDir(listing, name).value.brf.None? && FindDir(listing, name).value.tapp.None?
    ensures LoadNamed(listing, modes, name).None?
  {
  }

  /** Where every band loads, the descriptions as written are right. */
  lemma WrittenDescriptionsWithoutSkips(names: seq<string>, listing: seq<BandDir>, modes: map<int, int>)
    requires forall k | 0 <= k < |names| :: LoadNamed(listing, modes, names[k]).Some?
    ensures var bands := LoadBands(names, listing, modes);
      |bands| == |names| && WrittenDescriptions(names, bands) == Descriptions(bands)
  {
    var load := Loader(listing, modes);
    LoadBandsSpec(names, listing, modes);
    FilterAll(names, Succeeds(load));
  }

  // ---------------------------------------------------------------------
  // the GeoTIFF, one sequence, and save_tiff_and_props

  const OriginX: int := 600000
  const OriginY: int := 3850000
  const PixelSize: real := 2.5
  const Crs: string := "EPSG:32632"

  /** A GeoTIFF as written by `rasterio`: its georeferencing, its size
      (taken from the first band), its layers and their descriptions. */
  datatype GeoTiff = GeoTiff(
    originX: int, originY: int, pixelSize: real, crs: string,
    width: nat, height: nat, layers: seq<LoadedBand>, descriptions: seq<string>)

  datatype TifOutcome =
    | NoTif          // no band folder, or no band loaded
    | TifFailed      // `rasterio` raised: a band of another size
    | TifWritten(tif: GeoTiff)

  /** The `rasterio.open(...)` block for the bands of `bands_arr`, given
      `band_names`: layer `i` is described as `band_names[i]`, whether or
      not that band is the one the layer holds. */
  function MakeTiff(bandNames: seq<string>, bands: seq<LoadedBand>): (r: TifOutcome)
    requires 0 < |bands| <= |bandNames|
    ensures r.TifWritten? <==> forall i | 0 <= i < |bands| :: bands[i].size == bands[0].size
    ensures r.TifWritten? ==>
      && r.tif.layers == bands
      && r.tif.width == bands[0].size.columns && r.tif.height == bands[0].size.rows
      && |r.tif.descriptions| == |bands|
      && (forall i | 0 <= i < |bands| :: r.tif.descriptions[i] == bandNames[i])
      && r.tif.originX == 600000 && r.tif.originY == 3850000 && r.tif.pixelSize == 2.5
      && r.tif.crs == "EPSG:32632"
    ensures !r.NoTif?
  {
    var size := bands[0].size;
    if forall i | 0 <= i < |bands| :: bands[i].size == size then
      TifWritten(GeoTiff(OriginX, OriginY, PixelSize, Crs, size.columns, size.rows, bands,
        WrittenDescriptions(bandNames, bands)))
    else TifFailed
  }

  /** The GeoTIFF with `band_names` appended only for the bands that load,
      so that each layer is described by the band it holds. */
  function CorrectedMakeTiff(bands: seq<LoadedBand>): (r: TifOutcome)
    requires |bands| > 0
    ensures r.TifWritten? <==> forall i | 0 <= i < |bands| :: bands[i].size == bands[0].size
    ensures r.TifWritten? ==>
      && r.tif.layers == bands
      && |r.tif.descriptions| == |bands|
      && (forall i | 0 <= i < |bands| :: r.tif.descriptions[i] == r.tif.layers[i].name)
  {
    MakeTiff(Descriptions(bands), bands)
  }

  /** `dart.sequenceur.properties`: absent, unreadable, or its content. */
  datatype PropertiesFile = NoProperties | Unreadable | Properties(content: string)

  /** An entry of the `sequence` folder: the properties file and the
      listing of its `output` folder. */
  datatype SequenceDir = SequenceDir(name: string, isDir: bool, properties: PropertiesFile, output: seq<BandDir>)

  datatype SequenceOutcome =
    | Skipped                                          // no readable properties file
    | Crashed(props: map<string, real>)                // `int()` raised on a band name
    | Processed(props: map<string, real>, tif: TifOutcome)

  /** One pass of the sequence loop: `props.json`, then the GeoTIFF. */
  function ProcessSequence(d: SequenceDir, modes: map<int, int>, parse: FloatParser): SequenceOutcome {
    match d.properties
    case NoProperties => Skipped
    case Unreadable => Skipped
    case Properties(content) =>
      var props := ParseProperties(content, parse);
      if |Filter(d.output, IsBandDir)| == 0 then Processed(props, NoTif)
      else
        match BandLoop(d.output, modes)
        case None => Crashed(props)
        case Some(bands) =>
          if |bands| == 0 then Processed(props, NoTif)
          else Processed(props, MakeTiff(SortedBandNames(d.output), bands))
  }

  /** The same pass with the GeoTIFF written by `CorrectedMakeTiff`. */
  function CorrectedProcessSequence(d: SequenceDir, modes: map<int, int>, parse: FloatParser): (r: SequenceOutcome)
    ensures r.Processed? <==> ProcessSequence(d, modes, parse).Processed?
    ensures r.Processed? ==> r.props == ProcessSequence(d, modes, parse).props
    ensures r.Processed? && r.tif.TifWritten? ==>
      && ProcessSequence(d, modes, parse).tif.TifWritten?
      && r.tif.tif.layers == ProcessSequence(d, modes, parse).tif.tif.layers
  {
    match ProcessSequence(d, modes, parse)
    case Processed(props, TifWritten(tif)) => Processed(props, CorrectedMakeTiff(tif.layers))
    case other => other
  }

  /** What each sequence yields: props are written for every sequence with a
      readable properties file, and a GeoTIFF is attempted exactly when some
      band loads. */
  lemma ProcessSequenceSpec(d: SequenceDir, modes: map<int, int>, parse: FloatParser)
    ensures var r := ProcessSequence(d, modes, parse);
      && (r.Skipped? <==> !d.properties.Properties?)
      && (r.Crashed? <==> d.properties.Properties? && BandLoop(d.output, modes).None?)
      && (!r.Skipped? ==> r.props == ParseProperties(d.properties.content, parse))
      && (r.Processed? && !r.tif.NoTif? <==>
            d.properties.Properties? && BandLoop(d.output, modes).Some? && |BandLoop(d.output, modes).value| > 0)
      && (r.Processed? && r.tif.TifWritten? ==>
            r.tif.tif.layers == BandLoop(d.output, modes).value
            && r.tif.tif.descriptions == WrittenDescriptions(SortedBandNames(d.output), r.tif.tif.layers))
  {
    if d.properties.Properties? && |Filter(d.output, IsBandDir)| == 0 {
      assert SortedBandNames(d.output) == [];
      assert LoadBands([], Filter(d.output, IsBandDir), modes) == [];
    }
  }

  /** A loop applying `f` to each element in turn and leaving after the
      first result that satisfies `stop`. */
  function RunUntil<T, U>(xs: seq<T>, f: T -> U, stop: U -> bool): seq<U>
    decreases |xs|
  {
    if |xs| == 0 then []
    else
      var first := f(xs[0]);
      if stop(first) then [first] else [first] + RunUntil(xs[1..], f, stop)
  }

  /** The results are `f` of the elements in order; only the last can stop
      the loop, and the loop ends early only at such a result. */
  lemma {:induction false} RunUntilSpec<T, U>(xs: seq<T>, f: T -> U, stop: U -> bool)
    ensures var r := RunUntil(xs, f, stop);
      && |r| <= |xs|
      && (forall k | 0 <= k < |r| :: r[k] == f(xs[k]))
      && (forall k | 0 <= k < |r| - 1 :: !stop(r[k]))
      && (|r| < |xs| ==> |r| > 0 && stop(r[|r| - 1]))
    decreases |xs|
  {
    if |xs| > 0 {
      RunUntilSpec(xs[1..], f, stop);
      var r := RunUntil(xs, f, stop);
      if !stop(f(xs[0])) {
        var rest := RunUntil(xs[1..], f, stop);
        assert r == [f(xs[0])] + rest;
        forall k | 0 < k < |r| ensures r[k] == f(xs[k]) {
          assert r[k] == rest[k - 1] && xs[1..][k - 1] == xs[k];
        }
      }
    }
  }

  function SequenceStep(modes: map<int, int>, parse: FloatParser): SequenceDir -> SequenceOutcome {
    d => ProcessSequence(d, modes, parse)
  }

  function IsCrash(o: SequenceOutcome): bool {
    o.Crashed?
  }

  /** The sequence loop: every directory in turn, until `int()` raises. */
  function ProcessAll(dirs: seq<SequenceDir>, modes: map<int, int>, parse: FloatParser): seq<SequenceOutcome> {
    RunUntil(dirs, SequenceStep(modes, parse), IsCrash)
  }

  /** The outcomes are those of the directories in listing order; only the
      last can be a crash, and the loop stops short only at one. */
  lemma ProcessAllSpec(dirs: seq<SequenceDir>, modes: map<int, int>, parse: FloatParser)
    ensures var r := ProcessAll(dirs, modes, parse);
      && |r| <= |dirs|
      && (forall k | 0 <= k < |r| :: r[k] == ProcessSequence(dirs[k], modes, parse))
      && (forall k | 0 <= k < |r| - 1 :: !r[k].Crashed?)
      && (|r| < |dirs| ==> |r| > 0 && r[|r| - 1].Crashed?)
  {
    var step := SequenceStep(modes, parse);
    RunUntilSpec(dirs, step, IsCrash);
    var r := ProcessAll(dirs, modes, parse);
    forall k | 0 <= k < |r| ensures r[k] == ProcessSequence(dirs[k], modes, parse) {
      assert r[k] == step(dirs[k]);
    }
  }

  datatype RunOutcome =
    | NoSequenceFolder                       // `simulation_path/sequence` is missing
    | Ran(outcomes: seq<SequenceOutcome>)    // one per sequence directory visited

  predicate IsSequenceDir(d: SequenceDir) {
    d.isDir
  }

  /** `save_tiff_and_props()` on the listing of the `sequence` folder (if it
      exists), `phase.xml`, and `float()`. */
  function SaveTiffAndProps(sequence: Option<seq<SequenceDir>>, phase: PhaseFile, parse: FloatParser): RunOutcome {
    match sequence
    case None => NoSequenceFolder
    case Some(listing) => Ran(ProcessAll(Filter(listing, IsSequenceDir), GetBandModeDict(phase), parse))
  }

  /** Corrected, the `i`-th description of a written GeoTIFF names the
      `BAND` folder whose image is its `i`-th layer. */
  lemma TiffDescriptionsNameTheirBands(d: SequenceDir, modes: map<int, int>, parse: FloatParser, i: nat)
    requires CorrectedProcessSequence(d, modes, parse).Processed?
    requires CorrectedProcessSequence(d, modes, parse).tif.TifWritten?
    requires i < |CorrectedProcessSequence(d, modes, parse).tif.tif.layers|
    ensures var tif := CorrectedProcessSequence(d, modes, parse).tif.tif;
      exists b | b in d.output :: IsBandDir(b) && b.name == tif.descriptions[i] && BandNumber(b.name).Some?
        && LoadBand(b, BandNumber(b.name).value, modes) == Some(tif.layers[i])
  {
    ProcessSequenceSpec(d, modes, parse);
    LoadedBandsAreBandDirs(d.output, modes, i);
  }

  /** As written, in a sequence whose first sorted band is skipped and
      whose second loads, the GeoTIFF's first layer holds the second band
      and is described with the first band's name. */
  lemma ProcessedDescriptionsShift(d: SequenceDir, modes: map<int, int>, parse: FloatParser)
    requires var names := SortedBandNames(d.output);
      && |names| >= 2 && names[0] != names[1]
      && LoadNamed(Filter(d.output, IsBandDir), modes, names[0]).None?
      && LoadNamed(Filter(d.output, IsBandDir), modes, names[1]).Some?
    requires ProcessSequence(d, modes, parse).Processed? && ProcessSequence(d, modes, parse).tif.TifWritten?
    ensures var names, tif := SortedBandNames(d.output), ProcessSequence(d, modes, parse).tif.tif;
      && tif.layers[0].name == names[1]
      && tif.descriptions[0] == names[0]
      && tif.descriptions[0] != tif.layers[0].name
  {
    var names := SortedBandNames(d.output);
    ProcessSequenceSpec(d, modes, parse);
    WrittenDescriptionsShift(names, Filter(d.output, IsBandDir), modes);
  }
}
