/** `preprocess_soils.py`: which soil folders carry one reflectance file
    per simulated band, and the band table read from `phase.xml`. */
module Soils {
  import opened Optional
  import opened Text
  import opened Sequences

  // ---------------------------------------------------------------------
  // check_soil_band_files

  /** One entry of a directory listing; `files` is the listing of the entry
      itself when it is a directory. */
  datatype DirEntry = DirEntry(name: string, isDir: bool, files: seq<string>)

  function Names(entries: seq<DirEntry>): (names: seq<string>)
    ensures |names| == |entries|
    ensures forall k | 0 <= k < |entries| :: names[k] == entries[k].name
  {
    seq(|entries|, k requires 0 <= k < |entries| => entries[k].name)
  }

  /** `len([f for f in files if f.endswith('.txt')])` */
  function TxtCount(files: seq<string>): nat {
    |Filter(files, (f: string) => EndsWith(f, ".txt"))|
  }

  /** A soil folder with exactly one `.txt` file per band. */
  predicate HasBandFiles(e: DirEntry, numBands: nat) {
    e.isDir && TxtCount(e.files) == numBands
  }

  /** Python truthiness of the band table. */
  predicate HasBands(spectralInfo: Option<map<int, int>>) {
    spectralInfo.Some? && |spectralInfo.value| > 0
  }

  /** `check_soil_band_files(soil_factor_path, spectral_info)` on the
      listing of `soil_factor_path`. */
  function CheckSoilBandFiles(listing: seq<DirEntry>, spectralInfo: Option<map<int, int>>): (valid: seq<string>)
    ensures !HasBands(spectralInfo) ==> valid == []
    ensures |valid| <= |listing|
  {
    if !HasBands(spectralInfo) then []
    else
      var numBands := |spectralInfo.value|;
      Names(Filter(listing, (e: DirEntry) => HasBandFiles(e, numBands)))
  }

  /** The names of a subsequence of entries are a subsequence of their
      names. */
  lemma {:induction false} NamesOfSubsequence(a: seq<DirEntry>, b: seq<DirEntry>)
    requires IsSubsequence(a, b)
    ensures IsSubsequence(Names(a), Names(b))
    decreases |b|
  {
    if |a| > 0 {
      assert Names(a)[1..] == Names(a[1..]);
      assert Names(b)[1..] == Names(b[1..]);
      if a[0] == b[0] && IsSubsequence(a[1..], b[1..]) {
        NamesOfSubsequence(a[1..], b[1..]);
      } else {
        NamesOfSubsequence(a, b[1..]);
      }
    }
  }

  /** The valid soils keep the listing order, and a listed folder is kept
      exactly when its `.txt` count equals the number of bands. */
  lemma CheckSoilBandFilesSpec(listing: seq<DirEntry>, spectralInfo: Option<map<int, int>>)
    requires HasBands(spectralInfo)
    ensures var valid, n := CheckSoilBandFiles(listing, spectralInfo), |spectralInfo.value|;
      && IsSubsequence(valid, Names(listing))
      && (forall e | e in listing && HasBandFiles(e, n) :: e.name in valid)
      && (forall name | name in valid :: exists e | e in listing :: e.name == name && HasBandFiles(e, n))
  {
    var n := |spectralInfo.value|;
    var p := (e: DirEntry) => HasBandFiles(e, n);
    var kept := Filter(listing, p);
    FilterIsSubsequence(listing, p);
    NamesOfSubsequence(kept, listing);
    forall e | e in listing && HasBandFiles(e, n) ensures e.name in Names(kept) {
      KeptName(listing, p, e);
    }
    forall name | name in Names(kept) ensures exists e | e in listing :: e.name == name && HasBandFiles(e, n) {
      var e := KeptSource(listing, p, name);
    }
  }

  /** An entry the filter keeps has its name among the kept names. */
  lemma KeptName(listing: seq<DirEntry>, p: DirEntry -> bool, e: DirEntry)
    requires e in listing && p(e)
    ensures e.name in Names(Filter(listing, p))
  {
    var kept := Filter(listing, p);
    FilterKeeps(listing, p, e);
    var k :| 0 <= k < |kept| && kept[k] == e;
    assert Names(kept)[k] == e.name;
  }

  /** A kept name is the name of a listed entry the filter keeps. */
  lemma KeptSource(listing: seq<DirEntry>, p: DirEntry -> bool, name: string) returns (e: DirEntry)
    requires name in Names(Filter(listing, p))
    ensures e in listing && e.name == name && p(e)
  {
    var kept := Filter(listing, p);
    var k :| 0 <= k < |kept| && Names(kept)[k] == name;
    FilterMember(listing, p, k);
    e := kept[k];
  }

  // ---------------------------------------------------------------------
  // get_spectral_intervals

  /** A `SpectralIntervalsProperties` element: its two attributes, each
      possibly absent. */
  datatype BandElement = BandElement(bandNumber: Option<string>, spectralDartMode: Option<string>)

  /** `phase.xml` as the script sees it: missing, not well-formed, or parsed
      with (or without) a `SpectralIntervals` element and its band
      elements in document order. */
  datatype PhaseFile =
    | Missing
    | Unparsable
    | Parsed(spectralIntervals: Option<seq<BandElement>>)

  predicate Complete(b: BandElement) {
    b.bandNumber.Some? && b.spectralDartMode.Some?
  }

  /** The loop over the band elements: complete elements in order, a
      later band number overwriting an earlier one; `None` when `int()`
      raises. */
  function BandTable(bands: seq<BandElement>): Option<map<int, int>>
    decreases |bands|
  {
    if bands == [] then Some(map[])
    else
      var last := bands[|bands| - 1];
      match BandTable(bands[..|bands| - 1])
      case None => None
      case Some(m) =>
        if !Complete(last) then Some(m)
        else
          match (ParseInt(last.bandNumber.value), ParseInt(last.spectralDartMode.value))
          case (Some(b), Some(mode)) => Some(m[b := mode])
          case _ => None
  }

  /** Every band of the table is the parsed band number of a complete
      element. */
  lemma {:induction false} BandTableKeys(bands: seq<BandElement>)
    requires BandTable(bands).Some?
    ensures forall b | b in BandTable(bands).value ::
      exists k | 0 <= k < |bands| :: Complete(bands[k]) && ParseInt(bands[k].bandNumber.value) == Some(b)
    decreases |bands|
  {
    if bands != [] {
      var last := |bands| - 1;
      var init := bands[..last];
      BandTableKeys(init);
      forall b | b in BandTable(bands).value
        ensures exists k | 0 <= k < |bands| :: Complete(bands[k]) && ParseInt(bands[k].bandNumber.value) == Some(b)
      {
        if b in BandTable(init).value {
          var k :| 0 <= k < |init| && Complete(init[k]) && ParseInt(init[k].bandNumber.value) == Some(b);
          assert bands[k] == init[k];
        } else {
          assert Complete(bands[last]) && ParseInt(bands[last].bandNumber.value) == Some(b);
        }
      }
    }
  }

  /** The table maps each band to the mode of its last complete element. */
  lemma {:induction false} BandTableLastWins(bands: seq<BandElement>, j: nat)
    requires BandTable(bands).Some? && j < |bands| && Complete(bands[j])
    requires forall k | j < k < |bands| && Complete(bands[k]) ::
      ParseInt(bands[k].bandNumber.value) != ParseInt(bands[j].bandNumber.value)
    ensures ParseInt(bands[j].bandNumber.value).Some? && ParseInt(bands[j].spectralDartMode.value).Some?
    ensures var b := ParseInt(bands[j].bandNumber.value).value;
      b in BandTable(bands).value && BandTable(bands).value[b] == ParseInt(bands[j].spectralDartMode.value).value
    decreases |bands|
  {
    var init := bands[..|bands| - 1];
    if j < |bands| - 1 {
      assert init[j] == bands[j];
      forall k | j < k < |init| && Complete(init[k])
        ensures ParseInt(init[k].bandNumber.value) != ParseInt(init[j].bandNumber.value)
      {
        assert init[k] == bands[k];
      }
      BandTableLastWins(init, j);
    }
  }

  /** `get_spectral_intervals(simulation_path)`: `None` for a missing or
      malformed file, a missing `SpectralIntervals`, an attribute `int()`
      rejects, or no complete band element. */
  function GetSpectralIntervals(phase: PhaseFile): (r: Option<map<int, int>>)
    ensures r.Some? ==> |r.value| > 0
    ensures r.Some? <==>
      && phase.Parsed? && phase.spectralIntervals.Some?
      && BandTable(phase.spectralIntervals.value).Some?
      && |BandTable(phase.spectralIntervals.value).value| > 0
    ensures r.Some? ==> r == BandTable(phase.spectralIntervals.value)
  {
    match phase
    case Missing => None
    case Unparsable => None
    case Parsed(None) => None
    case Parsed(Some(bands)) =>
      match BandTable(bands)
      case None => None
      case Some(m) => if |m| == 0 then None else Some(m)
  }

  /** A band table exists only when some element carries both attributes. */
  lemma SpectralIntervalsNeedCompleteBand(phase: PhaseFile)
    requires GetSpectralIntervals(phase).Some?
    ensures exists k | 0 <= k < |phase.spectralIntervals.value| :: Complete(phase.spectralIntervals.value[k])
  {
    NonEmptyTableNeedsCompleteBand(phase.spectralIntervals.value);
  }

  lemma {:induction false} NonEmptyTableNeedsCompleteBand(bands: seq<BandElement>)
    requires BandTable(bands).Some? && |BandTable(bands).value| > 0
    ensures exists k | 0 <= k < |bands| :: Complete(bands[k])
    decreases |bands|
  {
    var last := |bands| - 1;
    if !Complete(bands[last]) {
      var init := bands[..last];
      assert BandTable(bands) == BandTable(init);
      NonEmptyTableNeedsCompleteBand(init);
      var k :| 0 <= k < |init| && Complete(init[k]);
      assert bands[k] == init[k];
    }
  }

  // ---------------------------------------------------------------------
  // check_soil_factor_path

  /** What `os.path.exists` and `os.path.isdir` report for a path. */
  datatype PathKind = Absent | NotADirectory | Directory

  /** `config.json` as the script sees it: unreadable or incomplete, or
      loaded with the kind of its `soil_factor_path`, the listing of that
      path and the simulation's `phase.xml`. */
  datatype SoilConfig = ConfigError | Loaded(soilFactorPath: PathKind, listing: seq<DirEntry>, phase: PhaseFile)

  /** `check_soil_factor_path(config_path)`: the band check of lines
      147-156 is commented out, so any existing directory passes, whatever
      its folders hold. */
  function CheckSoilFactorPath(config: SoilConfig): (ok: bool)
    ensures ok <==> config.Loaded? && config.soilFactorPath == Directory
  {
    match config
    case ConfigError => false
    case Loaded(Absent, _, _) => false
    case Loaded(NotADirectory, _, _) => false
    case Loaded(Directory, _, _) => true
  }

  /** The check the docstring describes, with the disabled band test in
      force: the path must also hold a soil folder with one file per band. */
  function CheckSoilFactorPathWithBands(config: SoilConfig): bool {
    match config
    case Loaded(Directory, listing, phase) =>
      var info := GetSpectralIntervals(phase);
      info.Some? && CheckSoilBandFiles(listing, info) != []
    case _ => false
  }

  /** The check as written accepts every path the full check accepts, and
      also a directory without any valid soil folder. */
  lemma SoilFactorPathCheckWeaker(config: SoilConfig, phase: PhaseFile)
    ensures CheckSoilFactorPathWithBands(config) ==> CheckSoilFactorPath(config)
    ensures CheckSoilFactorPath(Loaded(Directory, [], phase))
    ensures !CheckSoilFactorPathWithBands(Loaded(Directory, [], phase))
  {
  }
}
