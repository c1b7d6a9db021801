/** `run_dart_sequence.py` on a POSIX system: the DART installation paths
    derived from the simulation path, the steps of a simulation run, the
    relative path handed to `dart-sequence.sh`, and the answers given to the
    child's console output. */
module DartRunner {
  import opened Optional
  import opened Text
  import opened Sequences

  // ---------------------------------------------------------------------
  // get_dart_paths

  /** `.replace('/', os.sep).replace('\\', os.sep)` with `os.sep == '/'` */
  function NormalizeSlashes(s: string): (r: string)
    ensures |r| == |s|
    ensures forall k | 0 <= k < |s| :: (r[k] == '/') == (s[k] == '/' || s[k] == '\\')
    ensures forall k | 0 <= k < |s| :: s[k] != '\\' ==> r[k] == s[k]
    ensures '\\' !in r
  {
    seq(|s|, k requires 0 <= k < |s| => if s[k] == '\\' then '/' else s[k])
  }

  /** `s.lstrip(c)` */
  function StripStart(s: string, c: char): (r: string)
    ensures |r| <= |s| && r == s[|s| - |r|..]
    ensures forall k | 0 <= k < |s| - |r| :: s[k] == c
    ensures r == [] || r[0] != c
    decreases |s|
  {
    if |s| > 0 && s[0] == c then StripStart(s[1..], c) else s
  }

  /** `s.rstrip(c)` */
  function StripEnd(s: string, c: char): (r: string)
    ensures |r| <= |s| && r == s[..|r|]
    ensures forall k | |r| <= k < |s| :: s[k] == c
    ensures r == [] || r[|r| - 1] != c
    decreases |s|
  {
    if |s| > 0 && s[|s| - 1] == c then StripEnd(s[..|s| - 1], c) else s
  }

  /** `s.strip(os.sep)` */
  function StripSeparators(s: string): (r: string)
    ensures |r| <= |s|
    ensures r == [] || (r[0] != '/' && r[|r| - 1] != '/')
  {
    StripEnd(StripStart(s, '/'), '/')
  }

  /** `strip` keeps a slice of its argument. */
  lemma StripAvoids(s: string, c: char)
    requires c !in s
    ensures c !in StripSeparators(s)
  {
    var t := StripStart(s, '/');
    assert c !in t;
  }

  /** Non-empty components without either slash. */
  predicate PlainParts(ps: seq<string>) {
    forall k | 0 <= k < |ps| :: ps[k] != [] && '/' !in ps[k] && '\\' !in ps[k]
  }

  /** The non-empty components of the path, after both
      slash kinds have become the separator. */
  function PathParts(path: string): (parts: seq<string>)
    ensures PlainParts(parts)
  {
    var pieces := Split(StripSeparators(NormalizeSlashes(path)), "/");
    var nonEmpty := (p: string) => p != [];
    StripAvoids(NormalizeSlashes(path), '\\');
    SplitAvoids(StripSeparators(NormalizeSlashes(path)), "/", '\\');
    forall k | 0 <= k < |Filter(pieces, nonEmpty)|
      ensures '/' !in Filter(pieces, nonEmpty)[k] && '\\' !in Filter(pieces, nonEmpty)[k]
    {
      var p := Filter(pieces, nonEmpty)[k];
      FilterMember(pieces, nonEmpty, k);
      if '/' in p {
        ContainsChar(p, '/');
      }
    }
    Filter(pieces, nonEmpty)
  }

  /** `os.sep + os.sep.join(parts)` */
  function Rooted(parts: seq<string>): string {
    "/" + Join("/", parts)
  }

  /** `posixpath.join(a, b)` */
  function PathJoin(a: string, b: string): (r: string)
    ensures EndsWith(r, b)
    ensures !StartsWith(b, "/") ==> StartsWith(r, a)
  {
    if StartsWith(b, "/") then b
    else if a == [] || EndsWith(a, "/") then a + b
    else
      assert (a + "/" + b)[..|a|] == a;
      a + "/" + b
  }

  /** The last index whose element satisfies `p`: what the loop of lines
      42-46 leaves in `dart_index` or `user_data_index`. */
  function LastIndex(xs: seq<string>, p: string -> bool): (r: Option<nat>)
    ensures r.Some? ==> r.value < |xs| && p(xs[r.value])
    decreases |xs|
  {
    if xs == [] then None
    else if p(xs[|xs| - 1]) then Some(|xs| - 1)
    else LastIndex(xs[..|xs| - 1], p)
  }

  /** No element after the found one satisfies `p`, and none at all when
      nothing is found. */
  lemma {:induction false} LastIndexIsLast(xs: seq<string>, p: string -> bool)
    ensures var r := LastIndex(xs, p);
      && (r.Some? ==> forall j | r.value < j < |xs| :: !p(xs[j]))
      && (r.None? ==> forall j | 0 <= j < |xs| :: !p(xs[j]))
    decreases |xs|
  {
    if xs != [] && !p(xs[|xs| - 1]) {
      var init := xs[..|xs| - 1];
      LastIndexIsLast(init, p);
      assert forall j | 0 <= j < |init| :: init[j] == xs[j];
    }
  }

  /** `part.upper() == 'DART'` */
  predicate IsDartDir(part: string) {
    Upper(part) == "DART"
  }

  /** The `user_data` branch of the component scan:
      `part.lower() == 'user_data'` for a part that is not a DART
      directory. */
  predicate IsUserDataDir(part: string) {
    !IsDartDir(part) && Lower(part) == "user_data"
  }

  /** The components of the fallback `/Users/LENOVO/DART`. */
  const DefaultHomeParts: seq<string> := ["Users", "LENOVO", "DART"]

  /** DART_HOME's components: up to the last DART one, or the fallback. */
  function HomeParts(parts: seq<string>): (hp: seq<string>)
    requires PlainParts(parts)
    ensures |hp| > 0 && PlainParts(hp) && IsDartDir(hp[|hp| - 1])
  {
    match LastIndex(parts, IsDartDir)
    case None =>
      DefaultHomePartsPlain();
      DefaultHomeParts
    case Some(i) =>
      assert parts[..i + 1][i] == parts[i];
      parts[..i + 1]
  }

  lemma DefaultHomePartsPlain()
    ensures PlainParts(DefaultHomeParts) && IsDartDir(DefaultHomeParts[2])
  {
    assert DefaultHomeParts[0] == "Users" && DefaultHomeParts[1] == "LENOVO" && DefaultHomeParts[2] == "DART";
    assert Upper("DART") == "DART";
  }

  datatype DartPaths = DartPaths(home: string, local: string, tools: string)

  /** The DART home, local and user-data paths the component scan derives. */
  function DartPathsOf(parts: seq<string>): (r: DartPaths)
    requires PlainParts(parts)
    ensures StartsWith(r.home, "/") && StartsWith(r.local, "/")
    ensures r.tools == r.home + "/" + "tools/linux"
    ensures LastIndex(parts, IsUserDataDir).None? ==> r.local == r.home + "/" + "user_data"
  {
    var home := Rooted(HomeParts(parts));
    RootedBelow(HomeParts(parts), "user_data");
    RootedBelow(HomeParts(parts), "tools/linux");
    var local := match LastIndex(parts, IsUserDataDir)
      case None => PathJoin(home, "user_data")
      case Some(u) => Rooted(parts[..u + 1]);
    assert StartsWith(local, "/") by {
      assert local[..1] == "/";
    }
    assert StartsWith(home, "/") by {
      assert home[..1] == "/";
    }
    DartPaths(home, local, PathJoin(home, "tools/linux"))
  }

  /** `get_dart_paths(simulation_path)` on the POSIX branch. */
  function GetDartPaths(simulationPath: string): (r: DartPaths)
    ensures StartsWith(r.home, "/") && StartsWith(r.local, "/")
    ensures r.tools == r.home + "/" + "tools/linux"
    ensures LastIndex(PathParts(simulationPath), IsUserDataDir).None? ==> r.local == r.home + "/" + "user_data"
  {
    DartPathsOf(PathParts(simulationPath))
  }

  lemma NormalizeWithoutBackslash(s: string)
    requires '\\' !in s
    ensures NormalizeSlashes(s) == s
  {
    assert forall k | 0 <= k < |s| :: NormalizeSlashes(s)[k] == s[k];
  }

  /** `strip` leaves a string that neither starts nor ends with the
      separator unchanged, and removes a single leading one. */
  lemma StripSeparatorsOf(s: string)
    requires |s| > 0 && s[0] != '/' && s[|s| - 1] != '/'
    ensures StripSeparators(s) == s
    ensures StripSeparators("/" + s) == s
  {
    assert ("/" + s)[1..] == s;
  }

  /** The join of plain components neither starts nor ends with the
      separator. */
  lemma JoinOfPlainParts(ps: seq<string>)
    requires |ps| > 0 && PlainParts(ps)
    ensures var joined := Join("/", ps);
      joined != [] && joined[0] != '/' && joined[|joined| - 1] != '/'
  {
    var joined := Join("/", ps);
    var first, last := ps[0], ps[|ps| - 1];
    assert first != [] && last != [] && '/' !in first && '/' !in last;
    assert joined[0] == first[0];
    JoinEndsWith("/", ps);
    assert joined[|joined| - 1] == last[|last| - 1];
  }

  /** `os.path.join` below a rooted path adds one separator. */
  lemma RootedBelow(ps: seq<string>, b: string)
    requires |ps| > 0 && PlainParts(ps) && b != [] && b[0] != '/'
    ensures PathJoin(Rooted(ps), b) == Rooted(ps) + "/" + b
  {
    JoinOfPlainParts(ps);
    var a := Rooted(ps);
    assert a[|a| - 1] == Join("/", ps)[|Join("/", ps)| - 1];
    assert a[|a| - 1..] == [a[|a| - 1]];
    assert b[..1] == [b[0]];
  }

  /** A rooted path survives slash normalisation and loses exactly its
      leading separator to `strip`. */
  lemma StripRooted(ps: seq<string>)
    requires |ps| > 0 && PlainParts(ps)
    ensures StripSeparators(NormalizeSlashes(Rooted(ps))) == Join("/", ps)
  {
    JoinAvoids('\\', "/", ps);
    NormalizeWithoutBackslash(Rooted(ps));
    JoinOfPlainParts(ps);
    StripSeparatorsOf(Join("/", ps));
  }

  /** Re-reading a rooted path gives back its components. */
  lemma PathPartsOfRooted(ps: seq<string>)
    requires |ps| > 0 && PlainParts(ps)
    ensures PathParts(Rooted(ps)) == ps
  {
    StripRooted(ps);
    SplitJoin('/', ps);
    FilterAll(ps, (p: string) => p != []);
  }

  /** The last element satisfying `p` in a prefix ending with one is the
      prefix's last. */
  lemma LastIndexOfPrefix(xs: seq<string>, p: string -> bool, i: nat)
    requires i < |xs| && p(xs[i])
    ensures LastIndex(xs[..i + 1], p) == Some(i)
  {
    var r := LastIndex(xs[..i + 1], p);
    LastIndexIsLast(xs[..i + 1], p);
    assert xs[..i + 1][i] == xs[i];
  }

  /** Re-reading DART_HOME gives back the components it was built from. */
  lemma HomePartsOf(parts: seq<string>)
    requires PlainParts(parts)
    ensures PathParts(DartPathsOf(parts).home) == HomeParts(parts)
  {
    PathPartsOfRooted(HomeParts(parts));
  }

  /** DART_HOME's components are those up to and including the last `DART`
      one, or the fallback when there is none. */
  lemma HomePartsSpec(parts: seq<string>)
    requires PlainParts(parts)
    ensures LastIndex(parts, IsDartDir).None? ==> HomeParts(parts) == DefaultHomeParts
    ensures LastIndex(parts, IsDartDir).Some? ==>
      var i := LastIndex(parts, IsDartDir).value;
      HomeParts(parts) == parts[..i + 1] && IsDartDir(parts[i])
      && forall j | i < j < |parts| :: !IsDartDir(parts[j])
  {
    LastIndexIsLast(parts, IsDartDir);
  }

  /** DART_HOME is the components of the simulation path up to and including
      the last `DART` one (in any case), or `/Users/LENOVO/DART`. */
  lemma DartHomeParts(simulationPath: string)
    ensures var parts, home := PathParts(simulationPath), GetDartPaths(simulationPath).home;
      && (LastIndex(parts, IsDartDir).None? ==> PathParts(home) == DefaultHomeParts)
      && (LastIndex(parts, IsDartDir).Some? ==>
            var i := LastIndex(parts, IsDartDir).value;
            PathParts(home) == parts[..i + 1] && IsDartDir(parts[i])
            && forall j | i < j < |parts| :: !IsDartDir(parts[j]))
  {
    HomeOf(PathParts(simulationPath));
  }

  /** DART_HOME's components, from the components of the path. */
  lemma HomeOf(parts: seq<string>)
    requires PlainParts(parts)
    ensures var home := DartPathsOf(parts).home;
      && (LastIndex(parts, IsDartDir).None? ==> PathParts(home) == DefaultHomeParts)
      && (LastIndex(parts, IsDartDir).Some? ==>
            var i := LastIndex(parts, IsDartDir).value;
            PathParts(home) == parts[..i + 1] && IsDartDir(parts[i])
            && forall j | i < j < |parts| :: !IsDartDir(parts[j]))
  {
    HomePartsOf(parts);
    HomePartsSpec(parts);
  }

  lemma RootedSnoc(ps: seq<string>, y: string)
    requires |ps| > 0
    ensures Rooted(ps + [y]) == Rooted(ps) + "/" + y
  {
    JoinSnoc("/", ps, y);
  }

  lemma PlainPartsSnoc(ps: seq<string>)
    requires PlainParts(ps)
    ensures PlainParts(ps + ["user_data"])
  {
    var qs := ps + ["user_data"];
    assert forall k | 0 <= k < |ps| :: qs[k] == ps[k];
    assert qs[|ps|] == "user_data";
  }

  /** Without a `user_data` component, DART_LOCAL is DART_HOME's components
      followed by `user_data`. */
  lemma LocalPartsDefault(parts: seq<string>)
    requires PlainParts(parts) && LastIndex(parts, IsUserDataDir).None?
    ensures var r := DartPathsOf(parts);
      PathParts(r.local) == PathParts(r.home) + ["user_data"]
  {
    var homeParts := HomeParts(parts);
    var r := DartPathsOf(parts);
    HomePartsOf(parts);
    RootedSnoc(homeParts, "user_data");
    assert r.home == Rooted(homeParts);
    PlainPartsSnoc(homeParts);
    PathPartsOfRooted(homeParts + ["user_data"]);
  }

  /** With one, DART_LOCAL is the components up to the last of them. */
  lemma LocalPartsFound(parts: seq<string>)
    requires PlainParts(parts) && LastIndex(parts, IsUserDataDir).Some?
    ensures var u := LastIndex(parts, IsUserDataDir).value;
      PathParts(DartPathsOf(parts).local) == parts[..u + 1]
  {
    var u := LastIndex(parts, IsUserDataDir).value;
    assert DartPathsOf(parts).local == Rooted(parts[..u + 1]);
    assert parts[..u + 1][u] == parts[u];
    PathPartsOfRooted(parts[..u + 1]);
  }

  /** DART_LOCAL's components, from the components of the path. */
  lemma LocalParts(parts: seq<string>)
    requires PlainParts(parts)
    ensures var r := DartPathsOf(parts);
      && (LastIndex(parts, IsUserDataDir).None? ==> PathParts(r.local) == PathParts(r.home) + ["user_data"])
      && (LastIndex(parts, IsUserDataDir).Some? ==>
            var u := LastIndex(parts, IsUserDataDir).value;
            PathParts(r.local) == parts[..u + 1] && Lower(parts[u]) == "user_data")
  {
    if LastIndex(parts, IsUserDataDir).None? {
      LocalPartsDefault(parts);
    } else {
      LocalPartsFound(parts);
    }
  }

  /** DART_LOCAL is the components up to and including the last `user_data`
      one (in any case), or DART_HOME's followed by `user_data`. */
  lemma DartLocalParts(simulationPath: string)
    ensures var parts, r := PathParts(simulationPath), GetDartPaths(simulationPath);
      && (LastIndex(parts, IsUserDataDir).None? ==> PathParts(r.local) == PathParts(r.home) + ["user_data"])
      && (LastIndex(parts, IsUserDataDir).Some? ==>
            var u := LastIndex(parts, IsUserDataDir).value;
            PathParts(r.local) == parts[..u + 1] && Lower(parts[u]) == "user_data")
  {
    LocalParts(PathParts(simulationPath));
  }

  /** The components of DART_HOME lead back to themselves. */
  lemma HomePartsFixedPoint(parts: seq<string>)
    requires PlainParts(parts)
    ensures HomeParts(HomeParts(parts)) == HomeParts(parts)
  {
    var hp := HomeParts(parts);
    LastIndexOfPrefix(hp, IsDartDir, |hp| - 1);
    assert hp[..|hp|] == hp;
  }

  /** Deriving the paths again from DART_HOME gives the same DART_HOME. */
  lemma DartHomeFixedPoint(simulationPath: string)
    ensures var home := GetDartPaths(simulationPath).home;
      GetDartPaths(home).home == home
  {
    var parts := PathParts(simulationPath);
    var home := GetDartPaths(simulationPath).home;
    HomePartsOf(parts);
    HomePartsFixedPoint(parts);
    assert home == Rooted(HomeParts(parts));
    assert GetDartPaths(home).home == Rooted(HomeParts(PathParts(home)));
  }

  // ---------------------------------------------------------------------
  // run_simulation

  /** The DART stages a simulation run can ask for. */
  datatype Step = Full | Directions | Phase | MaketStep | Only

  /** The script each step runs, without its extension. */
  function StepName(step: Step): string {
    match step
    case Full => "dart-full"
    case Directions => "dart-directions"
    case Phase => "dart-phase"
    case MaketStep => "dart-maket"
    case Only => "dart-only"
  }

  /** The steps to run: the single full run when all four stages
      are wanted, otherwise the wanted stages in pipeline order. */
  function SelectSteps(direction: bool, phase: bool, maket: bool, dart: bool): (steps: seq<Step>)
    ensures direction && phase && maket && dart ==> steps == [Full]
    ensures !(direction && phase && maket && dart) ==>
      && IsSubsequence(steps, [Directions, Phase, MaketStep, Only])
      && (Directions in steps <==> direction)
      && (Phase in steps <==> phase)
      && (MaketStep in steps <==> maket)
      && (Only in steps <==> dart)
  {
    if direction && phase && maket && dart then [Full]
    else
      (if direction then [Directions] else [])
      + (if phase then [Phase] else [])
      + (if maket then [MaketStep] else [])
      + (if dart then [Only] else [])
  }

  /** `simulation.split(os.sep + 'simulations' + os.sep, 1)[-1]`: what
      follows the first `/simulations/`, or the whole path. */
  function SimulationArgument(simulation: string): (arg: string)
    ensures IndexOf(simulation, "/simulations/").None? ==> arg == simulation
    ensures IndexOf(simulation, "/simulations/").Some? ==>
      var i := IndexOf(simulation, "/simulations/").value;
      simulation == simulation[..i] + "/simulations/" + arg
  {
    match IndexOf(simulation, "/simulations/")
    case None => simulation
    case Some(i) =>
      assert simulation == simulation[..i] + simulation[i..i + 13] + simulation[i + 13..];
      simulation[i + 13..]
  }

  /** The `bash` command line of one step, given the simulation
      argument. */
  function StepCommand(step: Step, argument: string): seq<string> {
    ["bash", StepName(step) + ".sh", argument]
  }

  /** The loop over the selected steps: `exitCodes[k]` is what step `k`
      returns when it runs. The steps run in order until one returns a
      positive code; the result is the last code, or 0 when no step ran. */
  method ExecuteSteps(steps: seq<Step>, argument: string, exitCodes: seq<int>)
    returns (commands: seq<seq<string>>, code: int)
    requires |exitCodes| == |steps|
    ensures |commands| <= |steps|
    ensures forall k | 0 <= k < |commands| :: commands[k] == StepCommand(steps[k], argument)
    ensures forall k | 0 <= k < |commands| - 1 :: exitCodes[k] <= 0
    ensures |commands| < |steps| ==> |commands| > 0 && exitCodes[|commands| - 1] > 0
    ensures code == (if |commands| == 0 then 0 else exitCodes[|commands| - 1])
  {
    commands := [];
    code := 0;
    var i := 0;
    while i < |steps|
      invariant 0 <= i <= |steps| && |commands| == i
      invariant forall k | 0 <= k < i :: commands[k] == StepCommand(steps[k], argument)
      invariant forall k | 0 <= k < i :: exitCodes[k] <= 0
      invariant code == (if i == 0 then 0 else exitCodes[i - 1])
    {
      commands := commands + [StepCommand(steps[i], argument)];
      code := exitCodes[i];
      if code > 0 {
        return;
      }
      i := i + 1;
    }
  }

  /** `run_simulation(simulation, ..., direction, phase, maket, dart)`. */
  method RunSimulation(
    simulation: string, direction: bool, phase: bool, maket: bool, dart: bool, exitCodes: seq<int>)
    returns (commands: seq<seq<string>>, code: int)
    requires |exitCodes| == |SelectSteps(direction, phase, maket, dart)|
    ensures var steps := SelectSteps(direction, phase, maket, dart);
      && |commands| <= |steps|
      && (forall k | 0 <= k < |commands| :: commands[k] == StepCommand(steps[k], SimulationArgument(simulation)))
      && (forall k | 0 <= k < |commands| - 1 :: exitCodes[k] <= 0)
      && (|commands| < |steps| ==> |commands| > 0 && exitCodes[|commands| - 1] > 0)
      && code == (if |commands| == 0 then 0 else exitCodes[|commands| - 1])
  {
    commands, code := ExecuteSteps(SelectSteps(direction, phase, maket, dart), SimulationArgument(simulation), exitCodes);
  }

  // ---------------------------------------------------------------------
  // run_sequence: relative path

  const SimulationsDir := "simulations/"

  /** `sequencexml.split('simulations/')` must give exactly
      two parts, and the second is the path handed to `dart-sequence.sh`. */
  function RelativeSequencePath(sequenceXml: string): (r: Option<string>)
    ensures r.Some? <==>
      IndexOf(sequenceXml, SimulationsDir).Some?
      && !Contains(sequenceXml[IndexOf(sequenceXml, SimulationsDir).value + |SimulationsDir|..], SimulationsDir)
    ensures r.Some? ==>
      var i := IndexOf(sequenceXml, SimulationsDir).value;
      sequenceXml == sequenceXml[..i] + SimulationsDir + r.value
  {
    var parts := Split(sequenceXml, SimulationsDir);
    match IndexOf(sequenceXml, SimulationsDir)
    case None => None
    case Some(i) =>
      var rest := sequenceXml[i + |SimulationsDir|..];
      assert parts == [sequenceXml[..i]] + Split(rest, SimulationsDir);
      assert sequenceXml == sequenceXml[..i] + sequenceXml[i..i + |SimulationsDir|] + rest;
      if |parts| != 2 then None else Some(parts[1])
  }

  /** A sequence file below a directory path (empty or ending in `/`) that
      holds no `simulations/`, followed by `simulations/` and a path without
      one, yields that path. */
  lemma RelativeSequencePathOf(dir: string, rel: string)
    requires dir == [] || dir[|dir| - 1] == '/'
    requires !Contains(dir, SimulationsDir) && !Contains(rel, SimulationsDir)
    ensures RelativeSequencePath(dir + SimulationsDir + rel) == Some(rel)
  {
    var s := dir + SimulationsDir + rel;
    var n := |SimulationsDir|;
    assert OccursAt(s, SimulationsDir, |dir|) by {
      assert s[|dir|..|dir| + n] == SimulationsDir;
    }
    forall j | 0 <= j < |dir| ensures !OccursAt(s, SimulationsDir, j) {
      if j + n <= |dir| {
        assert s[j..j + n] == dir[j..j + n];
        assert !OccursAt(dir, SimulationsDir, j);
      } else {
        var t := |dir| - 1 - j;
        assert 0 <= t < n - 1;
        assert SimulationsDir[t] != '/';
        assert s[|dir| - 1] == '/';
        assert s[j..j + n][t] == s[|dir| - 1];
      }
    }
    assert IndexOf(s, SimulationsDir) == Some(|dir|);
    assert s[|dir| + n..] == rel;
  }

  // ---------------------------------------------------------------------
  // run_sequence: console protocol

  datatype ConsoleAction = Acknowledge | Terminate

  const PressAnyKey := "Press any key to continue"
  const TerminateBatchJob := "Terminate batch job"
  const TotalProcessingTime := "Total processing time"

  predicate NeedsAcknowledge(line: string) {
    Contains(line, PressAnyKey) || Contains(line, TerminateBatchJob)
  }

  predicate Finished(line: string) {
    Contains(line, TotalProcessingTime)
  }

  /** The reply to one output line, given whether it shows a prompt
      and whether it reports the total time: a newline is written for a
      prompt, then the child is terminated. */
  function Respond(prompt: bool, finished: bool): (actions: seq<ConsoleAction>)
    ensures |actions| <= 2
  {
    (if prompt then [Acknowledge] else []) + (if finished then [Terminate] else [])
  }

  /** A newline is written exactly for a prompt and the child is terminated
      exactly on the finishing line, after any newline. */
  lemma RespondSpec(prompt: bool, finished: bool)
    ensures var actions := Respond(prompt, finished);
      && (Acknowledge in actions <==> prompt)
      && (Terminate in actions <==> finished)
      && (Terminate in actions ==> actions[|actions| - 1] == Terminate)
      && (Acknowledge in actions ==> actions[0] == Acknowledge)
  {
  }

  /** What the reading loop logs and does over the child's output. */
  datatype Transcript = Transcript(logged: seq<string>, actions: seq<ConsoleAction>, terminated: bool)

  /** A reading loop that logs each line, answers the lines on which
      `prompt` holds, and stops after terminating the child on the first line
      on which `finished` holds. */
  function Session(lines: seq<string>, prompt: string -> bool, finished: string -> bool): (t: Transcript)
    decreases |lines|
  {
    if lines == [] then Transcript([], [], false)
    else
      var here := Respond(prompt(lines[0]), finished(lines[0]));
      if finished(lines[0]) then Transcript([lines[0]], here, true)
      else
        var rest := Session(lines[1..], prompt, finished);
        Transcript([lines[0]] + rest.logged, here + rest.actions, rest.terminated)
  }

  /** The loop reading the child's output line by line. */
  function Protocol(lines: seq<string>): Transcript {
    Session(lines, NeedsAcknowledge, Finished)
  }

  /** The session logs a prefix of the lines: all of them, or up to and
      including the first finishing one. */
  lemma {:induction false} SessionLogged(lines: seq<string>, prompt: string -> bool, finished: string -> bool)
    ensures var t := Session(lines, prompt, finished);
      && |t.logged| <= |lines| && t.logged == lines[..|t.logged|]
      && (!t.terminated ==> t.logged == lines)
      && (t.terminated ==> |t.logged| > 0 && finished(t.logged[|t.logged| - 1]))
      && (forall k | 0 <= k < |t.logged| - 1 :: !finished(t.logged[k]))
    decreases |lines|
  {
    if lines != [] && !finished(lines[0]) {
      var rest := Session(lines[1..], prompt, finished);
      SessionLogged(lines[1..], prompt, finished);
      var t := Session(lines, prompt, finished);
      assert t.logged == [lines[0]] + rest.logged;
      assert lines == [lines[0]] + lines[1..];
      forall k | 0 <= k < |t.logged| - 1 ensures !finished(t.logged[k]) {
        if k > 0 {
          assert t.logged[k] == rest.logged[k - 1];
        }
      }
    } else if lines != [] {
      assert lines[..1] == [lines[0]];
    }
  }

  /** The session stops early exactly when some line finishes. */
  lemma {:induction false} SessionTerminated(lines: seq<string>, prompt: string -> bool, finished: string -> bool)
    ensures Session(lines, prompt, finished).terminated <==> exists k | 0 <= k < |lines| :: finished(lines[k])
    decreases |lines|
  {
    if lines != [] && !finished(lines[0]) {
      SessionTerminated(lines[1..], prompt, finished);
      if exists k | 0 <= k < |lines| :: finished(lines[k]) {
        var k :| 0 <= k < |lines| && finished(lines[k]);
        assert lines[1..][k - 1] == lines[k];
      }
      if Session(lines[1..], prompt, finished).terminated {
        var k :| 0 <= k < |lines[1..]| && finished(lines[1..][k]);
        assert finished(lines[k + 1]);
      }
    }
  }

  /** The session terminates the child exactly when it stops early, as its
      last action. */
  lemma {:induction false} SessionActions(lines: seq<string>, prompt: string -> bool, finished: string -> bool)
    ensures var t := Session(lines, prompt, finished);
      && (Terminate in t.actions <==> t.terminated)
      && (t.terminated ==> t.actions[|t.actions| - 1] == Terminate)
    decreases |lines|
  {
    if lines != [] && !finished(lines[0]) {
      SessionActions(lines[1..], prompt, finished);
    }
  }

  /** The loop logs the output up to and including the first line reporting
      the total time, and terminates the child exactly when there is one, as
      its last action. */
  lemma ProtocolStopsAtFirstFinish(lines: seq<string>)
    ensures var t := Protocol(lines);
      && |t.logged| <= |lines| && t.logged == lines[..|t.logged|]
      && (t.terminated <==> exists k | 0 <= k < |lines| :: Finished(lines[k]))
      && (!t.terminated ==> t.logged == lines)
      && (t.terminated ==> |t.logged| > 0 && Finished(t.logged[|t.logged| - 1]))
      && (forall k | 0 <= k < |t.logged| - 1 :: !Finished(t.logged[k]))
      && (Terminate in t.actions <==> t.terminated)
      && (t.terminated ==> t.actions[|t.actions| - 1] == Terminate)
  {
    ProtocolLogged(lines);
    SessionTerminated(lines, NeedsAcknowledge, Finished);
    SessionActions(lines, NeedsAcknowledge, Finished);
  }

  lemma ProtocolLogged(lines: seq<string>)
    ensures var t := Protocol(lines);
      && |t.logged| <= |lines| && t.logged == lines[..|t.logged|]
      && (!t.terminated ==> t.logged == lines)
      && (t.terminated ==> |t.logged| > 0 && Finished(t.logged[|t.logged| - 1]))
      && (forall k | 0 <= k < |t.logged| - 1 :: !Finished(t.logged[k]))
  {
    var t := Protocol(lines);
    SessionLogged(lines, NeedsAcknowledge, Finished);
    if t.terminated {
      var last := t.logged[|t.logged| - 1];
      assert Finished(last) == (Finished)(last);
    }
    forall k | 0 <= k < |t.logged| - 1 ensures !Finished(t.logged[k]) {
      assert Finished(t.logged[k]) == (Finished)(t.logged[k]);
    }
  }

  /** One turn of the session on a line that does not finish it. */
  lemma SessionStep(lines: seq<string>, i: nat, prompt: string -> bool, finished: string -> bool)
    requires i < |lines|
    ensures var here, rest := Respond(prompt(lines[i]), finished(lines[i])), Session(lines[i + 1..], prompt, finished);
      Session(lines[i..], prompt, finished) ==
        if finished(lines[i]) then Transcript([lines[i]], here, true)
        else Transcript([lines[i]] + rest.logged, here + rest.actions, rest.terminated)
  {
    assert lines[i..][0] == lines[i] && lines[i..][1..] == lines[i + 1..];
  }

  /** The reading loop as written, for any prompt and finish tests: log
      each line, answer prompts, and stop after terminating the child. */
  method RunSession(lines: seq<string>, prompt: string -> bool, finished: string -> bool)
    returns (logged: seq<string>, actions: seq<ConsoleAction>, terminated: bool)
    ensures Transcript(logged, actions, terminated) == Session(lines, prompt, finished)
  {
    logged, actions, terminated := [], [], false;
    ghost var whole := Session(lines, prompt, finished);
    var i := 0;
    assert lines[0..] == lines;
    while i < |lines|
      invariant 0 <= i <= |lines| && !terminated
      invariant SessionAt(whole, lines, i, prompt, finished, logged, actions)
    {
      var line := lines[i];
      var here := [];
      if prompt(line) {
        here := here + [Acknowledge];
      }
      if finished(line) {
        here := here + [Terminate];
        assert here == Respond(prompt(line), true);
        SessionFinish(whole, lines, i, prompt, finished, logged, actions);
        logged, actions, terminated := logged + [line], actions + here, true;
        return;
      }
      assert here == Respond(prompt(line), false);
      SessionAdvance(whole, lines, i, prompt, finished, logged, actions);
      logged, actions := logged + [line], actions + here;
      i := i + 1;
    }
    assert lines[i..] == [];
  }

  /** The whole session is what was logged and done so far followed by the
      session over the lines from `i` on. */
  ghost predicate SessionAt(
    whole: Transcript, lines: seq<string>, i: nat, prompt: string -> bool, finished: string -> bool,
    logged: seq<string>, actions: seq<ConsoleAction>)
    requires i <= |lines|
  {
    var rest := Session(lines[i..], prompt, finished);
    whole == Transcript(logged + rest.logged, actions + rest.actions, rest.terminated)
  }

  /** A line that does not finish the session moves it one line on. */
  lemma SessionAdvance(
    whole: Transcript, lines: seq<string>, i: nat, prompt: string -> bool, finished: string -> bool,
    logged: seq<string>, actions: seq<ConsoleAction>)
    requires i < |lines| && !finished(lines[i])
    requires SessionAt(whole, lines, i, prompt, finished, logged, actions)
    ensures SessionAt(whole, lines, i + 1, prompt, finished,
      logged + [lines[i]], actions + Respond(prompt(lines[i]), false))
  {
    SessionStep(lines, i, prompt, finished);
    var here, done := Respond(prompt(lines[i]), false), Session(lines[i + 1..], prompt, finished);
    assert logged + ([lines[i]] + done.logged) == (logged + [lines[i]]) + done.logged;
    assert actions + (here + done.actions) == (actions + here) + done.actions;
  }

  /** A finishing line ends the session. */
  lemma SessionFinish(
    whole: Transcript, lines: seq<string>, i: nat, prompt: string -> bool, finished: string -> bool,
    logged: seq<string>, actions: seq<ConsoleAction>)
    requires i < |lines| && finished(lines[i])
    requires SessionAt(whole, lines, i, prompt, finished, logged, actions)
    ensures whole == Transcript(logged + [lines[i]], actions + Respond(prompt(lines[i]), true), true)
  {
    SessionStep(lines, i, prompt, finished);
  }

  /** The loop reading the child's output line by line, step by step. */
  method ReadOutput(lines: seq<string>) returns (logged: seq<string>, actions: seq<ConsoleAction>, terminated: bool)
    ensures Transcript(logged, actions, terminated) == Protocol(lines)
  {
    logged, actions, terminated := RunSession(lines, NeedsAcknowledge, Finished);
  }

  // ---------------------------------------------------------------------
  // run_sequence

  /** How the child process ends, as `process.wait(timeout=1800)` reports
      it: an exit code, the 30-minute timeout, or an exception while
      starting or talking to it. */
  datatype ChildOutcome = Exited(code: int) | TimedOut | Raised

  datatype SequenceRun = SequenceRun(command: Option<seq<string>>, transcript: Option<Transcript>, code: int)

  /** The `state` argument handed to `dart-sequence.sh`. */
  function SequenceState(start: bool): (state: string)
    ensures state == "-start" || state == "-continue"
    ensures state == "-start" <==> start
  {
    if start then "-start" else "-continue"
  }

  /** `run_sequence(sequencexml, DART_HOME, DART_LOCAL, DART_TOOLS, start)`
      on POSIX, given the child's output and how it ends. */
  function RunSequence(
    sequenceXml: string, tools: string, start: bool, output: seq<string>, outcome: ChildOutcome): (r: SequenceRun)
    ensures r.command.None? <==> RelativeSequencePath(sequenceXml).None?
    ensures r.command.None? ==> r.transcript.None? && r.code == 1
    ensures r.command.Some? ==>
      && |r.command.value| == 4
      && r.command.value[0] == "bash"
      && r.command.value[1] == PathJoin(tools, "dart-sequence.sh")
      && r.command.value[2] == RelativeSequencePath(sequenceXml).value
      && (r.command.value[3] == "-start" <==> start)
    ensures r.command.Some? ==> r.transcript == Some(Protocol(output))
    ensures r.command.Some? ==> r.code == (if outcome.Exited? then outcome.code else 1)
    ensures r.code != 1 ==> outcome.Exited? && r.code == outcome.code
  {
    match RelativeSequencePath(sequenceXml)
    case None => SequenceRun(None, None, 1)
    case Some(rel) =>
      var command := ["bash", PathJoin(tools, "dart-sequence.sh"), rel, SequenceState(start)];
      var code := match outcome
        case Exited(c) => c
        case TimedOut => 1
        case Raised => 1;
      SequenceRun(Some(command), Some(Protocol(output)), code)
  }
}
