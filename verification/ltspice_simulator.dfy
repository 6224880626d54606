/** The LTspice simulator wrapper: where the executable is looked for, the
    table of command-line switches, and the argument lists for a batch run and
    for netlist generation. Running the process is a parameter of the model. */
module LtspiceSimulator {
  import opened Wrappers
  import opened PyStr
  import PurePath

  /** A configured simulator: the command prefix that starts it, the process name
      used to find it again, and the extra switches appended to every run. */
  datatype Simulator = Simulator(spiceExe: seq<string>, processName: string, cmdlineSwitches: seq<string>)

  /** The exceptions the wrapper raises. */
  datatype SimError =
    | FileNotFoundError(msg: string)
    | RuntimeError(msg: string)
    | ValueError  // pathlib's empty-name error; its message quotes the path's repr, which is not modelled

  const ExeNotFoundMessage: string :=
    "A suitable exe file was not found. Please locate the spice simulator "
    + "executable and pass it to the SimCommander object by using the 'simulator'"
    + "parameter."

  const NetlistFailedMessage: string := "Failed to create netlist"

  /** The placeholder the switch expansion substitutes with the caller's path. */
  const PathPlaceholder: string := "{path}"

  /** The known switches and the tokens each expands to. The commented-out `run`
      entry, the only one that held the placeholder, is not in the table. */
  function LtspiceArgs(): map<string, seq<string>>
  {
    map[
      "alt" := ["-alt"],
      "ascii" := ["-ascii"],
      "big" := ["-big"],
      "encrypt" := ["-encrypt"],
      "fastaccess" := ["-FastAccess"],
      "FixUpSchematicFonts" := ["-FixUpSchematicFonts"],
      "FixUpSymbolFonts" := ["-FixUpSymbolFonts"],
      "ini" := ["- ini", "<path>"],
      "I" := ["-I<path>"],
      "max" := ["-max"],
      "netlist" := ["-netlist"],
      "norm" := ["-norm"],
      "PCBnetlist" := ["-PCBnetlist"],
      "SOI" := ["-SOI"],
      "sync" := ["-sync"],
      "uninstall" := ["-uninstall"]
    ]
  }

  /** No token of the table holds the placeholder, so substitution never fires. */
  lemma TableHasNoPlaceholder(switch: string)
    requires switch in LtspiceArgs()
    ensures forall i :: 0 <= i < |LtspiceArgs()[switch]| ==> !Contains(LtspiceArgs()[switch][i], PathPlaceholder)
  {
    var tokens := LtspiceArgs()[switch];
    forall i | 0 <= i < |tokens|
      ensures !Contains(tokens[i], PathPlaceholder)
    {
      assert '{' !in tokens[i];
      MissingFirstCharNotContained(tokens[i], PathPlaceholder);
    }
  }

  /** Each token with the placeholder replaced by `path`. */
  function ExpandSwitch(tokens: seq<string>, path: string): (r: seq<string>)
    ensures |r| == |tokens|
    ensures forall i :: 0 <= i < |tokens| && !Contains(tokens[i], PathPlaceholder) ==> r[i] == tokens[i]
    ensures (forall i :: 0 <= i < |tokens| ==> !Contains(tokens[i], PathPlaceholder)) ==> r == tokens
  {
    seq(|tokens|, i requires 0 <= i < |tokens| => Replace(tokens[i], PathPlaceholder, path))
  }

  /** `add_command_line_switch` for a switch of the table: its tokens are appended
      after the switches already present, unchanged whatever `path` is. */
  function AddCommandLineSwitch(sim: Simulator, switch: string, path: string): (r: Simulator)
    requires switch in LtspiceArgs()
    ensures r.cmdlineSwitches == sim.cmdlineSwitches + LtspiceArgs()[switch]
    ensures |r.cmdlineSwitches| == |sim.cmdlineSwitches| + (if switch == "ini" then 2 else 1)
    ensures r.spiceExe == sim.spiceExe && r.processName == sim.processName
  {
    TableHasNoPlaceholder(switch);
    sim.(cmdlineSwitches := sim.cmdlineSwitches + ExpandSwitch(LtspiceArgs()[switch], path))
  }

  /** The `ini` switch appends its two literal tokens, not the given path. */
  lemma IniAppendsLiteralTokens(sim: Simulator, path: string)
    ensures AddCommandLineSwitch(sim, "ini", path).cmdlineSwitches == sim.cmdlineSwitches + ["- ini", "<path>"]
  {
  }

  /** The argument list of a batch run: the executable, `-Run` except on macOS,
      `-b` followed by the netlist, then the accumulated switches. */
  function RunCommand(sim: Simulator, platform: string, netlistFile: string): (cmd: seq<string>)
    ensures |cmd| == |sim.spiceExe| + (if platform == "darwin" then 2 else 3) + |sim.cmdlineSwitches|
    ensures cmd[..|sim.spiceExe|] == sim.spiceExe
    ensures cmd[|cmd| - |sim.cmdlineSwitches|..] == sim.cmdlineSwitches
    ensures cmd[|cmd| - |sim.cmdlineSwitches| - 2] == "-b" && cmd[|cmd| - |sim.cmdlineSwitches| - 1] == netlistFile
    ensures platform != "darwin" ==> cmd[|sim.spiceExe|] == "-Run"
  {
    if platform == "darwin" then sim.spiceExe + ["-b"] + [netlistFile] + sim.cmdlineSwitches
    else sim.spiceExe + ["-Run"] + ["-b"] + [netlistFile] + sim.cmdlineSwitches
  }

  /** The argument list that converts a schematic to a netlist: the executable,
      `-netlist` and the circuit path, with none of the accumulated switches. */
  function NetlistCommand(sim: Simulator, circuitFile: string): (cmd: seq<string>)
    ensures |cmd| == |sim.spiceExe| + 2 && cmd[..|sim.spiceExe|] == sim.spiceExe
    ensures cmd[|sim.spiceExe|] == "-netlist" && cmd[|sim.spiceExe| + 1] == circuitFile
  {
    sim.spiceExe + ["-netlist"] + [circuitFile]
  }

  /** `create_netlist`: run the netlist command, then hand back the circuit path
      with suffix `.net` when the command returned 0 and that file exists.
      `runProcess` gives the exit code of a command and `fileExists` the
      file-system test. On macOS an exception object is built but not raised,
      so `platform` does not influence the outcome. `circuitFile` is the posix
      form of a normalised path (no trailing `/`, no empty or `.` components);
      the contract says nothing about strings outside that domain. */
  function CreateNetlist(sim: Simulator, platform: string, circuitFile: string,
                         runProcess: seq<string> -> int, fileExists: string -> bool): (r: Result<string, SimError>)
    ensures r.Success? <==>
      && runProcess(NetlistCommand(sim, circuitFile)) == 0
      && PurePath.Name(circuitFile) != ""
      && fileExists(PurePath.WithSuffix(circuitFile, ".net").value)
    ensures r.Success? ==>
      && r.value == PurePath.WithSuffix(circuitFile, ".net").value
      && PurePath.Dir(r.value) == PurePath.Dir(circuitFile)
      && PurePath.Stem(PurePath.Name(r.value)) == PurePath.Stem(PurePath.Name(circuitFile))
      && PurePath.Suffix(PurePath.Name(r.value)) == ".net"
    ensures r.Failure? ==>
      r.error == (if runProcess(NetlistCommand(sim, circuitFile)) == 0 && PurePath.Name(circuitFile) == ""
                  then ValueError else RuntimeError(NetlistFailedMessage))
  {
    var error := runProcess(NetlistCommand(sim, circuitFile));
    assert PurePath.ValidSuffix(".net") && '.' !in ".net"[1..];
    if error == 0 then
      match PurePath.WithSuffix(circuitFile, ".net")
      case None => Failure(ValueError)
      case Some(netlist) =>
        if fileExists(netlist) then Success(netlist) else Failure(RuntimeError(NetlistFailedMessage))
    else Failure(RuntimeError(NetlistFailedMessage))
  }

  /** The platform is not consulted when creating a netlist. */
  lemma CreateNetlistIgnoresPlatform(sim: Simulator, p1: string, p2: string, circuitFile: string,
                                     runProcess: seq<string> -> int, fileExists: string -> bool)
    ensures CreateNetlist(sim, p1, circuitFile, runProcess, fileExists)
         == CreateNetlist(sim, p2, circuitFile, runProcess, fileExists)
  {
  }

  /** The install locations tried outside Linux and macOS, in order of preference.
      `userExe` is what the platform's `expanduser` makes of the per-user location
      `~\AppData\Local\Programs\ADI\LTspice\LTspice.exe`: on Windows the home directory
      replaces `~`, elsewhere the string may come back unchanged. */
  function WindowsCandidates(userExe: string): seq<string>
  {
    [ userExe,
      "C:\\Program Files\\ADI\\LTspice\\LTspice.exe",
      "C:\\Program Files\\LTC\\LTspiceXVII\\XVIIx64.exe",
      "C:\\Program Files (x86)\\LTC\\LTspiceIV\\scad3.exe" ]
  }

  /** The index of the first candidate, from `i` on, that exists. */
  function FirstExisting(candidates: seq<string>, fileExists: string -> bool, i: nat): (r: Option<nat>)
    requires i <= |candidates|
    ensures r.None? <==> forall j :: i <= j < |candidates| ==> !fileExists(candidates[j])
    ensures r.Some? ==>
      && i <= r.value < |candidates|
      && fileExists(candidates[r.value])
      && forall j :: i <= j < r.value ==> !fileExists(candidates[j])
    decreases |candidates| - i
  {
    if i == |candidates| then None
    else if fileExists(candidates[i]) then Some(i)
    else FirstExisting(candidates, fileExists, i + 1)
  }

  /** `get_default_simulator`: on Linux the Windows executable under wine (in
      `LTSPICEFOLDER` when that is set, else in the default wine prefix), on macOS
      the application bundle, elsewhere the first Windows location that exists.
      `home` is the expansion of `~` used on Linux and `userExe` the expanded
      per-user location of the other platforms. The new simulator starts without switches. */
  function GetDefaultSimulator(platform: string, ltspiceFolder: Option<string>, home: string, userExe: string,
                               fileExists: string -> bool): (r: Result<Simulator, SimError>)
    ensures r.Success? ==> r.value.cmdlineSwitches == []
    ensures platform == "linux" ==>
      && r.Success? && r.value.processName == "XVIIx64.exe"
      && |r.value.spiceExe| == 2 && r.value.spiceExe[0] == "wine"
      && (ltspiceFolder.Some? ==> r.value.spiceExe[1] == ltspiceFolder.value + "/XVIIx64.exe")
      && (ltspiceFolder.None? ==> r.value.spiceExe[1] == home + "/.wine/drive_c/Program Files/LTC/LTspiceXVII/XVIIx64.exe")
    ensures platform == "darwin" ==>
      r == Success(Simulator(["/Applications/LTspice.app/Contents/MacOS/LTspice"], "XVIIx64", []))
    ensures platform != "linux" && platform != "darwin" ==>
      && (r.Failure? <==> forall j :: 0 <= j < 4 ==> !fileExists(WindowsCandidates(userExe)[j]))
      && (r.Failure? ==> r.error == FileNotFoundError(ExeNotFoundMessage))
      && (r.Success? ==>
            && r.value.processName == "XVIIx64.exe"
            && exists k :: 0 <= k < 4 && r.value.spiceExe == [WindowsCandidates(userExe)[k]]
                 && fileExists(WindowsCandidates(userExe)[k])
                 && forall j :: 0 <= j < k ==> !fileExists(WindowsCandidates(userExe)[j]))
  {
    if platform == "linux" then
      var exe := match ltspiceFolder
        case Some(folder) => ["wine", folder + "/XVIIx64.exe"]
        case None => ["wine", home + "/.wine/drive_c/Program Files/LTC/LTspiceXVII/XVIIx64.exe"];
      Success(Simulator(exe, "XVIIx64.exe", []))
    else if platform == "darwin" then
      Success(Simulator(["/Applications/LTspice.app/Contents/MacOS/LTspice"], "XVIIx64", []))
    else
      match FirstExisting(WindowsCandidates(userExe), fileExists, 0)
      case None => Failure(FileNotFoundError(ExeNotFoundMessage))
      case Some(k) => Success(Simulator([WindowsCandidates(userExe)[k]], "XVIIx64.exe", []))
  }
}
