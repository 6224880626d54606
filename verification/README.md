# PyLTSpice command-line front end and LTspice argument assembly, in Dafny

This project models two small, fully deterministic parts of PyLTSpice:

- **LTSteps, the command-line tool** (`PyLTSpice/LTSteps.py`). It picks the file to process. That is the
  command-line argument if one is given, otherwise the newest `.txt`/`.log`/`.mout` file of the
  working directory. It derives the tab-separated output name (`.txt`→`.tsv`, `.log`→`.tlog`,
  `.mout`→`.tmout`) and decides which reader gets the file. For a `.mout` file it also decides which
  companion `.log` supplies the step table, with the name the script actually builds (see
  "## Findings"). The script's top-level code is lifted into the pure
  functions `SelectFile`, `OutputName`, `PlanJob` and `Cli`. The working-directory listing is a
  sequence of (name, modification time) entries. The file-existence test is a predicate parameter.
- **The LTspice simulator wrapper** (`PyLTSpice/sim/ltspice_simulator.py`). This covers the fixed
  table of command-line switches and how a switch extends the simulator's switch list. It also
  covers the argument lists of a batch run and of netlist generation, the `.net` path that netlist
  generation hands back, and the search for the executable on each platform. The platform string
  (`sys.platform`), the `LTSPICEFOLDER` variable, the home directory, the expanded per-user install
  location, the file-existence test and the
  subprocess exit code are all parameters.

Modules: `Wrappers` (Option/Result), `PyStr` (the Python string operations used: `endswith`, the
slice `s[:k]`, `rfind`, `in`, `replace`), `PurePath` (pathlib `name`/`suffix`/`stem`/`with_suffix`),
`LTSteps` and `LtspiceSimulator`.

Where the module docstring and the code disagree, the model follows the code:
- A log file is exported to `.tlog`, not `.tout` as the docstring says.
- The `add_command_line_switch` docstring lists a switch `normal`, but the table key is `norm`.
- The `ini` entry expands to the two literal tokens `- ini` (with a space) and `<path>`. The `I` entry
  expands to the literal `-I<path>`. The caller's path is never inserted, because no entry holds the
  `{path}` placeholder. The only entry that held it (`run`) is commented out.
- On macOS, `create_netlist` builds a `NotImplementedError` but never raises it. The netlist command
  is therefore the same on every platform.

## Model

| member | source | states |
|---|---|---|
| `LTSteps.ExtensionsExclusive` | PyLTSpice/LTSteps.py:91-92 | A name ends with at most one of `.txt`, `.log`, `.mout`, so at most one naming branch can fire |
| `LTSteps.ProcessingTestsAgree` | PyLTSpice/LTSteps.py:115-136 | The processing tests (`txt`, `log` without the dot, `.mout`) select the same branch as the naming tests (`.txt`, `.log`, `.mout`) |
| `LTSteps.OutputName` | PyLTSpice/LTSteps.py:114-124 | An output name exists exactly for valid names. It is the input minus its last 3 (`txt`/`log`) or 4 (`mout`) characters, plus `tsv`/`tlog`/`tmout`, so the stem and the dot are kept |
| `LTSteps.OutputNameFresh` | PyLTSpice/LTSteps.py:115-120 | The output name never equals the input, and it never has a valid extension itself, so a later run without arguments never picks an export as its input |
| `LTSteps.CompanionLogAsWritten` | PyLTSpice/LTSteps.py:137 | As written, the companion log name is the first min(len(f), 4) characters of the file name followed by `log`, so its length is min(len(f), 4)+3 |
| `LTSteps.CompanionLogAsWrittenLosesStem` | PyLTSpice/LTSteps.py:137 | For `filter.mout` the script looks for `filtlog`, which is not a log file name |
| `LTSteps.CompanionLogAsWrittenAgreesOnThreeCharStem` | PyLTSpice/LTSteps.py:137 | The as-written name equals the intended one exactly when the `.mout` name has 8 characters (a 3-character stem such as `run.mout`) |
| `LTSteps.CompanionLog` | PyLTSpice/LTSteps.py:137 | Corrected companion log: the same stem with extension `.log`. It is one character shorter than the `.mout` name and shares its stem with the `.tmout` output name |
| `LTSteps.PlanJob` | PyLTSpice/LTSteps.py:114-147 | A job exists exactly for valid names, otherwise the error is the file-type error. The job's source is the file and its target is the output name. `.txt` gives the export reformatting, `.log` the log reader, `.mout` the `.mout` reader. The "no action" case is unreachable. A `.mout` job takes the as-written companion log (first 4 characters plus `log`) as step source exactly when that file exists |
| `LTSteps.PlanJobFindsIntendedLogIffEightChars` | PyLTSpice/LTSteps.py:137-140 | When only the intended log (stem plus `.log`) exists, a `.mout` job picks it up exactly when the `.mout` name has 8 characters. For every other name the step table is silently lost |
| `LTSteps.Scan` | PyLTSpice/LTSteps.py:102-108 | Given what the loop knows after `i` entries, the rest of the loop yields no file exactly when no valid entry has a date above 0. Otherwise it yields the newest entry |
| `LTSteps.NewestIndex` | PyLTSpice/LTSteps.py:102-108 | The selection is empty iff no valid-extension entry has mtime > 0. Otherwise it is a valid entry with maximal mtime that is strictly newer than every valid entry listed before it, so the earliest wins a tie |
| `LTSteps.NewestUnique` | PyLTSpice/LTSteps.py:102-108 | At most one entry meets the newest-file characterisation, so it determines the selection completely |
| `LTSteps.SelectFile` | PyLTSpice/LTSteps.py:95-112 | With an argument, that argument is accepted iff its extension is valid, and rejected with the invalid-extension error otherwise. Without one, the newest candidate is chosen, and "file not found" is reported iff there is none |
| `LTSteps.Cli` | PyLTSpice/LTSteps.py:95-147 | The script succeeds exactly when a file is selected, and then its job is the plan for that selected file. A failure carries the selection's own error. The "Error in file type" exit and the no-action case are never reached, and the processed file always has a valid extension |
| `PyStr.Replace` | PyLTSpice/sim/ltspice_simulator.py:143 | Substituting the placeholder leaves a token that does not contain it unchanged |
| `PurePath.WithSuffix` | PyLTSpice/sim/ltspice_simulator.py:167 | Replacing the suffix fails only for an empty name. It keeps the directory, and the new name is the old stem followed by the given suffix. The new name's suffix is the given one exactly when that suffix has one dot, such as `.net`, and then its stem is the old stem. For a suffix such as `.tar.gz` the new name's suffix is not the given one |
| `PurePath.WithSuffixIdempotent` | PyLTSpice/sim/ltspice_simulator.py:167 | For a suffix with one dot, such as `.net`, replacing the suffix a second time with the same suffix changes nothing (a suffix with more than one dot, such as `.tar.gz`, is not covered, because the new name's suffix is then not the given one) |
| `LtspiceSimulator.TableHasNoPlaceholder` | PyLTSpice/sim/ltspice_simulator.py:34-63 | No token of any table entry contains `{path}` |
| `LtspiceSimulator.ExpandSwitch` | PyLTSpice/sim/ltspice_simulator.py:143 | Expansion keeps the token count. Each token without the placeholder comes back unchanged at its position, so a list with no placeholder comes back whole |
| `LtspiceSimulator.AddCommandLineSwitch` | PyLTSpice/sim/ltspice_simulator.py:141-144 | For a known switch, the new switch list is the old list followed by the table entry, whatever the path. That is 2 tokens for `ini` and 1 for every other key. Executable and process name are unchanged |
| `LtspiceSimulator.IniAppendsLiteralTokens` | PyLTSpice/sim/ltspice_simulator.py:49 | `ini` appends the literal `- ini`, `<path>`, never the given path |
| `LtspiceSimulator.RunCommand` | PyLTSpice/sim/ltspice_simulator.py:148-152 | The run command starts with the executable and ends with the switches. The netlist comes right before the switches, with `-b` before it. `-Run` follows the executable except on `darwin`, which makes the command one token shorter |
| `LtspiceSimulator.NetlistCommand` | PyLTSpice/sim/ltspice_simulator.py:162 | The netlist command is the executable, `-netlist` and the circuit path. It carries no switches |
| `LtspiceSimulator.CreateNetlist` | PyLTSpice/sim/ltspice_simulator.py:156-174 | The result is the circuit path with suffix `.net` iff the command returned 0 and that file exists. The result keeps directory and stem. If the command returned 0 but the name is empty, the error is ValueError. In every other case it is RuntimeError "Failed to create netlist" |
| `LtspiceSimulator.CreateNetlistIgnoresPlatform` | PyLTSpice/sim/ltspice_simulator.py:160-161 | The outcome is the same on every platform, because the macOS exception is never raised |
| `LtspiceSimulator.FirstExisting` | PyLTSpice/sim/ltspice_simulator.py:79-92 | The search yields nothing iff no candidate exists. Otherwise it yields the first existing candidate in the listed order |
| `LtspiceSimulator.GetDefaultSimulator` | PyLTSpice/sim/ltspice_simulator.py:65-94 | On linux: wine with `LTSPICEFOLDER/XVIIx64.exe` or the default wine prefix, process `XVIIx64.exe`. On darwin: the app bundle, process `XVIIx64`. Elsewhere: the first existing location in preference order (the expanded per-user location, then the three fixed Windows paths), process `XVIIx64.exe`, or FileNotFoundError iff none exists. The switch list starts empty |

## Findings

| source | as written | input that shows it | evidently intended | confidence | as-written member | corrected member |
|---|---|---|---|---|---|---|
| PyLTSpice/LTSteps.py:137 | the companion log name keeps the first 4 characters of the `.mout` name (a slice up to 4 instead of up to 4 from the end) and appends `log` | `filter.mout` gives `filtlog` instead of `filter.log`. Only 8-character names such as `run.mout` come out right | the same stem with `.log`, matching the negative slices used for the output names at lines 116-120 | high, not executed | `LTSteps.CompanionLogAsWrittenLosesStem` | `LTSteps.CompanionLog` |

`LTSteps.PlanJob` follows the script and consults `LTSteps.CompanionLogAsWritten`.
`LTSteps.PlanJobFindsIntendedLogIffEightChars` shows the effect on the plan. `LTSteps.CompanionLog` is the
corrected name, with its intended properties proved.

## Left out

- The log, export and `.mout` readers (`LTSpiceLogReader`, `reformat_LTSpice_export`, `export_data`,
  `split_complex_values_on_datasets`) come from `PyLTSpice/log/ltsteps.py`, which is not part of this
  model. A job names the reader and its files but does not parse anything.
- Console output, `exit(-1)` (modelled as the `CliError` values), and the second, duplicate `export_data` call
  for `.mout` files. These are output with no logic to model.
- File-system access. `os.listdir`/`os.path.getmtime` are a listing of (name, integer mtime) entries.
  Python's float timestamps become integers. A `getmtime` failure on an unreadable entry is not modelled.
  `os.path.exists` and `Path.exists` are a predicate parameter.
- Subprocesses. `run_function` is the `runProcess` exit-code parameter of `CreateNetlist`. `RunCommand`
  models only the argument list of `run`, not the timeout or the returned result. `kill_all`
  (psutil process enumeration) is left out.
- `LtspiceSimulator.AddCommandLineSwitch`: only switches of the table are modelled. The fallback for an
  unknown switch calls into the `Simulator` base class, and `PyLTSpice/sim/simulator.py` is not part of
  this model.
- `LtspiceSimulator.GetDefaultSimulator`: the base-class constructor is not part of this model. The new
  simulator is assumed to start with an empty switch list.
- `sys.platform`, `LTSPICEFOLDER` and `os.path.expanduser("~")` are the `platform`, `ltspiceFolder` and
  `home` parameters. The expansion of the per-user location `~\AppData\Local\Programs\ADI\LTspice\LTspice.exe`
  tried first outside Linux and macOS is the separate `userExe` parameter. Its value depends on the
  platform's `expanduser` (the home directory in place of `~` on Windows, possibly the string unchanged
  on other systems).
- `LtspiceSimulator.CreateNetlist`: the ValueError for an empty name carries no message. pathlib's message
  quotes the path's repr, and that is not modelled.
- `Path(circuit_file)` normalisation and `as_posix()`. The circuit path is taken as a normalised posix
  string (`/` separators, no trailing `/`, no empty or `.` components). Windows backslash separators are
  not modelled.
- `PurePath.WithSuffix`: only non-empty suffixes that pathlib accepts are modelled. The ValueError for an
  invalid suffix is not modelled, since the only suffix used is `.net`.
- `examples/sim_client_example.py`: an HTTP client session with zip extraction and file deletion, all
  network and file-system plumbing.
