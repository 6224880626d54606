/** The command-line front end of LTSteps: choosing the input file, deriving the
    output name, and deciding which reader processes it. The readers themselves
    (log, export and `.mout` parsing) are not part of this model. */
module LTSteps {
  import opened Wrappers
  import opened PyStr

  /** One entry of the working-directory listing: a file name and its modification time. */
  datatype Entry = Entry(name: string, mtime: int)

  /** What the script does with the selected file. */
  datatype Job =
    | ReformatExport(source: string, target: string)   // plot export `.txt` reformatted into `.tsv`
    | ReadLog(source: string, target: string)          // simulator log read and exported to `.tlog`
    | ReadMout(source: string, target: string, stepLog: Option<string>)
      // `.mout` read and exported to `.tmout`; `stepLog` is the companion log supplying the step table, when it exists
    | NoAction                                         // none of the processing tests matched

  /** The three ways the script exits with -1. */
  datatype CliError =
    | InvalidExtension(filename: string)  // a command-line file name with an unsupported extension
    | FileNotFound                        // no candidate in the working directory
    | FileTypeError                       // no output name could be derived

  /** The file types the tool accepts. */
  predicate ValidExtension(f: string)
  {
    EndsWith(f, ".txt") || EndsWith(f, ".log") || EndsWith(f, ".mout")
  }

  /** A name ends with at most one of the accepted extensions. */
  lemma ExtensionsExclusive(f: string)
    ensures !(EndsWith(f, ".txt") && EndsWith(f, ".log"))
    ensures !(EndsWith(f, ".txt") && EndsWith(f, ".mout"))
    ensures !(EndsWith(f, ".log") && EndsWith(f, ".mout"))
  {
    if EndsWith(f, ".txt") {
      EndsWithChars(f, ".txt");
      assert f[|f| - 4 + 1] == ".txt"[1] == 't' && f[|f| - 4 + 2] == ".txt"[2] == 'x';
    }
    if EndsWith(f, ".log") {
      EndsWithChars(f, ".log");
      assert f[|f| - 4 + 3] == ".log"[3] == 'g';
    }
    if EndsWith(f, ".mout") {
      EndsWithChars(f, ".mout");
      assert f[|f| - 5 + 3] == ".mout"[3] == 'u' && f[|f| - 5 + 4] == ".mout"[4] == 't';
    }
  }

  /** The processing tests (on "txt", "log", ".mout") pick the branch the naming
      tests (on ".txt", ".log", ".mout") picked. */
  lemma ProcessingTestsAgree(f: string)
    ensures EndsWith(f, ".txt") ==> EndsWith(f, "txt")
    ensures EndsWith(f, ".log") ==> EndsWith(f, "log") && !EndsWith(f, "txt")
    ensures EndsWith(f, ".mout") ==> !EndsWith(f, "txt") && !EndsWith(f, "log")
  {
    if EndsWith(f, ".txt") { EndsWithTrans(f, ".txt", "txt"); }
    if EndsWith(f, ".log") {
      EndsWithTrans(f, ".log", "log");
    }
    if EndsWith(f, ".mout") {
      EndsWithTrans(f, ".mout", "out");
    }
    if EndsWith(f, "txt") {
      EndsWithChars(f, "txt");
      assert f[|f| - 3 + 2] == "txt"[2] == 't' && f[|f| - 3 + 1] == "txt"[1] == 'x';
    }
    if EndsWith(f, "log") {
      EndsWithChars(f, "log");
      assert f[|f| - 3 + 2] == "log"[2] == 'g';
    }
    if EndsWith(f, "out") {
      EndsWithChars(f, "out");
      assert f[|f| - 3 + 2] == "out"[2] == 't' && f[|f| - 3 + 1] == "out"[1] == 'u';
    }
  }

  /** The export file name: the extension after the last dot is swapped for
      `tsv`, `tlog` or `tmout`; `None` is the "Error in file type" exit. */
  function OutputName(f: string): (r: Option<string>)
    ensures r.Some? <==> ValidExtension(f)
    ensures EndsWith(f, ".txt") ==> r == Some(f[..|f| - 3] + "tsv")
    ensures EndsWith(f, ".log") ==> r == Some(f[..|f| - 3] + "tlog")
    ensures EndsWith(f, ".mout") ==> r == Some(f[..|f| - 4] + "tmout")
  {
    ExtensionsExclusive(f);
    if EndsWith(f, ".txt") then
      assert Prefix(f, -3) == f[..|f| - 3];
      Some(Prefix(f, -3) + "tsv")
    else if EndsWith(f, ".log") then
      assert Prefix(f, -3) == f[..|f| - 3];
      Some(Prefix(f, -3) + "tlog")
    else if EndsWith(f, ".mout") then
      assert Prefix(f, -4) == f[..|f| - 4];
      Some(Prefix(f, -4) + "tmout")
    else None
  }

  /** The export never overwrites its source, and is itself never picked up as an
      input by a later run without arguments. */
  lemma OutputNameFresh(f: string)
    requires ValidExtension(f)
    ensures OutputName(f).value != f
    ensures !ValidExtension(OutputName(f).value)
  {
    var o := OutputName(f).value;
    ExtensionsExclusive(f);
    if EndsWith(f, ".txt") {
      EndsWithChars(f, ".txt");
      assert o[|o| - 1] == 'v';
    } else if EndsWith(f, ".log") {
      assert o[|o| - 4] == 't' && o[|o| - 1] == 'g';
    } else {
      EndsWithChars(f, ".mout");
      assert o[|o| - 5] == 't' && o[|o| - 2] == 'u' && o[|o| - 1] == 't';
    }
    if EndsWith(o, ".txt") { EndsWithChars(o, ".txt"); }
    if EndsWith(o, ".log") { EndsWithChars(o, ".log"); }
    if EndsWith(o, ".mout") { EndsWithChars(o, ".mout"); }
  }

  /** The companion log of a `.mout` file exactly as the script computes it:
      the first four characters of the name followed by "log". */
  function CompanionLogAsWritten(f: string): (r: string)
    ensures |r| == (if |f| < 4 then |f| else 4) + 3
    ensures r[..|r| - 3] == f[..|r| - 3] && EndsWith(r, "log")
  {
    Prefix(f, |"mout"|) + "log"
  }

  /** For "filter.mout" the script looks for "filtlog", which is not even a log file name. */
  lemma CompanionLogAsWrittenLosesStem()
    ensures CompanionLogAsWritten("filter.mout") == "filtlog"
    ensures !ValidExtension(CompanionLogAsWritten("filter.mout"))
  {
    assert Prefix("filter.mout", 4) == "filt";
  }

  /** Only a stem of exactly three characters ("run.mout") gets the intended log name. */
  lemma CompanionLogAsWrittenAgreesOnThreeCharStem(f: string)
    requires EndsWith(f, ".mout")
    ensures CompanionLogAsWritten(f) == CompanionLog(f) <==> |f| == 8
  {
    if CompanionLogAsWritten(f) == CompanionLog(f) {
      assert |CompanionLog(f)| == |f| - 1;
    }
  }

  /** The companion log of a `.mout` file: the same stem with the extension `log`. */
  function CompanionLog(f: string): (r: string)
    requires EndsWith(f, ".mout")
    ensures EndsWith(r, ".log") && ValidExtension(r)
    ensures |r| == |f| - 1 && r[..|f| - 4] == f[..|f| - 4]
    ensures OutputName(f) == Some(r[..|r| - 3] + "tmout")
  {
    Prefix(f, -|"mout"|) + "log"
  }

  /** The steps after a file has been chosen: derive the output name, then pick the
      reader. The processing tests look at "txt" and "log" without the dot, and at
      ".mout" with it. `fileExists` stands for the file-system test on the companion log. */
  function PlanJob(f: string, fileExists: string -> bool): (r: Result<Job, CliError>)
    ensures r.Success? <==> ValidExtension(f)
    ensures r.Failure? ==> r.error == FileTypeError
    ensures r.Success? ==> !r.value.NoAction? && r.value.source == f && OutputName(f) == Some(r.value.target)
    ensures r.Success? ==> (r.value.ReformatExport? <==> EndsWith(f, ".txt"))
    ensures r.Success? ==> (r.value.ReadLog? <==> EndsWith(f, ".log"))
    ensures r.Success? ==> (r.value.ReadMout? <==> EndsWith(f, ".mout"))
    ensures r.Success? && r.value.ReadMout? ==>
      r.value.stepLog == (if fileExists(CompanionLogAsWritten(f)) then Some(CompanionLogAsWritten(f)) else None)
  {
    ExtensionsExclusive(f);
    ProcessingTestsAgree(f);
    match OutputName(f)
    case None => Failure(FileTypeError)
    case Some(out) =>
      if EndsWith(f, "txt") then Success(ReformatExport(f, out))
      else if EndsWith(f, "log") then Success(ReadLog(f, out))
      else if EndsWith(f, ".mout") then
        var log := CompanionLogAsWritten(f);
        Success(ReadMout(f, out, if fileExists(log) then Some(log) else None))
      else Success(NoAction)
  }

  /** When only the intended companion log exists, the script finds it exactly for
      8-character names such as "run.mout"; for any other `.mout` name it reformats
      without step information. */
  lemma PlanJobFindsIntendedLogIffEightChars(f: string)
    requires EndsWith(f, ".mout")
    ensures PlanJob(f, s => s == CompanionLog(f)).Success?
    ensures PlanJob(f, s => s == CompanionLog(f)).value.ReadMout?
    ensures PlanJob(f, s => s == CompanionLog(f)).value.stepLog.Some? <==> |f| == 8
  {
    CompanionLogAsWrittenAgreesOnThreeCharStem(f);
  }

  /** Entry `k` is a candidate no other candidate beats: a valid name with a positive
      date, no valid entry newer, and every valid entry listed before it strictly older. */
  ghost predicate IsNewest(listing: seq<Entry>, k: int)
  {
    && 0 <= k < |listing|
    && ValidExtension(listing[k].name)
    && listing[k].mtime > 0
    && (forall j :: 0 <= j < |listing| && ValidExtension(listing[j].name) ==> listing[j].mtime <= listing[k].mtime)
    && (forall j :: 0 <= j < k && ValidExtension(listing[j].name) ==> listing[j].mtime < listing[k].mtime)
  }

  /** No valid entry is dated after the epoch, so the scan never picks one. */
  ghost predicate NoCandidate(listing: seq<Entry>)
  {
    forall j :: 0 <= j < |listing| && ValidExtension(listing[j].name) ==> listing[j].mtime <= 0
  }

  /** At most one entry is the newest: the selection is fully determined. */
  lemma NewestUnique(listing: seq<Entry>, k1: int, k2: int)
    requires IsNewest(listing, k1) && IsNewest(listing, k2)
    ensures k1 == k2
  {
  }

  /** What the scan knows after looking at the first `i` entries. */
  ghost predicate ScanInvariant(listing: seq<Entry>, i: int, best: Option<nat>, newer: int)
  {
    && 0 <= i <= |listing|
    && (best.None? ==>
          newer == 0 && forall j :: 0 <= j < i && ValidExtension(listing[j].name) ==> listing[j].mtime <= 0)
    && (best.Some? ==>
          && best.value < i
          && ValidExtension(listing[best.value].name)
          && listing[best.value].mtime == newer > 0
          && (forall j :: 0 <= j < i && ValidExtension(listing[j].name) ==> listing[j].mtime <= newer)
          && (forall j :: 0 <= j < best.value && ValidExtension(listing[j].name) ==> listing[j].mtime < newer))
  }

  /** The directory loop from entry `i` on: an entry replaces the current choice
      when its date is strictly greater and its name is valid. */
  function Scan(listing: seq<Entry>, i: int, best: Option<nat>, newer: int): (r: Option<nat>)
    requires ScanInvariant(listing, i, best, newer)
    ensures r.None? <==> NoCandidate(listing)
    ensures r.Some? ==> IsNewest(listing, r.value)
    decreases |listing| - i
  {
    if i == |listing| then best
    else if listing[i].mtime > newer && ValidExtension(listing[i].name) then
      Scan(listing, i + 1, Some(i), listing[i].mtime)
    else
      Scan(listing, i + 1, best, newer)
  }

  /** The newest valid file of the listing, as the index of its entry. */
  function NewestIndex(listing: seq<Entry>): (r: Option<nat>)
    ensures r.None? <==> NoCandidate(listing)
    ensures r.Some? ==> IsNewest(listing, r.value)
  {
    Scan(listing, 0, None, 0)
  }

  /** The input file: the first command-line argument when there is one (`argv[0]`
      is the script), otherwise the newest valid file of the listing. */
  function SelectFile(argv: seq<string>, listing: seq<Entry>): (r: Result<string, CliError>)
    ensures |argv| > 1 ==> r == (if ValidExtension(argv[1]) then Success(argv[1]) else Failure(InvalidExtension(argv[1])))
    ensures |argv| <= 1 ==> (r.Failure? <==> NoCandidate(listing))
    ensures |argv| <= 1 && r.Failure? ==> r.error == FileNotFound
    ensures |argv| <= 1 && r.Success? ==> exists k :: IsNewest(listing, k) && r.value == listing[k].name
  {
    if |argv| > 1 then
      if ValidExtension(argv[1]) then Success(argv[1]) else Failure(InvalidExtension(argv[1]))
    else
      match NewestIndex(listing)
      case None => Failure(FileNotFound)
      case Some(k) => Success(listing[k].name)
  }

  /** The whole script: select a file, then plan its processing. */
  function Cli(argv: seq<string>, listing: seq<Entry>, fileExists: string -> bool): (r: Result<Job, CliError>)
    ensures r.Failure? ==> r.error != FileTypeError
    ensures r.Success? ==> !r.value.NoAction? && ValidExtension(r.value.source)
    ensures r.Success? <==> SelectFile(argv, listing).Success?
    ensures r.Success? ==> r == PlanJob(SelectFile(argv, listing).value, fileExists)
    ensures r.Failure? ==> SelectFile(argv, listing).Failure? && r.error == SelectFile(argv, listing).error
  {
    match SelectFile(argv, listing)
    case Failure(e) => Failure(e)
    case Success(f) => PlanJob(f, fileExists)
  }
}
