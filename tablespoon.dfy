/** `downsample_paired_reads` (tablespoon.py): checks the run configuration,
    finds the read pairs in the input directory, and runs `subsample_reads` on
    every pair, one after the other; a pair that raises is reported and the
    run goes on. */
module Tablespoon {
  import opened PyStr
  import opened PosixPath
  import opened Files
  import opened Naming
  import opened Teaspoon

  datatype Config = Config(
    coverage: PyValue,
    nameType: string,
    inputDir: Path,
    exclude: Option<string>,
    outputDir: Path,
    threads: PyValue)

  /** Why a run ends early with exit status 1. `OutputDirNotMade` is the
      exception `os.makedirs` lets escape; the others are `sys.exit(1)`. */
  datatype Abort =
    | InputNotADirectory
    | OutputDirNotMade
    | InvalidNameType
    | InvalidCoverage
    | InvalidThreads
    | NoPairsFound

  datatype ReadPair = ReadPair(read1: Path, read2: Path)

  /** How a run ends: an early exit, or the pairs found and what happened to each. */
  datatype Report = Exited(reason: Abort) | Finished(pairs: seq<ReadPair>, statuses: seq<Status>)

  datatype BatchRun = BatchRun(report: Report, fs: FileSystem, commands: seq<Command>)

  // ---------------------------------------------------------------- configuration

  datatype Prepared = Ready(fs: FileSystem) | Stopped(reason: Abort, fs: FileSystem)

  /** The checks at the top, in order; the output directory is made (when it
      is not a directory yet) before the name type, coverage and thread count
      are looked at. */
  function Setup(fs: FileSystem, cfg: Config): (r: Prepared)
    ensures Keeps(fs, r.fs) && r.fs.files == fs.files
    ensures r.fs.dirs.Keys <= fs.dirs.Keys + {cfg.outputDir} && forall q :: q in fs.dirs ==> r.fs.dirs[q] == fs.dirs[q]
    ensures r.Ready? ==>
      IsDir(fs, cfg.inputDir) && IsDir(r.fs, cfg.outputDir) && r.fs.dirs[cfg.inputDir] == fs.dirs[cfg.inputDir]
  {
    if !IsDir(fs, cfg.inputDir) then Stopped(InputNotADirectory, fs)
    else
      var made := if IsDir(fs, cfg.outputDir) then Some(fs) else MakeDirs(fs, cfg.outputDir);
      match made
      case None => Stopped(OutputDirNotMade, fs)
      case Some(fs1) =>
        if ParseScheme(cfg.nameType).None? then Stopped(InvalidNameType, fs1)
        else if !PositiveInt(cfg.coverage) then Stopped(InvalidCoverage, fs1)
        else if !PositiveInt(cfg.threads) then Stopped(InvalidThreads, fs1)
        else Ready(fs1)
  }

  // ---------------------------------------------------------------- discovery

  /** A listed name is looked at when it has a FASTQ extension and does not
      start with the exclusion prefix. */
  predicate IsCandidate(name: string, exclude: Option<string>)
    ensures IsCandidate(name, exclude) ==> Contains(name, ".fastq")
  {
    FastqSuffixContained(name);
    (EndsWith(name, ".fastq") || EndsWith(name, ".fastq.gz")) &&
    (exclude.None? || !StartsWith(name, exclude.value))
  }

  lemma FastqSuffixContained(name: string)
    ensures EndsWith(name, ".fastq") || EndsWith(name, ".fastq.gz") ==> Contains(name, ".fastq")
  {
    if EndsWith(name, ".fastq") {
      ContainsAt(name, ".fastq", |name| - 6);
    } else if EndsWith(name, ".fastq.gz") {
      assert name[|name| - 9..|name| - 3] == name[|name| - 9..][..6];
      ContainsAt(name, ".fastq", |name| - 9);
    }
  }

  /** Names of first reads: Illumina's `_R1_` or the `_1.` of fasterq-dump. */
  predicate IsRead1Name(name: string)
    ensures IsRead1Name(name) ==> '_' in name
  {
    if Contains(name, "_1.") then ContainsChar(name, "_1.", 0); true
    else if Contains(name, "_R1_") then ContainsChar(name, "_R1_", 0); true
    else false
  }

  /** The second read's path: every `_1.` of the whole path becomes `_2.`,
      then every `_R1_` becomes `_R2_`. */
  function PartnerPath(read1: Path): (read2: Path)
    ensures OneToTwo(read1, read2)
  {
    var mid := ReplaceAll(read1, "_1.", "_2.");
    ReplaceAllOneToTwo(read1, "_1.", "_2.");
    ReplaceAllOneToTwo(mid, "_R1_", "_R2_");
    OneToTwoTransitive(read1, mid, ReplaceAll(mid, "_R1_", "_R2_"));
    ReplaceAll(mid, "_R1_", "_R2_")
  }

  /** The pair a listed name starts, if any: its partner must be a file. */
  function PairOf(fs: FileSystem, inputDir: Path, exclude: Option<string>, name: string): (pair: Option<ReadPair>)
    ensures pair.Some? ==>
      IsCandidate(name, exclude) && IsRead1Name(name) && pair.value.read1 == Join(inputDir, name) &&
      IsFile(fs, pair.value.read2) && OneToTwo(pair.value.read1, pair.value.read2)
  {
    if IsCandidate(name, exclude) && IsRead1Name(name) then
      var read1 := Join(inputDir, name);
      var read2 := PartnerPath(read1);
      if IsFile(fs, read2) then Some(ReadPair(read1, read2)) else None
    else None
  }

  /** The pairs the listing `names` yields, in listing order. */
  function CollectPairs(fs: FileSystem, inputDir: Path, exclude: Option<string>, names: seq<string>): (pairs: seq<ReadPair>)
    ensures |pairs| <= |names|
  {
    if names == [] then []
    else
      var pairs := CollectPairs(fs, inputDir, exclude, names[..|names| - 1]);
      match PairOf(fs, inputDir, exclude, names[|names| - 1])
      case None => pairs
      case Some(pair) => pairs + [pair]
  }

  /** The `for filename in os.listdir(input_dir)` loop. */
  method FindReadPairs(fs: FileSystem, inputDir: Path, exclude: Option<string>) returns (pairs: seq<ReadPair>)
    requires IsDir(fs, inputDir)
    ensures pairs == CollectPairs(fs, inputDir, exclude, fs.dirs[inputDir])
  {
    var names := fs.dirs[inputDir];
    pairs := [];
    for i := 0 to |names|
      invariant pairs == CollectPairs(fs, inputDir, exclude, names[..i])
    {
      assert names[..i + 1][..i] == names[..i];
      var filename := names[i];
      if (EndsWith(filename, ".fastq") || EndsWith(filename, ".fastq.gz")) &&
         (exclude.None? || !StartsWith(filename, exclude.value))
      {
        if Contains(filename, "_1.") || Contains(filename, "_R1_") {
          var read1 := Join(inputDir, filename);
          var read2 := ReplaceAll(ReplaceAll(read1, "_1.", "_2."), "_R1_", "_R2_");
          if IsFile(fs, read2) {
            pairs := pairs + [ReadPair(read1, read2)];
          }
        }
      }
    }
    assert names[..|names|] == names;
  }

  // ---------------------------------------------------------------- dispatch

  /** Where a run stands after some pairs: one status per pair, the
      filesystem, and the programs run. */
  datatype Progress = Progress(statuses: seq<Status>, fs: FileSystem, commands: seq<Command>)

  /** `subsample_reads` on each pair in turn, each seeing the filesystem the
      previous ones left; a pair that raises does not stop the others. */
  function DispatchAll(fs: FileSystem, tools: Tools, cfg: Config, pairs: seq<ReadPair>): (p: Progress)
    ensures |p.statuses| == |pairs| && Keeps(fs, p.fs)
  {
    if pairs == [] then Progress([], fs, [])
    else
      var before := DispatchAll(fs, tools, cfg, pairs[..|pairs| - 1]);
      var pair := pairs[|pairs| - 1];
      var run := Subsample(before.fs, tools, cfg.coverage, cfg.nameType, pair.read1, pair.read2, cfg.outputDir);
      Progress(before.statuses + [run.status], run.fs, before.commands + run.commands)
  }

  /** The whole of `downsample_paired_reads`. */
  function Batch(fs: FileSystem, tools: Tools, cfg: Config): (b: BatchRun)
    ensures Keeps(fs, b.fs)
    ensures b.report.Exited? ==> b.commands == [] && b.fs.files == fs.files
    ensures b.report.Finished? ==> b.report.pairs != [] && |b.report.statuses| == |b.report.pairs|
  {
    match Setup(fs, cfg)
    case Stopped(reason, fs1) => BatchRun(Exited(reason), fs1, [])
    case Ready(fs1) =>
      var pairs := CollectPairs(fs1, cfg.inputDir, cfg.exclude, fs1.dirs[cfg.inputDir]);
      if pairs == [] then BatchRun(Exited(NoPairsFound), fs1, [])
      else
        var done := DispatchAll(fs1, tools, cfg, pairs);
        BatchRun(Finished(pairs, done.statuses), done.fs, done.commands)
  }

  // ---------------------------------------------------------------- properties

  /** The configuration checks run in order, each one only when the earlier
      ones passed; only the `os.makedirs` before the last three touches the
      filesystem, so the output directory exists even when the name type,
      the coverage or the thread count is then rejected. */
  lemma SetupOrder(fs: FileSystem, tools: Tools, cfg: Config)
    ensures var run := Batch(fs, tools, cfg);
      (!IsDir(fs, cfg.inputDir) ==> run == BatchRun(Exited(InputNotADirectory), fs, [])) &&
      (IsDir(fs, cfg.inputDir) && !IsDir(fs, cfg.outputDir) && (cfg.outputDir == [] || IsFile(fs, cfg.outputDir)) ==>
        run == BatchRun(Exited(OutputDirNotMade), fs, [])) &&
      (IsDir(fs, cfg.inputDir) && cfg.outputDir != [] && !IsFile(fs, cfg.outputDir) ==>
        IsDir(run.fs, cfg.outputDir) &&
        (ParseScheme(cfg.nameType).None? ==> run.report == Exited(InvalidNameType)) &&
        (ParseScheme(cfg.nameType).Some? && !PositiveInt(cfg.coverage) ==> run.report == Exited(InvalidCoverage)) &&
        (ParseScheme(cfg.nameType).Some? && PositiveInt(cfg.coverage) && !PositiveInt(cfg.threads) ==>
          run.report == Exited(InvalidThreads)))
  {
  }

  /** A run with no pair exits before any program runs or any file is written. */
  lemma NoPairsNoWork(fs: FileSystem, tools: Tools, cfg: Config)
    requires Setup(fs, cfg).Ready?
    requires var fs1 := Setup(fs, cfg).fs;
      CollectPairs(fs1, cfg.inputDir, cfg.exclude, fs1.dirs[cfg.inputDir]) == []
    ensures var run := Batch(fs, tools, cfg);
      run.report == Exited(NoPairsFound) && run.commands == [] && run.fs.files == fs.files
  {
  }

  /** Pairs keep the order of the listing: the pairs of a listing are those of
      its first part followed by those of the rest. */
  lemma {:induction false} CollectPairsAppend(fs: FileSystem, inputDir: Path, exclude: Option<string>, names1: seq<string>, names2: seq<string>)
    ensures CollectPairs(fs, inputDir, exclude, names1 + names2) ==
      CollectPairs(fs, inputDir, exclude, names1) + CollectPairs(fs, inputDir, exclude, names2)
    decreases |names2|
  {
    if names2 == [] {
      assert names1 + names2 == names1;
    } else {
      var names, init, last := names1 + names2, names2[..|names2| - 1], names2[|names2| - 1];
      assert names[..|names| - 1] == names1 + init && names[|names| - 1] == last;
      CollectPairsLast(fs, inputDir, exclude, names);
      CollectPairsLast(fs, inputDir, exclude, names2);
      CollectPairsAppend(fs, inputDir, exclude, names1, init);
      AppendAssoc(CollectPairs(fs, inputDir, exclude, names1), CollectPairs(fs, inputDir, exclude, init),
        PairsOf(fs, inputDir, exclude, last));
    }
  }

  /** The pair of one name, as a list of zero or one pairs. */
  function PairsOf(fs: FileSystem, inputDir: Path, exclude: Option<string>, name: string): seq<ReadPair> {
    match PairOf(fs, inputDir, exclude, name)
    case None => []
    case Some(pair) => [pair]
  }

  lemma CollectPairsLast(fs: FileSystem, inputDir: Path, exclude: Option<string>, names: seq<string>)
    requires names != []
    ensures CollectPairs(fs, inputDir, exclude, names) ==
      CollectPairs(fs, inputDir, exclude, names[..|names| - 1]) + PairsOf(fs, inputDir, exclude, names[|names| - 1])
  {
  }

  /** Every pair comes from one listed name that passes the filters and names
      a first read, and its second read is a file. */
  lemma {:induction false} PairsFromListing(fs: FileSystem, inputDir: Path, exclude: Option<string>, names: seq<string>, k: nat)
    requires k < |CollectPairs(fs, inputDir, exclude, names)|
    ensures var pair := CollectPairs(fs, inputDir, exclude, names)[k];
      exists i :: 0 <= i < |names| && IsCandidate(names[i], exclude) && IsRead1Name(names[i]) &&
        pair == ReadPair(Join(inputDir, names[i]), PartnerPath(Join(inputDir, names[i]))) && IsFile(fs, pair.read2)
  {
    var init := names[..|names| - 1];
    var pairs := CollectPairs(fs, inputDir, exclude, init);
    CollectPairsLast(fs, inputDir, exclude, names);
    var pair := CollectPairs(fs, inputDir, exclude, names)[k];
    if k < |pairs| {
      PairsFromListing(fs, inputDir, exclude, init, k);
      assert pair == pairs[k];
      var i :| 0 <= i < |init| && IsCandidate(init[i], exclude) && IsRead1Name(init[i]) &&
        pairs[k] == ReadPair(Join(inputDir, init[i]), PartnerPath(Join(inputDir, init[i]))) && IsFile(fs, pairs[k].read2);
      assert init[i] == names[i];
    } else {
      var i := |names| - 1;
      assert PairsOf(fs, inputDir, exclude, names[i]) == [pair];
    }
  }

  /** Every listed name that passes the filters, names a first read and has
      a partner file gives a pair. */
  lemma {:induction false} ListedPairFound(fs: FileSystem, inputDir: Path, exclude: Option<string>, names: seq<string>, i: nat)
    requires i < |names| && IsCandidate(names[i], exclude) && IsRead1Name(names[i])
    requires IsFile(fs, PartnerPath(Join(inputDir, names[i])))
    ensures ReadPair(Join(inputDir, names[i]), PartnerPath(Join(inputDir, names[i]))) in CollectPairs(fs, inputDir, exclude, names)
  {
    var front := names[..i + 1];
    var pair := ReadPair(Join(inputDir, names[i]), PartnerPath(Join(inputDir, names[i])));
    assert names == front + names[i + 1..];
    assert front[..|front| - 1] == names[..i] && front[|front| - 1] == names[i];
    assert PairsOf(fs, inputDir, exclude, names[i]) == [pair];
    CollectPairsLast(fs, inputDir, exclude, front);
    CollectPairsAppend(fs, inputDir, exclude, front, names[i + 1..]);
    var pairs := CollectPairs(fs, inputDir, exclude, names);
    assert pairs[|CollectPairs(fs, inputDir, exclude, names[..i])|] == pair;
  }

  /** The partner of a first read differs from it: at least one '1' became a
      '2', and nothing turns a '2' back. */
  lemma PartnerDiffers(read1: Path)
    requires Contains(read1, "_1.") || Contains(read1, "_R1_")
    ensures OneToTwo(read1, PartnerPath(read1)) && PartnerPath(read1) != read1
  {
    var mid := ReplaceAll(read1, "_1.", "_2.");
    ReplaceAllOneToTwo(read1, "_1.", "_2.");
    ReplaceAllOneToTwo(mid, "_R1_", "_R2_");
    OneToTwoTransitive(read1, mid, PartnerPath(read1));
    if Contains(read1, "_1.") {
      ReplaceAllChanges(read1, "_1.", "_2.");
      OneToTwoStillChanged(read1, mid, PartnerPath(read1));
    } else {
      ReplaceAllAbsent(read1, "_1.", "_2.");
      ReplaceAllChanges(mid, "_R1_", "_R2_");
    }
  }

  /** No pair has the same file as both reads. */
  lemma PairsDistinct(fs: FileSystem, inputDir: Path, exclude: Option<string>, names: seq<string>, k: nat)
    requires k < |CollectPairs(fs, inputDir, exclude, names)|
    ensures CollectPairs(fs, inputDir, exclude, names)[k].read2 != CollectPairs(fs, inputDir, exclude, names)[k].read1
  {
    PairsFromListing(fs, inputDir, exclude, names, k);
    var i :| 0 <= i < |names| && IsCandidate(names[i], exclude) && IsRead1Name(names[i]) &&
      CollectPairs(fs, inputDir, exclude, names)[k] == ReadPair(Join(inputDir, names[i]), PartnerPath(Join(inputDir, names[i])));
    if Contains(names[i], "_1.") {
      JoinContains(inputDir, names[i], "_1.");
    } else {
      JoinContains(inputDir, names[i], "_R1_");
    }
    PartnerDiffers(Join(inputDir, names[i]));
  }

  /** Pair `i` is processed on the filesystem the pairs before it left, and
      its outcome is recorded whatever the earlier outcomes were. */
  lemma {:induction false} DispatchAllAt(fs: FileSystem, tools: Tools, cfg: Config, pairs: seq<ReadPair>, i: nat)
    requires i < |pairs|
    ensures DispatchAll(fs, tools, cfg, pairs).statuses[i] ==
      Subsample(DispatchAll(fs, tools, cfg, pairs[..i]).fs, tools, cfg.coverage, cfg.nameType,
        pairs[i].read1, pairs[i].read2, cfg.outputDir).status
    decreases |pairs|
  {
    var init := pairs[..|pairs| - 1];
    DispatchInit(fs, tools, cfg, pairs);
    if i == |pairs| - 1 {
      DispatchStep(fs, tools, cfg, pairs, i);
      assert pairs[..i + 1] == pairs;
    } else {
      DispatchAllAt(fs, tools, cfg, init, i);
      assert init[..i] == pairs[..i] && init[i] == pairs[i];
      assert DispatchAll(fs, tools, cfg, pairs).statuses[i] == DispatchAll(fs, tools, cfg, init).statuses[i];
    }
  }

  /** Dispatching one more pair keeps the outcomes of the earlier ones. */
  lemma DispatchInit(fs: FileSystem, tools: Tools, cfg: Config, pairs: seq<ReadPair>)
    requires pairs != []
    ensures DispatchAll(fs, tools, cfg, pairs).statuses[..|pairs| - 1] == DispatchAll(fs, tools, cfg, pairs[..|pairs| - 1]).statuses
  {
  }

  /** Once pairs are found the run always finishes, with one outcome per pair
      in listing order, each computed on the filesystem the earlier pairs
      left: a pair that raises does not stop the later ones. */
  lemma EveryPairAttempted(fs: FileSystem, tools: Tools, cfg: Config)
    requires Setup(fs, cfg).Ready?
    ensures var fs1 := Setup(fs, cfg).fs;
      var pairs := CollectPairs(fs1, cfg.inputDir, cfg.exclude, fs1.dirs[cfg.inputDir]);
      var run := Batch(fs, tools, cfg);
      pairs != [] ==>
        run.report.Finished? && run.report.pairs == pairs && |run.report.statuses| == |pairs| &&
        forall i :: 0 <= i < |pairs| ==>
          run.report.statuses[i] == Subsample(DispatchAll(fs1, tools, cfg, pairs[..i]).fs, tools, cfg.coverage, cfg.nameType,
            pairs[i].read1, pairs[i].read2, cfg.outputDir).status
  {
    var fs1 := Setup(fs, cfg).fs;
    var pairs := CollectPairs(fs1, cfg.inputDir, cfg.exclude, fs1.dirs[cfg.inputDir]);
    forall i | 0 <= i < |pairs|
      ensures DispatchAll(fs1, tools, cfg, pairs).statuses[i] ==
        Subsample(DispatchAll(fs1, tools, cfg, pairs[..i]).fs, tools, cfg.coverage, cfg.nameType,
          pairs[i].read1, pairs[i].read2, cfg.outputDir).status
    {
      DispatchAllAt(fs1, tools, cfg, pairs, i);
    }
  }

  /** The names `os.listdir` gives have no '/'. */
  predicate PlainNames(names: seq<string>) {
    forall i :: 0 <= i < |names| ==> '/' !in names[i]
  }

  /** Both base names of a pair hold a '_', so the insert scheme names them. */
  lemma PairNamesHaveUnderscore(inputDir: Path, name: string)
    requires '/' !in name && IsRead1Name(name)
    ensures var read1 := Join(inputDir, name);
      '_' in Basename(read1) && '_' in Basename(PartnerPath(read1))
  {
    var read1 := Join(inputDir, name);
    var read2 := PartnerPath(read1);
    var pat := if Contains(name, "_1.") then "_1." else "_R1_";
    assert Contains(name, pat) && pat[0] == '_';
    ContainsChar(name, pat, 0);
    JoinContains(inputDir, name, pat);
    BasenameOfJoin(inputDir, name);
    PartnerDiffers(read1);
    BasenameOneToTwo(read1, read2);
    UnderscoreKept(Basename(read1), Basename(read2));
  }

  /** Turning '1' into '2' keeps every '_'. */
  lemma UnderscoreKept(a: string, b: string)
    requires OneToTwo(a, b) && '_' in a
    ensures '_' in b
  {
    var k :| 0 <= k < |a| && a[k] == '_';
    assert b[k] == '_';
  }

  /** How one pair can end once the run is under way. */
  lemma PairRunStatus(fs1: FileSystem, fs: FileSystem, tools: Tools, cfg: Config, name: string)
    requires Keeps(fs1, fs) && IsDir(fs1, cfg.outputDir)
    requires PositiveInt(cfg.coverage) && ParseScheme(cfg.nameType).Some?
    requires '/' !in name && IsRead1Name(name) && IsFile(fs1, PartnerPath(Join(cfg.inputDir, name)))
    ensures var read1 := Join(cfg.inputDir, name);
      var status := Subsample(fs, tools, cfg.coverage, cfg.nameType, read1, PartnerPath(read1), cfg.outputDir).status;
      status !in {Raised(BadCoverage), Raised(BadNameType), Raised(OutputDirFailed), Raised(NoUnderscore), Raised(NotADirectory)} &&
      (status == Raised(ReadMissing) ==> !IsFile(fs1, read1))
  {
    var read1 := Join(cfg.inputDir, name);
    var read2 := PartnerPath(read1);
    var run := Subsample(fs, tools, cfg.coverage, cfg.nameType, read1, read2, cfg.outputDir);
    if IsFile(fs, read1) {
      var (c, scheme) := Validate(fs, cfg.coverage, cfg.nameType, read1, read2).value;
      assert EnsureOutputDir(fs, cfg.outputDir) == Ok(fs);
      assert run == Process(fs, tools, c, scheme, read1, read2, cfg.outputDir);
      PairNamesHaveUnderscore(cfg.inputDir, name);
      NamingFailsIff(scheme, c, cfg.outputDir, read1, read2);
      ProcessStatus(fs, tools, c, scheme, read1, read2, cfg.outputDir);
    }
  }

  /** With a listing of plain names, a pair never fails on the configuration,
      the output directory (made or found a directory before any pair) or the
      insert scheme; it can fail on its files or
      on the programs, and a missing first read is a listed name that was not
      a regular file when the run started. */
  lemma PairFailures(fs: FileSystem, tools: Tools, cfg: Config, i: nat)
    requires Setup(fs, cfg).Ready? && PlainNames(fs.dirs[cfg.inputDir])
    requires var fs1 := Setup(fs, cfg).fs;
      i < |CollectPairs(fs1, cfg.inputDir, cfg.exclude, fs1.dirs[cfg.inputDir])|
    ensures var fs1 := Setup(fs, cfg).fs;
      var pairs := CollectPairs(fs1, cfg.inputDir, cfg.exclude, fs1.dirs[cfg.inputDir]);
      var run := Batch(fs, tools, cfg);
      run.report.Finished? &&
      run.report.statuses[i] !in {Raised(BadCoverage), Raised(BadNameType), Raised(OutputDirFailed), Raised(NoUnderscore), Raised(NotADirectory)} &&
      (run.report.statuses[i] == Raised(ReadMissing) ==> !IsFile(fs, pairs[i].read1))
  {
    var fs1 := Setup(fs, cfg).fs;
    var names := fs1.dirs[cfg.inputDir];
    var pairs := CollectPairs(fs1, cfg.inputDir, cfg.exclude, names);
    EveryPairAttempted(fs, tools, cfg);
    PairsFromListing(fs1, cfg.inputDir, cfg.exclude, names, i);
    var j :| 0 <= j < |names| && IsCandidate(names[j], cfg.exclude) && IsRead1Name(names[j]) &&
      pairs[i] == ReadPair(Join(cfg.inputDir, names[j]), PartnerPath(Join(cfg.inputDir, names[j]))) && IsFile(fs1, pairs[i].read2);
    var before := DispatchAll(fs1, tools, cfg, pairs[..i]);
    PairRunStatus(fs1, before.fs, tools, cfg, names[j]);
  }

  /** The checks and the `os.makedirs` at the top of the function. */
  method PrepareRun(host: Host, cfg: Config) returns (stop: Option<Abort>)
    modifies host
    ensures var prepared := Setup(old(host.fs), cfg);
      host.fs == prepared.fs && host.commands == old(host.commands) &&
      stop == (if prepared.Stopped? then Some(prepared.reason) else None)
  {
    if !IsDir(host.fs, cfg.inputDir) {
      return Some(InputNotADirectory);
    }
    if !IsDir(host.fs, cfg.outputDir) {
      var made := MakeDirs(host.fs, cfg.outputDir);
      if made.None? {
        return Some(OutputDirNotMade);
      }
      host.fs := made.value;
    }
    if ParseScheme(cfg.nameType).None? {
      return Some(InvalidNameType);
    }
    if !PositiveInt(cfg.coverage) {
      return Some(InvalidCoverage);
    }
    if !PositiveInt(cfg.threads) {
      return Some(InvalidThreads);
    }
    return None;
  }

  lemma AppendAssoc<T>(a: seq<T>, b: seq<T>, c: seq<T>)
    ensures a + b + c == a + (b + c)
  {
  }

  lemma DispatchStep(fs: FileSystem, tools: Tools, cfg: Config, pairs: seq<ReadPair>, i: nat)
    requires i < |pairs|
    ensures var before := DispatchAll(fs, tools, cfg, pairs[..i]);
      var run := Subsample(before.fs, tools, cfg.coverage, cfg.nameType, pairs[i].read1, pairs[i].read2, cfg.outputDir);
      DispatchAll(fs, tools, cfg, pairs[..i + 1]) == Progress(before.statuses + [run.status], run.fs, before.commands + run.commands)
  {
    assert pairs[..i + 1][..i] == pairs[..i];
  }

  /** Submits every pair and collects each outcome; an exception is caught
      and reported, and the loop goes on with the next pair. */
  method DispatchPairs(host: Host, tools: Tools, cfg: Config, pairs: seq<ReadPair>) returns (statuses: seq<Status>)
    modifies host
    ensures var done := DispatchAll(old(host.fs), tools, cfg, pairs);
      statuses == done.statuses && host.fs == done.fs && host.commands == old(host.commands) + done.commands
  {
    assert pairs[..0] == [];
    ghost var fs0, commands0 := host.fs, host.commands;
    ghost var done := DispatchAll(fs0, tools, cfg, []);
    statuses := [];
    for i := 0 to |pairs|
      invariant done == DispatchAll(fs0, tools, cfg, pairs[..i])
      invariant statuses == done.statuses && host.fs == done.fs && host.commands == commands0 + done.commands
    {
      ghost var run := Subsample(done.fs, tools, cfg.coverage, cfg.nameType, pairs[i].read1, pairs[i].read2, cfg.outputDir);
      DispatchStep(fs0, tools, cfg, pairs, i);
      var status := host.SubsampleReads(tools, cfg.coverage, cfg.nameType, pairs[i].read1, pairs[i].read2, cfg.outputDir);
      statuses := statuses + [status];
      AppendAssoc(commands0, done.commands, run.commands);
      done := Progress(done.statuses + [run.status], run.fs, done.commands + run.commands);
    }
    assert pairs[..|pairs|] == pairs;
  }

  method DownsamplePairedReads(host: Host, tools: Tools, cfg: Config) returns (report: Report)
    modifies host
    ensures var run := Batch(old(host.fs), tools, cfg);
      report == run.report && host.fs == run.fs && host.commands == old(host.commands) + run.commands
  {
    var stop := PrepareRun(host, cfg);
    if stop.Some? {
      return Exited(stop.value);
    }
    var pairs := FindReadPairs(host.fs, cfg.inputDir, cfg.exclude);
    if pairs == [] {
      return Exited(NoPairsFound);
    }
    var statuses := DispatchPairs(host, tools, cfg, pairs);
    return Finished(pairs, statuses);
  }
}
