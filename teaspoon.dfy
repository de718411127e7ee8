/** `subsample_reads` (teaspoon.py): checks its arguments, makes the output
    directory, names the two output files, and then either copies two small
    inputs unchanged or runs `mash` to estimate the genome size and `rasusa` to
    subsample the reads to the requested coverage. */
module Teaspoon {
  import opened PyStr
  import opened PosixPath
  import opened Files
  import opened Naming
  import opened MashOutput

  /** An argument as Python sees it: an `int`, or a value of some other type. */
  datatype PyValue = Int(n: int) | NotInt

  predicate PositiveInt(v: PyValue) {
    v.Int? && v.n > 0
  }

  /** The exceptions `subsample_reads` lets escape. */
  datatype Error =
    | ReadMissing      // FileNotFoundError: r1 or r2 is not a regular file
    | BadCoverage      // ValueError: the coverage is not a positive int
    | BadNameType      // ValueError: the name type is none of the three schemes
    | OutputDirFailed  // raised by os.makedirs
    | NoUnderscore     // IndexError: insert scheme on a base name without '_'
    | SameFile         // shutil.SameFileError: an output path is its own input
    | NotADirectory    // NotADirectoryError: the output directory is a regular file
    | EstimateMissing  // ValueError: mash reported no genome size or no coverage
    | RasusaFailed     // CalledProcessError: rasusa exited with a non-zero status

  datatype Result<T> = Ok(value: T) | Err(error: Error)

  datatype Outcome = Copied | Downsampled
  datatype Status = Returned(outcome: Outcome) | Raised(error: Error)

  /** An external program run: its argument vector and its standard input. */
  datatype Command = Command(argv: seq<string>, stdin: Bytes)

  /** The external programs as functions of what they are given: `mash` maps
      its standard input to the decoded text of its stderr (its exit status is
      not checked); `rasusa` maps its argument vector and the contents of the
      two input files to the contents of the two output files, or to `None`
      when it exits with a non-zero status. rasusa cannot create its output
      files under a path that is a regular file, so it fails there whatever
      the function says. */
  datatype Tools = Tools(mash: Bytes -> string, rasusa: (seq<string>, Bytes, Bytes) -> Option<(Bytes, Bytes)>)

  /** One call: how it ended, the filesystem after it, the programs it ran. */
  datatype Run = Run(status: Status, fs: FileSystem, commands: seq<Command>)

  /** Inputs of at most this many bytes are copied, not subsampled. */
  const SmallFile := 100
  const RasusaSeed := "11327544032246541232"
  const MashArgv := ["mash", "sketch", "-o", "/dev/null", "-k", "21", "-m", "10", "-r", "-"]

  /** rasusa's argument vector: the fixed seed, the genome size and the
      coverage as text, both output paths after `-o`, then the two inputs. */
  function RasusaArgv(genomeSize: string, coverage: nat, r1Out: Path, r2Out: Path, r1: Path, r2: Path): (argv: seq<string>)
    ensures |argv| == 14 && argv[..2] == ["rasusa", "reads"] && argv[12..] == [r1, r2]
    ensures argv[8] == argv[10] == "-o" && argv[9] == r1Out && argv[11] == r2Out
    ensures argv[6] == "-c" && AllDigits(argv[7]) && DecimalValue(argv[7]) == coverage
    ensures argv[2..6] == ["-s", RasusaSeed, "-g", genomeSize]
  {
    DecimalRoundTrip(coverage);
    ["rasusa", "reads", "-s", RasusaSeed, "-g", genomeSize, "-c", DecimalString(coverage),
     "-o", r1Out, "-o", r2Out, r1, r2]
  }

  /** The checks at the top of the function, in their order: the first one
      that fails raises. On success, the coverage and the naming scheme. */
  function Validate(fs: FileSystem, coverage: PyValue, nameType: string, r1: Path, r2: Path): (r: Result<(nat, Scheme)>)
    ensures r.Ok? ==> IsFile(fs, r1) && IsFile(fs, r2)
  {
    if !IsFile(fs, r1) || !IsFile(fs, r2) then Err(ReadMissing)
    else if !PositiveInt(coverage) then Err(BadCoverage)
    else match ParseScheme(nameType)
      case None => Err(BadNameType)
      case Some(scheme) => Ok((coverage.n, scheme))
  }

  /** The filesystem once the output directory exists: `os.makedirs` is called
      only when nothing exists at that path yet, and fails only on the empty
      path. */
  function EnsureOutputDir(fs: FileSystem, outputDir: Path): (r: Result<FileSystem>)
    ensures r.Err? <==> outputDir == [] && !Exists(fs, outputDir)
    ensures r.Ok? ==> Exists(r.value, outputDir) && r.value.files == fs.files && Keeps(fs, r.value)
    ensures r.Ok? ==> (IsDir(r.value, outputDir) <==> IsDir(fs, outputDir) || !Exists(fs, outputDir))
    ensures r.Ok? ==> r.value.dirs.Keys <= fs.dirs.Keys + {outputDir} && forall q :: q in fs.dirs ==> r.value.dirs[q] == fs.dirs[q]
  {
    if Exists(fs, outputDir) then Ok(fs)
    else match MakeDirs(fs, outputDir)
      case None => Err(OutputDirFailed)
      case Some(fs1) => Ok(fs1)
  }

  /** The two output paths: each input's base name renamed by the scheme,
      joined to the output directory; r1's name is computed first. */
  function OutputPaths(scheme: Scheme, coverage: nat, outputDir: Path, r1: Path, r2: Path): (r: Result<(Path, Path)>)
    ensures r.Ok? <==> OutputName(scheme, Padded(coverage), Basename(r1)).Some? && OutputName(scheme, Padded(coverage), Basename(r2)).Some?
    ensures r.Err? ==> scheme == Insert && r.error == NoUnderscore
  {
    var padded := Padded(coverage);
    match (OutputName(scheme, padded, Basename(r1)), OutputName(scheme, padded, Basename(r2)))
    case (Some(n1), Some(n2)) => Ok((Join(outputDir, n1), Join(outputDir, n2)))
    case _ => Err(NoUnderscore)
  }

  /** A renamed base name joined to a directory is the base name of the result. */
  lemma RenamedInDirectory(scheme: Scheme, padded: string, outputDir: Path, name: string)
    requires '/' !in name && AllDigits(padded) && OutputName(scheme, padded, name).Some?
    ensures Basename(Join(outputDir, OutputName(scheme, padded, name).value)) == OutputName(scheme, padded, name).value
  {
    OutputNameNoSlash(scheme, padded, name);
    BasenameOfJoin(outputDir, OutputName(scheme, padded, name).value);
  }

  /** Each output path lies directly in the output directory, and its base
      name is the scheme's new name for that input's base name. */
  lemma OutputPathsNamed(scheme: Scheme, coverage: nat, outputDir: Path, r1: Path, r2: Path)
    ensures var r := OutputPaths(scheme, coverage, outputDir, r1, r2);
      r.Ok? ==> Basename(r.value.0) == OutputName(scheme, Padded(coverage), Basename(r1)).value && r.value.0 == Join(outputDir, Basename(r.value.0))
    ensures var r := OutputPaths(scheme, coverage, outputDir, r1, r2);
      r.Ok? ==> Basename(r.value.1) == OutputName(scheme, Padded(coverage), Basename(r2)).value && r.value.1 == Join(outputDir, Basename(r.value.1))
  {
    var r := OutputPaths(scheme, coverage, outputDir, r1, r2);
    if r.Ok? {
      var padded := Padded(coverage);
      var n1, n2 := OutputName(scheme, padded, Basename(r1)).value, OutputName(scheme, padded, Basename(r2)).value;
      assert r.value == (Join(outputDir, n1), Join(outputDir, n2));
      assert Basename(Join(outputDir, n1)) == n1 by { RenamedInDirectory(scheme, padded, outputDir, Basename(r1)); }
      assert Basename(Join(outputDir, n2)) == n2 by { RenamedInDirectory(scheme, padded, outputDir, Basename(r2)); }
    }
  }

  /** Inputs with different base names never share an output path, so the
      second output cannot overwrite the first. */
  lemma OutputPathsDistinct(scheme: Scheme, coverage: nat, outputDir: Path, r1: Path, r2: Path)
    requires Basename(r1) != Basename(r2)
    ensures var r := OutputPaths(scheme, coverage, outputDir, r1, r2); r.Ok? ==> r.value.0 != r.value.1
  {
    var r := OutputPaths(scheme, coverage, outputDir, r1, r2);
    if r.Ok? && r.value.0 == r.value.1 {
      OutputPathsNamed(scheme, coverage, outputDir, r1, r2);
      OutputNameInjective(scheme, Padded(coverage), Basename(r1), Basename(r2));
    }
  }

  /** `shutil.copy(r1, r1Out)` then `shutil.copy(r2, r2Out)`; the second copy
      sees the filesystem the first one left. A copy first rejects an output
      path equal to its input, then fails to open an output path under an
      output directory that is a regular file. */
  function CopyBoth(fs: FileSystem, r1: Path, r2: Path, outputDir: Path, r1Out: Path, r2Out: Path): (run: Run)
    requires IsFile(fs, r1) && IsFile(fs, r2)
    ensures run.commands == [] && Keeps(fs, run.fs) && run.fs.dirs == fs.dirs
  {
    if r1Out == r1 then Run(Raised(SameFile), fs, [])
    else if !IsDir(fs, outputDir) then Run(Raised(NotADirectory), fs, [])
    else
      var fs1 := Copy(fs, r1, r1Out);
      if r2Out == r2 then Run(Raised(SameFile), fs1, [])
      else Run(Returned(Copied), Copy(fs1, r2, r2Out), [])
  }

  /** mash on both reads concatenated, the stderr parse, then rasusa, which
      fails when the output directory is not a directory. */
  function Downsample(fs: FileSystem, tools: Tools, coverage: nat, r1: Path, r2: Path, outputDir: Path, r1Out: Path, r2Out: Path): (run: Run)
    requires IsFile(fs, r1) && IsFile(fs, r2)
    ensures run.commands != [] && run.commands[0] == Command(MashArgv, fs.files[r1] + fs.files[r2])
    ensures Keeps(fs, run.fs) && run.fs.dirs == fs.dirs
  {
    var stdin := fs.files[r1] + fs.files[r2];
    var mash := Command(MashArgv, stdin);
    match EstimateOf(SplitLines(tools.mash(stdin)))
    case None => Run(Raised(EstimateMissing), fs, [mash])
    case Some(estimate) =>
      var argv := RasusaArgv(estimate.genomeSize, coverage, r1Out, r2Out, r1, r2);
      var commands := [mash, Command(argv, [])];
      if !IsDir(fs, outputDir) then Run(Raised(RasusaFailed), fs, commands)
      else match tools.rasusa(argv, fs.files[r1], fs.files[r2])
      case None => Run(Raised(RasusaFailed), fs, commands)
      case Some((out1, out2)) => Run(Returned(Downsampled), fs.(files := fs.files[r1Out := out1][r2Out := out2]), commands)
  }

  /** Everything after the output directory exists: naming the outputs, then
      copying two small inputs or subsampling. */
  function Process(fs: FileSystem, tools: Tools, coverage: nat, scheme: Scheme, r1: Path, r2: Path, outputDir: Path): (run: Run)
    requires IsFile(fs, r1) && IsFile(fs, r2)
    ensures Keeps(fs, run.fs) && run.fs.dirs == fs.dirs
  {
    match OutputPaths(scheme, coverage, outputDir, r1, r2)
    case Err(e) => Run(Raised(e), fs, [])
    case Ok((r1Out, r2Out)) =>
      if Size(fs, r1) <= SmallFile || Size(fs, r2) <= SmallFile then CopyBoth(fs, r1, r2, outputDir, r1Out, r2Out)
      else Downsample(fs, tools, coverage, r1, r2, outputDir, r1Out, r2Out)
  }

  /** The whole of `subsample_reads(coverage, nameType, r1, r2, outputDir)`. */
  function Subsample(fs: FileSystem, tools: Tools, coverage: PyValue, nameType: string, r1: Path, r2: Path, outputDir: Path): (run: Run)
    ensures Keeps(fs, run.fs) && run.fs.dirs.Keys <= fs.dirs.Keys + {outputDir}
  {
    match Validate(fs, coverage, nameType, r1, r2)
    case Err(e) => Run(Raised(e), fs, [])
    case Ok((c, scheme)) =>
      match EnsureOutputDir(fs, outputDir)
      case Err(e) => Run(Raised(e), fs, [])
      case Ok(fs1) => Process(fs1, tools, c, scheme, r1, r2, outputDir)
  }

  // ---------------------------------------------------------------- properties

  /** The two output paths, once the arguments pass the checks. */
  function Targets(fs: FileSystem, coverage: PyValue, nameType: string, r1: Path, r2: Path, outputDir: Path): set<Path> {
    match Validate(fs, coverage, nameType, r1, r2)
    case Err(_) => {}
    case Ok((c, scheme)) =>
      match OutputPaths(scheme, c, outputDir, r1, r2)
      case Err(_) => {}
      case Ok((r1Out, r2Out)) => {r1Out, r2Out}
  }

  /** Naming the outputs raises only under the insert scheme, and there
      exactly when one of the base names has no '_'. */
  lemma NamingFailsIff(scheme: Scheme, coverage: nat, outputDir: Path, r1: Path, r2: Path)
    ensures OutputPaths(scheme, coverage, outputDir, r1, r2).Err? <==>
      scheme == Insert && ('_' !in Basename(r1) || '_' !in Basename(r2))
  {
    var padded := Padded(coverage);
    PaddedShape(coverage);
    if scheme == Insert {
      InsertShape(Basename(r1), padded);
      InsertShape(Basename(r2), padded);
    }
  }

  /** The arguments are checked in order, before anything else happens: a
      failed check raises with the filesystem untouched and no program run. */
  lemma ValidationFirst(fs: FileSystem, tools: Tools, coverage: PyValue, nameType: string, r1: Path, r2: Path, outputDir: Path)
    ensures var run := Subsample(fs, tools, coverage, nameType, r1, r2, outputDir);
      (!IsFile(fs, r1) || !IsFile(fs, r2) ==> run == Run(Raised(ReadMissing), fs, [])) &&
      (IsFile(fs, r1) && IsFile(fs, r2) && !PositiveInt(coverage) ==> run == Run(Raised(BadCoverage), fs, [])) &&
      (IsFile(fs, r1) && IsFile(fs, r2) && PositiveInt(coverage) && ParseScheme(nameType).None? ==>
        run == Run(Raised(BadNameType), fs, []))
  {
  }

  /** Past the checks and the output directory, a call raises only on
      naming (exactly when the names fail), on an output path that is its own
      input, on an output directory that is a regular file, or on the
      programs; it returns only when the output directory is a directory. */
  lemma ProcessStatus(fs: FileSystem, tools: Tools, coverage: nat, scheme: Scheme, r1: Path, r2: Path, outputDir: Path)
    requires IsFile(fs, r1) && IsFile(fs, r2)
    ensures var status := Process(fs, tools, coverage, scheme, r1, r2, outputDir).status;
      (status == Raised(NoUnderscore) <==> OutputPaths(scheme, coverage, outputDir, r1, r2).Err?) &&
      (status.Returned? || status.error == NoUnderscore || status.error == SameFile ||
       status.error == NotADirectory || status.error == EstimateMissing || status.error == RasusaFailed) &&
      (status == Raised(NotADirectory) ==> !IsDir(fs, outputDir)) &&
      (status.Returned? ==> IsDir(fs, outputDir))
  {
    match OutputPaths(scheme, coverage, outputDir, r1, r2)
    case Err(_) =>
    case Ok((r1Out, r2Out)) =>
      if Size(fs, r1) <= SmallFile || Size(fs, r2) <= SmallFile {
        CopyBothWrites(fs, r1, r2, outputDir, r1Out, r2Out);
      } else {
        DownsampleWrites(fs, tools, coverage, r1, r2, outputDir, r1Out, r2Out);
      }
  }

  /** Conversely, any other outcome means that every check passed, so the
      name type is one of the three schemes and the fallback to prepend for an
      unknown name type is never reached. */
  lemma ValidArgumentsOtherwise(fs: FileSystem, tools: Tools, coverage: PyValue, nameType: string, r1: Path, r2: Path, outputDir: Path)
    ensures var run := Subsample(fs, tools, coverage, nameType, r1, r2, outputDir);
      run.status !in {Raised(ReadMissing), Raised(BadCoverage), Raised(BadNameType)} ==>
        IsFile(fs, r1) && IsFile(fs, r2) && PositiveInt(coverage) &&
        (nameType == "prepend" || nameType == "insert" || nameType == "extend")
  {
  }

  /** What `Process` writes: no file or directory is lost, and only the two
      output paths change. */
  lemma ProcessWrites(fs: FileSystem, tools: Tools, coverage: nat, scheme: Scheme, r1: Path, r2: Path, outputDir: Path)
    requires IsFile(fs, r1) && IsFile(fs, r2)
    ensures var run := Process(fs, tools, coverage, scheme, r1, r2, outputDir);
      var paths := OutputPaths(scheme, coverage, outputDir, r1, r2);
      Keeps(fs, run.fs) && run.fs.dirs == fs.dirs &&
      forall p :: p in run.fs.files && (p !in fs.files || run.fs.files[p] != fs.files[p]) ==>
        paths.Ok? && (p == paths.value.0 || p == paths.value.1)
  {
    match OutputPaths(scheme, coverage, outputDir, r1, r2)
    case Err(_) =>
    case Ok((r1Out, r2Out)) =>
      if Size(fs, r1) <= SmallFile || Size(fs, r2) <= SmallFile {
        CopyBothWrites(fs, r1, r2, outputDir, r1Out, r2Out);
      } else {
        DownsampleWrites(fs, tools, coverage, r1, r2, outputDir, r1Out, r2Out);
      }
  }

  lemma CopyBothWrites(fs: FileSystem, r1: Path, r2: Path, outputDir: Path, r1Out: Path, r2Out: Path)
    requires IsFile(fs, r1) && IsFile(fs, r2)
    ensures var run := CopyBoth(fs, r1, r2, outputDir, r1Out, r2Out);
      (run.status == Returned(Copied) || run.status == Raised(SameFile) || run.status == Raised(NotADirectory)) &&
      (run.status == Raised(NotADirectory) <==> r1Out != r1 && !IsDir(fs, outputDir)) &&
      (run.status == Returned(Copied) ==> IsDir(fs, outputDir)) &&
      Keeps(fs, run.fs) && run.fs.dirs == fs.dirs && run.commands == [] &&
      forall p :: p in run.fs.files && p != r1Out && p != r2Out ==> p in fs.files && run.fs.files[p] == fs.files[p]
  {
  }

  lemma DownsampleWrites(fs: FileSystem, tools: Tools, c: nat, r1: Path, r2: Path, outputDir: Path, r1Out: Path, r2Out: Path)
    requires IsFile(fs, r1) && IsFile(fs, r2)
    ensures var run := Downsample(fs, tools, c, r1, r2, outputDir, r1Out, r2Out);
      (run.status == Returned(Downsampled) || run.status == Raised(EstimateMissing) || run.status == Raised(RasusaFailed)) &&
      (run.status == Returned(Downsampled) ==> IsDir(fs, outputDir)) &&
      Keeps(fs, run.fs) && run.fs.dirs == fs.dirs &&
      forall p :: p in run.fs.files && p != r1Out && p != r2Out ==> p in fs.files && run.fs.files[p] == fs.files[p]
  {
  }

  /** A missing output directory is made right after the checks, so it is
      there even when naming the outputs raises afterwards. */
  lemma OutputDirMadeBeforeNaming(fs: FileSystem, tools: Tools, coverage: PyValue, nameType: string, r1: Path, r2: Path, outputDir: Path)
    requires Validate(fs, coverage, nameType, r1, r2).Ok?
    ensures var run := Subsample(fs, tools, coverage, nameType, r1, r2, outputDir);
      (outputDir == [] && !Exists(fs, outputDir) ==> run == Run(Raised(OutputDirFailed), fs, [])) &&
      (outputDir != [] ==> Exists(run.fs, outputDir))
  {
    var (c, scheme) := Validate(fs, coverage, nameType, r1, r2).value;
    match EnsureOutputDir(fs, outputDir)
    case Err(_) =>
    case Ok(fs1) =>
      ProcessWrites(fs1, tools, c, scheme, r1, r2, outputDir);
  }

  /** An output directory that already exists as a regular file is left as it
      is: nothing is written, and the call raises. */
  lemma OutputDirIsAFile(fs: FileSystem, tools: Tools, coverage: PyValue, nameType: string, r1: Path, r2: Path, outputDir: Path)
    requires IsFile(fs, outputDir) && !IsDir(fs, outputDir)
    ensures var run := Subsample(fs, tools, coverage, nameType, r1, r2, outputDir);
      run.fs == fs && run.status.Raised? && run.status != Raised(OutputDirFailed)
  {
    match Validate(fs, coverage, nameType, r1, r2)
    case Err(_) =>
    case Ok((c, scheme)) =>
      assert EnsureOutputDir(fs, outputDir) == Ok(fs);
      ProcessStatus(fs, tools, c, scheme, r1, r2, outputDir);
      match OutputPaths(scheme, c, outputDir, r1, r2)
      case Err(_) =>
      case Ok((r1Out, r2Out)) =>
        if Size(fs, r1) <= SmallFile || Size(fs, r2) <= SmallFile {
          CopyBothWrites(fs, r1, r2, outputDir, r1Out, r2Out);
        } else {
          DownsampleWrites(fs, tools, c, r1, r2, outputDir, r1Out, r2Out);
        }
  }

  /** When either input has at most 100 bytes, no program runs: r1 is copied
      to its output path, then r2 to its own. The second copy reads r2 after
      the first copy, so it copies r1's bytes when r1's output path is r2.
      When the output directory is a regular file, the first copy raises and
      nothing is written. */
  lemma SmallInputsCopied(fs: FileSystem, tools: Tools, coverage: PyValue, nameType: string, r1: Path, r2: Path, outputDir: Path)
    requires Validate(fs, coverage, nameType, r1, r2).Ok?
    requires Size(fs, r1) <= SmallFile || Size(fs, r2) <= SmallFile
    requires EnsureOutputDir(fs, outputDir).Ok?
    requires var (c, scheme) := Validate(fs, coverage, nameType, r1, r2).value;
      OutputPaths(scheme, c, outputDir, r1, r2).Ok?
    ensures var (c, scheme) := Validate(fs, coverage, nameType, r1, r2).value;
      var (r1Out, r2Out) := OutputPaths(scheme, c, outputDir, r1, r2).value;
      var run := Subsample(fs, tools, coverage, nameType, r1, r2, outputDir);
      run.commands == [] &&
      (r1Out != r1 && !IsDir(fs, outputDir) && Exists(fs, outputDir) ==>
        run.status == Raised(NotADirectory) && run.fs == fs) &&
      (r1Out != r1 && r2Out != r2 && (IsDir(fs, outputDir) || !Exists(fs, outputDir)) ==>
        run.status == Returned(Copied) &&
        run.fs.files[r2Out] == (if r1Out == r2 then fs.files[r1] else fs.files[r2]) &&
        (r1Out != r2Out ==> run.fs.files[r1Out] == fs.files[r1]))
  {
    var (c, scheme) := Validate(fs, coverage, nameType, r1, r2).value;
    var fs1 := EnsureOutputDir(fs, outputDir).value;
    var (r1Out, r2Out) := OutputPaths(scheme, c, outputDir, r1, r2).value;
    assert Subsample(fs, tools, coverage, nameType, r1, r2, outputDir) == Process(fs1, tools, c, scheme, r1, r2, outputDir);
    assert Process(fs1, tools, c, scheme, r1, r2, outputDir) == CopyBoth(fs1, r1, r2, outputDir, r1Out, r2Out);
    CopyBothWrites(fs1, r1, r2, outputDir, r1Out, r2Out);
    CopyBothContents(fs1, r1, r2, outputDir, r1Out, r2Out);
  }

  lemma CopyBothContents(fs: FileSystem, r1: Path, r2: Path, outputDir: Path, r1Out: Path, r2Out: Path)
    requires IsFile(fs, r1) && IsFile(fs, r2)
    ensures var run := CopyBoth(fs, r1, r2, outputDir, r1Out, r2Out);
      r1Out != r1 && r2Out != r2 && IsDir(fs, outputDir) ==>
        run.status == Returned(Copied) &&
        run.fs.files[r2Out] == (if r1Out == r2 then fs.files[r1] else fs.files[r2]) &&
        (r1Out != r2Out ==> run.fs.files[r1Out] == fs.files[r1])
  {
  }

  /** The programs `Downsample` runs: mash on both reads, then rasusa exactly
      when mash's report carries both estimates. */
  lemma DownsampleCommands(fs: FileSystem, tools: Tools, c: nat, r1: Path, r2: Path, outputDir: Path, r1Out: Path, r2Out: Path)
    requires IsFile(fs, r1) && IsFile(fs, r2)
    ensures var run := Downsample(fs, tools, c, r1, r2, outputDir, r1Out, r2Out);
      var report := EstimateOf(SplitLines(tools.mash(fs.files[r1] + fs.files[r2])));
      run.commands != [] && run.commands[0] == Command(MashArgv, fs.files[r1] + fs.files[r2]) &&
      (report.None? <==> run.status == Raised(EstimateMissing)) &&
      (report.None? ==> |run.commands| == 1) &&
      (report.Some? ==>
        run.commands == [run.commands[0], Command(RasusaArgv(report.value.genomeSize, c, r1Out, r2Out, r1, r2), [])])
  {
  }

  /** Programs run only in `Downsample`, on two inputs over 100 bytes each. */
  lemma ProcessCommands(fs: FileSystem, tools: Tools, coverage: nat, scheme: Scheme, r1: Path, r2: Path, outputDir: Path)
    requires IsFile(fs, r1) && IsFile(fs, r2)
    ensures var run := Process(fs, tools, coverage, scheme, r1, r2, outputDir);
      var paths := OutputPaths(scheme, coverage, outputDir, r1, r2);
      run.commands != [] ==>
        Size(fs, r1) > SmallFile && Size(fs, r2) > SmallFile && paths.Ok? &&
        run == Downsample(fs, tools, coverage, r1, r2, outputDir, paths.value.0, paths.value.1)
  {
    match OutputPaths(scheme, coverage, outputDir, r1, r2)
    case Err(_) =>
    case Ok((r1Out, r2Out)) =>
      if Size(fs, r1) <= SmallFile || Size(fs, r2) <= SmallFile {
        CopyBothWrites(fs, r1, r2, outputDir, r1Out, r2Out);
      }
  }

  /** Programs run only for two inputs over 100 bytes each; the first is mash,
      fed both reads one after the other. */
  lemma MashSeesBothReads(fs: FileSystem, tools: Tools, coverage: PyValue, nameType: string, r1: Path, r2: Path, outputDir: Path)
    ensures var run := Subsample(fs, tools, coverage, nameType, r1, r2, outputDir);
      run.commands != [] ==>
        IsFile(fs, r1) && IsFile(fs, r2) && Size(fs, r1) > SmallFile && Size(fs, r2) > SmallFile &&
        run.commands[0] == Command(MashArgv, fs.files[r1] + fs.files[r2])
  {
    match Validate(fs, coverage, nameType, r1, r2)
    case Err(_) =>
    case Ok((c, scheme)) =>
      match EnsureOutputDir(fs, outputDir)
      case Err(_) =>
      case Ok(fs1) =>
        ProcessCommands(fs1, tools, c, scheme, r1, r2, outputDir);
        var paths := OutputPaths(scheme, c, outputDir, r1, r2);
        if paths.Ok? {
          DownsampleCommands(fs1, tools, c, r1, r2, outputDir, paths.value.0, paths.value.1);
        }
  }

  /** rasusa runs exactly when mash's report carries both estimates; it gets
      the reported genome size, the requested coverage and the two output
      paths, and a report missing either estimate raises before it. */
  lemma RasusaCommandLine(fs: FileSystem, tools: Tools, coverage: PyValue, nameType: string, r1: Path, r2: Path, outputDir: Path)
    ensures var run := Subsample(fs, tools, coverage, nameType, r1, r2, outputDir);
      run.commands != [] ==>
        var report := EstimateOf(SplitLines(tools.mash(fs.files[r1] + fs.files[r2])));
        var (c, scheme) := Validate(fs, coverage, nameType, r1, r2).value;
        var (r1Out, r2Out) := OutputPaths(scheme, c, outputDir, r1, r2).value;
        (report.None? <==> run.status == Raised(EstimateMissing)) &&
        (report.None? ==> |run.commands| == 1) &&
        (report.Some? ==>
          |run.commands| == 2 &&
          run.commands[1] == Command(RasusaArgv(report.value.genomeSize, coverage.n, r1Out, r2Out, r1, r2), []))
  {
    match Validate(fs, coverage, nameType, r1, r2)
    case Err(_) =>
    case Ok((c, scheme)) =>
      match EnsureOutputDir(fs, outputDir)
      case Err(_) =>
      case Ok(fs1) =>
        ProcessCommands(fs1, tools, c, scheme, r1, r2, outputDir);
        var paths := OutputPaths(scheme, c, outputDir, r1, r2);
        if paths.Ok? {
          DownsampleCommands(fs1, tools, c, r1, r2, outputDir, paths.value.0, paths.value.1);
        }
  }

  /** The coverage mash reports is parsed but unused: two reports with the
      same genome size give the same rasusa command. */
  lemma RasusaIgnoresReportedCoverage(fs: FileSystem, t1: Tools, t2: Tools, coverage: PyValue, nameType: string, r1: Path, r2: Path, outputDir: Path)
    requires IsFile(fs, r1) && IsFile(fs, r2)
    requires var stdin := fs.files[r1] + fs.files[r2];
      var e1, e2 := EstimateOf(SplitLines(t1.mash(stdin))), EstimateOf(SplitLines(t2.mash(stdin)));
      e1.Some? && e2.Some? && e1.value.genomeSize == e2.value.genomeSize
    ensures var run1, run2 := Subsample(fs, t1, coverage, nameType, r1, r2, outputDir), Subsample(fs, t2, coverage, nameType, r1, r2, outputDir);
      run1.commands == run2.commands
  {
    match Validate(fs, coverage, nameType, r1, r2)
    case Err(_) =>
    case Ok((c, scheme)) =>
      match EnsureOutputDir(fs, outputDir)
      case Err(_) =>
      case Ok(fs1) =>
        match OutputPaths(scheme, c, outputDir, r1, r2)
        case Err(_) =>
        case Ok((r1Out, r2Out)) =>
          if Size(fs1, r1) > SmallFile && Size(fs1, r2) > SmallFile {
            DownsampleCommands(fs1, t1, c, r1, r2, outputDir, r1Out, r2Out);
            DownsampleCommands(fs1, t2, c, r1, r2, outputDir, r1Out, r2Out);
          }
  }

  /** Nothing is deleted, and the only files written are the two output paths. */
  lemma OnlyOutputsWritten(fs: FileSystem, tools: Tools, coverage: PyValue, nameType: string, r1: Path, r2: Path, outputDir: Path)
    ensures var run := Subsample(fs, tools, coverage, nameType, r1, r2, outputDir);
      Keeps(fs, run.fs) &&
      forall p :: p in run.fs.files && (p !in fs.files || run.fs.files[p] != fs.files[p]) ==>
        p in Targets(fs, coverage, nameType, r1, r2, outputDir)
  {
    match Validate(fs, coverage, nameType, r1, r2)
    case Err(_) =>
    case Ok((c, scheme)) =>
      match EnsureOutputDir(fs, outputDir)
      case Err(_) =>
      case Ok(fs1) =>
        ProcessWrites(fs1, tools, c, scheme, r1, r2, outputDir);
  }

  /** The machine the scripts run on: its filesystem and the external programs
      run so far. */
  class Host {
    var fs: FileSystem
    var commands: seq<Command>

    constructor (fs0: FileSystem)
      ensures fs == fs0 && commands == []
    {
      fs := fs0;
      commands := [];
    }

    method SubsampleReads(tools: Tools, coverage: PyValue, nameType: string, r1: Path, r2: Path, outputDir: Path)
      returns (status: Status)
      modifies this
      ensures var run := Subsample(old(fs), tools, coverage, nameType, r1, r2, outputDir);
        status == run.status && fs == run.fs && commands == old(commands) + run.commands
    {
      if !IsFile(fs, r1) || !IsFile(fs, r2) {
        return Raised(ReadMissing);
      }
      if !PositiveInt(coverage) {
        return Raised(BadCoverage);
      }
      var scheme := ParseScheme(nameType);
      if scheme.None? {
        return Raised(BadNameType);
      }
      ghost var fs0 := fs;
      if !Exists(fs, outputDir) {
        var made := MakeDirs(fs, outputDir);
        if made.None? {
          return Raised(OutputDirFailed);
        }
        fs := made.value;
      }
      assert EnsureOutputDir(fs0, outputDir) == Ok(fs);
      var padded := Padded(coverage.n);
      var r1Name := OutputName(scheme.value, padded, Basename(r1));
      var r2Name := OutputName(scheme.value, padded, Basename(r2));
      if r1Name.None? || r2Name.None? {
        return Raised(NoUnderscore);
      }
      var r1Out, r2Out := Join(outputDir, r1Name.value), Join(outputDir, r2Name.value);
      assert OutputPaths(scheme.value, coverage.n, outputDir, r1, r2) == Ok((r1Out, r2Out));
      if Size(fs, r1) <= SmallFile || Size(fs, r2) <= SmallFile {
        status := CopyReads(r1, r2, outputDir, r1Out, r2Out);
      } else {
        status := DownsampleReads(tools, coverage.n, r1, r2, outputDir, r1Out, r2Out);
      }
    }

    /** Two small inputs are copied unchanged. */
    method CopyReads(r1: Path, r2: Path, outputDir: Path, r1Out: Path, r2Out: Path) returns (status: Status)
      requires IsFile(fs, r1) && IsFile(fs, r2)
      modifies this
      ensures var run := CopyBoth(old(fs), r1, r2, outputDir, r1Out, r2Out);
        status == run.status && fs == run.fs && commands == old(commands) + run.commands
    {
      if r1Out == r1 {
        return Raised(SameFile);
      }
      if !IsDir(fs, outputDir) {
        return Raised(NotADirectory);
      }
      fs := Copy(fs, r1, r1Out);
      if r2Out == r2 {
        return Raised(SameFile);
      }
      fs := Copy(fs, r2, r2Out);
      return Returned(Copied);
    }

    /** mash, the parse of its stderr, and rasusa. */
    method DownsampleReads(tools: Tools, coverage: nat, r1: Path, r2: Path, outputDir: Path, r1Out: Path, r2Out: Path) returns (status: Status)
      requires IsFile(fs, r1) && IsFile(fs, r2)
      modifies this
      ensures var run := Downsample(old(fs), tools, coverage, r1, r2, outputDir, r1Out, r2Out);
        status == run.status && fs == run.fs && commands == old(commands) + run.commands
    {
      var stdin := fs.files[r1] + fs.files[r2];
      var mash := Command(MashArgv, stdin);
      commands := commands + [mash];
      var estimate := ParseStderr(tools.mash(stdin));
      if estimate.None? {
        return Raised(EstimateMissing);
      }
      var argv := RasusaArgv(estimate.value.genomeSize, coverage, r1Out, r2Out, r1, r2);
      commands := commands + [Command(argv, [])];
      assert commands == old(commands) + [mash, Command(argv, [])];
      if !IsDir(fs, outputDir) {
        return Raised(RasusaFailed);
      }
      var outputs := tools.rasusa(argv, fs.files[r1], fs.files[r2]);
      if outputs.None? {
        return Raised(RasusaFailed);
      }
      fs := fs.(files := fs.files[r1Out := outputs.value.0][r2Out := outputs.value.1]);
      return Returned(Downsampled);
    }
  }
}
