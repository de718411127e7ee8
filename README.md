# teaspoon / tablespoon in Dafny

A model of the two scripts of teaspoon, which subsample paired-end FASTQ reads
to a rough target coverage.

- `subsample_reads` (teaspoon.py) checks its arguments. It makes the output
  directory and names the two output files under one of three schemes
  (prepend, insert, extend). If either input has at most 100 bytes, it copies
  both files unchanged. Otherwise it runs `mash sketch` on both reads to
  estimate the genome size, then runs `rasusa reads` to subsample the pair.
- `downsample_paired_reads` (tablespoon.py) checks a run configuration. It
  finds the read pairs in an input directory and runs `subsample_reads` on
  every pair. A pair that raises is reported, and the run goes on with the
  other pairs.

The filesystem is a value (`Files.FileSystem`): directories with their listings,
and regular files with their bytes. The two external programs are function
parameters (`Teaspoon.Tools`). `mash` maps its standard input to its stderr
text. `rasusa` maps its arguments and input files to two output files, or
fails. rasusa cannot create its outputs under an output directory that is a
regular file, so it fails there whatever that function gives. A
`Teaspoon.Host` object holds the filesystem and the log of programs run.
`subsample_reads` is a method of this class (`Teaspoon.Host.SubsampleReads`).
`downsample_paired_reads` is a module-level method that takes a `Host`
(`Tablespoon.DownsamplePairedReads`), together with its steps `PrepareRun` and
`DispatchPairs`. Each method is proved equal to a pure specification:
`Teaspoon.Subsample` and `Tablespoon.Batch`.

Files:

- `pystr.dfy` holds the Python string operations the scripts use (`startswith`,
  `in`, `replace`, `split`, `strip`, `splitlines`, `str(int)`, `zfill`) and
  `os.path.join`/`basename`.
- `files.dfy` holds the filesystem.
- `naming.dfy` holds the padded coverage and the three naming schemes, each with
  its inverse.
- `mash.dfy` holds the scan of mash's stderr.
- `teaspoon.dfy` and `tablespoon.dfy` hold the two scripts.

## Model

| member | source | states |
|---|---|---|
| PyStr.DecimalRoundTrip | teaspoon.py:35 | `str(c)` reads back as `c` |
| Naming.Padded | teaspoon.py:35 | the padded coverage has at least three characters, all digits, and ends with `str(c)` |
| Naming.PaddedShape | teaspoon.py:35 | the padded coverage is `str(c)` with zeros in front up to length max(3, digits of c), never truncated, and reads back as `c` |
| Naming.PaddedDropZeros | teaspoon.py:35 | dropping the leading zeros of the padded coverage gives back `str(c)` |
| Naming.ParseScheme | teaspoon.py:26-27 | a scheme is recognised exactly for "prepend", "insert" and "extend" |
| Naming.PrependName | teaspoon.py:39-40 | the prepended name ends with the base name, after exactly `len(padded) + 4` characters |
| Naming.PrependRoundTrip | teaspoon.py:39-40 | stripping `padded + "xds-"` from a prepended name gives back the base name |
| PyStr.SplitFirstAt | teaspoon.py:45 | `split('_', 1)` splits at the first '_' and at no other |
| Naming.InsertName | teaspoon.py:43-50 | insert gives a name exactly when the base name has a '_' (otherwise indexing raises IndexError), and adds `len(padded) + 4` characters |
| Naming.InsertShape | teaspoon.py:43-50 | insert succeeds exactly when the name has a '_'; the output's text after its first '_' is the original text after the first '_', and the text before it is the original prefix, '-', the padded coverage and "xds" |
| Naming.InsertRoundTrip | teaspoon.py:43-50 | removing the inserted marker gives back the base name |
| Naming.ExtendName | teaspoon.py:53-60 | the substitution never makes a name shorter |
| Naming.ExtendRoundTrip | teaspoon.py:53-60 | deleting every inserted `.{padded}xds` that stands before a `.fastq` match gives back the base name |
| Naming.ExtendUnchangedIff | teaspoon.py:55 | extend returns a name unchanged exactly when no position matches `.fastq` with `.` as any character but newline |
| Naming.ExtendExample | teaspoon.py:55 | `S_R1_001.fastq.gz` becomes `S_R1_001.003xds.fastq.gz` |
| Naming.AlternativeOrderMatters | teaspoon.py:55 | an example: on `.fastq.gzfastq` the `.fastq.gz` alternative wins over `.fastq`, and the scan resumes after it, so the trailing `fastq` gets no mark |
| Naming.OutputNameInjective | teaspoon.py:37-60 | under each scheme, distinct base names get distinct output names |
| PosixPath.BasenameOfJoin | teaspoon.py:33-40 | the base name of `join(dir, name)` is `name` for a name without '/' |
| Naming.OutputNameNoSlash | teaspoon.py:37-60 | renaming a base name under any scheme adds no '/', so the output name is still a base name |
| Naming.ExtendNoSlash | teaspoon.py:53-60 | the `.fastq` substitution adds no '/' to a name |
| Teaspoon.OutputPaths | teaspoon.py:33-64 | naming succeeds exactly when the scheme renames both base names; a failure happens only under insert, with IndexError |
| Teaspoon.OutputPathsNamed | teaspoon.py:33-64 | each output path is `join(output_dir, new name)`, and its base name is the scheme's new name for that input's base name |
| Teaspoon.RenamedInDirectory | teaspoon.py:39-60 | a renamed base name joined to the output directory is the base name of the joined path |
| Teaspoon.OutputPathsDistinct | teaspoon.py:33-64 | inputs with different base names get different output paths, so the second output never overwrites the first |
| Teaspoon.NamingFailsIff | teaspoon.py:37-60 | naming the outputs raises only under insert, and there exactly when a base name has no '_' |
| Files.MakeDirs | teaspoon.py:30-31 | `os.makedirs` raises exactly for the empty path and an existing path; otherwise it adds an empty directory and changes nothing else |
| Teaspoon.ValidationFirst | teaspoon.py:22-27 | a missing read, then a coverage that is not a positive int, then an unknown name type raise, in this order, with the filesystem untouched and no program run |
| Teaspoon.ValidArgumentsOtherwise | teaspoon.py:22-64 | any other outcome means every check passed, so the fallback to prepend is unreachable |
| Teaspoon.OutputDirMadeBeforeNaming | teaspoon.py:29-50 | a missing output directory is made right after the checks, and is there even when naming then raises; the empty path raises |
| Teaspoon.SmallInputsCopied | teaspoon.py:68-75 | an input of at most 100 bytes means no program runs; r1 is copied to its output path, then r2 to its own, the second copy seeing the first; an output directory that is a regular file makes the first copy raise `NotADirectoryError` with nothing written |
| Teaspoon.OutputDirIsAFile | teaspoon.py:29-125 | an output directory that already exists as a regular file is not made, nothing is written, and the call raises |
| Teaspoon.MashSeesBothReads | teaspoon.py:78-93 | programs run only when both inputs are over 100 bytes; the first is mash with `-k 21 -m 10 -r -`, fed r1's bytes then r2's |
| Teaspoon.RasusaCommandLine | teaspoon.py:105-125 | rasusa runs exactly when mash's report holds both estimates, with the seed, the reported genome size, the requested coverage, the two output paths and the two inputs; a missing estimate raises before rasusa |
| Teaspoon.RasusaIgnoresReportedCoverage | teaspoon.py:101-117 | the coverage mash reports does not change the rasusa command |
| Teaspoon.OnlyOutputsWritten | teaspoon.py:68-125 | nothing is deleted, and the only files written are the two output paths |
| Teaspoon.RasusaArgv | teaspoon.py:109-124 | rasusa gets 14 arguments: `rasusa reads` first, `-s` and the fixed seed `11327544032246541232`, `-g` and the genome size, `-c` and the decimal text of the requested coverage, the two output paths each after `-o`, then the two inputs |
| Teaspoon.CopyBoth | teaspoon.py:68-75 | copying runs no program, deletes nothing and makes no directory |
| Teaspoon.Downsample | teaspoon.py:77-125 | the first program is always `mash sketch -o /dev/null -k 21 -m 10 -r -`, fed r1's bytes then r2's; nothing is deleted and no directory is made |
| Teaspoon.Process | teaspoon.py:33-125 | once the output directory exists, nothing is deleted and no directory is made |
| Teaspoon.Subsample | teaspoon.py:10-125 | nothing is deleted, and the only directory that can appear is the output directory |
| Teaspoon.Validate | teaspoon.py:22-27 | the checks pass only when both reads are regular files |
| Teaspoon.EnsureOutputDir | teaspoon.py:29-31 | making the output directory fails exactly for a missing empty path; otherwise something exists at the path afterwards, and it is a directory unless a regular file was already there; no file changes, no other directory appears and no listing changes |
| Teaspoon.ProcessStatus | teaspoon.py:37-125 | after the checks, the call raises on naming exactly when a name fails, and otherwise only on an output path equal to its input, on an output directory that is not a directory, or on the programs; it returns only when the output directory is a directory |
| Teaspoon.ProcessWrites | teaspoon.py:37-125 | after the checks, nothing is lost, no directory is made, and only the two output paths are written |
| Teaspoon.CopyBothWrites | teaspoon.py:68-75 | copying runs no program and writes only the two output paths; it succeeds, raises `SameFileError`, or raises `NotADirectoryError` exactly when r1's output path is not r1 and the output directory is not a directory |
| Teaspoon.CopyBothContents | teaspoon.py:73-74 | into an output directory, with neither output path equal to its input, the copy succeeds; afterwards r2's output path holds r2's bytes, or r1's when r1 was copied onto r2 itself; r1's output path holds r1's bytes unless both output paths are the same |
| Teaspoon.DownsampleWrites | teaspoon.py:77-125 | subsampling ends downsampled (only into an output directory), without estimates, or with rasusa failing, and writes only the two output paths |
| Teaspoon.DownsampleCommands | teaspoon.py:77-125 | mash runs first on both reads; rasusa runs next, with the reported genome size, exactly when the report holds both estimates |
| Teaspoon.ProcessCommands | teaspoon.py:68-125 | a program runs only when naming succeeded and both inputs are over 100 bytes |
| Teaspoon.Host.CopyReads | teaspoon.py:68-75 | the method's outcome, filesystem and programs run are those of `CopyBoth` |
| Teaspoon.Host.DownsampleReads | teaspoon.py:77-125 | the method's outcome, filesystem and programs run are those of `Downsample` |
| Teaspoon.Host.SubsampleReads | teaspoon.py:10-125 | the method's outcome, filesystem and programs run are those of `Subsample` |
| PyStr.SplitLinesTerminated | teaspoon.py:98 | `splitlines()` gives back the lines of a text where each line ends in "\n" |
| PyStr.StripShape | teaspoon.py:100 | `strip()` removes exactly the white space at both ends |
| MashOutput.FieldValue | teaspoon.py:100 | a parsed field has no ':' and no white space at either end |
| MashOutput.FieldValueOf | teaspoon.py:100 | the field is the stripped text between the first colon and the next one |
| MashOutput.LabelledLine | teaspoon.py:99-102 | a line `label: value` gives back `value` |
| MashOutput.PrefixesExclusive | teaspoon.py:99-101 | a genome-size line never counts as a coverage line |
| MashOutput.LastField | teaspoon.py:96-103 | a found field has no ':' and no white space at either end |
| MashOutput.EstimateOf | teaspoon.py:96-106 | both parsed estimates are free of ':' |
| MashOutput.LastFieldNone | teaspoon.py:96-103 | a field is missing exactly when no line carries its label |
| MashOutput.LastFieldAt | teaspoon.py:98-103 | the value comes from the last line with the label |
| MashOutput.EstimateMissing | teaspoon.py:105-106 | the parse fails exactly when one of the two labels is on no line |
| MashOutput.ParseStderr | teaspoon.py:96-106 | the loop over the lines computes `EstimateOf` of the lines of the stderr text |
| MashOutput.LaterLineWins | teaspoon.py:98-103 | of two genome-size lines, the later one is kept |
| MashOutput.ParseOverwrites | teaspoon.py:96-106 | from a report with the genome size given twice, the parse gives the second size and the coverage |
| Tablespoon.Setup | tablespoon.py:24-38 | the checks only ever add the output directory; when they pass, the input and output directories exist and the input listing is unchanged |
| Tablespoon.SetupOrder | tablespoon.py:24-38 | a non-directory input exits first, then a failing `makedirs`; the output directory is made before the name type, coverage and thread count are rejected, in that order |
| Tablespoon.PrepareRun | tablespoon.py:24-38 | the method stops for the reason, and leaves the filesystem, that `Setup` gives |
| Tablespoon.IsCandidate | tablespoon.py:43-45 | a name that passes the extension and exclusion filters contains `.fastq` |
| Tablespoon.IsRead1Name | tablespoon.py:47 | a first-read name holds a '_' |
| Tablespoon.PartnerPath | tablespoon.py:48-49 | the partner path has the same length and differs only where a '1' became a '2' |
| Tablespoon.PairOf | tablespoon.py:47-51 | a pair comes from a filtered first-read name joined to the input directory, and its second read is a file that differs only where a '1' became a '2' |
| Tablespoon.CollectPairs | tablespoon.py:41-51 | at most one pair per listed name |
| Tablespoon.CollectPairsAppend | tablespoon.py:41-51 | pairs keep listing order: a listing's pairs are its first part's pairs followed by the rest's |
| Tablespoon.PairsFromListing | tablespoon.py:42-51 | each pair comes from a listed name with a FASTQ extension, not starting with the exclusion prefix, holding `_1.` or `_R1_`; its second read is the partner path and is a file |
| Tablespoon.ListedPairFound | tablespoon.py:42-51 | each such name whose partner is a file gives its pair; the partner's own name is not filtered |
| Tablespoon.FindReadPairs | tablespoon.py:41-51 | the loop over the listing computes `CollectPairs` |
| PyStr.ReplaceAllOneToTwo | tablespoon.py:49 | replacing `_1.` by `_2.` (or `_R1_` by `_R2_`) only turns some '1' into '2' |
| PyStr.ReplaceAllChanges | tablespoon.py:49 | a replacement of a pattern that occurs changes the text |
| Tablespoon.PartnerDiffers | tablespoon.py:47-49 | the partner of a path holding `_1.` or `_R1_` differs from it, by '1' turned into '2' over the whole joined path |
| Tablespoon.PairsDistinct | tablespoon.py:47-51 | no pair has the same path as both reads |
| Tablespoon.NoPairsNoWork | tablespoon.py:53-55 | no pair means exit before any program runs or any file is written |
| Tablespoon.DispatchAll | tablespoon.py:72-80 | one outcome per pair, and no file or directory is lost |
| Tablespoon.DispatchAllAt | tablespoon.py:57-80 | pair i is processed on the filesystem the earlier pairs left, whatever their outcomes |
| Tablespoon.DispatchPairs | tablespoon.py:57-80 | the loop over the pairs computes `DispatchAll` |
| Tablespoon.EveryPairAttempted | tablespoon.py:53-84 | once pairs are found the run finishes, with one outcome per pair in listing order |
| Tablespoon.PairNamesHaveUnderscore | tablespoon.py:47-49 | both base names of a found pair hold a '_' |
| Tablespoon.PairRunStatus | tablespoon.py:57-69 | once the run is under way, a pair cannot fail on the configuration, the output directory (not made, or a regular file) or the insert scheme |
| Tablespoon.PairFailures | tablespoon.py:57-84 | a pair fails only on its files or on the programs, and a missing first read was not a regular file when the run started |
| Tablespoon.Batch | tablespoon.py:10-84 | nothing is deleted; an early exit runs no program and writes no file; a finished run has at least one pair and one outcome per pair |
| Tablespoon.DownsamplePairedReads | tablespoon.py:10-84 | the method's report, filesystem and programs run are those of `Batch` |

## Left out

- Running `mash` and `rasusa` is not modelled. Each program is a function
  parameter. A program that cannot be started, and rasusa's partial outputs
  after a failure, are not modelled.
- mash's exit status is ignored, as in the script. Decoding its stderr as UTF-8
  is assumed to succeed, so `UnicodeDecodeError` is not modelled.
- `float(...)`, `round(...)` and `str(genome_size)` are floating-point work.
  The two estimates are kept as the stripped text. A field that `float` rejects
  would raise `ValueError`; this is not modelled.
- Teaspoon.RasusaArgv: the genome size after `-g` is the text the caller
  passes; `Teaspoon.Downsample` passes the stripped text, as below.
- Teaspoon.RasusaCommandLine: the `-g` argument is the stripped genome-size
  text, where the script passes `str(float(text))` (for example `2900000.0`
  for `2.9e6`).
- `print` output, the argparse front ends and exit codes are not modelled.
  `Tablespoon.Exited` stands for exit status 1, whether from `sys.exit(1)` or
  from the exception `os.makedirs` lets escape.
- The `ThreadPoolExecutor` is modelled as a sequential loop over the pairs in
  listing order. Interleavings of concurrent pairs are not modelled. Neither is
  the `as_completed` order of the error messages.
- `os.makedirs` makes only the named directory. It fails only on the empty
  path and on an existing path. Missing parents, a parent that is a file, and
  permission errors are not modelled.
- Directory listings are fixed. Files and directories made during a run do not
  appear in any listing. `os.listdir` order is taken as given.
- `shutil.copy` to a destination that is itself an existing directory is not
  modelled, and neither are permission errors. A copy into an output directory
  that is a regular file is modelled: it raises `NotADirectoryError`
  (`Teaspoon.NotADirectory`). `SameFileError` is detected by equal path strings; the
  script compares files (`./a` and `a` are the same file).
- `Files.FileSystem` has no well-formedness invariant. A value may list `""`
  as a directory or file, or list one path as both. Real filesystems never
  reach such a state (`os.path.exists("")` is always false), and no operation
  of the model is claimed to behave like the scripts on such a value.
- Paths are POSIX strings without normalisation. Symbolic links are not
  modelled.
- A `bool` coverage is not modelled. Python's `True` passes the coverage check
  as an `int`, but `str(True)` is `"True"`, so the output names would begin
  `Truexds` and rasusa would get `-c True`. `Int(1)` gives `001xds` and `-c 1`
  instead. A `bool` thread count passes the thread check like `Int(1)`.
- Strings are sequences of code points. Text from `str(int)` uses ASCII digits.
