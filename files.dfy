/** The part of the filesystem the two scripts observe, as a value: each
    directory with the entry names `os.listdir` reports for it, and each regular
    file with its bytes. */
module Files {
  import opened PyStr
  import opened PosixPath

  datatype FileSystem = FileSystem(dirs: map<Path, seq<string>>, files: map<Path, Bytes>)

  /** `os.path.isfile(p)` */
  predicate IsFile(fs: FileSystem, p: Path) {
    p in fs.files
  }

  /** `os.path.isdir(p)` */
  predicate IsDir(fs: FileSystem, p: Path) {
    p in fs.dirs
  }

  /** `os.path.exists(p)` */
  predicate Exists(fs: FileSystem, p: Path) {
    IsFile(fs, p) || IsDir(fs, p)
  }

  /** `os.stat(p).st_size` */
  function Size(fs: FileSystem, p: Path): nat
    requires IsFile(fs, p)
  {
    |fs.files[p]|
  }

  /** `fs2` still has every file and every directory of `fs1`. */
  predicate Keeps(fs1: FileSystem, fs2: FileSystem) {
    fs1.files.Keys <= fs2.files.Keys && fs1.dirs.Keys <= fs2.dirs.Keys
  }

  /** `os.makedirs(p)`: `None` when the call raises, which it does for the empty
      path (FileNotFoundError) and for a path that already exists (FileExistsError).
      The new directory is empty; its parents are not modelled. */
  function MakeDirs(fs: FileSystem, p: Path): (r: Option<FileSystem>)
    ensures r.Some? <==> p != [] && !Exists(fs, p)
    ensures r.Some? ==> IsDir(r.value, p) && r.value.dirs[p] == [] && r.value.files == fs.files
    ensures r.Some? ==> r.value.dirs.Keys == fs.dirs.Keys + {p} && forall q :: q in fs.dirs ==> r.value.dirs[q] == fs.dirs[q]
  {
    if p == [] || Exists(fs, p) then None
    else Some(fs.(dirs := fs.dirs[p := []]))
  }

  /** `shutil.copy(src, dst)` to a destination that is not a directory. */
  function Copy(fs: FileSystem, src: Path, dst: Path): FileSystem
    requires IsFile(fs, src)
  {
    fs.(files := fs.files[dst := fs.files[src]])
  }
}
