/** The destination filesystem as seen by `writeTextToFile` and `removeFile`:
    a map from complete path (`folder + "/" + filename`) to file content, and
    the set of folders that exist. */
module FileStore {
  import opened Common

  /** The complete path the source builds by string concatenation. */
  function Path(folder: string, filename: string): string {
    folder + "/" + filename
  }

  /** Within one folder, distinct filenames give distinct paths. */
  lemma PathInjective(folder: string, f: string, g: string)
    ensures Path(folder, f) == Path(folder, g) <==> f == g
  {
    if Path(folder, f) == Path(folder, g) {
      assert f == Path(folder, f)[|folder| + 1..];
      assert g == Path(folder, g)[|folder| + 1..];
    }
  }

  datatype FsState = FsState(files: map<string, string>, dirs: set<string>)

  /** writeTextToFile: create `folder` when it does not exist, then overwrite
      the file. `mkdirOk` is whether `os.makedirs(folder)` would succeed; when
      it fails the source re-raises (its `errno` check itself fails, since
      `errno` is never imported), so None means a fatal error with the state
      unchanged. */
  function Write(s: FsState, folder: string, filename: string, data: string, mkdirOk: bool): (r: Option<FsState>)
    ensures r.None? <==> folder !in s.dirs && !mkdirOk
    ensures r.Some? ==> r.value.dirs == s.dirs + {folder}
    ensures r.Some? ==> Path(folder, filename) in r.value.files && r.value.files[Path(folder, filename)] == data
    ensures r.Some? ==> r.value.files - {Path(folder, filename)} == s.files - {Path(folder, filename)}
  {
    if folder !in s.dirs && !mkdirOk then None
    else Some(FsState(s.files[Path(folder, filename) := data], s.dirs + {folder}))
  }

  /** removeFile: delete the file when it is present; otherwise only log. */
  function Remove(s: FsState, folder: string, filename: string): (r: FsState)
    ensures r.dirs == s.dirs
    ensures Path(folder, filename) !in r.files
    ensures r.files - {Path(folder, filename)} == s.files - {Path(folder, filename)}
    ensures Path(folder, filename) !in s.files ==> r == s
  {
    FsState(s.files - {Path(folder, filename)}, s.dirs)
  }

  /** Repeating a successful write leaves the same state, whatever makedirs
      would now do. */
  lemma WriteIdempotent(s: FsState, folder: string, filename: string, data: string, mkdirOk: bool, mkdirOk': bool)
    requires Write(s, folder, filename, data, mkdirOk).Some?
    ensures Write(Write(s, folder, filename, data, mkdirOk).value, folder, filename, data, mkdirOk')
         == Write(s, folder, filename, data, mkdirOk)
  {
    var s1 := Write(s, folder, filename, data, mkdirOk).value;
    assert s1.files[Path(folder, filename) := data] == s1.files;
  }

  /** Removing twice is the same as removing once: the second call is the
      logged no-op. */
  lemma RemoveIdempotent(s: FsState, folder: string, filename: string)
    ensures Remove(Remove(s, folder, filename), folder, filename) == Remove(s, folder, filename)
  {
  }

  /** A remove undoes a write of a file that was absent, apart from the folder. */
  lemma RemoveAfterWrite(s: FsState, folder: string, filename: string, data: string, mkdirOk: bool)
    requires Write(s, folder, filename, data, mkdirOk).Some?
    requires Path(folder, filename) !in s.files
    ensures Remove(Write(s, folder, filename, data, mkdirOk).value, folder, filename).files == s.files
  {
  }

  /** The filesystem the sidecar writes to; only this process writes it. */
  class Store {
    var files: map<string, string>
    var dirs: set<string>

    constructor (files0: map<string, string>, dirs0: set<string>)
      ensures State() == FsState(files0, dirs0)
    {
      files := files0;
      dirs := dirs0;
    }

    function State(): FsState
      reads this
    {
      FsState(files, dirs)
    }

    /** `writeTextToFile(folder, filename, data)`; `ok` is false exactly when
        the folder had to be created and `makedirs` failed. */
    method WriteTextToFile(folder: string, filename: string, data: string, mkdirOk: bool) returns (ok: bool)
      modifies this
      ensures ok <==> Write(old(State()), folder, filename, data, mkdirOk).Some?
      ensures State() == Write(old(State()), folder, filename, data, mkdirOk).GetOr(old(State()))
    {
      if folder !in dirs {
        if !mkdirOk {
          return false;
        }
        dirs := dirs + {folder};
      }
      files := files[Path(folder, filename) := data];
      ok := true;
    }

    /** `removeFile(folder, filename)`; `found` is whether the file existed
        (when it did not, the source prints an error line and returns). */
    method RemoveFile(folder: string, filename: string) returns (found: bool)
      modifies this
      ensures found <==> Path(folder, filename) in old(files)
      ensures State() == Remove(old(State()), folder, filename)
    {
      var completeFile := Path(folder, filename);
      if completeFile in files {
        files := files - {completeFile};
        found := true;
      } else {
        found := false;
      }
    }
  }
}
