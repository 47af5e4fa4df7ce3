/** The part of the file system the installer touches, as state: a set of
    directories and a map from file paths to their bytes. Every call that the
    operating system may refuse takes a `fault`: `Some(e)` means the call
    fails with `e` and changes nothing. */
module Fs {
  import opened Base

  /** A snapshot of the file system, for specifications. */
  datatype FsState = FsState(dirs: set<string>, files: map<string, seq<byte>>)

  predicate ExistsIn(st: FsState, path: string)
  {
    path in st.dirs || path in st.files
  }

  class FileSystem {
    var dirs: set<string>
    var files: map<string, seq<byte>>

    constructor (dirs: set<string>, files: map<string, seq<byte>>)
      ensures this.dirs == dirs && this.files == files
    {
      this.dirs := dirs;
      this.files := files;
    }

    function State(): FsState
      reads this
    {
      FsState(dirs, files)
    }

    /** `Path::exists`. */
    predicate Exists(path: string)
      reads this
    {
      ExistsIn(State(), path)
    }

    /** `create_dir_all`. */
    method CreateDirAll(path: string, fault: Option<IoError>) returns (r: Result<(), IoError>)
      modifies this
      ensures files == old(files)
      ensures fault.Some? ==> r == Err(fault.value) && dirs == old(dirs)
      ensures fault.None? ==> r == Ok(()) && dirs == old(dirs) + {path}
    {
      if fault.Some? {
        r := Err(fault.value);
      } else {
        dirs := dirs + {path};
        r := Ok(());
      }
    }

    /** `File::create`: creates the file, or truncates it when it exists. */
    method Create(path: string, fault: Option<IoError>) returns (r: Result<(), IoError>)
      modifies this
      ensures dirs == old(dirs)
      ensures fault.Some? ==> r == Err(fault.value) && files == old(files)
      ensures fault.None? ==> r == Ok(()) && files == old(files)[path := []]
    {
      if fault.Some? {
        r := Err(fault.value);
      } else {
        files := files[path := []];
        r := Ok(());
      }
    }

    /** `write_all` on a file opened by `Create`: appends `data`. */
    method WriteAll(path: string, data: seq<byte>, fault: Option<IoError>) returns (r: Result<(), IoError>)
      requires path in files
      modifies this
      ensures dirs == old(dirs)
      ensures fault.Some? ==> r == Err(fault.value) && files == old(files)
      ensures fault.None? ==> r == Ok(()) && files == old(files)[path := old(files)[path] + data]
    {
      if fault.Some? {
        r := Err(fault.value);
      } else {
        files := files[path := files[path] + data];
        r := Ok(());
      }
    }

    /** `remove_file`: a missing file is an error of kind `NotFound`. */
    method RemoveFile(path: string, fault: Option<IoError>) returns (r: Result<(), IoError>)
      modifies this
      ensures dirs == old(dirs)
      ensures r.Ok? <==> fault.None? && path in old(files)
      ensures r.Ok? ==> files == old(files) - {path}
      ensures r.Err? ==> files == old(files)
    {
      if fault.Some? {
        r := Err(fault.value);
      } else if path !in files {
        r := Err(IoError(NotFound, "No such file or directory (os error 2)"));
      } else {
        files := files - {path};
        r := Ok(());
      }
    }
  }
}
