/**
 * The file-system capability the view models use: picked files and folders, and the
 * app's local storage, a set of named directories each holding named files.
 */
module FileSystem {
  import opened Wrappers

  /** A file returned by the file picker: its bare name and its full path. */
  datatype File = File(name: string, fullName: string)

  /** A folder returned by the folder picker, known by its full path. */
  datatype Folder = Folder(fullName: string)

  /** Local storage: the name of each directory mapped to the names of the files in it. */
  type Directories = map<string, set<string>>

  /** The files of directory `name`; a directory that does not exist holds none. */
  function FilesIn(dirs: Directories, name: string): set<string> {
    if name in dirs then dirs[name] else {}
  }

  /** The storage after directory `name` has been looked up and, if missing, created empty. */
  function WithDirectory(dirs: Directories, name: string): (r: Directories)
    ensures name in r && r.Keys == dirs.Keys + {name}
    ensures forall n :: n in dirs ==> r[n] == dirs[n]
    ensures r[name] == FilesIn(dirs, name)
  {
    if name in dirs then dirs else dirs[name := {}]
  }

  /** Looking up or creating the same directory a second time creates nothing new. */
  lemma WithDirectoryIdempotent(dirs: Directories, name: string)
    ensures WithDirectory(WithDirectory(dirs, name), name) == WithDirectory(dirs, name)
  {
  }

  class LocalStorage {
    var directories: Directories

    constructor (directories: Directories)
      ensures this.directories == directories
    {
      this.directories := directories;
    }

    /** The directory called `name`, or None when there is none. */
    method GetDirectory(name: string) returns (dir: Option<string>)
      ensures dir.Some? <==> name in directories
      ensures dir.Some? ==> dir.value == name
    {
      dir := if name in directories then Some(name) else None;
    }

    /** Creates an empty directory called `name`; an existing one is left as it is. */
    method CreateDirectory(name: string) returns (dir: string)
      modifies this
      ensures dir == name
      ensures directories == WithDirectory(old(directories), name)
    {
      if name !in directories {
        directories := directories[name := {}];
      }
      dir := name;
    }

    /** The file called `name` in directory `dir`, or None when it is not there. */
    method GetFile(dir: string, name: string) returns (file: Option<string>)
      requires dir in directories
      ensures file.Some? <==> name in directories[dir]
      ensures file.Some? ==> file.value == name
    {
      file := if name in directories[dir] then Some(name) else None;
    }
  }
}
