/**
 * One emulated system as the selection screen sees it (GameSystemVM): its extensions,
 * whether a file needs a root folder, whether the core's dependency files are present,
 * and the core's storage directories.
 */
module GameSystems {
  import opened Wrappers
  import opened Paths
  import opened FileSystem

  /** The part of an emulation core the view model reads: its name, its extensions and the files it depends on. */
  datatype Core = Core(name: string, supportedExtensions: seq<string>, fileDependencies: seq<string>)

  datatype GameSystem = GameSystem(
    core: Core,
    symbol: string,
    supportedExtensions: seq<string>,
    multiFileExtensions: seq<string>,
    dependenciesOverride: bool)

  /**
   * Builds a system descriptor: the supported extensions are the override when one is given,
   * the core's otherwise; a missing multi-file list is the empty list.
   */
  function NewGameSystem(
    core: Core,
    symbol: string,
    dependenciesOverride: bool,
    supportedExtensionsOverride: Option<seq<string>>,
    multiFileExtensions: Option<seq<string>>): (s: GameSystem)
    ensures s.core == core && s.symbol == symbol && s.dependenciesOverride == dependenciesOverride
    ensures s.supportedExtensions
      == if supportedExtensionsOverride.Some? then supportedExtensionsOverride.value else core.supportedExtensions
    ensures s.multiFileExtensions == if multiFileExtensions.Some? then multiFileExtensions.value else []
  {
    GameSystem(
      core,
      symbol,
      match supportedExtensionsOverride
      case Some(exts) => exts
      case None => core.supportedExtensions,
      match multiFileExtensions
      case Some(exts) => exts
      case None => [],
      dependenciesOverride)
  }

  /** A file needs a root folder when its extension is, exactly, one of the multi-file extensions. */
  predicate RootFolderRequired(system: GameSystem, file: File) {
    Extension(file.name) in system.multiFileExtensions
  }

  /** For a name ending in a well-formed extension, a root folder is required iff that extension is listed. */
  lemma RootFolderRequiredIff(system: GameSystem, file: File, stem: string, ext: string)
    requires IsExtension(ext) && file.name == stem + ext
    ensures RootFolderRequired(system, file) <==> ext in system.multiFileExtensions
  {
    ExtensionOfStem(stem, ext);
  }

  /**
   * Unless the empty string is listed, a root folder is only ever required for a file whose
   * name ends in a listed, well-formed extension.
   */
  lemma RootFolderRequiredOnlyForListedSuffix(system: GameSystem, file: File)
    requires "" !in system.multiFileExtensions
    requires RootFolderRequired(system, file)
    ensures exists i :: && 0 <= i < |system.multiFileExtensions|
                        && IsExtension(system.multiFileExtensions[i])
                        && |system.multiFileExtensions[i]| <= |file.name|
                        && file.name[|file.name| - |system.multiFileExtensions[i]|..] == system.multiFileExtensions[i]
  {
  }

  /** A system built without a multi-file list never asks for a root folder. */
  lemma DefaultNeverRequiresRootFolder(
    core: Core, symbol: string, dependenciesOverride: bool,
    supportedExtensionsOverride: Option<seq<string>>, file: File)
    ensures !RootFolderRequired(NewGameSystem(core, symbol, dependenciesOverride, supportedExtensionsOverride, None), file)
  {
  }

  /** Name of the directory holding the core's system (BIOS) files. */
  function SystemDirectoryName(core: Core): string {
    core.name + " - System"
  }

  /** Name of the directory holding the core's save files. */
  function SaveDirectoryName(core: Core): string {
    core.name + " - Saves"
  }

  /** No core's system directory ever shares a name with any core's save directory. */
  lemma {:induction false} SystemAndSaveDirectoriesDistinct(c: Core, d: Core)
    ensures SystemDirectoryName(c) != SaveDirectoryName(d)
  {
    var sys, sav := SystemDirectoryName(c), SaveDirectoryName(d);
    assert sys[|sys| - 1] == 'm';
    assert sav[|sav| - 1] == 's';
  }

  /** Distinct core names give distinct system directories (and likewise save directories). */
  lemma {:induction false} StorageDirectoryNamesInjective(c: Core, d: Core)
    requires c.name != d.name
    ensures SystemDirectoryName(c) != SystemDirectoryName(d)
    ensures SaveDirectoryName(c) != SaveDirectoryName(d)
  {
    if |c.name| == |d.name| {
      var k :| 0 <= k < |c.name| && c.name[k] != d.name[k];
      assert SystemDirectoryName(c)[k] == c.name[k];
      assert SystemDirectoryName(d)[k] == d.name[k];
      assert SaveDirectoryName(c)[k] == c.name[k];
      assert SaveDirectoryName(d)[k] == d.name[k];
    }
  }

  /** What the dependency check answers against storage `dirs`. */
  predicate DependenciesMet(system: GameSystem, dirs: Directories) {
    || system.dependenciesOverride
    || forall i :: 0 <= i < |system.core.fileDependencies|
         ==> system.core.fileDependencies[i] in FilesIn(dirs, SystemDirectoryName(system.core))
  }

  /** Storage after the dependency check: the system directory exists unless the override skipped the lookup. */
  function AfterDependencyCheck(system: GameSystem, dirs: Directories): Directories {
    if system.dependenciesOverride then dirs else WithDirectory(dirs, SystemDirectoryName(system.core))
  }

  /** With the override set, the check passes whatever storage holds, and storage is untouched. */
  lemma OverrideAlwaysMet(system: GameSystem, dirs: Directories)
    requires system.dependenciesOverride
    ensures DependenciesMet(system, dirs) && AfterDependencyCheck(system, dirs) == dirs
  {
  }

  /** Get-or-create of a storage directory: it exists afterwards, and only a missing one is created. */
  method GetCoreStorageDirectory(storage: LocalStorage, directoryName: string) returns (dir: string)
    modifies storage
    ensures dir == directoryName && dir in storage.directories
    ensures storage.directories == WithDirectory(old(storage.directories), directoryName)
  {
    var output := storage.GetDirectory(directoryName);
    if output.None? {
      dir := storage.CreateDirectory(directoryName);
    } else {
      dir := output.value;
    }
  }

  method GetSystemDirectory(system: GameSystem, storage: LocalStorage) returns (dir: string)
    modifies storage
    ensures dir == SystemDirectoryName(system.core) && dir in storage.directories
    ensures storage.directories == WithDirectory(old(storage.directories), dir)
  {
    dir := GetCoreStorageDirectory(storage, SystemDirectoryName(system.core));
  }

  method GetSaveDirectory(system: GameSystem, storage: LocalStorage) returns (dir: string)
    modifies storage
    ensures dir == SaveDirectoryName(system.core) && dir in storage.directories
    ensures storage.directories == WithDirectory(old(storage.directories), dir)
  {
    dir := GetCoreStorageDirectory(storage, SaveDirectoryName(system.core));
  }

  /**
   * Looks the dependency names up one by one in directory `dir`, stopping at the first one
   * that is missing. `queried` lists the names looked up, in order.
   */
  method FindDependencies(storage: LocalStorage, dir: string, names: seq<string>)
    returns (found: bool, queried: seq<string>)
    requires dir in storage.directories
    ensures found <==> forall i :: 0 <= i < |names| ==> names[i] in storage.directories[dir]
    ensures queried <= names
    ensures found ==> queried == names
    ensures !found ==> |queried| > 0 && queried[|queried| - 1] !in storage.directories[dir]
    ensures forall i :: 0 <= i < |queried| - 1 ==> queried[i] in storage.directories[dir]
  {
    queried := [];
    var i := 0;
    while i < |names|
      invariant 0 <= i <= |names|
      invariant queried == names[..i]
      invariant forall k :: 0 <= k < i ==> names[k] in storage.directories[dir]
    {
      var file := storage.GetFile(dir, names[i]);
      queried := queried + [names[i]];
      if file.None? {
        return false, queried;
      }
      i := i + 1;
    }
    return true, queried;
  }

  /** The dependency check: passes at once under the override, otherwise looks every dependency up in the system directory. */
  method CheckDependenciesMet(system: GameSystem, storage: LocalStorage) returns (met: bool)
    modifies storage
    ensures met == DependenciesMet(system, old(storage.directories))
    ensures storage.directories == AfterDependencyCheck(system, old(storage.directories))
  {
    if system.dependenciesOverride {
      return true;
    }
    var systemFolder := GetSystemDirectory(system, storage);
    var queried;
    met, queried := FindDependencies(storage, systemFolder, system.core.fileDependencies);
  }
}
