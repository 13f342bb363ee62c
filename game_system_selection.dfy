/**
 * The game-selection screen (GameSystemSelectionVM): it offers a list of systems, may hold a
 * staged file waiting for the user to choose among several compatible systems, validates a
 * start attempt and asks the emulation service to start, and restores the full catalogue
 * whenever an attempt fails or a running game stops.
 *
 * Every external call is recorded in an ordered log of effects; what a picker returns and
 * whether the service manages to start a game are given to the methods as arguments.
 */
module Selection {
  import opened Wrappers
  import opened Paths
  import opened FileSystem
  import opened GameSystems

  const SelectFolderRequestAlertTitleKey := "SelectFolderRequestAlertTitleKey"
  const SelectFolderRequestAlertMessageKey := "SelectFolderRequestAlertMessageKey"
  const SelectFolderInvalidAlertTitleKey := "SelectFolderInvalidAlertTitleKey"
  const SelectFolderInvalidAlertMessageKey := "SelectFolderInvalidAlertMessageKey"
  const GameLoadingFailAlertTitleKey := "GameLoadingFailAlertTitleKey"
  const GameLoadingFailAlertMessageKey := "GameLoadingFailAlertMessageKey"
  const GameRunningFailAlertTitleKey := "GameRunningFailAlertTitleKey"
  const GameRunningFailAlertMessageKey := "GameRunningFailAlertMessageKey"
  const SystemUnmetDependenciesAlertTitleKey := "SystemUnmetDependenciesAlertTitleKey"
  const SystemUnmetDependenciesAlertMessageKey := "SystemUnmetDependenciesAlertMessageKey"

  /** An observable call made by the screen, in the order it is made. */
  datatype Effect =
    | Notify(titleKey: string, messageKey: string)
    | PickFile(extensions: seq<string>)
    | PickFolder
    | StopGame
    | StartGame(system: GameSystem, file: File, rootFolder: Option<Folder>)

  const SelectFolderRequest := Notify(SelectFolderRequestAlertTitleKey, SelectFolderRequestAlertMessageKey)
  const SelectFolderInvalid := Notify(SelectFolderInvalidAlertTitleKey, SelectFolderInvalidAlertMessageKey)
  const GameLoadingFail := Notify(GameLoadingFailAlertTitleKey, GameLoadingFailAlertMessageKey)
  const GameRunningFail := Notify(GameRunningFailAlertTitleKey, GameRunningFailAlertMessageKey)
  const SystemUnmetDependencies := Notify(SystemUnmetDependenciesAlertTitleKey, SystemUnmetDependenciesAlertMessageKey)

  /** Everything a step of the screen can change: offered systems, staged file, effect log, storage. */
  datatype Snapshot = Snapshot(
    offered: seq<GameSystem>,
    staged: Option<File>,
    effects: seq<Effect>,
    directories: Directories)

  /** The systems of the catalogue that list `ext` among their supported extensions, in catalogue order. */
  function Compatible(catalogue: seq<GameSystem>, ext: string): (r: seq<GameSystem>)
    ensures |r| <= |catalogue|
    ensures forall x :: x in r <==> x in catalogue && ext in x.supportedExtensions
    ensures r == [] <==> forall i :: 0 <= i < |catalogue| ==> ext !in catalogue[i].supportedExtensions
  {
    if catalogue == [] then []
    else (if ext in catalogue[0].supportedExtensions then [catalogue[0]] else []) + Compatible(catalogue[1..], ext)
  }

  /** Filtering distributes over concatenation, so the compatible systems keep their catalogue order. */
  lemma {:induction false} CompatibleAppend(a: seq<GameSystem>, b: seq<GameSystem>, ext: string)
    ensures Compatible(a + b, ext) == Compatible(a, ext) + Compatible(b, ext)
  {
    if a == [] {
      assert a + b == b;
    } else {
      assert (a + b)[1..] == a[1..] + b;
      CompatibleAppend(a[1..], b, ext);
    }
  }

  /** The folder test of a start attempt: the folder's path is a literal prefix of the file's directory path. */
  predicate FolderContainsFile(folder: Folder, file: File) {
    folder.fullName <= DirectoryName(file.fullName)
  }

  /**
   * The screen's invariant: either the whole catalogue is offered, or a file is staged and the
   * offered systems are exactly the two or more that are compatible with it.
   */
  predicate Consistent(catalogue: seq<GameSystem>, offered: seq<GameSystem>, staged: Option<File>) {
    || offered == catalogue
    || (&& staged.Some?
        && offered == Compatible(catalogue, Extension(staged.value.name))
        && |offered| >= 2)
  }

  function Emit(s: Snapshot, e: Effect): Snapshot {
    s.(effects := s.effects + [e])
  }

  /** ResetSystemsSelection: the full catalogue is offered again and no file is staged. */
  function Reset(catalogue: seq<GameSystem>, s: Snapshot): Snapshot {
    s.(offered := catalogue, staged := None)
  }

  /** The call to the emulation service and, if it fails, the reset and the loading-failed notification. */
  function Launch(catalogue: seq<GameSystem>, s: Snapshot, system: GameSystem, file: File,
                  folder: Option<Folder>, startSuccess: bool): Snapshot
  {
    var started := Emit(s, StartGame(system, file, folder));
    if startSuccess then started else Emit(Reset(catalogue, started), GameLoadingFail)
  }

  /** StartGameAsync: dependency check, root-folder check, then the start call. */
  function StartAttempt(catalogue: seq<GameSystem>, s: Snapshot, system: GameSystem, file: File,
                        pickedFolder: Option<Folder>, startSuccess: bool): Snapshot
  {
    var checked := s.(directories := AfterDependencyCheck(system, s.directories));
    if !DependenciesMet(system, s.directories) then
      Emit(Reset(catalogue, checked), SystemUnmetDependencies)
    else if RootFolderRequired(system, file) then
      var asked := Emit(Emit(checked, SelectFolderRequest), PickFolder);
      if pickedFolder.None? then
        Reset(catalogue, asked)
      else if !FolderContainsFile(pickedFolder.value, file) then
        Emit(Reset(catalogue, asked), SelectFolderInvalid)
      else
        Launch(catalogue, asked, system, file, pickedFolder, startSuccess)
    else
      Launch(catalogue, checked, system, file, None, startSuccess)
  }

  /** GameSystemSelected: pick a file when none is staged, then attempt to start with the staged file. */
  function SystemSelected(catalogue: seq<GameSystem>, archiveExtensions: seq<string>, s: Snapshot,
                          system: GameSystem, pickedFile: Option<File>, pickedFolder: Option<Folder>,
                          startSuccess: bool): Snapshot
  {
    var picked :=
      if s.staged.None? then Emit(s, PickFile(system.supportedExtensions + archiveExtensions)).(staged := pickedFile)
      else s;
    if picked.staged.None? then picked
    else StartAttempt(catalogue, picked, system, picked.staged.value, pickedFolder, startSuccess)
  }

  /** StartGameFromFile: ignore, start directly, or stop the game and offer the compatible systems. */
  function FileOpened(catalogue: seq<GameSystem>, s: Snapshot, file: File,
                      pickedFolder: Option<Folder>, startSuccess: bool): Snapshot
  {
    var compatible := Compatible(catalogue, Extension(file.name));
    if |compatible| == 0 then s
    else if |compatible| == 1 then StartAttempt(catalogue, s, compatible[0], file, pickedFolder, startSuccess)
    else Emit(s, StopGame).(offered := compatible, staged := Some(file))
  }

  /** The handler of the service's game-stopped event. */
  function GameStopped(catalogue: seq<GameSystem>, s: Snapshot): Snapshot {
    Reset(catalogue, s)
  }

  /** The handler of the service's runtime-exception event. */
  function RuntimeExceptionOccurred(catalogue: seq<GameSystem>, s: Snapshot): Snapshot {
    Emit(Reset(catalogue, s), GameRunningFail)
  }

  // ---------------------------------------------------------------------------------------
  // Properties of the transitions
  // ---------------------------------------------------------------------------------------

  /** Whether a start attempt gets as far as calling the emulation service. */
  predicate Launches(s: Snapshot, system: GameSystem, file: File, pickedFolder: Option<Folder>) {
    && DependenciesMet(system, s.directories)
    && (RootFolderRequired(system, file) ==> pickedFolder.Some? && FolderContainsFile(pickedFolder.value, file))
  }

  /** The calls to start a game among `effects`, in order. */
  function StartCalls(effects: seq<Effect>): seq<Effect> {
    if effects == [] then []
    else (if effects[0].StartGame? then [effects[0]] else []) + StartCalls(effects[1..])
  }

  lemma {:induction false} StartCallsAppend(a: seq<Effect>, b: seq<Effect>)
    ensures StartCalls(a + b) == StartCalls(a) + StartCalls(b)
  {
    if a == [] {
      assert a + b == b;
    } else {
      var head := if a[0].StartGame? then [a[0]] else [];
      assert (a + b)[0] == a[0] && (a + b)[1..] == a[1..] + b;
      StartCallsAppend(a[1..], b);
      calc {
        StartCalls(a + b);
        head + StartCalls(a[1..] + b);
        head + (StartCalls(a[1..]) + StartCalls(b));
        (head + StartCalls(a[1..])) + StartCalls(b);
        StartCalls(a) + StartCalls(b);
      }
    }
  }

  /** A log with no effect of the start kind holds no start call. */
  lemma {:induction false} NoStartCalls(effects: seq<Effect>)
    requires forall i :: 0 <= i < |effects| ==> !effects[i].StartGame?
    ensures StartCalls(effects) == []
  {
    if effects != [] {
      NoStartCalls(effects[1..]);
    }
  }

  /** A log holding one start call among effects of other kinds has exactly that start call. */
  lemma {:induction false} SingleStartCall(before: seq<Effect>, call: Effect, after: seq<Effect>)
    requires call.StartGame?
    requires forall i :: 0 <= i < |before| ==> !before[i].StartGame?
    requires forall i :: 0 <= i < |after| ==> !after[i].StartGame?
    ensures StartCalls(before + [call] + after) == [call]
  {
    StartCallsAppend(before + [call], after);
    StartCallsAppend(before, [call]);
    NoStartCalls(before);
    NoStartCalls(after);
    assert StartCalls([call]) == [call] + StartCalls([]);
  }

  /** Every start attempt appends to the log, never stops a game, and calls the service at most once, as follows. */
  lemma StartAttemptCalls(catalogue: seq<GameSystem>, s: Snapshot, system: GameSystem, file: File,
                          pickedFolder: Option<Folder>, startSuccess: bool)
    ensures var r := StartAttempt(catalogue, s, system, file, pickedFolder, startSuccess);
      && s.effects <= r.effects
      && StopGame !in r.effects[|s.effects|..]
      && (Launches(s, system, file, pickedFolder) ==>
            StartCalls(r.effects[|s.effects|..])
              == [StartGame(system, file, if RootFolderRequired(system, file) then pickedFolder else None)])
      && (!Launches(s, system, file, pickedFolder) ==> StartCalls(r.effects[|s.effects|..]) == [])
  {
    if Launches(s, system, file, pickedFolder) {
      LaunchCalls(catalogue, s, system, file, pickedFolder, startSuccess);
    } else {
      AbortCalls(catalogue, s, system, file, pickedFolder, startSuccess);
    }
  }

  lemma {:induction false} AbortCalls(catalogue: seq<GameSystem>, s: Snapshot, system: GameSystem, file: File,
                                      pickedFolder: Option<Folder>, startSuccess: bool)
    requires !Launches(s, system, file, pickedFolder)
    ensures var r := StartAttempt(catalogue, s, system, file, pickedFolder, startSuccess);
      && s.effects <= r.effects
      && StopGame !in r.effects[|s.effects|..]
      && StartCalls(r.effects[|s.effects|..]) == []
  {
    var r := StartAttempt(catalogue, s, system, file, pickedFolder, startSuccess);
    var added := r.effects[|s.effects|..];
    if !DependenciesMet(system, s.directories) {
      UnmetDependenciesAbort(catalogue, s, system, file, pickedFolder, startSuccess);
      assert added == [SystemUnmetDependencies];
    } else if pickedFolder.None? {
      FolderPickCancelledAbort(catalogue, s, system, file, startSuccess);
      assert added == [SelectFolderRequest, PickFolder];
    } else {
      InvalidFolderAbort(catalogue, s, system, file, pickedFolder.value, startSuccess);
      assert added == [SelectFolderRequest, PickFolder, SelectFolderInvalid];
    }
    NoStartCalls(added);
  }

  lemma {:induction false} LaunchCalls(catalogue: seq<GameSystem>, s: Snapshot, system: GameSystem, file: File,
                                       pickedFolder: Option<Folder>, startSuccess: bool)
    requires Launches(s, system, file, pickedFolder)
    ensures var r := StartAttempt(catalogue, s, system, file, pickedFolder, startSuccess);
      && s.effects <= r.effects
      && StopGame !in r.effects[|s.effects|..]
      && StartCalls(r.effects[|s.effects|..])
           == [StartGame(system, file, if RootFolderRequired(system, file) then pickedFolder else None)]
  {
    var r := StartAttempt(catalogue, s, system, file, pickedFolder, startSuccess);
    var asked := if RootFolderRequired(system, file) then [SelectFolderRequest, PickFolder] else [];
    var call := StartGame(system, file, if RootFolderRequired(system, file) then pickedFolder else None);
    var tail := if startSuccess then [] else [GameLoadingFail];
    LaunchEffects(catalogue, s, system, file, pickedFolder, startSuccess);
    assert r.effects == s.effects + (asked + [call] + tail);
    assert r.effects[|s.effects|..] == asked + [call] + tail;
    SingleStartCall(asked, call, tail);
    NoStopIn(asked, call, tail);
  }

  lemma NoStopIn(asked: seq<Effect>, call: Effect, tail: seq<Effect>)
    requires StopGame !in asked && call.StartGame? && StopGame !in tail
    ensures StopGame !in asked + [call] + tail
  {
  }

  /** The effects of an attempt that passes both checks: folder request and pick if needed, the start call, and on failure the loading-failed notification. */
  lemma LaunchEffects(catalogue: seq<GameSystem>, s: Snapshot, system: GameSystem, file: File,
                      pickedFolder: Option<Folder>, startSuccess: bool)
    requires Launches(s, system, file, pickedFolder)
    ensures var r := StartAttempt(catalogue, s, system, file, pickedFolder, startSuccess);
      var asked := if RootFolderRequired(system, file) then [SelectFolderRequest, PickFolder] else [];
      var call := StartGame(system, file, if RootFolderRequired(system, file) then pickedFolder else None);
      r.effects == s.effects + asked + [call] + (if startSuccess then [] else [GameLoadingFail])
  {
  }

  /**
   * A successful start leaves the offered list and the staged file as they were; every other
   * outcome of a start attempt restores the full catalogue and clears the staged file.
   */
  lemma StartAttemptSelection(catalogue: seq<GameSystem>, s: Snapshot, system: GameSystem, file: File,
                              pickedFolder: Option<Folder>, startSuccess: bool)
    ensures var r := StartAttempt(catalogue, s, system, file, pickedFolder, startSuccess);
      && r.directories == AfterDependencyCheck(system, s.directories)
      && (Launches(s, system, file, pickedFolder) && startSuccess ==> r.offered == s.offered && r.staged == s.staged)
      && (!(Launches(s, system, file, pickedFolder) && startSuccess) ==> r.offered == catalogue && r.staged == None)
  {
  }

  /** Unmet dependencies: reset, exactly the unmet-dependencies notification, no folder pick and no start. */
  lemma UnmetDependenciesAbort(catalogue: seq<GameSystem>, s: Snapshot, system: GameSystem, file: File,
                               pickedFolder: Option<Folder>, startSuccess: bool)
    requires !DependenciesMet(system, s.directories)
    ensures var r := StartAttempt(catalogue, s, system, file, pickedFolder, startSuccess);
      && r.offered == catalogue && r.staged == None
      && r.effects == s.effects + [SystemUnmetDependencies]
  {
  }

  /** A cancelled folder pick: the folder request and the pick are logged, then the selection is reset. */
  lemma FolderPickCancelledAbort(catalogue: seq<GameSystem>, s: Snapshot, system: GameSystem, file: File,
                                 startSuccess: bool)
    requires DependenciesMet(system, s.directories) && RootFolderRequired(system, file)
    ensures var r := StartAttempt(catalogue, s, system, file, None, startSuccess);
      && r.offered == catalogue && r.staged == None
      && r.effects == s.effects + [SelectFolderRequest, PickFolder]
  {
  }

  /** A folder outside the file's directory: reset, the invalid-folder notification exactly once, no start. */
  lemma InvalidFolderAbort(catalogue: seq<GameSystem>, s: Snapshot, system: GameSystem, file: File,
                           folder: Folder, startSuccess: bool)
    requires DependenciesMet(system, s.directories) && RootFolderRequired(system, file)
    requires !FolderContainsFile(folder, file)
    ensures var r := StartAttempt(catalogue, s, system, file, Some(folder), startSuccess);
      && r.offered == catalogue && r.staged == None
      && r.effects == s.effects + [SelectFolderRequest, PickFolder, SelectFolderInvalid]
  {
  }

  /**
   * For a file at `dir` + separator + name, a folder passes the test iff its path is a prefix of
   * `dir`; in particular the file's own directory passes.
   */
  lemma FolderTestOnJoinedPath(folder: Folder, dir: string, sep: char, name: string)
    requires sep in Separators && !IsVolumeRoot(dir)
    requires forall k :: 0 <= k < |name| ==> name[k] !in Separators
    ensures FolderContainsFile(folder, File(name, dir + [sep] + name)) <==> folder.fullName <= dir
    ensures FolderContainsFile(Folder(dir), File(name, dir + [sep] + name))
  {
    DirectoryNameOfJoin(dir, sep, name);
  }

  /**
   * For a file directly under a volume root (`E:\\game.cue`), a folder passes iff its path is a
   * prefix of the root with its separator; the root folder itself passes.
   */
  lemma FolderTestInVolumeRoot(folder: Folder, root: string, sep: char, name: string)
    requires sep in Separators && IsVolumeRoot(root)
    requires forall k :: 0 <= k < |name| ==> name[k] !in Separators
    ensures FolderContainsFile(folder, File(name, root + [sep] + name)) <==> folder.fullName <= root + [sep]
    ensures FolderContainsFile(Folder(root + [sep]), File(name, root + [sep] + name))
  {
    DirectoryNameInVolumeRoot(root, sep, name);
  }

  /**
   * The test is a raw string prefix: a folder is accepted for a file in a sibling directory
   * whose name merely starts with the folder's name.
   */
  lemma FolderTestIgnoresNameBoundaries()
    ensures FolderContainsFile(Folder("C:\\Games"), File("disc.cue", "C:\\GamesOther\\disc.cue"))
  {
    assert !IsVolumeRoot("C:\\GamesOther");
    DirectoryNameOfJoin("C:\\GamesOther", '\\', "disc.cue");
    assert "C:\\GamesOther" + ['\\'] + "disc.cue" == "C:\\GamesOther\\disc.cue";
  }

  /** A start failure: the start call, then the reset and the loading-failed notification. */
  lemma StartFailureResets(catalogue: seq<GameSystem>, s: Snapshot, system: GameSystem, file: File,
                           pickedFolder: Option<Folder>)
    requires Launches(s, system, file, pickedFolder)
    ensures var r := StartAttempt(catalogue, s, system, file, pickedFolder, false);
      && r.offered == catalogue && r.staged == None
      && |r.effects| >= 2
      && r.effects[|r.effects| - 2] == StartGame(system, file, if RootFolderRequired(system, file) then pickedFolder else None)
      && r.effects[|r.effects| - 1] == GameLoadingFail
  {
  }

  /** No compatible system: nothing at all changes. */
  lemma NoCompatibleSystemIsNoOp(catalogue: seq<GameSystem>, s: Snapshot, file: File,
                                 pickedFolder: Option<Folder>, startSuccess: bool)
    requires forall i :: 0 <= i < |catalogue| ==> Extension(file.name) !in catalogue[i].supportedExtensions
    ensures FileOpened(catalogue, s, file, pickedFolder, startSuccess) == s
  {
  }

  /**
   * Exactly one compatible system: a start attempt with that system and that file; the game is
   * not stopped and the offered list is never filtered.
   */
  lemma SingleCompatibleStartsDirectly(catalogue: seq<GameSystem>, s: Snapshot, file: File, system: GameSystem,
                                       pickedFolder: Option<Folder>, startSuccess: bool)
    requires Compatible(catalogue, Extension(file.name)) == [system]
    ensures var r := FileOpened(catalogue, s, file, pickedFolder, startSuccess);
      && r == StartAttempt(catalogue, s, system, file, pickedFolder, startSuccess)
      && s.effects <= r.effects && StopGame !in r.effects[|s.effects|..]
      && (r.offered == s.offered || r.offered == catalogue)
  {
    StartAttemptCalls(catalogue, s, system, file, pickedFolder, startSuccess);
    StartAttemptSelection(catalogue, s, system, file, pickedFolder, startSuccess);
  }

  /**
   * Several compatible systems: the game is stopped, the offered list becomes exactly those
   * systems in catalogue order, and the file is staged.
   */
  lemma SeveralCompatibleFilterOffered(catalogue: seq<GameSystem>, s: Snapshot, file: File,
                                       pickedFolder: Option<Folder>, startSuccess: bool)
    requires |Compatible(catalogue, Extension(file.name))| >= 2
    ensures var r := FileOpened(catalogue, s, file, pickedFolder, startSuccess);
      && r.effects == s.effects + [StopGame]
      && (forall x :: x in r.offered <==> x in catalogue && Extension(file.name) in x.supportedExtensions)
      && r.offered == Compatible(catalogue, Extension(file.name))
      && r.staged == Some(file)
      && r.directories == s.directories
  {
  }

  /**
   * With no staged file, the file picker is asked for the system's extensions followed by the
   * archive extensions; a picked file is staged and the start attempt runs on it.
   */
  lemma SystemSelectedPicksFile(catalogue: seq<GameSystem>, archiveExtensions: seq<string>, s: Snapshot,
                                system: GameSystem, pickedFile: Option<File>, pickedFolder: Option<Folder>,
                                startSuccess: bool)
    requires s.staged.None?
    ensures var r := SystemSelected(catalogue, archiveExtensions, s, system, pickedFile, pickedFolder, startSuccess);
      && |r.effects| > |s.effects|
      && r.effects[|s.effects|] == PickFile(system.supportedExtensions + archiveExtensions)
      && (pickedFile.None? ==> r == Emit(s, PickFile(system.supportedExtensions + archiveExtensions)))
      && (pickedFile.Some? ==>
            r == StartAttempt(catalogue,
                              Emit(s, PickFile(system.supportedExtensions + archiveExtensions)).(staged := pickedFile),
                              system, pickedFile.value, pickedFolder, startSuccess))
  {
  }

  /** With a staged file, no file is picked: the start attempt uses the staged file. */
  lemma SystemSelectedUsesStagedFile(catalogue: seq<GameSystem>, archiveExtensions: seq<string>, s: Snapshot,
                                     system: GameSystem, pickedFile: Option<File>, pickedFolder: Option<Folder>,
                                     startSuccess: bool)
    requires s.staged.Some?
    ensures SystemSelected(catalogue, archiveExtensions, s, system, pickedFile, pickedFolder, startSuccess)
         == StartAttempt(catalogue, s, system, s.staged.value, pickedFolder, startSuccess)
  {
  }

  /** After a stopped or a runtime-exception event the full catalogue is offered and nothing is staged. */
  lemma EventsRestoreCatalogue(catalogue: seq<GameSystem>, s: Snapshot)
    ensures GameStopped(catalogue, s).offered == catalogue && GameStopped(catalogue, s).staged == None
    ensures GameStopped(catalogue, s).effects == s.effects
    ensures RuntimeExceptionOccurred(catalogue, s).offered == catalogue
    ensures RuntimeExceptionOccurred(catalogue, s).staged == None
    ensures RuntimeExceptionOccurred(catalogue, s).effects == s.effects + [GameRunningFail]
  {
  }

  lemma StartAttemptKeepsConsistent(catalogue: seq<GameSystem>, s: Snapshot, system: GameSystem, file: File,
                                    pickedFolder: Option<Folder>, startSuccess: bool)
    requires Consistent(catalogue, s.offered, s.staged)
    ensures var r := StartAttempt(catalogue, s, system, file, pickedFolder, startSuccess);
      Consistent(catalogue, r.offered, r.staged)
  {
    StartAttemptSelection(catalogue, s, system, file, pickedFolder, startSuccess);
  }

  /** Tapping a system keeps the screen consistent. */
  lemma SystemSelectedKeepsConsistent(catalogue: seq<GameSystem>, archiveExtensions: seq<string>, s: Snapshot,
                                      system: GameSystem, pickedFile: Option<File>,
                                      pickedFolder: Option<Folder>, startSuccess: bool)
    requires Consistent(catalogue, s.offered, s.staged)
    ensures var r := SystemSelected(catalogue, archiveExtensions, s, system, pickedFile, pickedFolder, startSuccess);
      Consistent(catalogue, r.offered, r.staged)
  {
    var picked :=
      if s.staged.None? then Emit(s, PickFile(system.supportedExtensions + archiveExtensions)).(staged := pickedFile)
      else s;
    if picked.staged.Some? {
      StartAttemptKeepsConsistent(catalogue, picked, system, picked.staged.value, pickedFolder, startSuccess);
    }
  }

  /** Opening a file from outside keeps the screen consistent. */
  lemma FileOpenedKeepsConsistent(catalogue: seq<GameSystem>, s: Snapshot, file: File,
                                  pickedFolder: Option<Folder>, startSuccess: bool)
    requires Consistent(catalogue, s.offered, s.staged)
    ensures var r := FileOpened(catalogue, s, file, pickedFolder, startSuccess);
      Consistent(catalogue, r.offered, r.staged)
  {
    var compatible := Compatible(catalogue, Extension(file.name));
    if |compatible| == 1 {
      StartAttemptKeepsConsistent(catalogue, s, compatible[0], file, pickedFolder, startSuccess);
    }
  }

  // ---------------------------------------------------------------------------------------
  // The screen itself
  // ---------------------------------------------------------------------------------------

  class GameSystemSelection {
    /** The full catalogue of systems, as the emulation service lists them. */
    const catalogue: seq<GameSystem>
    /** Extensions of archive containers, pickable for every system. */
    const archiveExtensions: seq<string>
    /** The app's local storage, where each core's system directory lives. */
    const storage: LocalStorage

    /** The systems currently offered to the user. */
    var gameSystems: seq<GameSystem>
    /** A file waiting for the user to choose a system. */
    var selectedGameFile: Option<File>
    /** The calls made so far to pickers, dialogs and the emulation service. */
    var effects: seq<Effect>

    function State(): Snapshot
      reads this, storage
    {
      Snapshot(gameSystems, selectedGameFile, effects, storage.directories)
    }

    predicate Valid()
      reads this
    {
      Consistent(catalogue, gameSystems, selectedGameFile)
    }

    constructor (catalogue: seq<GameSystem>, archiveExtensions: seq<string>, storage: LocalStorage)
      ensures this.catalogue == catalogue && this.archiveExtensions == archiveExtensions && this.storage == storage
      ensures Valid()
      ensures gameSystems == catalogue && selectedGameFile == None && effects == []
    {
      this.catalogue := catalogue;
      this.archiveExtensions := archiveExtensions;
      this.storage := storage;
      gameSystems := catalogue;
      selectedGameFile := None;
      effects := [];
      new;
      ResetSystemsSelection();
    }

    method ResetSystemsSelection()
      modifies this`gameSystems, this`selectedGameFile
      ensures gameSystems == catalogue && selectedGameFile == None
    {
      gameSystems := catalogue;
      selectedGameFile := None;
    }

    method DisplayNotification(titleKey: string, messageKey: string)
      modifies this`effects
      ensures effects == old(effects) + [Notify(titleKey, messageKey)]
    {
      effects := effects + [Notify(titleKey, messageKey)];
    }

    /** Asks the file picker for a file of one of `extensions`; `answer` is what the user picks. */
    method RequestFile(extensions: seq<string>, answer: Option<File>) returns (file: Option<File>)
      modifies this`effects
      ensures effects == old(effects) + [PickFile(extensions)] && file == answer
    {
      effects := effects + [PickFile(extensions)];
      file := answer;
    }

    /** Asks the folder picker for a folder; `answer` is what the user picks. */
    method RequestFolder(answer: Option<Folder>) returns (folder: Option<Folder>)
      modifies this`effects
      ensures effects == old(effects) + [PickFolder] && folder == answer
    {
      effects := effects + [PickFolder];
      folder := answer;
    }

    /** Asks the emulation service to start; `outcome` is whether it succeeds. */
    method RequestStart(system: GameSystem, file: File, folder: Option<Folder>, outcome: bool) returns (success: bool)
      modifies this`effects
      ensures effects == old(effects) + [StartGame(system, file, folder)] && success == outcome
    {
      effects := effects + [StartGame(system, file, folder)];
      success := outcome;
    }

    method RequestStop()
      modifies this`effects
      ensures effects == old(effects) + [StopGame]
    {
      effects := effects + [StopGame];
    }

    method AttemptStart(system: GameSystem, file: File, pickedFolder: Option<Folder>, startSuccess: bool)
      requires Valid()
      modifies this, storage
      ensures Valid()
      ensures State() == StartAttempt(catalogue, old(State()), system, file, pickedFolder, startSuccess)
    {
      StartAttemptKeepsConsistent(catalogue, State(), system, file, pickedFolder, startSuccess);
      var dependenciesMet := CheckDependenciesMet(system, storage);
      if !dependenciesMet {
        ResetSystemsSelection();
        DisplayNotification(SystemUnmetDependenciesAlertTitleKey, SystemUnmetDependenciesAlertMessageKey);
        return;
      }

      var folderNeeded := RootFolderRequired(system, file);
      var folder: Option<Folder> := None;
      if folderNeeded {
        DisplayNotification(SelectFolderRequestAlertTitleKey, SelectFolderRequestAlertMessageKey);
        folder := RequestFolder(pickedFolder);
        if folder.None? {
          ResetSystemsSelection();
          return;
        }

        if !FolderContainsFile(folder.value, file) {
          ResetSystemsSelection();
          DisplayNotification(SelectFolderInvalidAlertTitleKey, SelectFolderInvalidAlertMessageKey);
          return;
        }
      }

      var success := RequestStart(system, file, folder, startSuccess);
      if !success {
        ResetSystemsSelection();
        DisplayNotification(GameLoadingFailAlertTitleKey, GameLoadingFailAlertMessageKey);
      }
    }

    /** The user taps a system in the offered list. */
    method GameSystemSelected(system: GameSystem, pickedFile: Option<File>, pickedFolder: Option<Folder>,
                              startSuccess: bool)
      requires Valid()
      modifies this, storage
      ensures Valid()
      ensures State()
           == SystemSelected(catalogue, archiveExtensions, old(State()), system, pickedFile, pickedFolder, startSuccess)
    {
      SystemSelectedKeepsConsistent(catalogue, archiveExtensions, State(), system, pickedFile, pickedFolder, startSuccess);
      if selectedGameFile.None? {
        var extensions := system.supportedExtensions + archiveExtensions;
        selectedGameFile := RequestFile(extensions, pickedFile);
      }
      if selectedGameFile.None? {
        return;
      }

      AttemptStart(system, selectedGameFile.value, pickedFolder, startSuccess);
    }

    /** A file handed to the app from outside ("open with"). */
    method StartGameFromFile(file: File, pickedFolder: Option<Folder>, startSuccess: bool)
      requires Valid()
      modifies this, storage
      ensures Valid()
      ensures State() == FileOpened(catalogue, old(State()), file, pickedFolder, startSuccess)
    {
      FileOpenedKeepsConsistent(catalogue, State(), file, pickedFolder, startSuccess);
      var extension := Extension(file.name);
      var compatibleSystems := Compatible(catalogue, extension);

      if |compatibleSystems| == 0 {
        return;
      }

      if |compatibleSystems| == 1 {
        AttemptStart(compatibleSystems[0], file, pickedFolder, startSuccess);
        return;
      }

      RequestStop();
      gameSystems := compatibleSystems;
      selectedGameFile := Some(file);
    }

    method OnGameStopped()
      requires Valid()
      modifies this
      ensures Valid()
      ensures State() == GameStopped(catalogue, old(State()))
    {
      ResetSystemsSelection();
    }

    method OnGameRuntimeExceptionOccurred()
      requires Valid()
      modifies this
      ensures Valid()
      ensures State() == RuntimeExceptionOccurred(catalogue, old(State()))
    {
      ResetSystemsSelection();
      DisplayNotification(GameRunningFailAlertTitleKey, GameRunningFailAlertMessageKey);
    }
  }
}
