# RetriX game selection, modelled in Dafny

This project models the game-selection logic of the RetriX emulation front-end. That logic sits
between "the user picked a system or a file" and "ask the emulation service to start a game".
It lives in two view models:

- `GameSystemVM` describes one emulated system. It covers the supported and multi-file
  extensions, whether a file needs a root folder, whether the core's dependency files are present
  in the system directory, and get-or-create of the core's storage directories. It is modelled in
  `game_system.dfy` as the `GameSystem` datatype, pure predicates, and methods that take the
  app's `LocalStorage` object (`file_system.dfy`).
- `GameSystemSelectionVM` is the selection screen. It holds the offered systems and a staged
  file. It works out the systems compatible with a file, validates a start attempt, asks the
  service to start, and puts back the full catalogue after every failure and every stopped or
  runtime-exception event. It is modelled in `game_system_selection.dfy` as the class
  `GameSystemSelection`. Its fields are `gameSystems`, `selectedGameFile` and an ordered log of
  `effects`. The log records notifications, file and folder picks, stop calls and start calls.

Each handler of the class (`AttemptStart`, `GameSystemSelected`, `StartGameFromFile`,
`OnGameStopped`, `OnGameRuntimeExceptionOccurred`) is proved against a pure transition
function on a `Snapshot`. The
snapshot holds the offered systems, the staged file, the effect log and the storage directories.
The transition functions are `StartAttempt`, `SystemSelected`, `FileOpened`, `GameStopped` and
`RuntimeExceptionOccurred`. The lemmas state what the source promises about those functions. The
class invariant `Consistent` says the UI never shows a stale filtered list: either the whole
catalogue is offered, or a file is staged and the offered systems are exactly the two or more
systems compatible with it.

Things outside the view models are inputs to the methods:

- what the file picker returns;
- what the folder picker returns;
- whether the emulation service manages to start.

`Path.GetExtension` and `Path.GetDirectoryName` are written out in `paths.dfy`. The extension
is the text from the last dot to the end. It is empty when no dot follows the last separator or
volume separator `:`, or
when the dot is the final character. The directory is everything before the last `\` or `/`;
when that text is a volume root (`E:` or nothing at all), the separator is kept, so
`E:\game.cue` has the directory `E:\`.

Behaviour the model keeps from the code:

- A successful start does not clear the staged file. Only a later stopped or runtime-exception event, or a later start attempt that fails, clears it.
- Extension matching is exact and case-sensitive.
- The multi-file extensions are not required to be a subset of the supported extensions.
- The compatible systems keep catalogue order.

## Model

| member | source | states |
|---|---|---|
| `GameSystems.NewGameSystem` | RetriX.Shared/ViewModels/GameSystemVM.cs:25-36 | the supported extensions are the override when one is given and the core's otherwise; a missing multi-file list becomes the empty list; core, symbol and override flag are kept |
| `GameSystems.RootFolderRequired` | RetriX.Shared/ViewModels/GameSystemVM.cs:38-42 | a file needs a root folder exactly when the extension of its name, as `Path.GetExtension` gives it, is one of the system's multi-file extensions (exact, case-sensitive match) |
| `GameSystems.RootFolderRequiredIff` | RetriX.Shared/ViewModels/GameSystemVM.cs:38-42 | for a file name `stem + ext` with a well-formed extension, a root folder is required iff `ext` is, exactly, one of the multi-file extensions |
| `GameSystems.RootFolderRequiredOnlyForListedSuffix` | RetriX.Shared/ViewModels/GameSystemVM.cs:38-42 | when a root folder is required (and "" is not listed), the file name ends in one of the listed multi-file extensions, and that extension is well formed |
| `GameSystems.DefaultNeverRequiresRootFolder` | RetriX.Shared/ViewModels/GameSystemVM.cs:34-42 | a system built without a multi-file list never requires a root folder, for any file |
| `GameSystems.OverrideAlwaysMet` | RetriX.Shared/ViewModels/GameSystemVM.cs:46-49 | with the dependencies override set, the check passes whatever storage holds and leaves storage untouched |
| `GameSystems.FindDependencies` | RetriX.Shared/ViewModels/GameSystemVM.cs:52-61 | the result is true iff every dependency name is in the system directory; the names looked up are a prefix of the list that stops at the first missing name, and all of them are queried when none is missing |
| `GameSystems.CheckDependenciesMet` | RetriX.Shared/ViewModels/GameSystemVM.cs:44-62 | the result is `DependenciesMet` on the storage before the call: true under the override, otherwise true iff every dependency is in the system directory; the system directory exists afterwards unless the override skipped the lookup |
| `GameSystems.GetCoreStorageDirectory` | RetriX.Shared/ViewModels/GameSystemVM.cs:74-83 | always returns a directory that exists; storage changes only by creating that directory empty when it was missing |
| `FileSystem.WithDirectoryIdempotent` | RetriX.Shared/ViewModels/GameSystemVM.cs:74-83 | a second get-or-create of the same directory creates nothing new |
| `GameSystems.GetSystemDirectory` | RetriX.Shared/ViewModels/GameSystemVM.cs:64-67 | returns the directory named after the core followed by " - System", got or created |
| `GameSystems.GetSaveDirectory` | RetriX.Shared/ViewModels/GameSystemVM.cs:69-72 | returns the directory named after the core followed by " - Saves", got or created |
| `GameSystems.SystemAndSaveDirectoriesDistinct` | RetriX.Shared/ViewModels/GameSystemVM.cs:64-72 | no core's system directory has the same name as any core's save directory |
| `GameSystems.StorageDirectoryNamesInjective` | RetriX.Shared/ViewModels/GameSystemVM.cs:64-72 | cores with different names get different system directories and different save directories |
| `Paths.Extension` | RetriX.Shared/ViewModels/GameSystemVM.cs:40 | the extension is a suffix of the name, and it is either empty or a dot followed by at least one character that is neither a dot, a separator nor `:` |
| `Paths.ExtensionOfStem` | RetriX.Shared/ViewModels/GameSystemSelectionVM.cs:80 | any stem followed by a well-formed extension has exactly that extension |
| `Paths.DirectoryName` | RetriX.Shared/ViewModels/GameSystemSelectionVM.cs:124 | the directory part is a prefix of the path: "" when the path has no separator; otherwise the text before the last separator, or, when that text is a volume root (`E:` or empty), that text with the separator |
| `Paths.DirectoryNameOfJoin` | RetriX.Shared/ViewModels/GameSystemSelectionVM.cs:124 | the directory part of `dir` + separator + a plain name is `dir` when `dir` is not a volume root |
| `Paths.DirectoryNameInVolumeRoot` | RetriX.Shared/ViewModels/GameSystemSelectionVM.cs:124 | the directory part of a volume root + separator + a plain name is the root with its separator (`E:\game.cue` gives `E:\`) |
| `Selection.Compatible` | RetriX.Shared/ViewModels/GameSystemSelectionVM.cs:81 | a system is compatible iff it is in the catalogue and lists the extension; the result is empty iff no catalogue system lists it |
| `Selection.CompatibleAppend` | RetriX.Shared/ViewModels/GameSystemSelectionVM.cs:81 | filtering distributes over concatenation, so compatible systems stay in catalogue order |
| `Selection.GameSystemSelection.constructor` | RetriX.Shared/ViewModels/GameSystemSelectionVM.cs:45-60 | after construction the full catalogue is offered, no file is staged and nothing has been logged |
| `Selection.GameSystemSelection.ResetSystemsSelection` | RetriX.Shared/ViewModels/GameSystemSelectionVM.cs:146-151 | the full catalogue is offered and no file is staged |
| `Selection.GameSystemSelection.DisplayNotification` | RetriX.Shared/ViewModels/GameSystemSelectionVM.cs:153-158 | exactly one (title key, message key) notification is appended to the log |
| `Selection.GameSystemSelection.RequestFile` | RetriX.Shared/ViewModels/GameSystemSelectionVM.cs:66-67 | a file pick over the given extensions is logged and the picker's answer is returned |
| `Selection.GameSystemSelection.RequestFolder` | RetriX.Shared/ViewModels/GameSystemSelectionVM.cs:117 | a folder pick is logged and the picker's answer is returned |
| `Selection.GameSystemSelection.RequestStart` | RetriX.Shared/ViewModels/GameSystemSelectionVM.cs:132 | a start call with this system, file and folder is logged and the service's answer is returned |
| `Selection.GameSystemSelection.RequestStop` | RetriX.Shared/ViewModels/GameSystemSelectionVM.cs:97 | a stop call is logged |
| `Selection.GameSystemSelection.AttemptStart` | RetriX.Shared/ViewModels/GameSystemSelectionVM.cs:102-138 | the new state is `StartAttempt` of the old one, and the screen stays consistent |
| `Selection.GameSystemSelection.GameSystemSelected` | RetriX.Shared/ViewModels/GameSystemSelectionVM.cs:62-75 | the new state is `SystemSelected` of the old one, and the screen stays consistent |
| `Selection.GameSystemSelection.StartGameFromFile` | RetriX.Shared/ViewModels/GameSystemSelectionVM.cs:77-100 | the new state is `FileOpened` of the old one, and the screen stays consistent |
| `Selection.GameSystemSelection.OnGameStopped` | RetriX.Shared/ViewModels/GameSystemSelectionVM.cs:57 | the new state is `GameStopped` of the old one: full catalogue, nothing staged |
| `Selection.GameSystemSelection.OnGameRuntimeExceptionOccurred` | RetriX.Shared/ViewModels/GameSystemSelectionVM.cs:140-144 | the new state is `RuntimeExceptionOccurred` of the old one: full catalogue, nothing staged, then the running-failed notification |
| `Selection.StartAttemptCalls` | RetriX.Shared/ViewModels/GameSystemSelectionVM.cs:102-138 | a start attempt only appends to the log and never stops a game; the service is called exactly once, with this system and file, iff the dependencies are met and, when a folder is required, the picked folder passes the test; otherwise it is never called |
| `Selection.StartAttemptSelection` | RetriX.Shared/ViewModels/GameSystemSelectionVM.cs:102-138 | a successful start keeps the offered list and the staged file; every other outcome restores the full catalogue and clears the staged file |
| `Selection.UnmetDependenciesAbort` | RetriX.Shared/ViewModels/GameSystemSelectionVM.cs:104-110 | unmet dependencies reset the selection and log exactly the unmet-dependencies notification: no folder pick, no start |
| `Selection.FolderPickCancelledAbort` | RetriX.Shared/ViewModels/GameSystemSelectionVM.cs:112-122 | a required folder whose pick is cancelled logs the select-folder notification then the pick, resets the selection, and makes no start |
| `Selection.InvalidFolderAbort` | RetriX.Shared/ViewModels/GameSystemSelectionVM.cs:124-129 | a folder that is not a prefix of the file's directory resets the selection and logs the invalid-folder notification exactly once after the request and pick, with no start |
| `Selection.LaunchEffects` | RetriX.Shared/ViewModels/GameSystemSelectionVM.cs:112-137 | when both checks pass, the log gains the folder request and pick (only if a folder is required), the start call with the folder (or none), and the loading-failed notification when the start fails |
| `Selection.StartFailureResets` | RetriX.Shared/ViewModels/GameSystemSelectionVM.cs:132-137 | a start that fails resets the selection and ends the log with the start call followed by the loading-failed notification |
| `Selection.FolderContainsFile` | RetriX.Shared/ViewModels/GameSystemSelectionVM.cs:124 | a picked folder is accepted for a file exactly when the folder's full path is an ordinal string prefix of the directory part of the file's full path |
| `Selection.FolderTestOnJoinedPath` | RetriX.Shared/ViewModels/GameSystemSelectionVM.cs:124 | for a file at `dir` + separator + name, with `dir` not a volume root, a folder passes iff its path is a string prefix of `dir`; the file's own directory passes |
| `Selection.FolderTestInVolumeRoot` | RetriX.Shared/ViewModels/GameSystemSelectionVM.cs:124 | for a file directly under a volume root, a folder passes iff its path is a prefix of the root with its separator; the root folder (`E:\`) passes |
| `Selection.FolderTestIgnoresNameBoundaries` | RetriX.Shared/ViewModels/GameSystemSelectionVM.cs:124 | the prefix test accepts `C:\Games` for a file in `C:\GamesOther`, because it is a raw string prefix |
| `Selection.NoCompatibleSystemIsNoOp` | RetriX.Shared/ViewModels/GameSystemSelectionVM.cs:80-87 | when no catalogue system lists the file's extension, nothing changes: no stop, no start, no notification, same offered list, staged file and storage |
| `Selection.SingleCompatibleStartsDirectly` | RetriX.Shared/ViewModels/GameSystemSelectionVM.cs:89-94 | with exactly one compatible system, the result is the start attempt with that system and file; no stop is logged, and the offered list is either kept or reset, never filtered |
| `Selection.SeveralCompatibleFilterOffered` | RetriX.Shared/ViewModels/GameSystemSelectionVM.cs:96-99 | with two or more compatible systems, one stop is logged; the offered list becomes exactly the catalogue's systems that list the extension, in catalogue order; the file is staged and storage is untouched |
| `Selection.SystemSelectedPicksFile` | RetriX.Shared/ViewModels/GameSystemSelectionVM.cs:64-74 | with no staged file, the first new effect is a pick over the system's extensions followed by the archive extensions; a cancelled pick changes nothing else; a picked file is staged and the start attempt runs on it |
| `Selection.SystemSelectedUsesStagedFile` | RetriX.Shared/ViewModels/GameSystemSelectionVM.cs:64-74 | with a staged file, no pick is made and the start attempt uses the staged file |
| `Selection.EventsRestoreCatalogue` | RetriX.Shared/ViewModels/GameSystemSelectionVM.cs:140-151 | after a stopped or runtime-exception event the full catalogue is offered and nothing is staged; only the exception logs a notification, the running-failed one |
| `Selection.StartAttemptKeepsConsistent` | RetriX.Shared/ViewModels/GameSystemSelectionVM.cs:102-138 | a start attempt keeps the invariant that a filtered offered list always belongs to the staged file |
| `Selection.SystemSelectedKeepsConsistent` | RetriX.Shared/ViewModels/GameSystemSelectionVM.cs:62-75 | tapping a system keeps that invariant |
| `Selection.FileOpenedKeepsConsistent` | RetriX.Shared/ViewModels/GameSystemSelectionVM.cs:77-100 | opening a file keeps that invariant |

## Left out

- `async`/`await`: each handler runs as one sequential step. Overlapping taps, reentrancy of `async void` handlers and event-delegate registration are not modelled.
- In the source, `GameStopped` can be raised from inside `StopGameAsync` on the several-systems path. That nested reset is not modelled. It does not change the final state, because the filtered list and the staged file are assigned after the stop.
- A failure path resets the selection before it shows the notification. The methods keep that order. The snapshot cannot observe it, because the log holds no UI state.
- Dialogs and localization are left out. A notification is logged as its pair of resource keys. `GetLocalizedString` and `AlertAsync` are not modelled.
- Pickers are left out. The file picker and the folder picker are replaced by arguments that give their answer.
- The emulation service (`IEmulationService`) is an interface. Its start result is an argument, and its start and stop calls are logged. Pause, resume, reset, save and load state, input injection and the session lifecycle belong to its implementation, which is not part of this model.
- `IFileSystem` storage is a map from directory names to sets of file names. Directory and file handles are represented by names, and storage never throws.
- `Name` and `Manufacturer` are localized strings and are left out. So are the `ICore` internals and the MVVM property-change plumbing (`Set`, `RelayCommand`).
- System identity is value equality. Two `GameSystemVM` objects with equal fields would be different objects in the source.
- `Paths.DirectoryName`: an empty or blank path, where .NET throws (or, in later versions, returns null), so the start attempt at GameSystemSelectionVM.cs:124 ends in an exception, while the model returns "" and the folder test goes on; a path that is itself a volume root (where .NET returns null), UNC roots, drive-relative paths such as `C:game`, repeated separators and the rewriting of `/` to `\` are not modelled.
- `FolderContainsFile` uses an ordinal sequence prefix. .NET's `StartsWith(string)` is culture-sensitive.
