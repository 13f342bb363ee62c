/**
 * The two path helpers the game-selection code relies on: the extension of a file name
 * (Path.GetExtension) and the directory part of a full path (Path.GetDirectoryName),
 * written out over plain strings with Windows separators.
 */
module Paths {
  import opened Wrappers

  /** Directory separators recognised in a path. */
  const Separators: set<char> := {'\\', '/'}

  /** Characters at which the backwards search for an extension stops: the dot, the separators and the volume separator. */
  const ExtensionStops: set<char> := {'.', '\\', '/', ':'}

  /** Position of the last character of `s` that belongs to `cs`, if there is one. */
  function LastIndexIn(s: string, cs: set<char>): (r: Option<nat>)
    ensures r.Some? ==> r.value < |s| && s[r.value] in cs
    ensures r.Some? ==> forall j :: r.value < j < |s| ==> s[j] !in cs
    ensures r.None? ==> forall j :: 0 <= j < |s| ==> s[j] !in cs
  {
    if s == [] then None
    else if s[|s| - 1] in cs then Some(|s| - 1)
    else LastIndexIn(s[..|s| - 1], cs)
  }

  /** A well-formed extension: a dot followed by at least one character that is neither a dot, a separator nor ':'. */
  predicate IsExtension(e: string) {
    |e| >= 2 && e[0] == '.' && forall k :: 1 <= k < |e| ==> e[k] !in ExtensionStops
  }

  /**
   * The extension of a file name, dot included: the text from the last dot to the end,
   * or "" when there is no dot after the last separator or the dot is the final character.
   */
  function Extension(name: string): (ext: string)
    ensures |ext| <= |name| && ext == name[|name| - |ext|..]
    ensures ext == "" || IsExtension(ext)
  {
    match LastIndexIn(name, ExtensionStops)
    case None => ""
    case Some(i) =>
      if name[i] == '.' && i < |name| - 1 then
        assert forall k :: 1 <= k < |name| - i ==> name[i..][k] == name[i + k];
        name[i..]
      else ""
  }

  /** A name made of any stem followed by a well-formed extension has exactly that extension. */
  lemma {:induction false} ExtensionOfStem(stem: string, e: string)
    requires IsExtension(e)
    ensures Extension(stem + e) == e
  {
    var name := stem + e;
    assert name[|stem|] == e[0] == '.';
    var r := LastIndexIn(name, ExtensionStops);
    assert r.Some? && r.value == |stem|;
    assert name[|stem|..] == e;
  }

  /**
   * A volume root written without its separator: the empty text before a leading separator
   * (`\\game.cue`) or a drive letter and colon (`E:`).
   */
  predicate IsVolumeRoot(p: string) {
    p == "" || (|p| == 2 && p[1] == ':')
  }

  /**
   * The directory part of a full path: everything before the last separator, or "" when the
   * path holds no separator; when what precedes that separator is a volume root, the separator
   * is kept (`E:\\game.cue` gives `E:\\`).
   */
  function DirectoryName(path: string): (dir: string)
    ensures dir <= path
    ensures || (dir == "" && forall j :: 0 <= j < |path| ==> path[j] !in Separators)
            || (&& |dir| < |path| && path[|dir|] in Separators && !IsVolumeRoot(dir)
                && forall j :: |dir| < j < |path| ==> path[j] !in Separators)
            || (&& 0 < |dir| && dir[|dir| - 1] in Separators && IsVolumeRoot(dir[..|dir| - 1])
                && forall j :: |dir| <= j < |path| ==> path[j] !in Separators)
  {
    match LastIndexIn(path, Separators)
    case None => ""
    case Some(i) => if IsVolumeRoot(path[..i]) then path[..i + 1] else path[..i]
  }

  /** Joining a directory that is not a volume root, a separator and a plain name gives back that directory. */
  lemma {:induction false} DirectoryNameOfJoin(dir: string, sep: char, name: string)
    requires sep in Separators && !IsVolumeRoot(dir)
    requires forall k :: 0 <= k < |name| ==> name[k] !in Separators
    ensures DirectoryName(dir + [sep] + name) == dir
  {
    var path := dir + [sep] + name;
    assert path[|dir|] == sep;
    var r := LastIndexIn(path, Separators);
    assert r.Some? && r.value == |dir|;
    assert path[..|dir|] == dir;
  }

  /** A plain name directly under a volume root: the directory part is the root with its separator. */
  lemma {:induction false} DirectoryNameInVolumeRoot(root: string, sep: char, name: string)
    requires sep in Separators && IsVolumeRoot(root)
    requires forall k :: 0 <= k < |name| ==> name[k] !in Separators
    ensures DirectoryName(root + [sep] + name) == root + [sep]
  {
    var path := root + [sep] + name;
    assert path[|root|] == sep;
    var r := LastIndexIn(path, Separators);
    assert r.Some? && r.value == |root|;
    assert path[..|root|] == root;
    assert path[..|root| + 1] == root + [sep];
  }
}
