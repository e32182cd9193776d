/** Where the hotkey is persisted: a file named klipboard_config.ini next to
    the executable, and the key read from it at startup. */
module Configuration {
  import opened Win32
  import opened Wrappers

  const ConfigFileName: string := "klipboard_config.ini"

  /** The index of the last backslash in `path`, if there is one. */
  function LastBackslash(path: string): (r: Option<nat>)
    ensures r.Some? ==> r.value < |path| && path[r.value] == '\\'
    ensures r.Some? ==> forall j :: r.value < j < |path| ==> path[j] != '\\'
    ensures r.None? ==> forall j :: 0 <= j < |path| ==> path[j] != '\\'
    decreases |path|
  {
    if path == [] then None
    else if path[|path| - 1] == '\\' then Some(|path| - 1)
    else LastBackslash(path[..|path| - 1])
  }

  /** strrchr(path, '\\'): one forward pass that remembers the latest hit. */
  method FindLastBackslash(path: string) returns (r: Option<nat>)
    ensures r == LastBackslash(path)
  {
    r := None;
    var i := 0;
    while i < |path|
      invariant 0 <= i <= |path|
      invariant r == LastBackslash(path[..i])
    {
      assert path[..i + 1][..i] == path[..i];
      if path[i] == '\\' {
        r := Some(i);
      }
      i := i + 1;
    }
    assert path[..|path|] == path;
  }

  /** `dir` is how the buffer reads after the cut: a prefix of the path,
      ending in a backslash whenever the path holds one, with no backslash in
      the part cut off. */
  ghost predicate IsDirectoryPart(dir: string, exePath: string) {
    && dir <= exePath
    && (forall j :: |dir| <= j < |exePath| ==> exePath[j] != '\\')
    && (dir != exePath ==> dir != [] && dir[|dir| - 1] == '\\')
    && ((exists j :: 0 <= j < |exePath| && exePath[j] == '\\') ==> dir != [] && dir[|dir| - 1] == '\\')
  }

  /** The directory part written back into the buffer: the path cut just
      after its last backslash, or the whole path when it has none. */
  function DirectoryOf(exePath: string): (dir: string)
    ensures IsDirectoryPart(dir, exePath)
  {
    match LastBackslash(exePath)
    case Some(i) => exePath[..i + 1]
    case None => exePath
  }

  /** The configuration file path derived from the executable's path, taken
      one char per byte of the ANSI path: the directory part, then the file name. */
  function IniFilePath(exePath: string): (p: string)
    ensures |p| >= |ConfigFileName| && p[|p| - |ConfigFileName|..] == ConfigFileName
    ensures IsDirectoryPart(p[..|p| - |ConfigFileName|], exePath)
  {
    var dir := DirectoryOf(exePath);
    var p := dir + ConfigFileName;
    SplitAppend(dir, ConfigFileName);
    assert p[..|p| - |ConfigFileName|] == dir;
    p
  }

  lemma SplitAppend(dir: string, name: string)
    ensures |dir + name| - |name| == |dir|
    ensures (dir + name)[..|dir|] == dir && (dir + name)[|dir|..] == name
  {
  }

  /** Two executables in the same directory share one configuration file,
      the directory followed by the file name. */
  lemma SameDirectorySameIni(dir: string, name1: string, name2: string)
    requires forall j :: 0 <= j < |name1| ==> name1[j] != '\\'
    requires forall j :: 0 <= j < |name2| ==> name2[j] != '\\'
    ensures IniFilePath(dir + "\\" + name1) == IniFilePath(dir + "\\" + name2) == dir + "\\" + ConfigFileName
  {
    InDirectory(dir, name1);
    InDirectory(dir, name2);
  }

  lemma InDirectory(dir: string, name: string)
    requires forall j :: 0 <= j < |name| ==> name[j] != '\\'
    ensures DirectoryOf(dir + "\\" + name) == dir + "\\"
  {
    var p := dir + "\\" + name;
    assert p[|dir|] == '\\';
    assert LastBackslash(p) == Some(|dir|);
    assert p[..|dir| + 1] == dir + "\\";
  }

  /** GetPrivateProfileIntA with F8 as the default: the stored key, or F8
      when the file or the entry is missing. */
  function LoadedHotkey(stored: Option<Dword>): (vk: Dword)
    ensures stored.None? ==> vk == VK_F8
    ensures stored.Some? ==> vk == stored.value
  {
    stored.GetOr(VK_F8)
  }
}
