/**
 * The background-map picker popup: which directory entries it lists, how
 * choosing a directory moves the current folder, and how choosing a map
 * sets the background-entities setting.
 */
module SettingsMapPicker {
  import opened CStrings

  datatype MapListItem = MapListItem(filename: Name, isDirectory: bool)

  predicate EndsWith(s: Name, suffix: Name)
  {
    |suffix| <= |s| && s[|s| - |suffix|..] == suffix
  }

  /**
   * `MapListFetchCallback`: an entry is listed unless it is a file not named
   * `*.map`, the entry `.`, or the entry `..` while at the top folder.
   */
  predicate Listed(name: Name, isDirectory: bool, currentFolder: Name)
  {
    !((!isDirectory && !EndsWith(name, ".map")) || name == "." || (name == ".." && currentFolder == []))
  }

  /** What the filter guarantees about each listed entry. */
  lemma ListedEntries(name: Name, isDirectory: bool, currentFolder: Name)
    ensures Listed(name, isDirectory, currentFolder) && !isDirectory ==> EndsWith(name, ".map")
    ensures name == "." ==> !Listed(name, isDirectory, currentFolder)
    ensures name == ".." ==> (Listed(name, isDirectory, currentFolder) <==> isDirectory && currentFolder != [])
    ensures isDirectory && name != "." && name != ".." ==> Listed(name, isDirectory, currentFolder)
  {
  }

  /** The listing built from the directory entries, in the order they are reported. */
  function ListedUpTo(entries: seq<MapListItem>, n: nat, currentFolder: Name): seq<MapListItem>
    requires n <= |entries|
  {
    if n == 0 then []
    else
      var e := entries[n - 1];
      ListedUpTo(entries, n - 1, currentFolder)
        + (if Listed(e.filename, e.isDirectory, currentFolder) then [e] else [])
  }

  lemma {:induction false} ListedUpToMembers(entries: seq<MapListItem>, n: nat, currentFolder: Name, x: MapListItem)
    requires n <= |entries|
    ensures x in ListedUpTo(entries, n, currentFolder)
      <==> Listed(x.filename, x.isDirectory, currentFolder) && exists i :: 0 <= i < n && entries[i] == x
  {
    if n > 0 {
      ListedUpToMembers(entries, n - 1, currentFolder, x);
    }
  }

  function IsSeparator(c: char): bool
  {
    c == '/' || c == '\\'
  }

  /** The position of the last separator in `s`, or -1. */
  function LastSeparator(s: Name): (r: int)
    ensures -1 <= r < |s|
    ensures r >= 0 ==> IsSeparator(s[r])
    ensures forall i :: r < i < |s| ==> !IsSeparator(s[i])
  {
    if s == [] then -1
    else if IsSeparator(s[|s| - 1]) then |s| - 1
    else LastSeparator(s[..|s| - 1])
  }

  /**
   * `fs_parent_dir`: cuts the path at its last separator, which is dropped;
   * a path without one is left unchanged.
   */
  function ParentDir(s: Name): (r: Name)
    ensures |r| <= |s| && r == s[..|r|]
    ensures (forall i :: 0 <= i < |s| ==> !IsSeparator(s[i])) ==> r == s
    ensures (exists i :: 0 <= i < |s| && IsSeparator(s[i]))
      ==> |r| < |s| && IsSeparator(s[|r|]) && forall i :: |r| < i < |s| ==> !IsSeparator(s[i])
  {
    var i := LastSeparator(s);
    if i < 0 then s else s[..i]
  }

  /** Entering a subfolder and then `..` comes back to where it started, when nothing was cut. */
  lemma EnterThenParent(folder: Name, name: Name, size: nat)
    requires size >= 1 && |folder| < size
    requires |folder| + 1 + |name| < size
    requires forall i :: 0 <= i < |name| ==> !IsSeparator(name[i])
    ensures ParentDir(EnterFolder(folder, name, size)) == folder
  {
    var entered := folder + "/" + name;
    assert EnterFolder(folder, name, size) == entered;
    NoSeparatorAfter(folder, name);
  }

  lemma NoSeparatorAfter(folder: Name, name: Name)
    requires forall i :: 0 <= i < |name| ==> !IsSeparator(name[i])
    ensures LastSeparator(folder + "/" + name) == |folder|
  {
    var s := folder + "/" + name;
    JoinParts(folder, name);
    LastSeparatorSkip(s, |folder| + 1);
    var head := folder + "/";
    assert head[|head| - 1] == '/';
  }

  lemma JoinParts(folder: Name, name: Name)
    requires forall i :: 0 <= i < |name| ==> !IsSeparator(name[i])
    ensures (folder + "/" + name)[..|folder| + 1] == folder + "/"
    ensures forall i :: |folder| + 1 <= i < |folder + "/" + name| ==> !IsSeparator((folder + "/" + name)[i])
  {
    var s := folder + "/" + name;
    forall i | |folder| + 1 <= i < |s|
      ensures !IsSeparator(s[i])
    {
      assert s[i] == name[i - |folder| - 1];
    }
  }

  /** Characters after position `n` that are not separators do not move the last separator. */
  lemma {:induction false} LastSeparatorSkip(s: Name, n: nat)
    requires n <= |s|
    requires forall i :: n <= i < |s| ==> !IsSeparator(s[i])
    ensures LastSeparator(s) == LastSeparator(s[..n])
  {
    if |s| > n {
      var t := s[..|s| - 1];
      assert t[..n] == s[..n];
      LastSeparatorSkip(t, n);
    } else {
      assert s[..n] == s;
    }
  }

  /**
   * Choosing a directory other than `..`: `/` and then its name are appended
   * to the current folder, each cut to the buffer.
   */
  function EnterFolder(folder: Name, name: Name, size: nat): (r: Name)
    requires |folder| < size
    ensures var whole := folder + "/" + name;
      |r| == (if |whole| < size then |whole| else size - 1) && r == whole[..|r|]
  {
    var withSlash := StrAppend(folder, "/", size);
    var r := StrAppend(withSlash, name, size);
    if |withSlash| == |folder| + 1 then
      assert withSlash == folder + "/";
      r
    else
      assert withSlash == folder && r == withSlash;
      r
  }

  /** `%s/%s` formatted into a buffer of `size` characters. */
  function JoinPath(folder: Name, name: Name, size: nat): (r: Name)
    requires size >= 1
    ensures var whole := folder + "/" + name;
      |r| == (if |whole| < size then |whole| else size - 1) && r == whole[..|r|]
  {
    StrCopy(folder + "/" + name, size)
  }

  /** The popup's state and the background-entities setting it writes. */
  class MapPicker {
    var currentFolder: Name
    var maps: seq<MapListItem>
    var backgroundEntities: Name
    /** Buffer sizes of the current folder and of `cl_background_entities`. */
    const folderSize: nat
    const entitiesSize: nat

    ghost predicate Valid()
      reads this
    {
      folderSize >= 1 && entitiesSize >= 1 && |currentFolder| < folderSize
    }

    constructor (folderSize: nat, entitiesSize: nat)
      requires folderSize >= 1 && entitiesSize >= 1
      ensures Valid() && currentFolder == [] && maps == []
      ensures this.folderSize == folderSize && this.entitiesSize == entitiesSize
    {
      this.folderSize := folderSize;
      this.entitiesSize := entitiesSize;
      currentFolder := [];
      maps := [];
      backgroundEntities := [];
    }

    /** The callback for one directory entry. */
    method FetchEntry(name: Name, isDirectory: bool)
      modifies `maps
      ensures maps == old(maps) + (if Listed(name, isDirectory, currentFolder) then [MapListItem(name, isDirectory)] else [])
    {
      if (!isDirectory && !EndsWith(name, ".map")) || name == "." || (name == ".." && currentFolder == []) {
        return;
      }
      maps := maps + [MapListItem(name, isDirectory)];
    }

    /**
     * `MapListPopulate` for the entries the storage reports for the current
     * folder: clears the list and keeps the entries the callback accepts.
     */
    method Populate(entries: seq<MapListItem>)
      modifies `maps
      ensures maps == ListedUpTo(entries, |entries|, currentFolder)
    {
      maps := [];
      var i := 0;
      while i < |entries|
        invariant 0 <= i <= |entries|
        invariant maps == ListedUpTo(entries, i, currentFolder)
      {
        FetchEntry(entries[i].filename, entries[i].isDirectory);
        i := i + 1;
      }
    }

    /**
     * Choosing item `index`: a directory moves the folder (up for `..`) and
     * repopulates from `listing`, the new folder's entries, keeping the popup
     * open; a map sets `cl_background_entities` and closes it.
     */
    method Choose(index: int, listing: seq<MapListItem>) returns (close: bool)
      requires Valid() && 0 <= index < |maps|
      modifies `currentFolder, `maps, `backgroundEntities
      ensures Valid()
      ensures close <==> !old(maps)[index].isDirectory
      ensures var item := old(maps)[index];
        if !item.isDirectory then
          backgroundEntities == JoinPath(old(currentFolder), item.filename, entitiesSize)
          && currentFolder == old(currentFolder) && maps == old(maps)
        else
          currentFolder == (if item.filename == ".." then ParentDir(old(currentFolder))
                            else EnterFolder(old(currentFolder), item.filename, folderSize))
          && maps == ListedUpTo(listing, |listing|, currentFolder)
          && backgroundEntities == old(backgroundEntities)
    {
      var item := maps[index];
      if item.isDirectory {
        if item.filename == ".." {
          currentFolder := ParentDir(currentFolder);
        } else {
          currentFolder := EnterFolder(currentFolder, item.filename, folderSize);
        }
        Populate(listing);
        close := false;
      } else {
        backgroundEntities := JoinPath(currentFolder, item.filename, entitiesSize);
        close := true;
      }
    }
  }
}
