/**
 * The skin page of the settings menu: the case-insensitive skin order used
 * by the skin list (`CUISkin`), the rebuild of the skin list (favourites
 * first, each part sorted, special and filtered-out skins dropped), and the
 * favourite-skin set with its console commands and config serialisation.
 */
module SettingsSkins {
  import opened CStrings
  import opened Wrappers

  // ---------------------------------------------------------------------------
  // Orders on names
  // ---------------------------------------------------------------------------

  /** Strict lexicographic order by character code, as `str_comp` and `std::string` compare. */
  function LexLess(a: Name, b: Name): bool
  {
    if b == [] then false
    else if a == [] then true
    else if a[0] != b[0] then a[0] < b[0]
    else LexLess(a[1..], b[1..])
  }

  lemma {:induction false} LexLessAsymmetric(a: Name, b: Name)
    ensures LexLess(a, b) ==> !LexLess(b, a)
  {
    if a != [] && b != [] && a[0] == b[0] {
      LexLessAsymmetric(a[1..], b[1..]);
    }
  }

  lemma {:induction false} LexLessTotal(a: Name, b: Name)
    ensures a == b || LexLess(a, b) || LexLess(b, a)
  {
    if a != [] && b != [] && a[0] == b[0] {
      LexLessTotal(a[1..], b[1..]);
      if a[1..] == b[1..] {
        assert a == [a[0]] + a[1..] && b == [b[0]] + b[1..];
      }
    }
  }

  lemma {:induction false} LexLessTransitive(a: Name, b: Name, c: Name)
    requires LexLess(a, b) && LexLess(b, c)
    ensures LexLess(a, c)
  {
    if a != [] && a[0] == b[0] && b[0] == c[0] {
      LexLessTransitive(a[1..], b[1..], c[1..]);
    }
  }

  function LowerAscii(c: char): char
  {
    if 'A' <= c <= 'Z' then (c as int + 32) as char else c
  }

  /** The name with ASCII capitals lowered, as `str_comp_nocase` sees it. */
  function Fold(s: Name): (r: Name)
    ensures |r| == |s|
  {
    seq(|s|, i requires 0 <= i < |s| => LowerAscii(s[i]))
  }

  /** `CUISkin::operator<`: `str_comp_nocase(a, b) < 0`. */
  predicate SkinLess(a: Name, b: Name)
  {
    LexLess(Fold(a), Fold(b))
  }

  /** `CUISkin::operator==`: `str_comp_nocase(a, b) == 0`. */
  predicate SameNoCase(a: Name, b: Name)
  {
    Fold(a) == Fold(b)
  }

  /**
   * The skin order is a strict weak order whose equivalence classes are
   * exactly the names that `operator==` identifies, so sorting by it is
   * well defined up to those ties.
   */
  lemma SkinOrderIsStrictWeak(a: Name, b: Name, c: Name)
    ensures !SkinLess(a, a)
    ensures SkinLess(a, b) ==> !SkinLess(b, a)
    ensures SkinLess(a, b) && SkinLess(b, c) ==> SkinLess(a, c)
    ensures !SkinLess(a, b) && !SkinLess(b, a) <==> SameNoCase(a, b)
  {
    LexLessAsymmetric(Fold(a), Fold(a));
    LexLessAsymmetric(Fold(a), Fold(b));
    LexLessTotal(Fold(a), Fold(b));
    if SkinLess(a, b) && SkinLess(b, c) {
      LexLessTransitive(Fold(a), Fold(b), Fold(c));
    }
  }

  // ---------------------------------------------------------------------------
  // Sorting by the skin order (`std::sort` over `CUISkin`)
  // ---------------------------------------------------------------------------

  predicate SortedNoCase(s: seq<Name>)
  {
    forall i :: 0 < i < |s| ==> !SkinLess(s[i], s[i - 1])
  }

  function InsertNoCase(x: Name, s: seq<Name>): (r: seq<Name>)
    requires SortedNoCase(s)
    ensures SortedNoCase(r)
    ensures multiset(r) == multiset(s) + multiset{x}
    ensures |r| == |s| + 1
    ensures r[0] == x || (s != [] && r[0] == s[0])
  {
    if s == [] then [x]
    else if SkinLess(s[0], x) then
      LexLessAsymmetric(Fold(s[0]), Fold(x));
      var rest := InsertNoCase(x, s[1..]);
      SortedCons(s[0], rest);
      ConsMultiset(s, rest, x);
      [s[0]] + rest
    else
      SortedCons(x, s);
      [x] + s
  }

  lemma SortedCons(h: Name, t: seq<Name>)
    requires SortedNoCase(t)
    requires t != [] ==> !SkinLess(t[0], h)
    ensures SortedNoCase([h] + t)
  {
    var r := [h] + t;
    forall i | 0 < i < |r|
      ensures !SkinLess(r[i], r[i - 1])
    {
      if i > 1 {
        assert r[i] == t[i - 1] && r[i - 1] == t[i - 2];
      }
    }
  }

  lemma ConsMultiset(s: seq<Name>, rest: seq<Name>, x: Name)
    requires s != []
    requires multiset(rest) == multiset(s[1..]) + multiset{x}
    ensures multiset([s[0]] + rest) == multiset(s) + multiset{x}
  {
    assert s == [s[0]] + s[1..];
  }

  /** A sorted permutation of `s`: the order `std::sort` leaves the list in. */
  function SortNoCase(s: seq<Name>): (r: seq<Name>)
    ensures SortedNoCase(r)
    ensures multiset(r) == multiset(s)
    ensures |r| == |s|
  {
    if s == [] then []
    else
      assert s == s[..|s| - 1] + [s[|s| - 1]];
      InsertNoCase(s[|s| - 1], SortNoCase(s[..|s| - 1]))
  }

  // ---------------------------------------------------------------------------
  // The skin list
  // ---------------------------------------------------------------------------

  /** Skins named `x_...` (ninja, spectator) are never listed. */
  predicate IsSpecial(n: Name)
  {
    |n| >= 2 && n[0] == 'x' && n[1] == '_'
  }

  /**
   * `SkinNotFiltered`: a non-empty quick-search filter must match the name
   * (`matches` stands for `str_utf8_find_nocase(name, filter) != nullptr`),
   * and special skins are dropped.
   */
  predicate Listed(n: Name, filter: Name, matches: Name -> bool)
  {
    (filter == [] || matches(n)) && !IsSpecial(n)
  }

  /**
   * The favourite part before sorting, from the first `n` favourites in set
   * order; `found` holds what `FindOrNullptr` returns for the favourites it
   * finds.
   */
  function FavoritesUpTo(favs: seq<Name>, n: nat, found: map<Name, Name>, filter: Name, matches: Name -> bool): seq<Name>
    requires n <= |favs|
  {
    if n == 0 then []
    else
      var f := favs[n - 1];
      FavoritesUpTo(favs, n - 1, found, filter, matches)
        + (if f in found && Listed(found[f], filter, matches) then [found[f]] else [])
  }

  /** The other part before sorting, from the first `n` skins. */
  function OthersUpTo(skins: seq<Name>, n: nat, favs: seq<Name>, filter: Name, matches: Name -> bool): seq<Name>
    requires n <= |skins|
  {
    if n == 0 then []
    else
      var s := skins[n - 1];
      OthersUpTo(skins, n - 1, favs, filter, matches)
        + (if Listed(s, filter, matches) && s !in favs then [s] else [])
  }

  lemma {:induction false} FavoritesUpToMembers(favs: seq<Name>, n: nat, found: map<Name, Name>, filter: Name, matches: Name -> bool, x: Name)
    requires n <= |favs|
    ensures x in FavoritesUpTo(favs, n, found, filter, matches)
      <==> Listed(x, filter, matches) && exists i :: 0 <= i < n && favs[i] in found && found[favs[i]] == x
  {
    if n > 0 {
      FavoritesUpToMembers(favs, n - 1, found, filter, matches, x);
    }
  }

  lemma {:induction false} OthersUpToMembers(skins: seq<Name>, n: nat, favs: seq<Name>, filter: Name, matches: Name -> bool, x: Name)
    requires n <= |skins|
    ensures x in OthersUpTo(skins, n, favs, filter, matches)
      <==> Listed(x, filter, matches) && x !in favs && exists i :: 0 <= i < n && skins[i] == x
  {
    if n > 0 {
      OthersUpToMembers(skins, n - 1, favs, filter, matches, x);
    }
  }

  /**
   * The rebuild of the skin list: the found, listed favourites sorted by the
   * skin order, followed by the listed skins that are not favourites, sorted
   * the same way.
   */
  method BuildSkinList(favs: seq<Name>, found: map<Name, Name>, skins: seq<Name>, filter: Name, matches: Name -> bool)
    returns (list: seq<Name>)
    ensures list == SortNoCase(FavoritesUpTo(favs, |favs|, found, filter, matches))
                    + SortNoCase(OthersUpTo(skins, |skins|, favs, filter, matches))
  {
    var favoriteHelper := CollectFavorites(favs, found, filter, matches);
    var skinHelper := CollectOthers(skins, favs, filter, matches);
    list := SortNoCase(favoriteHelper) + SortNoCase(skinHelper);
  }

  /** The first loop of the rebuild: the found, listed favourites in set order. */
  method CollectFavorites(favs: seq<Name>, found: map<Name, Name>, filter: Name, matches: Name -> bool)
    returns (favoriteHelper: seq<Name>)
    ensures favoriteHelper == FavoritesUpTo(favs, |favs|, found, filter, matches)
  {
    favoriteHelper := [];
    var i := 0;
    while i < |favs|
      invariant 0 <= i <= |favs|
      invariant favoriteHelper == FavoritesUpTo(favs, i, found, filter, matches)
    {
      var f := favs[i];
      if f in found && Listed(found[f], filter, matches) {
        favoriteHelper := favoriteHelper + [found[f]];
      }
      i := i + 1;
    }
  }

  /** The second loop of the rebuild: the listed skins that are not favourites. */
  method CollectOthers(skins: seq<Name>, favs: seq<Name>, filter: Name, matches: Name -> bool)
    returns (skinHelper: seq<Name>)
    ensures skinHelper == OthersUpTo(skins, |skins|, favs, filter, matches)
  {
    skinHelper := [];
    var j := 0;
    while j < |skins|
      invariant 0 <= j <= |skins|
      invariant skinHelper == OthersUpTo(skins, j, favs, filter, matches)
    {
      var s := skins[j];
      if Listed(s, filter, matches) && s !in favs {
        skinHelper := skinHelper + [s];
      }
      j := j + 1;
    }
  }

  /**
   * What the list holds: a name is in the favourite part exactly when some
   * favourite was found as that skin and it passes the filter, and in the
   * other part exactly when it is a listed skin that is not a favourite.
   */
  lemma SkinListParts(favs: seq<Name>, found: map<Name, Name>, skins: seq<Name>, filter: Name, matches: Name -> bool, x: Name)
    ensures x in SortNoCase(FavoritesUpTo(favs, |favs|, found, filter, matches))
      <==> Listed(x, filter, matches) && exists i :: 0 <= i < |favs| && favs[i] in found && found[favs[i]] == x
    ensures x in SortNoCase(OthersUpTo(skins, |skins|, favs, filter, matches))
      <==> Listed(x, filter, matches) && x !in favs && x in skins
  {
    var fp := FavoritesUpTo(favs, |favs|, found, filter, matches);
    var op := OthersUpTo(skins, |skins|, favs, filter, matches);
    assert x in SortNoCase(fp) <==> x in multiset(SortNoCase(fp));
    assert x in SortNoCase(op) <==> x in multiset(SortNoCase(op));
    FavoritesUpToMembers(favs, |favs|, found, filter, matches, x);
    OthersUpToMembers(skins, |skins|, favs, filter, matches, x);
  }

  /**
   * When every favourite is found under its own name, no skin is listed in
   * both parts.
   */
  lemma SkinListPartsDisjoint(favs: seq<Name>, found: map<Name, Name>, skins: seq<Name>, filter: Name, matches: Name -> bool, x: Name)
    requires forall f :: f in found ==> found[f] == f
    ensures !(x in SortNoCase(FavoritesUpTo(favs, |favs|, found, filter, matches))
              && x in SortNoCase(OthersUpTo(skins, |skins|, favs, filter, matches)))
  {
    SkinListParts(favs, found, skins, filter, matches, x);
  }

  // ---------------------------------------------------------------------------
  // The favourite-skin set (`std::set<std::string>`)
  // ---------------------------------------------------------------------------

  /** The set's iteration order: strictly ascending by `std::string` comparison. */
  predicate Ascending(s: seq<Name>)
  {
    forall i, j :: 0 <= i < j < |s| ==> LexLess(s[i], s[j])
  }

  /** `std::set::emplace`: inserts `x` in order unless it is already present. */
  function SetInsert(s: seq<Name>, x: Name): (r: seq<Name>)
    requires Ascending(s)
    ensures Ascending(r)
    ensures forall y :: y in r <==> y in s || y == x
  {
    if s == [] then [x]
    else if s[0] == x then s
    else if LexLess(x, s[0]) then
      assert forall j :: 0 < j < |s| ==> LexLess(x, s[j]) by {
        forall j | 0 < j < |s| ensures LexLess(x, s[j]) {
          LexLessTransitive(x, s[0], s[j]);
        }
      }
      [x] + s
    else
      LexLessTotal(x, s[0]);
      var rest := SetInsert(s[1..], x);
      AscendingTail(s);
      AscendingCons(s[0], rest);
      [s[0]] + rest
  }

  /** `std::set::erase` of `x`, which changes nothing when `x` is absent. */
  function SetRemove(s: seq<Name>, x: Name): (r: seq<Name>)
    requires Ascending(s)
    ensures Ascending(r)
    ensures forall y :: y in r <==> y in s && y != x
    ensures x !in s ==> r == s
  {
    if s == [] then []
    else
      AscendingTail(s);
      if s[0] == x then
        LexLessAsymmetric(x, x);
        s[1..]
      else
        var rest := SetRemove(s[1..], x);
        AscendingCons(s[0], rest);
        assert x !in s ==> [s[0]] + rest == s;
        [s[0]] + rest
  }

  /** The head of an ascending sequence is below all of its tail, and the tail is ascending. */
  lemma AscendingTail(s: seq<Name>)
    requires s != [] && Ascending(s)
    ensures Ascending(s[1..])
    ensures forall y :: y in s[1..] ==> LexLess(s[0], y)
    ensures forall y :: y in s <==> y == s[0] || y in s[1..]
  {
    assert s == [s[0]] + s[1..];
    forall y | y in s[1..]
      ensures LexLess(s[0], y)
    {
      var j :| 0 <= j < |s[1..]| && s[1..][j] == y;
      assert s[j + 1] == y;
    }
  }

  lemma AscendingCons(h: Name, t: seq<Name>)
    requires Ascending(t)
    requires forall y :: y in t ==> LexLess(h, y)
    ensures Ascending([h] + t)
  {
    var r := [h] + t;
    forall i, j | 0 <= i < j < |r|
      ensures LexLess(r[i], r[j])
    {
      assert r[j] == t[j - 1];
      if i > 0 {
        assert r[i] == t[i - 1];
      } else {
        assert r[j] in t;
      }
    }
  }

  /** What the config file holds for one favourite: `add_favorite_skin "<name>"` in a 256-byte buffer. */
  const FAVORITE_PREFIX: Name := "add_favorite_skin \""
  const LINE_BUFFER_SIZE := 256

  function FavoriteLine(name: Name): (r: Name)
    ensures |r| < LINE_BUFFER_SIZE
  {
    StrCopy(FAVORITE_PREFIX + name + "\"", LINE_BUFFER_SIZE)
  }

  /**
   * The console's reading of a quoted argument, from just after the opening
   * quote: the characters up to the first unescaped `"`, where a backslash
   * before `"` or `\` stands for that character. A line that ends before a
   * quote closes the argument is rejected, and its command is not run.
   */
  function QuotedArgument(s: Name): Option<Name>
  {
    if s == [] then None
    else if s[0] == '"' then Some([])
    else
      var skip := if s[0] == '\\' && |s| >= 2 && (s[1] == '"' || s[1] == '\\') then 2 else 1;
      match QuotedArgument(s[skip..])
      case None => None
      case Some(rest) => Some([s[skip - 1]] + rest)
  }

  /** A name with no quote or backslash in it. */
  predicate Plain(name: Name)
  {
    forall i :: 0 <= i < |name| ==> name[i] != '"' && name[i] != '\\'
  }

  /** A plain name followed by a closing quote is read as it is. */
  lemma {:induction false} QuotedArgumentOfPlain(name: Name, rest: Name)
    requires Plain(name) && rest != [] && rest[0] == '"'
    ensures QuotedArgument(name + rest) == Some(name)
  {
    if name == [] {
      assert name + rest == rest;
    } else {
      assert (name + rest)[0] == name[0] && (name + rest)[1..] == name[1..] + rest;
      QuotedArgumentOfPlain(name[1..], rest);
      assert [name[0]] + name[1..] == name;
    }
  }

  /** A plain name with no closing quote after it is rejected. */
  lemma {:induction false} UnterminatedPlainRejected(name: Name)
    requires Plain(name)
    ensures QuotedArgument(name) == None
  {
    if name != [] {
      UnterminatedPlainRejected(name[1..]);
    }
  }

  /** Reads a favourite name back from a config line, as the console reads the command's argument. */
  function ParseFavoriteLine(line: Name): Option<Name>
  {
    if |line| >= |FAVORITE_PREFIX| && line[..|FAVORITE_PREFIX|] == FAVORITE_PREFIX
    then QuotedArgument(line[|FAVORITE_PREFIX|..])
    else None
  }

  /** A plain name that fits the buffer is read back from its line. */
  lemma FavoriteLineRoundTrip(name: Name)
    requires |name| + |FAVORITE_PREFIX| + 1 < LINE_BUFFER_SIZE
    requires Plain(name)
    ensures ParseFavoriteLine(FavoriteLine(name)) == Some(name)
  {
    var line := FAVORITE_PREFIX + name + "\"";
    assert FavoriteLine(name) == line;
    assert line[..|FAVORITE_PREFIX|] == FAVORITE_PREFIX;
    assert line[|FAVORITE_PREFIX|..] == name + "\"";
    QuotedArgumentOfPlain(name, "\"");
  }

  /** The line is written without escaping: a quote inside a name ends the argument there. */
  lemma FavoriteLineQuoteCutsName()
    ensures ParseFavoriteLine(FavoriteLine("a\"b")) == Some("a")
  {
    var line := FAVORITE_PREFIX + "a\"b" + "\"";
    assert FavoriteLine("a\"b") == line;
    assert line[..|FAVORITE_PREFIX|] == FAVORITE_PREFIX;
    assert line[|FAVORITE_PREFIX|..] == "a\"b\"";
    assert QuotedArgument("\"b\"") == Some([]);
    assert QuotedArgument("a\"b\"") == Some(['a'] + []);
    assert ['a'] + [] == "a";
    assert QuotedArgument(line[|FAVORITE_PREFIX|..]) == Some("a");
  }

  /**
   * A plain name too long for the buffer loses its closing quote, so its
   * line is rejected when the config is read back: the favourite is lost.
   */
  lemma FavoriteLineTruncatedIsLost(name: Name)
    requires |name| + |FAVORITE_PREFIX| + 1 >= LINE_BUFFER_SIZE
    requires Plain(name)
    ensures ParseFavoriteLine(FavoriteLine(name)) == None
  {
    var kept := name[..LINE_BUFFER_SIZE - 1 - |FAVORITE_PREFIX|];
    var line := FAVORITE_PREFIX + name + "\"";
    assert FavoriteLine(name) == line[..LINE_BUFFER_SIZE - 1];
    assert line[..LINE_BUFFER_SIZE - 1] == FAVORITE_PREFIX + kept;
    assert (FAVORITE_PREFIX + kept)[..|FAVORITE_PREFIX|] == FAVORITE_PREFIX;
    assert (FAVORITE_PREFIX + kept)[|FAVORITE_PREFIX|..] == kept;
    assert Plain(kept);
    UnterminatedPlainRejected(kept);
  }

  /** A longer name is cut and loses its closing quote. */
  lemma FavoriteLineTruncated(name: Name)
    requires |name| + |FAVORITE_PREFIX| + 1 >= LINE_BUFFER_SIZE
    ensures |FavoriteLine(name)| == LINE_BUFFER_SIZE - 1
    ensures FavoriteLine(name)[..|FAVORITE_PREFIX|] == FAVORITE_PREFIX
  {
    var line := FAVORITE_PREFIX + name + "\"";
    assert line[..|FAVORITE_PREFIX|] == FAVORITE_PREFIX;
  }

  class SkinFavorites {
    var names: seq<Name>
    var changed: bool

    ghost predicate Valid()
      reads this
    {
      Ascending(names)
    }

    constructor ()
      ensures Valid() && names == [] && !changed
    {
      names := [];
      changed := false;
    }

    /**
     * `add_favorite_skin`: a name that `CSkin::IsValidName` accepts
     * (`nameIsValid`) joins the set and marks the list for a rebuild;
     * any other name changes nothing.
     */
    method Add(name: Name, nameIsValid: bool)
      requires Valid()
      modifies this
      ensures Valid()
      ensures nameIsValid ==> names == SetInsert(old(names), name) && changed
      ensures !nameIsValid ==> names == old(names) && changed == old(changed)
    {
      if !nameIsValid {
        return;
      }
      names := SetInsert(names, name);
      changed := true;
    }

    /** `remove_favorite_skin`: erases the name, and marks a rebuild only if it was there. */
    method Remove(name: Name)
      requires Valid()
      modifies this
      ensures Valid()
      ensures names == SetRemove(old(names), name)
      ensures changed == (old(changed) || name in old(names))
    {
      if name in names {
        names := SetRemove(names, name);
        changed := true;
      }
    }

    /** `OnConfigSave`: one line per favourite, in set order. */
    method ConfigSave() returns (lines: seq<Name>)
      ensures |lines| == |names|
      ensures forall k :: 0 <= k < |lines| ==> lines[k] == FavoriteLine(names[k])
    {
      lines := [];
      var k := 0;
      while k < |names|
        invariant 0 <= k <= |names|
        invariant |lines| == k
        invariant forall j :: 0 <= j < k ==> lines[j] == FavoriteLine(names[j])
      {
        lines := lines + [FavoriteLine(names[k])];
        k := k + 1;
      }
    }

    /** The rebuild reads the favourites and clears the changed flag. */
    method RebuildSkinList(found: map<Name, Name>, skins: seq<Name>, filter: Name, matches: Name -> bool)
      returns (list: seq<Name>)
      modifies `changed
      ensures !changed
      ensures list == SortNoCase(FavoritesUpTo(names, |names|, found, filter, matches))
                      + SortNoCase(OthersUpTo(skins, |skins|, names, filter, matches))
    {
      changed := false;
      list := BuildSkinList(names, found, skins, filter, matches);
    }
  }

  /** Saving then reading back every favourite line gives the set again, for plain names that fit. */
  lemma ConfigSaveRoundTrip(names: seq<Name>, lines: seq<Name>)
    requires |lines| == |names|
    requires forall k :: 0 <= k < |lines| ==> lines[k] == FavoriteLine(names[k])
    requires forall k :: 0 <= k < |names| ==> |names[k]| + |FAVORITE_PREFIX| + 1 < LINE_BUFFER_SIZE
    requires forall k :: 0 <= k < |names| ==> Plain(names[k])
    ensures forall k :: 0 <= k < |lines| ==> ParseFavoriteLine(lines[k]) == Some(names[k])
  {
    forall k | 0 <= k < |lines|
      ensures ParseFavoriteLine(lines[k]) == Some(names[k])
    {
      FavoriteLineRoundTrip(names[k]);
    }
  }
}
