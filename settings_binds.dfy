/**
 * The controls page of the settings menu: the scan that fills each key row
 * of the control table with a key bound to its command, and the rebind rule
 * applied when the user assigns a new key to a row.
 */
module SettingsBinds {
  import opened CStrings

  /** A row of the control table: its command and the key shown for it (0, 0 for none). */
  datatype KeyEntry = KeyEntry(command: Name, keyId: int, modifier: int)

  /** The bind table, keyed by (key, modifier combination); a missing pair is bound to "". */
  type BindMap = map<(int, int), Name>

  function BindOf(binds: BindMap, keyId: int, modifier: int): Name
  {
    if (keyId, modifier) in binds then binds[(keyId, modifier)] else []
  }

  // ---------------------------------------------------------------------------
  // The scan
  // ---------------------------------------------------------------------------

  /** Row `e` is the first row whose command is `c`, the one the scan's `break` stops at. */
  predicate FirstWithCommand(commands: seq<Name>, c: Name, e: int)
  {
    0 <= e < |commands| && commands[e] == c && forall j :: 0 <= j < e ==> commands[j] != c
  }

  /** Key `keyId` with modifier `modifier` is bound to a command whose first row is `e`. */
  predicate Claims(binds: BindMap, commands: seq<Name>, e: int, keyId: int, modifier: int)
  {
    BindOf(binds, keyId, modifier) != [] && FirstWithCommand(commands, BindOf(binds, keyId, modifier), e)
  }

  /** The scan visits (modifier, key) pairs modifier-major: `(m1, k1)` comes before `(m2, k2)`. */
  predicate Before(m1: int, k1: int, m2: int, k2: int)
  {
    m1 < m2 || (m1 == m2 && k1 < k2)
  }

  predicate InScan(keyLast: int, modifier: int, keyId: int)
  {
    0 <= modifier && 0 <= keyId < keyLast
  }

  /**
   * Row `x` (row number `e`) after the scan has visited every pair before
   * `(m, k)`: it is (0, 0) and no visited pair claims it, or it holds the
   * last visited pair that claims it.
   */
  ghost predicate RowScanned(x: KeyEntry, e: int, commands: seq<Name>, binds: BindMap, keyLast: int, m: int, k: int)
  {
    (x.keyId == 0 && x.modifier == 0
     && forall m1, k1 :: InScan(keyLast, m1, k1) && Before(m1, k1, m, k) ==> !Claims(binds, commands, e, k1, m1))
    || (InScan(keyLast, x.modifier, x.keyId) && Before(x.modifier, x.keyId, m, k)
        && Claims(binds, commands, e, x.keyId, x.modifier)
        && forall m1, k1 :: InScan(keyLast, m1, k1) && Before(m1, k1, m, k) && Claims(binds, commands, e, k1, m1)
             ==> !Before(x.modifier, x.keyId, m1, k1))
  }

  ghost predicate ScannedBefore(rows: seq<KeyEntry>, commands: seq<Name>, binds: BindMap, keyLast: int, m: int, k: int)
  {
    |rows| == |commands|
    && forall e :: 0 <= e < |rows| ==> rows[e].command == commands[e] && RowScanned(rows[e], e, commands, binds, keyLast, m, k)
  }

  function Commands(rows: seq<KeyEntry>): (r: seq<Name>)
    ensures |r| == |rows|
    ensures forall e :: 0 <= e < |rows| ==> r[e] == rows[e].command
  {
    seq(|rows|, e requires 0 <= e < |rows| => rows[e].command)
  }

  /**
   * Rebuilds the key column of the control table from the bind table: every
   * row is reset to (0, 0), then for each modifier combination below
   * `modifierCount` and each key below `keyLast` with a non-empty bind, the
   * first row with that command takes the pair.
   */
  method ScanBinds(keys: array<KeyEntry>, binds: BindMap, keyLast: int, modifierCount: int)
    modifies keys
    ensures Commands(keys[..]) == Commands(old(keys[..]))
    ensures ScannedBefore(keys[..], Commands(old(keys[..])), binds, keyLast, if modifierCount < 0 then 0 else modifierCount, 0)
  {
    ghost var commands := Commands(keys[..]);
    var e := 0;
    while e < keys.Length
      invariant 0 <= e <= keys.Length
      invariant Commands(keys[..]) == commands
      invariant forall j :: 0 <= j < e ==> keys[j].keyId == 0 && keys[j].modifier == 0
    {
      keys[e] := keys[e].(keyId := 0, modifier := 0);
      e := e + 1;
    }
    ScanStart(keys[..], commands, binds, keyLast);
    var m := 0;
    while m < modifierCount
      invariant 0 <= m && (modifierCount >= 0 ==> m <= modifierCount) && (modifierCount < 0 ==> m == 0)
      invariant Commands(keys[..]) == commands
      invariant ScannedBefore(keys[..], commands, binds, keyLast, m, 0)
    {
      ScanModifier(keys, commands, binds, keyLast, m);
      m := m + 1;
    }
  }

  /** One modifier combination: every key below `keyLast`. */
  method ScanModifier(keys: array<KeyEntry>, ghost commands: seq<Name>, binds: BindMap, keyLast: int, m: int)
    requires 0 <= m
    requires Commands(keys[..]) == commands
    requires ScannedBefore(keys[..], commands, binds, keyLast, m, 0)
    modifies keys
    ensures Commands(keys[..]) == commands
    ensures ScannedBefore(keys[..], commands, binds, keyLast, m + 1, 0)
  {
    var k := 0;
    while k < keyLast
      invariant 0 <= k && (keyLast >= 0 ==> k <= keyLast) && (keyLast < 0 ==> k == 0)
      invariant Commands(keys[..]) == commands
      invariant ScannedBefore(keys[..], commands, binds, keyLast, m, k)
    {
      ScanKey(keys, commands, binds, keyLast, m, k);
      k := k + 1;
    }
    NextModifier(keys[..], commands, binds, keyLast, m, k);
  }

  /** One (key, modifier) pair: the first row with its command, if any, takes it. */
  method ScanKey(keys: array<KeyEntry>, ghost commands: seq<Name>, binds: BindMap, keyLast: int, m: int, k: int)
    requires InScan(keyLast, m, k)
    requires Commands(keys[..]) == commands
    requires ScannedBefore(keys[..], commands, binds, keyLast, m, k)
    modifies keys
    ensures Commands(keys[..]) == commands
    ensures ScannedBefore(keys[..], commands, binds, keyLast, m, k + 1)
  {
    var bind := BindOf(binds, k, m);
    if bind == [] {
      StepNoClaim(keys[..], commands, binds, keyLast, m, k);
      return;
    }
    var j := FindCommand(keys, bind);
    if j < 0 {
      StepNoClaim(keys[..], commands, binds, keyLast, m, k);
    } else {
      ghost var before := keys[..];
      keys[j] := keys[j].(keyId := k, modifier := m);
      StepClaim(before, commands, binds, keyLast, m, k, j);
      assert keys[..] == before[j := before[j].(keyId := k, modifier := m)];
    }
  }

  /** The row loop with its `break`: the first row whose command is `c`, or -1. */
  method FindCommand(keys: array<KeyEntry>, c: Name) returns (j: int)
    ensures -1 <= j < keys.Length
    ensures j == -1 ==> forall e :: 0 <= e < keys.Length ==> keys[e].command != c
    ensures j >= 0 ==> FirstWithCommand(Commands(keys[..]), c, j)
  {
    j := 0;
    while j < keys.Length
      invariant 0 <= j <= keys.Length
      invariant forall e :: 0 <= e < j ==> keys[e].command != c
    {
      if keys[j].command == c {
        return;
      }
      j := j + 1;
    }
    j := -1;
  }

  lemma ScanStart(rows: seq<KeyEntry>, commands: seq<Name>, binds: BindMap, keyLast: int)
    requires Commands(rows) == commands
    requires forall j :: 0 <= j < |rows| ==> rows[j].keyId == 0 && rows[j].modifier == 0
    ensures ScannedBefore(rows, commands, binds, keyLast, 0, 0)
  {
  }

  lemma NextModifier(rows: seq<KeyEntry>, commands: seq<Name>, binds: BindMap, keyLast: int, m: int, k: int)
    requires 0 <= m && (keyLast >= 0 ==> k == keyLast) && (keyLast < 0 ==> k == 0)
    requires ScannedBefore(rows, commands, binds, keyLast, m, k)
    ensures ScannedBefore(rows, commands, binds, keyLast, m + 1, 0)
  {
    forall e | 0 <= e < |rows|
      ensures RowScanned(rows[e], e, commands, binds, keyLast, m + 1, 0)
    {
      assert RowScanned(rows[e], e, commands, binds, keyLast, m, k);
      assert forall m1, k1 :: InScan(keyLast, m1, k1) ==> (Before(m1, k1, m + 1, 0) <==> Before(m1, k1, m, k));
    }
  }

  lemma StepNoClaim(rows: seq<KeyEntry>, commands: seq<Name>, binds: BindMap, keyLast: int, m: int, k: int)
    requires InScan(keyLast, m, k)
    requires ScannedBefore(rows, commands, binds, keyLast, m, k)
    requires BindOf(binds, k, m) == [] || forall e :: 0 <= e < |rows| ==> rows[e].command != BindOf(binds, k, m)
    ensures ScannedBefore(rows, commands, binds, keyLast, m, k + 1)
  {
    forall e | 0 <= e < |rows|
      ensures RowScanned(rows[e], e, commands, binds, keyLast, m, k + 1)
    {
      assert RowScanned(rows[e], e, commands, binds, keyLast, m, k);
      assert !Claims(binds, commands, e, k, m);
    }
  }

  lemma StepClaim(rows: seq<KeyEntry>, commands: seq<Name>, binds: BindMap, keyLast: int, m: int, k: int, j: int)
    requires InScan(keyLast, m, k)
    requires ScannedBefore(rows, commands, binds, keyLast, m, k)
    requires BindOf(binds, k, m) != [] && FirstWithCommand(commands, BindOf(binds, k, m), j)
    ensures ScannedBefore(rows[j := rows[j].(keyId := k, modifier := m)], commands, binds, keyLast, m, k + 1)
  {
    var rows' := rows[j := rows[j].(keyId := k, modifier := m)];
    forall e | 0 <= e < |rows'|
      ensures RowScanned(rows'[e], e, commands, binds, keyLast, m, k + 1)
    {
      if e == j {
        assert Claims(binds, commands, e, k, m);
      } else {
        assert RowScanned(rows[e], e, commands, binds, keyLast, m, k);
        assert !Claims(binds, commands, e, k, m);
      }
    }
  }

  /**
   * After the scan, every row either shows no key, or shows a pair inside
   * the scanned range whose bind is exactly the row's command, and then no
   * other row with the same command shows a key.
   */
  lemma ScanResultSound(rows: seq<KeyEntry>, commands: seq<Name>, binds: BindMap, keyLast: int, modifierCount: int, e: int)
    requires ScannedBefore(rows, commands, binds, keyLast, modifierCount, 0)
    requires 0 <= e < |rows|
    ensures (rows[e].keyId == 0 && rows[e].modifier == 0)
      || (0 <= rows[e].modifier < modifierCount && 0 <= rows[e].keyId < keyLast
          && BindOf(binds, rows[e].keyId, rows[e].modifier) == rows[e].command != []
          && forall j :: 0 <= j < e ==> rows[j].command != rows[e].command)
  {
    assert RowScanned(rows[e], e, commands, binds, keyLast, modifierCount, 0);
  }

  /** A row stays empty only when no pair in the scanned range is bound to its command as first row. */
  lemma ScanResultComplete(rows: seq<KeyEntry>, commands: seq<Name>, binds: BindMap, keyLast: int, modifierCount: int, e: int, m: int, k: int)
    requires ScannedBefore(rows, commands, binds, keyLast, modifierCount, 0)
    requires 0 <= e < |rows| && 0 <= m < modifierCount && 0 <= k < keyLast
    requires Claims(binds, commands, e, k, m)
    ensures BindOf(binds, rows[e].keyId, rows[e].modifier) == rows[e].command
    ensures !Before(rows[e].modifier, rows[e].keyId, m, k)
  {
    assert RowScanned(rows[e], e, commands, binds, keyLast, modifierCount, 0);
    assert InScan(keyLast, m, k) && Before(m, k, modifierCount, 0);
  }

  // ---------------------------------------------------------------------------
  // Rebinding a row
  // ---------------------------------------------------------------------------

  /**
   * The bind table after a row showing `(oldId, oldModifier)` is given
   * `(newId, newModifier)` in the key reader: on a change, the old pair is
   * cleared when it was a real key or the new one is "none", and the new
   * pair is bound to the row's command exactly when it is a real key.
   */
  function Rebound(binds: BindMap, command: Name, oldId: int, oldModifier: int, newId: int, newModifier: int): (r: BindMap)
    ensures oldId == newId && oldModifier == newModifier ==> r == binds
    ensures (oldId != newId || oldModifier != newModifier) && newId != 0
      ==> BindOf(r, newId, newModifier) == command
    ensures (oldId != newId || oldModifier != newModifier) && (oldId != 0 || newId == 0)
      && (newId == 0 || (oldId, oldModifier) != (newId, newModifier))
      ==> BindOf(r, oldId, oldModifier) == []
    ensures (oldId != newId || oldModifier != newModifier) && newId == 0 && (0, newModifier) != (oldId, oldModifier)
      ==> BindOf(r, 0, newModifier) == BindOf(binds, 0, newModifier)
    ensures forall key, mod :: ((key, mod) != (oldId, oldModifier) && (key, mod) != (newId, newModifier)
      ==> BindOf(r, key, mod) == BindOf(binds, key, mod))
  {
    if newId != oldId || newModifier != oldModifier then
      var cleared := if oldId != 0 || newId == 0 then binds[(oldId, oldModifier) := []] else binds;
      if newId != 0 then cleared[(newId, newModifier) := command] else cleared
    else binds
  }

  /** A rebind never clears the "none" key (0) unless the new key is also "none". */
  lemma RebindKeepsNoneKey(binds: BindMap, command: Name, oldModifier: int, newId: int, newModifier: int)
    requires newId != 0
    ensures BindOf(Rebound(binds, command, 0, oldModifier, newId, newModifier), 0, oldModifier) == BindOf(binds, 0, oldModifier)
  {
  }

  /** The bind table the client holds; `Bind(key, command, modifier)` stores the command for the pair. */
  class Binds {
    var table: BindMap

    constructor ()
      ensures table == map[]
    {
      table := map[];
    }

    method Bind(keyId: int, command: Name, modifier: int)
      modifies this
      ensures table == old(table)[(keyId, modifier) := command]
    {
      table := table[(keyId, modifier) := command];
    }

    /** `DoSettingsControlsButtons` for one row. */
    method Rebind(command: Name, oldId: int, oldModifier: int, newId: int, newModifier: int)
      modifies this
      ensures table == Rebound(old(table), command, oldId, oldModifier, newId, newModifier)
    {
      if newId != oldId || newModifier != oldModifier {
        if oldId != 0 || newId == 0 {
          Bind(oldId, [], oldModifier);
        }
        if newId != 0 {
          Bind(newId, command, newModifier);
        }
      }
    }
  }
}
