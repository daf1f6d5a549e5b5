/**
 * The frozen-team HUD: counting the members of the local team and how many
 * of them are frozen, the "you are last" notice, the "alive / total" text,
 * and the placement of member tees into rows, unfrozen members first when
 * they do not all fit.
 */
module HudFrozen {
  import HudNumbers
  import opened Wrappers

  /** What the HUD reads about one client slot. */
  datatype Slot = Slot(present: bool, team: int, freezeEnd: int, deepFrozen: bool)

  predicate IsFrozen(s: Slot)
  {
    s.freezeEnd > 0 || s.deepFrozen
  }

  /** A present player of team `team`. */
  predicate InTeam(s: Slot, team: int)
  {
    s.present && s.team == team
  }

  /** The team followed: the spectated player's while spectating someone, else the local player's. */
  function LocalTeam(slots: seq<Slot>, specActive: bool, spectatorId: int, localId: int): (t: int)
    requires 0 <= localId < |slots|
    requires spectatorId == -1 || 0 <= spectatorId < |slots|
    ensures specActive && spectatorId != -1 ==> t == slots[spectatorId].team
    ensures !(specActive && spectatorId != -1) ==> t == slots[localId].team
  {
    if specActive && spectatorId != -1 then slots[spectatorId].team else slots[localId].team
  }

  // ---------------------------------------------------------------------------
  // Counting
  // ---------------------------------------------------------------------------

  /** Members of `team` among the first `n` slots. */
  function CountInTeam(slots: seq<Slot>, n: nat, team: int): nat
    requires n <= |slots|
  {
    if n == 0 then 0 else CountInTeam(slots, n - 1, team) + (if InTeam(slots[n - 1], team) then 1 else 0)
  }

  /** Frozen members of `team` among the first `n` slots. */
  function CountFrozen(slots: seq<Slot>, n: nat, team: int): nat
    requires n <= |slots|
  {
    if n == 0 then 0
    else CountFrozen(slots, n - 1, team) + (if InTeam(slots[n - 1], team) && IsFrozen(slots[n - 1]) then 1 else 0)
  }

  /** Members of `team` among the first `n` slots who are not frozen. */
  function CountUnfrozen(slots: seq<Slot>, n: nat, team: int): nat
    requires n <= |slots|
  {
    if n == 0 then 0
    else CountUnfrozen(slots, n - 1, team) + (if InTeam(slots[n - 1], team) && !IsFrozen(slots[n - 1]) then 1 else 0)
  }

  /** Every member is either frozen or not. */
  lemma {:induction false} TeamSplit(slots: seq<Slot>, n: nat, team: int)
    requires n <= |slots|
    ensures CountInTeam(slots, n, team) == CountFrozen(slots, n, team) + CountUnfrozen(slots, n, team)
  {
    if n > 0 {
      TeamSplit(slots, n - 1, team);
    }
  }

  /** A count of one or more has a member to show for it. */
  lemma {:induction false} UnfrozenWitness(slots: seq<Slot>, n: nat, team: int) returns (i: nat)
    requires n <= |slots| && CountUnfrozen(slots, n, team) >= 1
    ensures i < n && InTeam(slots[i], team) && !IsFrozen(slots[i])
  {
    if InTeam(slots[n - 1], team) && !IsFrozen(slots[n - 1]) {
      i := n - 1;
    } else {
      i := UnfrozenWitness(slots, n - 1, team);
    }
  }

  /**
   * The counting loop over every client slot: members of the followed team,
   * and how many of them are frozen.
   */
  method CountTeam(slots: seq<Slot>, team: int) returns (numInTeam: int, numFrozen: int)
    ensures numInTeam == CountInTeam(slots, |slots|, team)
    ensures numFrozen == CountFrozen(slots, |slots|, team)
    ensures 0 <= numFrozen <= numInTeam
  {
    numInTeam, numFrozen := 0, 0;
    var i := 0;
    while i < |slots|
      invariant 0 <= i <= |slots|
      invariant numInTeam == CountInTeam(slots, i, team)
      invariant numFrozen == CountFrozen(slots, i, team)
    {
      if slots[i].present {
        if slots[i].team == team {
          numInTeam := numInTeam + 1;
          if slots[i].freezeEnd > 0 || slots[i].deepFrozen {
            numFrozen := numFrozen + 1;
          }
        }
      }
      i := i + 1;
    }
    TeamSplit(slots, |slots|, team);
  }

  /** The condition of the "you are the last one" notice. */
  predicate NotifyLast(numInTeam: int, numFrozen: int)
  {
    numInTeam > 1 && numInTeam - numFrozen == 1
  }

  /** The notice shows exactly when one member is unfrozen and at least one other is frozen. */
  lemma NotifyLastMeans(slots: seq<Slot>, team: int)
    ensures NotifyLast(CountInTeam(slots, |slots|, team), CountFrozen(slots, |slots|, team))
      <==> CountUnfrozen(slots, |slots|, team) == 1 && CountFrozen(slots, |slots|, team) >= 1
  {
    TeamSplit(slots, |slots|, team);
  }

  /** Whom the notice concerns: there is an unfrozen member, and no second one. */
  lemma NotifyLastWitness(slots: seq<Slot>, team: int) returns (last: nat)
    requires NotifyLast(CountInTeam(slots, |slots|, team), CountFrozen(slots, |slots|, team))
    ensures last < |slots| && InTeam(slots[last], team) && !IsFrozen(slots[last])
  {
    TeamSplit(slots, |slots|, team);
    last := UnfrozenWitness(slots, |slots|, team);
  }

  /** The frozen-text line: "alive / total" in mode 1, "frozen / total" in mode 2, nothing in mode 0. */
  function FrozenText(mode: int, numInTeam: int, numFrozen: int): (r: Option<(int, int)>)
    requires 0 <= mode <= 2
    ensures r.None? <==> mode == 0
    ensures r.Some? ==> r.value.1 == numInTeam
    ensures r.Some? ==> r.value.0 == (if mode == 1 then numInTeam - numFrozen else numFrozen)
  {
    if mode == 1 then Some((numInTeam - numFrozen, numInTeam))
    else if mode == 2 then Some((numFrozen, numInTeam))
    else None
  }

  /**
   * With the team's counts, "alive" in mode 1 is the number of unfrozen
   * members, and both modes show the unfrozen plus the frozen as the total.
   */
  lemma FrozenTextCounts(slots: seq<Slot>, team: int, mode: int)
    requires 0 <= mode <= 2
    ensures var r := FrozenText(mode, CountInTeam(slots, |slots|, team), CountFrozen(slots, |slots|, team));
      var total := CountUnfrozen(slots, |slots|, team) + CountFrozen(slots, |slots|, team);
      (mode == 1 ==> r == Some((CountUnfrozen(slots, |slots|, team), total)))
      && (mode == 2 ==> r == Some((CountFrozen(slots, |slots|, team), total)))
  {
    TeamSplit(slots, |slots|, team);
  }

  // ---------------------------------------------------------------------------
  // Placement of the tees
  // ---------------------------------------------------------------------------

  /** Whether the tee row is drawn at all. */
  predicate ShowsFrozenHud(showFrozenHud: int, scoreboardActive: bool, localTeam: int, teamOnly: bool)
  {
    showFrozenHud > 0 && !scoreboardActive && !(localTeam == 0 && teamOnly)
  }

  /** Rows of the background box: enough for every member, at most `maxRows`. */
  function TotalRows(numInTeam: nat, maxTees: int, maxRows: int): int
    requires maxTees >= 1
  {
    HudNumbers.Min(maxRows, (numInTeam + maxTees - 1) / maxTees)
  }

  /** A tee drawn at `row` and `column`, with the frozen look when `frozen`. */
  datatype Placement = Placement(client: int, row: int, column: int, frozen: bool)

  /**
   * Whether pass `pass` draws slot `s`: every member when the team fits,
   * otherwise the unfrozen members in pass 0 and the frozen ones in pass 1.
   */
  predicate Picks(s: Slot, team: int, overflow: bool, pass: int)
  {
    InTeam(s, team) && !(overflow && IsFrozen(s) && pass == 0) && !(overflow && !IsFrozen(s) && pass == 1)
  }

  /** The clients pass `pass` picks among the first `n` slots, in slot order. */
  function Selected(slots: seq<Slot>, team: int, overflow: bool, pass: int, n: nat): seq<int>
    requires n <= |slots|
  {
    if n == 0 then []
    else Selected(slots, team, overflow, pass, n - 1) + (if Picks(slots[n - 1], team, overflow, pass) then [n - 1] else [])
  }

  /** The clients the first `passes` passes pick, one pass after the other. */
  function Passes(slots: seq<Slot>, team: int, overflow: bool, passes: nat): seq<int>
  {
    if passes == 0 then [] else Passes(slots, team, overflow, passes - 1) + Selected(slots, team, overflow, passes - 1, |slots|)
  }

  /** The order in which members would be drawn without a cap. */
  function Order(slots: seq<Slot>, team: int, overflow: bool): seq<int>
  {
    Passes(slots, team, overflow, if overflow then 2 else 1)
  }

  /** What pass `pass` picks: its members, in increasing slot order. */
  lemma {:induction false} SelectedFacts(slots: seq<Slot>, team: int, overflow: bool, pass: int, n: nat)
    requires n <= |slots|
    ensures forall x :: x in Selected(slots, team, overflow, pass, n) <==> 0 <= x < n && Picks(slots[x], team, overflow, pass)
    ensures forall a, b :: 0 <= a < b < |Selected(slots, team, overflow, pass, n)| ==>
      Selected(slots, team, overflow, pass, n)[a] < Selected(slots, team, overflow, pass, n)[b]
    ensures forall j :: 0 <= j < |Selected(slots, team, overflow, pass, n)| ==>
      0 <= Selected(slots, team, overflow, pass, n)[j] < n && Picks(slots[Selected(slots, team, overflow, pass, n)[j]], team, overflow, pass)
  {
    if n > 0 {
      SelectedFacts(slots, team, overflow, pass, n - 1);
      var prev := Selected(slots, team, overflow, pass, n - 1);
      var cur := Selected(slots, team, overflow, pass, n);
      assert forall j :: 0 <= j < |prev| ==> cur[j] == prev[j];
    }
  }

  /** How many each pass picks. */
  lemma {:induction false} SelectedLength(slots: seq<Slot>, team: int, overflow: bool, pass: int, n: nat)
    requires n <= |slots|
    ensures !overflow ==> |Selected(slots, team, overflow, pass, n)| == CountInTeam(slots, n, team)
    ensures overflow && pass == 0 ==> |Selected(slots, team, overflow, pass, n)| == CountUnfrozen(slots, n, team)
    ensures overflow && pass == 1 ==> |Selected(slots, team, overflow, pass, n)| == CountFrozen(slots, n, team)
  {
    if n > 0 {
      SelectedLength(slots, team, overflow, pass, n - 1);
    }
  }

  /** The drawing order holds every member of the team, once, and nobody else. */
  lemma OrderMembers(slots: seq<Slot>, team: int, overflow: bool)
    ensures forall x :: x in Order(slots, team, overflow) <==> 0 <= x < |slots| && InTeam(slots[x], team)
    ensures forall a, b :: 0 <= a < b < |Order(slots, team, overflow)| ==> Order(slots, team, overflow)[a] != Order(slots, team, overflow)[b]
    ensures |Order(slots, team, overflow)| == CountInTeam(slots, |slots|, team)
  {
    var order := Order(slots, team, overflow);
    var s0 := Selected(slots, team, overflow, 0, |slots|);
    SelectedFacts(slots, team, overflow, 0, |slots|);
    SelectedLength(slots, team, overflow, 0, |slots|);
    assert Passes(slots, team, overflow, 1) == s0;
    if overflow {
      var s1 := Selected(slots, team, overflow, 1, |slots|);
      SelectedFacts(slots, team, overflow, 1, |slots|);
      SelectedLength(slots, team, overflow, 1, |slots|);
      TeamSplit(slots, |slots|, team);
      assert order == s0 + s1;
      forall a, b | 0 <= a < b < |order|
        ensures order[a] != order[b]
      {
        if a < |s0| && b >= |s0| {
          assert order[a] in s0 && order[b] in s1;
        }
      }
    }
  }

  /** When the team does not fit, every unfrozen member comes before every frozen one. */
  lemma OrderUnfrozenFirst(slots: seq<Slot>, team: int)
    ensures var order := Order(slots, team, true);
      forall a, b :: 0 <= a < b < |order| && 0 <= order[a] < |slots| && IsFrozen(slots[order[a]])
        ==> 0 <= order[b] < |slots| && IsFrozen(slots[order[b]])
  {
    var order := Order(slots, team, true);
    var s0, s1 := Selected(slots, team, true, 0, |slots|), Selected(slots, team, true, 1, |slots|);
    PassMembers(slots, team, 0);
    PassMembers(slots, team, 1);
    assert Passes(slots, team, true, 1) == s0;
    assert order == s0 + s1;
    forall a, b | 0 <= a < b < |order| && 0 <= order[a] < |slots| && IsFrozen(slots[order[a]])
      ensures 0 <= order[b] < |slots| && IsFrozen(slots[order[b]])
    {
      ConcatIndex(s0, s1, a);
      ConcatIndex(s0, s1, b);
    }
  }

  /** With the team overflowing, pass 0 picks only unfrozen members and pass 1 only frozen ones. */
  lemma PassMembers(slots: seq<Slot>, team: int, pass: int)
    requires pass == 0 || pass == 1
    ensures forall j :: 0 <= j < |Selected(slots, team, true, pass, |slots|)| ==>
      0 <= Selected(slots, team, true, pass, |slots|)[j] < |slots|
      && IsFrozen(slots[Selected(slots, team, true, pass, |slots|)[j]]) == (pass == 1)
  {
    SelectedFacts(slots, team, true, pass, |slots|);
  }

  lemma ConcatIndex(s0: seq<int>, s1: seq<int>, j: int)
    requires 0 <= j < |s0 + s1|
    ensures (s0 + s1)[j] == if j < |s0| then s0[j] else s1[j - |s0|]
  {
  }

  /** With at most `maxTees * maxRows` drawn, every row used lies inside the background box. */
  lemma RowsInsideBox(placed: seq<Placement>, slots: seq<Slot>, numInTeam: nat, maxTees: int, maxRows: int)
    requires maxTees >= 1 && Laid(slots, placed, maxTees)
    requires |placed| <= numInTeam && |placed| <= maxTees * maxRows
    ensures forall k :: 0 <= k < |placed| ==> 0 <= placed[k].row < TotalRows(numInTeam, maxTees, maxRows)
  {
    forall k | 0 <= k < |placed|
      ensures 0 <= placed[k].row < TotalRows(numInTeam, maxTees, maxRows)
    {
      RowBound(placed[k].row, placed[k].column, k, numInTeam, maxTees, maxRows);
    }
  }

  lemma RowBound(row: int, column: int, k: nat, n: nat, maxTees: int, maxRows: int)
    requires maxTees >= 1 && 0 <= column < maxTees && row * maxTees + column == k
    requires k < n && k < maxTees * maxRows
    ensures 0 <= row < TotalRows(n, maxTees, maxRows)
  {
    var above: nat := if row < 0 then -row else 0;
    HudNumbers.MulGrows(above, maxTees);
    assert row < 0 ==> row * maxTees == -(above * maxTees);
    var over: nat := if row >= maxRows then row - maxRows + 1 else 0;
    HudNumbers.MulGrows(over, maxTees);
    assert row >= maxRows ==> row * maxTees == maxRows * maxTees + (over - 1) * maxTees + maxTees - maxTees;
    assert (row + 1) * maxTees == row * maxTees + maxTees;
    HudNumbers.DivUnique((row + 1) * maxTees, maxTees, row + 1, 0);
    HudNumbers.DivMonotone((row + 1) * maxTees, n + maxTees - 1, maxTees);
  }

  /** The first `cap` elements of `s` (none when `cap` is not positive). */
  function Take(s: seq<int>, cap: int): (r: seq<int>)
    ensures |r| <= |s| && r == s[..|r|]
    ensures cap <= 0 ==> r == []
    ensures cap > 0 ==> |r| == HudNumbers.Min(|s|, cap)
  {
    if cap <= 0 then [] else if |s| <= cap then s else s[..cap]
  }

  lemma TakeStep(done: seq<int>, x: int, cap: int)
    requires |Take(done, cap)| < cap
    ensures Take(done + [x], cap) == Take(done, cap) + [x]
  {
  }

  lemma TakeSaturated(done: seq<int>, all: seq<int>, cap: int)
    requires |done| <= |all| && done == all[..|done|]
    requires |Take(done, cap)| >= cap
    ensures Take(all, cap) == Take(done, cap)
  {
    if cap > 0 {
      assert all[..cap] == done[..cap];
    }
  }

  lemma {:induction false} SelectedPrefix(slots: seq<Slot>, team: int, overflow: bool, pass: int, i: nat, j: nat)
    requires i <= j <= |slots|
    ensures |Selected(slots, team, overflow, pass, i)| <= |Selected(slots, team, overflow, pass, j)|
    ensures Selected(slots, team, overflow, pass, i) == Selected(slots, team, overflow, pass, j)[..|Selected(slots, team, overflow, pass, i)|]
  {
    if i < j {
      SelectedPrefix(slots, team, overflow, pass, i, j - 1);
      var a, b := Selected(slots, team, overflow, pass, i), Selected(slots, team, overflow, pass, j - 1);
      var c := Selected(slots, team, overflow, pass, j);
      assert c[..|b|] == b;
      assert c[..|a|] == b[..|a|];
    }
  }

  lemma AppendPrefix(base: seq<int>, s: seq<int>, t: seq<int>)
    requires |s| <= |t| && s == t[..|s|]
    ensures |base + s| <= |base + t| && base + s == (base + t)[..|base + s|]
  {
  }

  lemma AppendAssoc(base: seq<int>, s: seq<int>, t: seq<int>)
    ensures base + (s + t) == (base + s) + t
  {
  }

  /** The work of one inner-loop iteration, on a slot that is picked. */
  lemma PickStep(slots: seq<Slot>, team: int, overflow: bool, pass: int, i: nat, base: seq<int>, cap: int)
    requires i < |slots| && Picks(slots[i], team, overflow, pass)
    requires |Take(base + Selected(slots, team, overflow, pass, i), cap)| < cap
    ensures Take(base + Selected(slots, team, overflow, pass, i + 1), cap)
      == Take(base + Selected(slots, team, overflow, pass, i), cap) + [i]
  {
    AppendAssoc(base, Selected(slots, team, overflow, pass, i), [i]);
    TakeStep(base + Selected(slots, team, overflow, pass, i), i, cap);
  }

  lemma SkipStep(slots: seq<Slot>, team: int, overflow: bool, pass: int, i: nat, base: seq<int>)
    requires i < |slots| && !Picks(slots[i], team, overflow, pass)
    ensures base + Selected(slots, team, overflow, pass, i + 1) == base + Selected(slots, team, overflow, pass, i)
  {
    assert Selected(slots, team, overflow, pass, i + 1) == Selected(slots, team, overflow, pass, i) + [];
  }

  /** An inner loop that stopped at the cap has drawn what the whole pass would have. */
  lemma PassCut(slots: seq<Slot>, team: int, overflow: bool, pass: int, i: nat, base: seq<int>, cap: int)
    requires i <= |slots|
    requires |Take(base + Selected(slots, team, overflow, pass, i), cap)| >= cap
    ensures Take(base + Selected(slots, team, overflow, pass, |slots|), cap)
      == Take(base + Selected(slots, team, overflow, pass, i), cap)
  {
    SelectedPrefix(slots, team, overflow, pass, i, |slots|);
    AppendPrefix(base, Selected(slots, team, overflow, pass, i), Selected(slots, team, overflow, pass, |slots|));
    TakeSaturated(base + Selected(slots, team, overflow, pass, i), base + Selected(slots, team, overflow, pass, |slots|), cap);
  }

  /** Drawn clients grow by one only below the cap, so the prefix taken so far extends. */
  lemma NextPass(slots: seq<Slot>, team: int, overflow: bool, pass: nat, cap: int)
    ensures Take(Passes(slots, team, overflow, pass) + Selected(slots, team, overflow, pass, |slots|), cap)
      == Take(Passes(slots, team, overflow, pass + 1), cap)
  {
  }

  /** Where the drawn tees sit and what they look like. */
  predicate Laid(slots: seq<Slot>, placed: seq<Placement>, maxTees: int)
  {
    forall k :: 0 <= k < |placed| ==>
      placed[k].row * maxTees + placed[k].column == k && 0 <= placed[k].column < maxTees
      && 0 <= placed[k].client < |slots| && placed[k].frozen == IsFrozen(slots[placed[k].client])
  }

  predicate DrawsClients(placed: seq<Placement>, clients: seq<int>)
  {
    |placed| == |clients| && forall k :: 0 <= k < |placed| ==> placed[k].client == clients[k]
  }

  /** The row counters after `displayed` tees: the last one drawn sits in `currentRow`, column `numInRow - 1`. */
  predicate Cursor(displayed: int, numInRow: int, currentRow: int, maxTees: int)
  {
    currentRow >= 0 && 0 <= numInRow <= maxTees && currentRow * maxTees + numInRow == displayed
    && (displayed > 0 ==> numInRow >= 1)
  }

  /** The invariant of the placement loops. */
  predicate Drawn(slots: seq<Slot>, placed: seq<Placement>, clients: seq<int>,
                  displayed: int, numInRow: int, currentRow: int, maxTees: int)
  {
    DrawsClients(placed, clients) && Laid(slots, placed, maxTees)
    && displayed == |placed| && Cursor(displayed, numInRow, currentRow, maxTees)
  }

  /**
   * Drawing one tee: the counters advance, wrapping to the next row after
   * `maxTees`, and the tee goes where they point.
   */
  method DrawTee(slots: seq<Slot>, i: int, placed: seq<Placement>, ghost clients: seq<int>,
                 displayed: int, numInRow: int, currentRow: int, maxTees: int)
    returns (placed': seq<Placement>, displayed': int, numInRow': int, currentRow': int)
    requires maxTees >= 1 && 0 <= i < |slots|
    requires Drawn(slots, placed, clients, displayed, numInRow, currentRow, maxTees)
    ensures Drawn(slots, placed', clients + [i], displayed', numInRow', currentRow', maxTees)
    ensures placed' == placed + [Placement(i, currentRow', numInRow' - 1, IsFrozen(slots[i]))]
  {
    displayed' := displayed + 1;
    numInRow' := numInRow + 1;
    currentRow' := currentRow;
    if numInRow' > maxTees {
      numInRow' := 1;
      currentRow' := currentRow + 1;
      assert (currentRow + 1) * maxTees == currentRow * maxTees + maxTees;
    }
    var frozen := slots[i].freezeEnd > 0 || slots[i].deepFrozen;
    placed' := placed + [Placement(i, currentRow', numInRow' - 1, frozen)];
  }

  /** One pass of the placement loops, stopping once `cap` tees are drawn. */
  method PlacePass(slots: seq<Slot>, team: int, overflow: bool, pass: int, cap: int, maxTees: int,
                   placed: seq<Placement>, ghost clients: seq<int>, ghost base: seq<int>,
                   displayed: int, numInRow: int, currentRow: int)
    returns (placed': seq<Placement>, ghost clients': seq<int>, displayed': int, numInRow': int, currentRow': int)
    requires maxTees >= 1
    requires clients == Take(base, cap)
    requires Drawn(slots, placed, clients, displayed, numInRow, currentRow, maxTees)
    ensures clients' == Take(base + Selected(slots, team, overflow, pass, |slots|), cap)
    ensures Drawn(slots, placed', clients', displayed', numInRow', currentRow', maxTees)
  {
    placed', clients', displayed', numInRow', currentRow' := placed, clients, displayed, numInRow, currentRow;
    assert base + Selected(slots, team, overflow, pass, 0) == base;
    var i := 0;
    while i < |slots| && displayed' < cap
      invariant 0 <= i <= |slots|
      invariant clients' == Take(base + Selected(slots, team, overflow, pass, i), cap)
      invariant Drawn(slots, placed', clients', displayed', numInRow', currentRow', maxTees)
    {
      if slots[i].present && slots[i].team == team {
        var frozen := slots[i].freezeEnd > 0 || slots[i].deepFrozen;
        if (overflow && frozen && pass == 0) || (overflow && !frozen && pass == 1) {
          SkipStep(slots, team, overflow, pass, i, base);
        } else {
          PickStep(slots, team, overflow, pass, i, base, cap);
          placed', displayed', numInRow', currentRow' := DrawTee(slots, i, placed', clients', displayed', numInRow', currentRow', maxTees);
          clients' := clients' + [i];
        }
      } else {
        SkipStep(slots, team, overflow, pass, i, base);
      }
      i := i + 1;
    }
    if i < |slots| {
      PassCut(slots, team, overflow, pass, i, base, cap);
    }
  }

  /**
   * The placement loops: one pass over the slots, or two when the team does
   * not fit in `maxTees * maxRows` places (unfrozen members, then frozen
   * ones), each stopping once every place is used. A tee goes in the next
   * column, or at the start of the next row once a row holds `maxTees`.
   */
  method PlaceFrozenTees(slots: seq<Slot>, team: int, numInTeam: int, maxTees: int, maxRows: int)
    returns (placed: seq<Placement>)
    requires maxTees >= 1
    ensures var drawn := Take(Order(slots, team, numInTeam > maxTees * maxRows), maxTees * maxRows);
      |placed| == |drawn| && forall k :: 0 <= k < |placed| ==> placed[k].client == drawn[k]
    ensures Laid(slots, placed, maxTees)
  {
    var cap := maxTees * maxRows;
    var overflow := numInTeam > cap;
    var passes := if overflow then 2 else 1;
    placed := [];
    var displayed, numInRow, currentRow := 0, 0, 0;
    ghost var clients: seq<int> := [];
    var pass := 0;
    while pass < passes
      invariant 0 <= pass <= passes
      invariant clients == Take(Passes(slots, team, overflow, pass), cap)
      invariant Drawn(slots, placed, clients, displayed, numInRow, currentRow, maxTees)
    {
      placed, clients, displayed, numInRow, currentRow :=
        PlacePass(slots, team, overflow, pass, cap, maxTees, placed, clients, Passes(slots, team, overflow, pass),
                  displayed, numInRow, currentRow);
      NextPass(slots, team, overflow, pass, cap);
      pass := pass + 1;
    }
  }

  /** The frozen-HUD settings the block reads. */
  datatype FrozenHudConfig = FrozenHudConfig(
    showFrozenText: int, showFrozenHud: int, notifyWhenLast: bool, teamOnly: bool, maxRows: int)

  /** Who is watching: the spectator state, the local client and whether the scoreboard is open. */
  datatype Viewer = Viewer(specActive: bool, spectatorId: int, localId: int, scoreboardActive: bool)

  /** The local client is a slot, and the spectated one is a slot or -1 (free view). */
  predicate ViewerInSlots(slots: seq<Slot>, v: Viewer)
  {
    0 <= v.localId < |slots| && (v.spectatorId == -1 || 0 <= v.spectatorId < |slots|)
  }

  /**
   * The frozen-team block of the HUD: the followed team, its counts, the
   * "last" notice, the frozen-text line and the tees drawn. Each member is
   * drawn at most once, as many as fit, every row inside the background
   * box, and when not all fit the unfrozen ones first; nothing is drawn
   * when the tee row is switched off, the scoreboard is open, or only teams
   * are shown and the followed team is team 0.
   */
  method FrozenHud(slots: seq<Slot>, viewer: Viewer, config: FrozenHudConfig, maxTees: int)
    returns (team: int, numInTeam: int, numFrozen: int, notify: bool, text: Option<(int, int)>, placed: seq<Placement>)
    requires ViewerInSlots(slots, viewer)
    requires 0 <= config.showFrozenText <= 2 && config.maxRows >= 1 && maxTees >= 1
    ensures team == LocalTeam(slots, viewer.specActive, viewer.spectatorId, viewer.localId)
    ensures numInTeam == CountInTeam(slots, |slots|, team) && numFrozen == CountFrozen(slots, |slots|, team)
    ensures notify <==> (config.notifyWhenLast
      && CountUnfrozen(slots, |slots|, team) == 1 && CountFrozen(slots, |slots|, team) >= 1)
    ensures config.showFrozenText == 0 ==> text == None
    ensures config.showFrozenText == 1 ==> text == Some((CountUnfrozen(slots, |slots|, team), numInTeam))
    ensures config.showFrozenText == 2 ==> text == Some((numFrozen, numInTeam))
    ensures !ShowsFrozenHud(config.showFrozenHud, viewer.scoreboardActive, team, config.teamOnly) ==> placed == []
    ensures ShowsFrozenHud(config.showFrozenHud, viewer.scoreboardActive, team, config.teamOnly)
      ==> |placed| == HudNumbers.Min(numInTeam, maxTees * config.maxRows)
    ensures forall k :: 0 <= k < |placed| ==> 0 <= placed[k].client < |slots| && InTeam(slots[placed[k].client], team)
    ensures forall a, b :: 0 <= a < b < |placed| ==> placed[a].client != placed[b].client
    ensures forall k :: 0 <= k < |placed| ==>
      0 <= placed[k].row < TotalRows(numInTeam, maxTees, config.maxRows) && 0 <= placed[k].column < maxTees
    ensures numInTeam > maxTees * config.maxRows ==>
      forall a, b :: 0 <= a < b < |placed| && placed[a].frozen ==> placed[b].frozen
  {
    team := LocalTeam(slots, viewer.specActive, viewer.spectatorId, viewer.localId);
    numInTeam, numFrozen := CountTeam(slots, team);
    NotifyLastMeans(slots, team);
    notify := config.notifyWhenLast && NotifyLast(numInTeam, numFrozen);
    FrozenTextCounts(slots, team, config.showFrozenText);
    text := FrozenText(config.showFrozenText, numInTeam, numFrozen);
    if !ShowsFrozenHud(config.showFrozenHud, viewer.scoreboardActive, team, config.teamOnly) {
      placed := [];
      return;
    }
    placed := DrawTeam(slots, team, numInTeam, maxTees, config.maxRows);
  }

  /** The tee row of a team with `numInTeam` members, as `FrozenHud` promises it. */
  method DrawTeam(slots: seq<Slot>, team: int, numInTeam: int, maxTees: int, maxRows: int)
    returns (placed: seq<Placement>)
    requires numInTeam == CountInTeam(slots, |slots|, team)
    requires maxRows >= 1 && maxTees >= 1
    ensures |placed| == HudNumbers.Min(numInTeam, maxTees * maxRows)
    ensures forall k :: 0 <= k < |placed| ==> 0 <= placed[k].client < |slots| && InTeam(slots[placed[k].client], team)
    ensures forall a, b :: 0 <= a < b < |placed| ==> placed[a].client != placed[b].client
    ensures forall k :: 0 <= k < |placed| ==>
      0 <= placed[k].row < TotalRows(numInTeam, maxTees, maxRows) && 0 <= placed[k].column < maxTees
    ensures numInTeam > maxTees * maxRows ==>
      forall a, b :: 0 <= a < b < |placed| && placed[a].frozen ==> placed[b].frozen
  {
    placed := PlaceFrozenTees(slots, team, numInTeam, maxTees, maxRows);
    var overflow := numInTeam > maxTees * maxRows;
    OrderMembers(slots, team, overflow);
    OrderUnfrozenFirst(slots, team);
    var order := Order(slots, team, overflow);
    var drawn := Take(order, maxTees * maxRows);
    assert forall k :: 0 <= k < |placed| ==> placed[k].client == order[k];
    RowsInsideBox(placed, slots, numInTeam, maxTees, maxRows);
  }
}
