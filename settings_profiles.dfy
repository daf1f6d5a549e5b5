/**
 * Skin profiles on the tee page of the settings menu: a profile records the
 * skin, colours, eyes, name, clan and flag of the player or the dummy, each
 * part only when its "apply" box is ticked; loading copies back the parts
 * that are ticked and present. Unset parts use sentinels: -1 for colours
 * and eyes, -2 for the flag and the empty string for names.
 */
module SettingsProfiles {
  import opened CStrings

  /** Buffer sizes of the skin, name and clan settings, terminating NUL included. */
  const SKIN_SIZE := 24
  const NAME_SIZE := 16
  const CLAN_SIZE := 12

  const NO_COLOR := -1
  const NO_EMOTE := -1
  const NO_FLAG := -2

  const UINT32_RANGE := 0x1_0000_0000

  /** The settings of one tee (player or dummy); colours are unsigned 32-bit values. */
  datatype Tee = Tee(skin: Name, colorBody: int, colorFeet: int, eyes: int, name: Name, clan: Name, country: int)

  datatype Profile = Profile(bodyColor: int, feetColor: int, countryFlag: int, emote: int, skinName: Name, name: Name, clan: Name)

  /** The "apply profile" boxes (`cl_apply_profile_*`). */
  datatype ApplyFlags = ApplyFlags(skin: bool, colors: bool, emote: bool, name: bool, clan: bool, flag: bool)

  /** The settings of a tee fit their buffers and types. */
  predicate Fits(t: Tee)
  {
    |t.skin| < SKIN_SIZE && |t.name| < NAME_SIZE && |t.clan| < CLAN_SIZE
    && 0 <= t.colorBody < UINT32_RANGE && 0 <= t.colorFeet < UINT32_RANGE
  }

  /** An unsigned 32-bit colour passed where an `int` is expected. */
  function AsSigned(u: int): (r: int)
    requires 0 <= u < UINT32_RANGE
    ensures -0x8000_0000 <= r < 0x8000_0000
    ensures r == -1 <==> u == UINT32_RANGE - 1
  {
    if u >= 0x8000_0000 then u - UINT32_RANGE else u
  }

  /** An `int` stored into an unsigned 32-bit colour. */
  function AsUnsigned(i: int): (r: int)
    ensures 0 <= r < UINT32_RANGE
    ensures -0x8000_0000 <= i < 0x8000_0000 ==> AsSigned(r) == i
  {
    i % UINT32_RANGE
  }

  /** What Save and Override record for `t`: each part, or its sentinel when its box is off. */
  function ProfileOf(t: Tee, f: ApplyFlags): (p: Profile)
    requires Fits(t)
    ensures !f.colors ==> p.bodyColor == NO_COLOR && p.feetColor == NO_COLOR
    ensures f.colors ==> AsUnsigned(p.bodyColor) == t.colorBody && AsUnsigned(p.feetColor) == t.colorFeet
    ensures p.countryFlag == (if f.flag then t.country else NO_FLAG)
    ensures p.emote == (if f.emote then t.eyes else NO_EMOTE)
    ensures p.skinName == (if f.skin then t.skin else [])
    ensures p.name == (if f.name then t.name else [])
    ensures p.clan == (if f.clan then t.clan else [])
  {
    Profile(
      if f.colors then AsSigned(t.colorBody) else NO_COLOR,
      if f.colors then AsSigned(t.colorFeet) else NO_COLOR,
      if f.flag then t.country else NO_FLAG,
      if f.emote then t.eyes else NO_EMOTE,
      if f.skin then t.skin else [],
      if f.name then t.name else [],
      if f.clan then t.clan else [])
  }

  /**
   * What Load does to `t`: a part is taken from `p` only when its box is on
   * and the profile holds a value for it; both colours move together.
   */
  function Loaded(t: Tee, p: Profile, f: ApplyFlags): (r: Tee)
    ensures r.skin != t.skin ==> f.skin && p.skinName != []
    ensures (r.colorBody, r.colorFeet) != (t.colorBody, t.colorFeet)
      ==> f.colors && p.bodyColor != NO_COLOR && p.feetColor != NO_COLOR
    ensures r.eyes != t.eyes ==> f.emote && p.emote != NO_EMOTE && r.eyes == p.emote
    ensures r.name != t.name ==> f.name && p.name != []
    ensures r.clan != t.clan ==> f.clan && p.clan != []
    ensures r.country != t.country ==> f.flag && p.countryFlag != NO_FLAG && r.country == p.countryFlag
    ensures f.skin && p.skinName != [] ==> r.skin == StrCopy(p.skinName, SKIN_SIZE)
    ensures f.colors && p.bodyColor != NO_COLOR && p.feetColor != NO_COLOR
      ==> r.colorBody == AsUnsigned(p.bodyColor) && r.colorFeet == AsUnsigned(p.feetColor)
    ensures f.emote && p.emote != NO_EMOTE ==> r.eyes == p.emote
    ensures f.name && p.name != [] ==> r.name == StrCopy(p.name, NAME_SIZE)
    ensures f.clan && p.clan != [] ==> r.clan == StrCopy(p.clan, CLAN_SIZE)
    ensures f.flag && p.countryFlag != NO_FLAG ==> r.country == p.countryFlag
  {
    var colors := f.colors && p.bodyColor != NO_COLOR && p.feetColor != NO_COLOR;
    Tee(
      if f.skin && p.skinName != [] then StrCopy(p.skinName, SKIN_SIZE) else t.skin,
      if colors then AsUnsigned(p.bodyColor) else t.colorBody,
      if colors then AsUnsigned(p.feetColor) else t.colorFeet,
      if f.emote && p.emote != NO_EMOTE then p.emote else t.eyes,
      if f.name && p.name != [] then StrCopy(p.name, NAME_SIZE) else t.name,
      if f.clan && p.clan != [] then StrCopy(p.clan, CLAN_SIZE) else t.clan,
      if f.flag && p.countryFlag != NO_FLAG then p.countryFlag else t.country)
  }

  /** Loading keeps a tee's settings within their buffers and types. */
  lemma LoadedFits(t: Tee, p: Profile, f: ApplyFlags)
    requires Fits(t)
    ensures Fits(Loaded(t, p, f))
  {
  }

  /** None of `t`'s parts collides with a sentinel. */
  predicate NoSentinel(t: Tee)
  {
    t.skin != [] && t.name != [] && t.clan != [] && t.eyes != NO_EMOTE && t.country != NO_FLAG
    && t.colorBody != UINT32_RANGE - 1 && t.colorFeet != UINT32_RANGE - 1
  }

  /**
   * Loading a profile saved from `t` with the same boxes gives every ticked
   * part of `t` back and leaves every other part of the loading tee `u` alone.
   */
  lemma LoadAfterSave(t: Tee, u: Tee, f: ApplyFlags)
    requires Fits(t) && NoSentinel(t)
    ensures var r := Loaded(u, ProfileOf(t, f), f);
      r.skin == (if f.skin then t.skin else u.skin)
      && r.colorBody == (if f.colors then t.colorBody else u.colorBody)
      && r.colorFeet == (if f.colors then t.colorFeet else u.colorFeet)
      && r.eyes == (if f.emote then t.eyes else u.eyes)
      && r.name == (if f.name then t.name else u.name)
      && r.clan == (if f.clan then t.clan else u.clan)
      && r.country == (if f.flag then t.country else u.country)
  {
    var p := ProfileOf(t, f);
    if f.colors {
      assert p.bodyColor == AsSigned(t.colorBody) && p.feetColor == AsSigned(t.colorFeet);
      assert AsUnsigned(AsSigned(t.colorBody)) == t.colorBody;
      assert AsUnsigned(AsSigned(t.colorFeet)) == t.colorFeet;
    }
  }

  /** With every box ticked, a tee without sentinel values is restored exactly. */
  lemma LoadAfterSaveAll(t: Tee, u: Tee)
    requires Fits(t) && NoSentinel(t)
    ensures Loaded(u, ProfileOf(t, ApplyFlags(true, true, true, true, true, true)), ApplyFlags(true, true, true, true, true, true)) == t
  {
    LoadAfterSave(t, u, ApplyFlags(true, true, true, true, true, true));
  }

  /** A white-on-everything colour 0xFFFFFFFF is saved as the "no colour" sentinel and is not loaded back. */
  lemma ColorSentinelClash(t: Tee, u: Tee, f: ApplyFlags)
    requires Fits(t) && t.colorBody == UINT32_RANGE - 1
    ensures Loaded(u, ProfileOf(t, f), f).colorBody == u.colorBody
    ensures Loaded(u, ProfileOf(t, f), f).colorFeet == u.colorFeet
  {
    assert ProfileOf(t, f).bodyColor == NO_COLOR;
  }

  /** With no box ticked, loading changes nothing. */
  lemma LoadWithNoBoxes(t: Tee, p: Profile)
    ensures Loaded(t, p, ApplyFlags(false, false, false, false, false, false)) == t
  {
  }

  /** The saved profiles (`CSkinProfiles::m_Profiles`). */
  class SkinProfiles {
    var profiles: seq<Profile>

    constructor ()
      ensures profiles == []
    {
      profiles := [];
    }

    /** `AddProfile`: appends. */
    method Add(p: Profile)
      modifies this
      ensures profiles == old(profiles) + [p]
    {
      profiles := profiles + [p];
    }

    /** The Delete button: erases the selected profile if the selection is a profile. */
    method Delete(selected: int)
      requires selected >= -1
      modifies this
      ensures if selected != -1 && selected < |old(profiles)|
              then profiles == old(profiles)[..selected] + old(profiles)[selected + 1..]
              else profiles == old(profiles)
    {
      if selected != -1 && selected < |profiles| {
        profiles := profiles[..selected] + profiles[selected + 1..];
      }
    }

    /** The Override button: replaces the selected profile if the selection is a profile. */
    method Override(selected: int, p: Profile)
      requires selected >= -1
      modifies this
      ensures if selected != -1 && selected < |old(profiles)|
              then profiles == old(profiles)[selected := p]
              else profiles == old(profiles)
    {
      if selected != -1 && selected < |profiles| {
        profiles := profiles[selected := p];
      }
    }
  }

  /** The tee settings the profile buttons read and write. */
  class TeeSettings {
    var player: Tee
    var dummy: Tee
    var apply: ApplyFlags
    var needSendInfo: bool

    constructor (player: Tee, dummy: Tee, apply: ApplyFlags)
      ensures this.player == player && this.dummy == dummy && this.apply == apply && !needSendInfo
    {
      this.player := player;
      this.dummy := dummy;
      this.apply := apply;
      needSendInfo := false;
    }

    /**
     * The Load button: with a profile selected, only the settings of the tee
     * being edited (the dummy's when `isDummy`) take the profile; the info is
     * re-sent either way.
     */
    method LoadProfile(store: SkinProfiles, selected: int, isDummy: bool)
      requires selected >= -1
      modifies `player, `dummy, `needSendInfo
      ensures needSendInfo
      ensures selected != -1 && selected < |store.profiles| && !isDummy
        ==> player == Loaded(old(player), store.profiles[selected], apply) && dummy == old(dummy)
      ensures selected != -1 && selected < |store.profiles| && isDummy
        ==> dummy == Loaded(old(dummy), store.profiles[selected], apply) && player == old(player)
      ensures selected == -1 || selected >= |store.profiles| ==> player == old(player) && dummy == old(dummy)
    {
      if selected != -1 && selected < |store.profiles| {
        var p := store.profiles[selected];
        if !isDummy {
          player := Loaded(player, p, apply);
        } else {
          dummy := Loaded(dummy, p, apply);
        }
      }
      needSendInfo := true;
    }

    /** The Save button: appends a profile of the tee being edited. */
    method SaveProfile(store: SkinProfiles, isDummy: bool)
      requires Fits(if isDummy then dummy else player)
      modifies store
      ensures store.profiles == old(store.profiles) + [ProfileOf(if isDummy then dummy else player, apply)]
    {
      store.Add(ProfileOf(if isDummy then dummy else player, apply));
    }

    /** The Override button: replaces the selected profile with one of the tee being edited. */
    method OverrideProfile(store: SkinProfiles, selected: int, isDummy: bool)
      requires selected >= -1
      requires Fits(if isDummy then dummy else player)
      modifies store
      ensures if selected != -1 && selected < |old(store.profiles)|
              then store.profiles == old(store.profiles)[selected := ProfileOf(if isDummy then dummy else player, apply)]
              else store.profiles == old(store.profiles)
    {
      store.Override(selected, ProfileOf(if isDummy then dummy else player, apply));
    }
  }
}
