# TaterClient-ddnet: console FIFO, settings rules and HUD logic in Dafny

This project models three parts of the TaterClient DDNet client and proves
properties of them.

- **The console FIFO** (`src/engine/shared/fifo.cpp`). This is a POSIX FIFO
  or a Windows named pipe that another process writes console commands into.
  - `Init` creates the channel and `Shutdown` tears it down.
  - Every frame, `Update` reads what is pending, cuts it into lines and runs
    each line through the console.
  - Files: `fifo_lines.dfy` (the splitting rule and the in-place splitter),
    `fifo.dfy` (the two platform classes).
- **Rules of the settings menu** (`src/game/client/components/menus_settings.cpp`):
  - the FSAA stepper, the aim-axis pickers, the window-mode drop-down and a
    few check boxes and buttons (`settings_config.dfy`);
  - the skin list and the favourite skins (`settings_skins.dfy`);
  - the scan that finds which key each control is bound to, and rebinding
    (`settings_binds.dfy`);
  - skin profiles (`settings_profiles.dfy`);
  - the background-map picker (`settings_map_picker.dfy`).
- **HUD logic** (`src/game/client/components/hud.cpp`):
  - `hud_numbers.dfy`: the digit-count index, jump, health and ammo counts,
    and the game and warmup timers;
  - `hud_frozen.dfy`: counting frozen team members and laying out their
    tees;
  - `hud_race.dfy`: the race-timer state kept by `OnMessage` and `OnReset`.

`wrappers.dfy` holds the `Option` type.

Code that changes state step by step is modelled as methods, and each one
is proved against a specification function:

- the FIFO classes and the in-place line splitter;
- the `Config`, favourites, profile, map-picker and race-timer classes;
- the bind scan over an array;
- the skin-list build;
- the frozen-tee counting and placement loops.

Expression-level rules are functions with lemmas.

Some things outside the model are taken as inputs:

- **Operating system:** what `stat`, `open`, `read`, `CreateNamedPipeW`,
  `ConnectNamedPipe`, `PeekNamedPipe` and `ReadFile` return.
- **Skin store:** the skin lookup, given as a map.
- **Search:** the UTF-8 search, given as a predicate.
- **Directory listing:** the entries of a listed directory.
- **Game state:** the current tick, tick speed and character state.
- **Network messages:** decoded message fields.

## Model

| member | source | states |
|---|---|---|
| FifoLines.SplitLinesCount | src/engine/shared/fifo.cpp:67-77 | a chunk is cut into one line per newline, plus one more exactly when it does not end on a newline |
| FifoLines.SplitLinesHaveNoNewline | src/engine/shared/fifo.cpp:68-75 | no line handed to the console contains a newline |
| FifoLines.SplitRoundTrip | src/engine/shared/fifo.cpp:67-77 | joining the dispatched lines with newlines gives back the chunk, less a final newline if it ended on one |
| FifoLines.CStringStopsAtNul | src/engine/shared/fifo.cpp:73 | the console sees a line only up to its first NUL byte |
| FifoLines.DispatchOfNulFreeChunk | src/engine/shared/fifo.cpp:68-77 | for a chunk without NUL bytes, the k-th execution is the k-th split line with the channel's flag and client id -1 |
| FifoLines.ChunkWithoutNewlineIsOneLine | src/engine/shared/fifo.cpp:76-77 | a non-empty chunk with no newline, such as a read cut at the buffer limit, is executed whole as one line |
| FifoLines.Console.ExecuteLineFlag | src/engine/shared/fifo.cpp:73 | executing a line appends exactly that execution to the console log |
| FifoLines.DispatchTerminatedLines | src/engine/shared/fifo.cpp:67-75 | the scan loop executes every newline-terminated line in order, blanks each newline with NUL in place, leaves other bytes alone and ends with the cursor at the start of the tail |
| FifoLines.DispatchLines | src/engine/shared/fifo.cpp:65-77 | the NUL-terminated buffer's lines reach the console log in order, and only its newline bytes change |
| Fifo.PosixFifo.Init | src/engine/shared/fifo.cpp:12-45 | an empty path leaves the channel disabled; otherwise the filename is the path cut to the filename buffer, and the syscall sequence (mkfifo, then remove and recreate when it is not a FIFO) and the descriptor follow what stat and open report; the channel is enabled exactly when a FIFO exists and open succeeds |
| CStrings.StrCopy | src/engine/shared/fifo.cpp:20 | the copy is a prefix of the source; it is the whole source when that fits the buffer with its terminator, and otherwise exactly size−1 characters |
| Fifo.PosixFifo.Shutdown | src/engine/shared/fifo.cpp:47-54 | an enabled channel closes its descriptor and removes the file; `file` is not reset, so a second call repeats both |
| Fifo.PosixFifo.Update | src/engine/shared/fifo.cpp:56-78 | a disabled channel, or a read that returns 0 or fails, consumes and executes nothing; otherwise the bytes read (at most 8191, from the front of the FIFO) are consumed and their lines executed in order |
| Fifo.DispatchRound | src/engine/shared/fifo.cpp:171-195 | one drain round executes the split lines of the bytes it read |
| Fifo.DrainRounds | src/engine/shared/fifo.cpp:155-196 | the drain loop executes the lines of every successful round, round after round |
| Fifo.WindowsFifo.Init | src/engine/shared/fifo.cpp:85-119 | an empty path leaves the handle invalid; otherwise the pipe name is `\\.\pipe\` with the path appended and cut to the filename buffer, the pipe is created under that name and the handle is whatever creation returned |
| CStrings.StrAppend | src/engine/shared/fifo.cpp:94-95 | the result keeps the destination and is a prefix of destination plus source; it is all of it when that fits, and otherwise exactly size−1 characters |
| Fifo.WindowsFifo.Shutdown | src/engine/shared/fifo.cpp:121-129 | disconnects and closes a valid handle and invalidates it; on an invalid handle it does nothing, so it is idempotent |
| Fifo.WindowsFifo.Update | src/engine/shared/fifo.cpp:131-197 | nothing is executed unless the handle is valid and the connect succeeded or reported "already connected"; a "no data" connect error disconnects; otherwise every round's lines are executed |
| SettingsConfig.Log2FloorBounds | src/game/client/components/menus_settings.cpp:1649 | the integer log2 brackets its argument between two consecutive powers of two |
| SettingsConfig.FsaaStepUp | src/game/client/components/menus_settings.cpp:1646-1652 | a left click gives 0 exactly when the current value is 64 or more; otherwise the result is a power of two, above the current sample count and at most twice it |
| SettingsConfig.FsaaStepDownOnCycle | src/game/client/components/menus_settings.cpp:1654-1662 | a right click keeps a value on the cycle 0, 2, 4, …, 64 on that cycle |
| SettingsConfig.FsaaStepUpOnCycle | src/game/client/components/menus_settings.cpp:1647-1652 | a left click from any value lands on the cycle |
| SettingsConfig.FsaaUpTable | src/game/client/components/menus_settings.cpp:1647-1652 | left clicks go 0→2→4→8→16→32→64→0 |
| SettingsConfig.FsaaDownTable | src/game/client/components/menus_settings.cpp:1654-1662 | right clicks go 0→64→32→16→8→4→2→0 |
| SettingsConfig.FsaaStepsInverse | src/game/client/components/menus_settings.cpp:1646-1663 | on the cycle, a left click and a right click undo each other in either order |
| SettingsConfig.FsaaStepDownLeavesCycleFromThree | src/game/client/components/menus_settings.cpp:1656-1661 | a value off the cycle (3) steps down to 1, which is off the cycle |
| SettingsConfig.Config.ClickFsaa | src/game/client/components/menus_settings.cpp:1642-1678 | mouse button 1 steps up and 2 steps down, and the stepped value is then applied through the backend as `FsaaApplied` says; `changed` is set exactly for those two buttons, and any other button asks nothing of the backend and leaves the setting alone |
| SettingsConfig.FsaaApplied | src/game/client/components/menus_settings.cpp:1664-1678 | the stepped value is always requested first; a refused request keeps it and flags the settings for checking; an accepted one stores the backend's count, and only an increase the backend did not fully grant is retried with 0, whose answer is stored |
| SettingsConfig.FsaaGrantedKeepsStep | src/game/client/components/menus_settings.cpp:1664-1672 | a backend that grants the stepped value leaves it in the setting after a single request |
| SettingsConfig.FsaaDecreaseNotRetried | src/game/client/components/menus_settings.cpp:1653-1672 | a right click is never retried: the setting becomes the backend's count, or the stepped value if the backend refused |
| SettingsConfig.PickAimX | src/game/client/components/menus_settings.cpp:1249-1254 | X becomes the ticked axis; distinct axes stay distinct, and the pair is either the old pair swapped or Y is unchanged |
| SettingsConfig.PickAimY | src/game/client/components/menus_settings.cpp:1255-1260 | the same for Y |
| SettingsConfig.PickAimMirror | src/game/client/components/menus_settings.cpp:1249-1260 | the Y picker is the X picker with the axes exchanged |
| SettingsConfig.Config.ClickAimX | src/game/client/components/menus_settings.cpp:1249-1254 | the X click updates both axis settings as `PickAimX` says |
| SettingsConfig.Config.ClickAimY | src/game/client/components/menus_settings.cpp:1255-1260 | the Y click updates both axis settings as `PickAimY` says |
| SettingsConfig.WindowModeIndex | src/game/client/components/menus_settings.cpp:1587 | the index shown is always one of the five modes 0..4 |
| SettingsConfig.ParamsForWindowMode | src/game/client/components/menus_settings.cpp:1595-1604 | an index is applied exactly when it is in 0..4 |
| SettingsConfig.WindowModeRoundTrip | src/game/client/components/menus_settings.cpp:1587-1604 | applying any offered index shows that index again |
| SettingsConfig.WindowParamsRoundTrip | src/game/client/components/menus_settings.cpp:1587-1604 | showing a configuration and re-applying its index restores it exactly when fullscreen is 0, or it is 1..3 and not borderless |
| SettingsConfig.Config.SelectWindowMode | src/game/client/components/menus_settings.cpp:1587-1604 | a different valid index stores its parameters; the same index or an invalid one changes nothing |
| SettingsConfig.ToggleDyncam | src/game/client/components/menus_settings.cpp:94-106 | clicking flips the ticked state; unticking clears both settings, and ticking keeps the follow factor |
| SettingsConfig.Config.ClickDyncam | src/game/client/components/menus_settings.cpp:94-106 | the click updates both camera settings as `ToggleDyncam` says |
| SettingsConfig.TogglePowerSave | src/game/client/components/menus_settings.cpp:159-160 | clicking flips the power-saving state; the result is always 0 (unlimited) or 480 |
| SettingsConfig.Config.ClickPowerSave | src/game/client/components/menus_settings.cpp:159-160 | the click stores `TogglePowerSave` of the refresh rate |
| SettingsConfig.SetAllToRifle | src/game/client/components/menus_settings.cpp:3036-3044 | afterwards every laser has the rifle's colours, the rifle's are unchanged, and it is idempotent |
| SettingsConfig.Config.ClickSetAllToRifle | src/game/client/components/menus_settings.cpp:3036-3044 | the button stores `SetAllToRifle` of the laser colours |
| SettingsConfig.ClampLagDelay | src/game/client/components/menus_settings.cpp:3506 | the delay is the larger of the value picked and the lag ticks |
| SettingsConfig.Config.SetLagDelay | src/game/client/components/menus_settings.cpp:3506 | the slider stores the clamped delay |
| SettingsSkins.SkinOrderIsStrictWeak | src/game/client/components/menus_settings.cpp:416-419 | case-insensitive less-than is irreflexive, asymmetric and transitive, and incomparability is case-insensitive equality, so it is a valid sort order |
| SettingsSkins.InsertNoCase | src/game/client/components/menus_settings.cpp:857-858 | insertion into a sorted list keeps it sorted and adds exactly one element |
| SettingsSkins.SortNoCase | src/game/client/components/menus_settings.cpp:857-858 | the sorted list is sorted case-insensitively and is a permutation of its input |
| SettingsSkins.BuildSkinList | src/game/client/components/menus_settings.cpp:828-861 | the list is the sorted favourites that exist and pass the filter, followed by the sorted other skins that pass it and are not favourites |
| SettingsSkins.CollectFavorites | src/game/client/components/menus_settings.cpp:840-848 | the favourite part holds, in set order, the skin found for each favourite when one is found and it passes the filter |
| SettingsSkins.CollectOthers | src/game/client/components/menus_settings.cpp:849-857 | the other part holds, in store order, every skin that passes the filter and is not a favourite |
| SettingsSkins.SkinListParts | src/game/client/components/menus_settings.cpp:828-856 | a name is in the favourite part exactly when a favourite resolves to it and it is listed; it is in the other part exactly when it is a listed skin that is not a favourite |
| SettingsSkins.SkinListPartsDisjoint | src/game/client/components/menus_settings.cpp:839-856 | when the lookup returns the name it was asked for, no skin appears in both parts |
| SettingsSkins.SetInsert | src/game/client/components/menus_settings.cpp:481 | inserting into the favourite set keeps it strictly ascending and adds exactly the new name |
| SettingsSkins.SetRemove | src/game/client/components/menus_settings.cpp:487-491 | erasing keeps the set ascending and removes exactly that name; an absent name changes nothing |
| SettingsSkins.SkinFavorites.Add | src/game/client/components/menus_settings.cpp:471-483 | a valid name is inserted and the changed flag set; an invalid name changes nothing |
| SettingsSkins.SkinFavorites.Remove | src/game/client/components/menus_settings.cpp:485-494 | the name is erased, and the changed flag is set only if it was present |
| SettingsSkins.FavoriteLine | src/game/client/components/menus_settings.cpp:505-507 | each saved line fits the 256-byte buffer |
| SettingsSkins.FavoriteLineRoundTrip | src/game/client/components/menus_settings.cpp:505-507 | a name without quotes or backslashes that fits the buffer is read back from its line by the console's quoted-argument reading |
| SettingsSkins.FavoriteLineQuoteCutsName | src/game/client/components/menus_settings.cpp:506 | the name is written without escaping, so a quote in it ends the argument: `a"b` is read back as `a` |
| SettingsSkins.FavoriteLineTruncated | src/game/client/components/menus_settings.cpp:505-507 | a name that does not fit is cut to fill the buffer, keeping the command prefix |
| SettingsSkins.FavoriteLineTruncatedIsLost | src/game/client/components/menus_settings.cpp:505-507 | a plain name too long for the buffer loses its closing quote, so its line is rejected on reload and the favourite is lost |
| SettingsSkins.SkinFavorites.ConfigSave | src/game/client/components/menus_settings.cpp:502-510 | one line per favourite, in set order |
| SettingsSkins.ConfigSaveRoundTrip | src/game/client/components/menus_settings.cpp:502-510 | every saved line is read back as its favourite when the names fit and hold no quote or backslash |
| SettingsSkins.SkinFavorites.RebuildSkinList | src/game/client/components/menus_settings.cpp:828-861 | the rebuild yields `BuildSkinList` of the current favourites and clears the changed flag |
| SettingsBinds.FindCommand | src/game/client/components/menus_settings.cpp:1297-1303 | returns the first row with the command, or -1 when no row has it |
| SettingsBinds.ScanBinds | src/game/client/components/menus_settings.cpp:1286-1305 | the scan resets every row and then leaves each row either empty or holding a pair that was scanned and is bound to the row's command; no command changes |
| SettingsBinds.ScanResultSound | src/game/client/components/menus_settings.cpp:1289-1305 | every key a row shows after the scan is bound to the row's command, and the row is the first with that command |
| SettingsBinds.ScanResultComplete | src/game/client/components/menus_settings.cpp:1289-1305 | if a scanned pair is bound to a row's command and the row is the first with it, the row ends up with a pair bound to its command that comes no earlier in scan order: the last such pair wins |
| SettingsBinds.Rebound | src/game/client/components/menus_settings.cpp:1060-1066 | an unchanged key changes nothing; otherwise the new pair gets the command exactly when it is a real key (a "none" new pair keeps its binding), the old pair is cleared when the old key is real or the new key is "none" (unless the new binding overwrote it), and every other pair is untouched |
| SettingsBinds.RebindKeepsNoneKey | src/game/client/components/menus_settings.cpp:1062-1063 | rebinding from "none" to a real key does not clear the "none" key |
| SettingsBinds.Binds.Rebind | src/game/client/components/menus_settings.cpp:1060-1066 | the bind table becomes `Rebound` of the old table |
| SettingsProfiles.ProfileOf | src/game/client/components/menus_settings.cpp:3979-3986 | each recorded part is the tee's value when its box is ticked and its sentinel otherwise; colours keep their bit pattern |
| SettingsProfiles.Loaded | src/game/client/components/menus_settings.cpp:3931-3969 | a part is taken from the profile exactly when its box is ticked and the profile holds a value (not the sentinel) for it: names cut to their buffers, colours together and back to unsigned; every other part is kept |
| SettingsProfiles.LoadedFits | src/game/client/components/menus_settings.cpp:3931-3969 | loading keeps the tee's names within their buffers and its colours unsigned 32-bit values |
| SettingsProfiles.LoadAfterSave | src/game/client/components/menus_settings.cpp:3931-3986 | loading a profile saved with the same boxes restores every ticked part and leaves the others alone, when the tee holds no sentinel value |
| SettingsProfiles.LoadAfterSaveAll | src/game/client/components/menus_settings.cpp:3931-3986 | with every box ticked, save then load restores the tee exactly |
| SettingsProfiles.ColorSentinelClash | src/game/client/components/menus_settings.cpp:3938-3980 | a body colour of 0xFFFFFFFF is saved as -1 and is never loaded back |
| SettingsProfiles.LoadWithNoBoxes | src/game/client/components/menus_settings.cpp:3931-3969 | with no box ticked, loading changes nothing |
| SettingsProfiles.TeeSettings.LoadProfile | src/game/client/components/menus_settings.cpp:3929-3971 | with a valid selection, only the edited tee (player or dummy) is loaded; the info is re-sent either way |
| SettingsProfiles.TeeSettings.SaveProfile | src/game/client/components/menus_settings.cpp:3977-3986 | appends the edited tee's profile |
| SettingsProfiles.SkinProfiles.Delete | src/game/client/components/menus_settings.cpp:4001-4005 | erases the selected profile when the selection is valid; otherwise nothing changes |
| SettingsProfiles.TeeSettings.OverrideProfile | src/game/client/components/menus_settings.cpp:4013-4024 | replaces the selected profile with the edited tee's when the selection is valid; otherwise nothing changes |
| SettingsMapPicker.ListedEntries | src/game/client/components/menus_settings.cpp:4528-4529 | listed files end in `.map`; `.` is never listed; `..` is listed exactly as a directory below the top folder; other directories always are |
| SettingsMapPicker.ListedUpToMembers | src/game/client/components/menus_settings.cpp:4525-4538 | the listing holds exactly the accepted entries |
| SettingsMapPicker.MapPicker.Populate | src/game/client/components/menus_settings.cpp:4516-4521 | the list is cleared and refilled with the accepted entries in the order reported |
| SettingsMapPicker.ParentDir | src/game/client/components/menus_settings.cpp:4496 | a folder with a separator is cut just before its last separator, and one without is left unchanged |
| SettingsMapPicker.EnterFolder | src/game/client/components/menus_settings.cpp:4500-4501 | the new folder is `folder/name` when it fits, and otherwise its first size−1 characters |
| SettingsMapPicker.EnterThenParent | src/game/client/components/menus_settings.cpp:4494-4502 | entering a subfolder whose name has no separator and then choosing `..` returns to the folder, when nothing was cut |
| SettingsMapPicker.JoinPath | src/game/client/components/menus_settings.cpp:4507 | the background path is `folder/name` when it fits the buffer, and otherwise its first size−1 characters |
| SettingsMapPicker.MapPicker.Choose | src/game/client/components/menus_settings.cpp:4488-4513 | a directory moves the folder (up for `..`), repopulates and keeps the popup open; a map sets the background entities to `folder/name` and closes it |
| HudNumbers.GetDigitsIndex | src/game/client/components/hud.cpp:1466-1482 | the index is in [0, max]; below the cap it is the number of decimal digits of the magnitude minus one (0 counts as one digit); at the cap the magnitude has at least that many digits |
| HudNumbers.DigitsIndexAtPowers | src/game/client/components/hud.cpp:1466-1482 | below the cap the index is k at 10^k and k-1 at 10^k-1 |
| HudNumbers.DigitsIndexIgnoresSign | src/game/client/components/hud.cpp:1468-1471 | a value and its negation give the same index |
| HudNumbers.UsedJumps | src/game/client/components/hud.cpp:1041-1060 | the raw count of used jumps, except that with endless jump a count reaching the jump count is capped at one below it |
| HudNumbers.UnusedJumps | src/game/client/components/hud.cpp:1062-1067 | used plus unused is the jump count, except that exactly one is shown while the air-jump bit is clear and none would be left; at least one with endless jump |
| HudNumbers.JumpsToDisplay | src/game/client/components/hud.cpp:1041-1074 | 0 ≤ available ≤ total, so the empty count drawn is never negative; with extended info the total is min(\|jumps\|, 10), otherwise both are \|jumps\| of the snapshot; a character with jumps left shows at least one available |
| HudNumbers.SingleJumpIcon | src/game/client/components/hud.cpp:1047-1074 | a single jump draws one icon, empty exactly while the air-jump bit is set and endless jump is off |
| HudNumbers.ManyJumpsShowFull | src/game/client/components/hud.cpp:1041-1069 | more than ten jumps with at least ten left shows ten available and none empty |
| HudNumbers.HealthIcons | src/game/client/components/hud.cpp:943-955 | for health and for armor, full and empty icons add up to ten; full is the value up to ten and ten above it; both are non-negative for non-negative values |
| HudNumbers.AmmoIcons | src/game/client/components/hud.cpp:934-938 | the ammo count up to ten icons, and ten above it |
| HudNumbers.CDiv | src/game/client/components/hud.cpp:101 | C's `/` truncates toward zero: for a non-negative dividend q·b ≤ a < (q+1)·b, and for a negative one (q−1)·b < a ≤ q·b |
| HudNumbers.GameTimer | src/game/client/components/hud.cpp:96-113 | nothing during sudden death; with a time limit and no warmup, the countdown plus the elapsed seconds is the limit in seconds, and 0 after game over; otherwise the race time from the warmup field when the server sends it, else the elapsed seconds, all under C's truncating division |
| HudNumbers.RaceTimeSinceStart | src/game/client/components/hud.cpp:106-110 | when the warmup field carries the negated race start tick, the timer shows the whole seconds since the race started |
| HudNumbers.GameTimerMonotone | src/game/client/components/hud.cpp:100-113 | as ticks advance, the countdown never rises and the other clocks never fall, under C's truncating division |
| HudNumbers.CountdownEndsAtLimit | src/game/client/components/hud.cpp:100-102 | at the tick where the time limit has just elapsed, the countdown reads 0 |
| HudNumbers.WarmupTimer | src/game/client/components/hud.cpp:495-506 | shown exactly during a warmup that is not race time; the seconds are the whole seconds left; tenths appear exactly under five seconds, are 0..9, and agree with the seconds |
| HudNumbers.TenthsSplit | src/game/client/components/hud.cpp:502-504 | the tenths computed from ticks times ten agree with the whole seconds |
| HudFrozen.LocalTeam | src/game/client/components/hud.cpp:603-605 | the followed team is the spectated player's while spectating someone, else the local player's; `FrozenHud` counts and draws that team |
| HudFrozen.CountTeam | src/game/client/components/hud.cpp:600-616 | counts present members of the team and the frozen ones among them; 0 ≤ frozen ≤ in team |
| HudFrozen.TeamSplit | src/game/client/components/hud.cpp:606-616 | members split into frozen and unfrozen |
| HudFrozen.NotifyLastMeans | src/game/client/components/hud.cpp:619-627 | the "last" notice shows exactly when one member is unfrozen and at least one is frozen |
| HudFrozen.NotifyLastWitness | src/game/client/components/hud.cpp:621 | when the notice shows there is an unfrozen member it concerns |
| HudFrozen.FrozenText | src/game/client/components/hud.cpp:629-635 | mode 0 shows nothing; modes 1 and 2 show a first number over the team size |
| HudFrozen.FrozenTextCounts | src/game/client/components/hud.cpp:629-632 | with the team's counts, mode 1's "alive" is the number of unfrozen members, mode 2's number is the frozen ones, and the total is unfrozen plus frozen |
| HudFrozen.OrderMembers | src/game/client/components/hud.cpp:666-682 | the drawing order holds every present team member exactly once and nobody else |
| HudFrozen.OrderUnfrozenFirst | src/game/client/components/hud.cpp:677-680 | when the team does not fit, every unfrozen member comes before every frozen one |
| HudFrozen.RowsInsideBox | src/game/client/components/hud.cpp:650-690 | every tee drawn lies in a row of the background box: below TotalRows = min(maxRows, ⌈n/maxTees⌉) |
| HudFrozen.PlacePass | src/game/client/components/hud.cpp:668-728 | one pass of the inner loop draws the next picked members up to the cap |
| HudFrozen.PlaceFrozenTees | src/game/client/components/hud.cpp:658-730 | the tees drawn are the first maxTees·maxRows of the drawing order; tee k is at row·maxTees + column = k with 0 ≤ column < maxTees and has the frozen look exactly when frozen |
| HudFrozen.FrozenHud | src/game/client/components/hud.cpp:598-733 | the block counts the followed team (`LocalTeam`); the notice is on exactly when it is enabled and one member is unfrozen with at least one frozen; the text's "alive" is the unfrozen count; nothing is drawn when the tee row is off, the scoreboard is open or team 0 is hidden; otherwise min(n, maxTees·maxRows) distinct team members are drawn, every row inside the box, at most maxTees per row, unfrozen before frozen on overflow |
| HudFrozen.DrawTeam | src/game/client/components/hud.cpp:650-733 | for a team of n members, min(n, maxTees·maxRows) distinct members are drawn, every row inside the box, at most maxTees per row, and unfrozen before frozen on overflow |
| HudRace.Receive | src/game/client/components/hud.cpp:1723-1767 | a race-time message sets the time and the finish flag and updates only the checkpoint or only the finish pair; a legacy record on old race servers sets time and ticks; a record message sets the server record and only the controlled tee's record; anything else changes nothing |
| HudRace.Reset | src/game/client/components/hud.cpp:54-66 | times and ticks become 0, the finish flag off and the records -1.00 s; the finish difference is kept |
| HudRace.ReceiveIdempotent | src/game/client/components/hud.cpp:1723-1767 | receiving a message twice at the same tick equals receiving it once |
| HudRace.RecordKeepsOtherTee | src/game/client/components/hud.cpp:1763-1764 | a record message never changes the other tee's personal record |
| HudRace.LastRaceTimeWins | src/game/client/components/hud.cpp:1727-1729 | after a race-time message the time and finish flag are those it carried |
| HudRace.ResetForgetsMessages | src/game/client/components/hud.cpp:54-66 | a reset erases the effect of any message except on the finish difference |
| HudRace.RaceTimer.OnMessage | src/game/client/components/hud.cpp:1723-1767 | the component's fields, the record array included, become `Receive` of their old values |
| HudRace.RaceTimer.OnReset | src/game/client/components/hud.cpp:54-66 | the component's fields become `Reset` of their old values |

## Left out

- **Operating system:** what the FIFO's OS calls return is passed in, and the calls themselves are recorded in a log. For `read` this is the length it returns, and a read is assumed to take that many bytes from the front of the FIFO. The calls are `mkfifo`, `stat`, `open`, `read`, `close`, `fs_remove`, `CreateNamedPipeW`, `ConnectNamedPipe`, `PeekNamedPipe`, `ReadFile`, `DisconnectNamedPipe` and `CloseHandle`.
  - The UTF-8 to UTF-16 conversion of the pipe name is not modelled.
  - Neither are `malloc`/`free` and the `dbg_msg` log output.
- **Windows drain loop:** a read is assumed never to return more bytes than the peek reported.
- **Fifo.WindowsFifo.Update:** the round that ends the drain loop is an input, and the model does not look at it. It dispatches nothing either way.
- **Filename buffer:** the size of `m_aFilename` is a constructor parameter, because its declaration is not part of this model. On Windows it is assumed to hold the 9-byte pipe prefix.
- **Drawing:** all drawing, fonts, layout rectangles, tooltips and floating-point geometry are left out.
  - In the frozen HUD, `maxTees` is a parameter instead of being computed from the screen aspect and the tee size. The model requires it to be at least 1. The source's `(int)(8.3 · (W/H) · 13 / TeeSize)` is 0 in a very narrow window, and the source then divides by zero when it computes the rows (hud.cpp line 666).
  - Colours and alpha of the drawn tees are reduced to the `frozen` flag.
- **HudFrozen.FrozenHud:** the gate around the whole block (some frozen-HUD option on, and DDRace entities) is not modelled. The spectated and local client ids are assumed to be slots, with -1 for free view.
- **SettingsConfig.Config.ClickFsaa:** the graphics backend's answers to `SetMultiSampling` are an input (`MultiSampling`). The backend count is assumed to fit in an `int`.
- **SetWindowParams:** it is assumed to store its arguments in `gfx_fullscreen` and `gfx_borderless`. The client code is not part of this model.
- **Bind table:** `CBinds::Bind` and `CBinds::Get` are modelled as a map from (key, modifier) to a command, with "" for unbound. `KEY_LAST` and `MODIFIER_COMBINATION_COUNT` are parameters.
- **Skin-name checks:** `CSkin::IsValidName` is a boolean parameter of `SettingsSkins.SkinFavorites.Add`.
- **Skin store:**
  - `FindOrNullptr` is a map from the name asked for to the name of the skin found.
  - `str_utf8_find_nocase` is the `matches` parameter.
  - `str_comp_nocase` folds ASCII letters only.
- **RandomSkin:** its `rand()` loop and the random-colour button are randomness and are left out.
- **SettingsSkins.BuildSkinList:** `std::sort` is modelled by its result, a case-insensitively sorted permutation. Which of two case-insensitively equal names comes first is not fixed, because the C++ sort is not stable either.
- **SettingsSkins.ParseFavoriteLine:** stands in for the console's argument parser, which is not part of this model. It reads the argument of `add_favorite_skin` as a quoted argument: up to the first unescaped quote, with a backslash escaping a quote or a backslash. A line that ends before a closing quote is rejected.
- **SettingsSkins.FavoriteLineRoundTrip:** the round trip is proved only for names without quotes or backslashes. The line is written without escaping, and `FavoriteLineQuoteCutsName` shows a quoted name coming back cut. Whether `IsValidName` forbids such names is not part of this model.
- **SettingsSkins.ConfigSaveRoundTrip:** the same limit to plain names as `FavoriteLineRoundTrip`, for the same reason.
- **Favourite names:** the set is ordered by plain character comparison; byte-level `std::string` ordering of non-ASCII names is not modelled.
- **UTF-8 truncation:** the truncation done by `str_copy`, `str_append` and `str_format` counts characters, not bytes, and does not back off to a UTF-8 character boundary.
- **Profile storage:** `SaveProfiles` (file I/O) is not modelled. `AddProfile` is assumed to append.
  - The buffer sizes of the player name and clan (16 and 12) and of the skin (24) are constants of this model; the declarations are not part of it.
- **Loaded profile values:** the flag and eye values are copied as they are. No check against the country list or the emote range is modelled.
- **SettingsMapPicker.MapPicker.Populate:** the listing is not sorted by `CompareFilenameAscending`. The comparator is not part of this model. `Populate` keeps the order the storage reported.
  - The copy of each entry name into the 128-byte `m_aFilename` is not truncated.
- **Map-picker paths:**
  - `fs_parent_dir` is assumed to cut at the last `/` or `\`.
  - The `maps/` prefix of the listed path is not modelled.
  - The current folder and background-entities buffer sizes are parameters.
  - `LoadBackground` is not modelled.
- **HudNumbers.GetDigitsIndex:** negating `INT_MIN` overflows in C. The model uses unbounded integers and floor(log10) computed exactly.
- **HudNumbers.JumpsToDisplay:** without extended info the count is not clamped to 10, as in the source.
- **HUD floats:** the checkpoint and finish differences and the records are kept as integer hundredths instead of `Check / 100.0f`. The "no record" value -1.0 is -100.
  - Fades, the ninja bar, the movement information and the FPS average are float arithmetic and are left out.
- **Game state:** `GameTick`, `GameTickSpeed`, snapshot and character state are inputs; `g_Config.m_ClDummy` is the `dummy` parameter.
- **Message decoding:** the network casting and the message-type constants are replaced by the decoded `Message` datatype.
