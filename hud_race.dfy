/**
 * The race timer state of the HUD: the race time and checkpoint and finish
 * differences the server sends, the ticks they arrived at, and the server
 * and personal records. Times are kept in hundredths of a second, the unit
 * the server sends them in; a record of -100 (-1.00 s) means none.
 */
module HudRace {

  /** -1.0 seconds, the "no record" value, in hundredths. */
  const NO_RECORD := -100

  /** A decoded server message, as far as the race HUD reads it. */
  datatype Message =
    | DDRaceTime(legacy: bool, time: int, check: int, finish: int)
    | Record(legacy: bool, serverTimeBest: int, playerTimeBest: int)
    | Other

  datatype RaceState = RaceState(
    ddraceTime: int,
    showFinishTime: bool,
    timeCpDiff: int,
    finishTimeDiff: int,
    cpTick: int,
    finishTick: int,
    serverRecord: int,
    playerRecord: seq<int>)

  /** The game-info flags that decide how a legacy record message is read. */
  datatype RecordFlags = RecordFlags(ddraceRecordMessage: bool, raceRecordMessage: bool)

  /** A legacy record message carries a race time (old race servers). */
  predicate RaceTimeInRecord(m: Message, flags: RecordFlags)
  {
    m.Record? && m.legacy && flags.ddraceRecordMessage
  }

  /** A record message that updates the records. */
  predicate UpdatesRecords(m: Message, flags: RecordFlags)
  {
    m.Record? && !RaceTimeInRecord(m, flags) && (!m.legacy || flags.raceRecordMessage)
  }

  /**
   * The state after message `m` arrives at `tick`, with `dummy` the tee
   * being controlled. A race-time message sets the time and either the
   * checkpoint or the finish difference; a legacy record message on old
   * race servers does the same with its two values; a record message
   * sets the server record and the controlled tee's personal record.
   */
  function Receive(s: RaceState, m: Message, tick: int, dummy: int, flags: RecordFlags): (r: RaceState)
    requires |s.playerRecord| == 2 && 0 <= dummy <= 1
    ensures |r.playerRecord| == 2
    ensures m.DDRaceTime? ==>
      r.ddraceTime == m.time && (r.showFinishTime <==> m.finish != 0)
      && (m.finish == 0 ==> r.timeCpDiff == m.check && r.cpTick == tick
                            && r.finishTimeDiff == s.finishTimeDiff && r.finishTick == s.finishTick)
      && (m.finish != 0 ==> r.finishTimeDiff == m.check && r.finishTick == tick
                            && r.timeCpDiff == s.timeCpDiff && r.cpTick == s.cpTick)
      && r.serverRecord == s.serverRecord && r.playerRecord == s.playerRecord
    ensures RaceTimeInRecord(m, flags) ==>
      r == s.(ddraceTime := m.serverTimeBest, finishTick := tick,
              timeCpDiff := if m.playerTimeBest != 0 then m.playerTimeBest else s.timeCpDiff,
              cpTick := if m.playerTimeBest != 0 then tick else s.cpTick)
    ensures UpdatesRecords(m, flags) ==>
      r == s.(serverRecord := m.serverTimeBest, playerRecord := s.playerRecord[dummy := m.playerTimeBest])
    ensures !m.DDRaceTime? && !RaceTimeInRecord(m, flags) && !UpdatesRecords(m, flags) ==> r == s
  {
    match m
    case DDRaceTime(_, time, check, finish) =>
      var s1 := s.(ddraceTime := time, showFinishTime := finish != 0);
      if finish == 0 then s1.(timeCpDiff := check, cpTick := tick)
      else s1.(finishTimeDiff := check, finishTick := tick)
    case Record(legacy, serverBest, playerBest) =>
      if legacy && flags.ddraceRecordMessage then
        var s1 := s.(ddraceTime := serverBest, finishTick := tick);
        if playerBest != 0 then s1.(timeCpDiff := playerBest, cpTick := tick) else s1
      else if !legacy || flags.raceRecordMessage then
        s.(serverRecord := serverBest, playerRecord := s.playerRecord[dummy := m.playerTimeBest])
      else s
    case Other => s
  }

  /** The state after a reset; the last finish difference is kept. */
  function Reset(s: RaceState): (r: RaceState)
    ensures r.ddraceTime == 0 && !r.showFinishTime && r.timeCpDiff == 0
    ensures r.cpTick == 0 && r.finishTick == 0
    ensures r.serverRecord == NO_RECORD && r.playerRecord == [NO_RECORD, NO_RECORD]
    ensures r.finishTimeDiff == s.finishTimeDiff
  {
    RaceState(0, false, 0, s.finishTimeDiff, 0, 0, NO_RECORD, [NO_RECORD, NO_RECORD])
  }

  /** Receiving the same message twice at the same tick is the same as receiving it once. */
  lemma ReceiveIdempotent(s: RaceState, m: Message, tick: int, dummy: int, flags: RecordFlags)
    requires |s.playerRecord| == 2 && 0 <= dummy <= 1
    ensures Receive(Receive(s, m, tick, dummy, flags), m, tick, dummy, flags) == Receive(s, m, tick, dummy, flags)
  {
  }

  /** A record message for one tee leaves the other tee's personal record alone. */
  lemma RecordKeepsOtherTee(s: RaceState, m: Message, tick: int, dummy: int, flags: RecordFlags)
    requires |s.playerRecord| == 2 && 0 <= dummy <= 1
    ensures Receive(s, m, tick, dummy, flags).playerRecord[1 - dummy] == s.playerRecord[1 - dummy]
  {
  }

  /** After a race-time message, the time shown is the one it carried, whatever came before. */
  lemma LastRaceTimeWins(s: RaceState, m1: Message, m2: Message, t1: int, t2: int, dummy: int, flags: RecordFlags)
    requires |s.playerRecord| == 2 && 0 <= dummy <= 1 && m2.DDRaceTime?
    ensures Receive(Receive(s, m1, t1, dummy, flags), m2, t2, dummy, flags).ddraceTime == m2.time
    ensures Receive(Receive(s, m1, t1, dummy, flags), m2, t2, dummy, flags).showFinishTime == (m2.finish != 0)
  {
  }

  /** Nothing a message does survives a reset, except the last finish difference. */
  lemma ResetForgetsMessages(s: RaceState, m: Message, tick: int, dummy: int, flags: RecordFlags)
    requires |s.playerRecord| == 2 && 0 <= dummy <= 1
    ensures Reset(Receive(s, m, tick, dummy, flags)).(finishTimeDiff := 0) == Reset(s).(finishTimeDiff := 0)
  {
  }

  /** The race-timer fields of the HUD component. */
  class RaceTimer {
    var ddraceTime: int
    var showFinishTime: bool
    var timeCpDiff: int
    var finishTimeDiff: int
    var timeCpLastReceivedTick: int
    var finishTimeLastReceivedTick: int
    var serverRecord: int
    /** The personal records of the player (0) and the dummy (1). */
    const playerRecord: array<int>

    ghost predicate Valid()
      reads this
    {
      playerRecord.Length == 2
    }

    function State(): (r: RaceState)
      requires Valid()
      reads this, playerRecord
      ensures |r.playerRecord| == 2
    {
      RaceState(ddraceTime, showFinishTime, timeCpDiff, finishTimeDiff,
                timeCpLastReceivedTick, finishTimeLastReceivedTick, serverRecord, playerRecord[..])
    }

    /** `OnInit` runs `OnReset`. */
    constructor ()
      ensures Valid() && fresh(playerRecord)
      ensures State() == Reset(RaceState(0, false, 0, 0, 0, 0, 0, [0, 0]))
    {
      ddraceTime, showFinishTime, timeCpDiff, finishTimeDiff := 0, false, 0, 0;
      timeCpLastReceivedTick, finishTimeLastReceivedTick := 0, 0;
      serverRecord := NO_RECORD;
      playerRecord := new int[2] [NO_RECORD, NO_RECORD];
    }

    method OnReset()
      requires Valid()
      modifies this, playerRecord
      ensures Valid() && State() == Reset(old(State()))
    {
      timeCpDiff := 0;
      ddraceTime := 0;
      finishTimeLastReceivedTick := 0;
      timeCpLastReceivedTick := 0;
      showFinishTime := false;
      serverRecord := NO_RECORD;
      playerRecord[0] := NO_RECORD;
      playerRecord[1] := NO_RECORD;
    }

    /** `OnMessage` with the message decoded, the current game tick and the controlled tee. */
    method OnMessage(m: Message, gameTick: int, dummy: int, flags: RecordFlags)
      requires Valid() && 0 <= dummy <= 1
      modifies this, playerRecord
      ensures Valid() && State() == Receive(old(State()), m, gameTick, dummy, flags)
    {
      match m {
        case DDRaceTime(_, time, check, finish) =>
          ddraceTime := time;
          showFinishTime := finish != 0;
          if !showFinishTime {
            timeCpDiff := check;
            timeCpLastReceivedTick := gameTick;
          } else {
            finishTimeDiff := check;
            finishTimeLastReceivedTick := gameTick;
          }
        case Record(legacy, serverBest, playerBest) =>
          if legacy && flags.ddraceRecordMessage {
            ddraceTime := serverBest;
            finishTimeLastReceivedTick := gameTick;
            if playerBest != 0 {
              timeCpDiff := playerBest;
              timeCpLastReceivedTick := gameTick;
            }
          } else if !legacy || flags.raceRecordMessage {
            serverRecord := serverBest;
            playerRecord[dummy] := playerBest;
          }
        case Other =>
      }
    }
  }
}
