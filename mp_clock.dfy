/**
 * The clock text GameTime shows: "WMP n" during the countdown, otherwise
 * minutes, tens of seconds and seconds of the time left (or played when
 * there is no time limit).
 */
module MpClock {
  import opened Wrappers
  import opened MpTypes

  function DigitChar(d: int): char
    requires 0 <= d < 10
  {
    "0123456789"[d]
  }

  function DigitValue(c: char): Option<nat> {
    if '0' <= c <= '9' then Some(c as int - '0' as int) else None
  }

  /** The %i rendering of a non-negative int. */
  function NatToString(n: nat): (s: string)
    ensures |s| >= 1
  {
    if n < 10 then [DigitChar(n)] else NatToString(n / 10) + [DigitChar(n % 10)]
  }

  /** Reading a run of decimal digits back. */
  function ParseNat(s: string): Option<nat> {
    if |s| == 0 then None
    else
      match DigitValue(s[|s| - 1])
      case None => None
      case Some(d) =>
        if |s| == 1 then Some(d)
        else match ParseNat(s[..|s| - 1])
             case None => None
             case Some(p) => Some(10 * p + d)
  }

  lemma DigitRoundTrip(d: int)
    requires 0 <= d < 10
    ensures DigitValue(DigitChar(d)) == Some(d)
  {
  }

  lemma {:induction false} ParseNatToString(n: nat)
    ensures ParseNat(NatToString(n)) == Some(n)
  {
    DigitRoundTrip(n % 10);
    if n >= 10 {
      ParseNatToString(n / 10);
      var s := NatToString(n);
      assert s[..|s| - 1] == NatToString(n / 10);
    }
  }

  /** The milliseconds the clock shows outside the countdown, never below zero. */
  function ClockMs(timeLimit: int, time: int, matchStartedTime: int): (ms: nat)
  {
    var raw := if timeLimit != 0 then timeLimit * 60000 - (time - matchStartedTime)
               else time - matchStartedTime;
    if raw < 0 then 0 else raw
  }

  /** The "%i:%i%i" minutes, tens and seconds of a count of seconds. */
  function ClockText(secs: nat): string {
    var m := secs / 60;
    var rest := secs % 60;
    NatToString(m) + ":" + [DigitChar(rest / 10)] + [DigitChar(rest % 10)]
  }

  /** GameTime's text. realClientTime is used during the countdown, time otherwise. */
  function GameTime(gameState: GameState, warmupEndTime: int, realClientTime: int,
                    time: int, matchStartedTime: int, timeLimit: int): string
  {
    if gameState == Countdown then
      var ms := warmupEndTime - realClientTime;
      if ms <= 0 then "WMP --" else "WMP " + NatToString(ms / 1000 + 1)
    else
      ClockText(ClockMs(timeLimit, time, matchStartedTime) / 1000)
  }

  /** Reading an "m:ts" clock back into seconds; None when it is not of that form or ts exceeds 59. */
  function ParseClock(text: string): Option<nat> {
    if |text| < 4 || text[|text| - 3] != ':' then None
    else
      match (ParseNat(text[..|text| - 3]), DigitValue(text[|text| - 2]), DigitValue(text[|text| - 1]))
      case (Some(m), Some(t), Some(s)) => if t < 6 then Some(m * 60 + t * 10 + s) else None
      case _ => None
  }

  /** Reading a countdown text back: Some(n) for "WMP n", None otherwise. */
  function ParseCountdown(text: string): Option<nat> {
    if |text| > 4 && text[..4] == "WMP " then ParseNat(text[4..]) else None
  }

  /**
   * The clock shows whole seconds: reading the text back gives the seconds
   * left (or played), and the tens digit never exceeds 5.
   */
  lemma ClockShowsSeconds(gameState: GameState, warmupEndTime: int, realClientTime: int,
                          time: int, matchStartedTime: int, timeLimit: int)
    requires gameState != Countdown
    ensures ParseClock(GameTime(gameState, warmupEndTime, realClientTime, time, matchStartedTime, timeLimit))
         == Some(ClockMs(timeLimit, time, matchStartedTime) / 1000)
  {
    ClockTextParse(ClockMs(timeLimit, time, matchStartedTime) / 1000);
  }

  lemma ClockTextParse(secs: nat)
    ensures ParseClock(ClockText(secs)) == Some(secs)
  {
    var m := secs / 60;
    var rest := secs % 60;
    var t := rest / 10;
    var u := rest % 10;
    assert m * 60 + rest == secs;
    assert t * 10 + u == rest && t < 6;
    var text := ClockText(secs);
    var ms := NatToString(m);
    assert text == ms + ":" + [DigitChar(t)] + [DigitChar(u)];
    assert text[..|text| - 3] == ms;
    ParseNatToString(m);
    DigitRoundTrip(t);
    DigitRoundTrip(u);
  }

  /**
   * During the countdown the text is "WMP --" once the warmup end has passed,
   * and otherwise names the second of the countdown, counting from 1.
   */
  lemma CountdownShowsSecond(warmupEndTime: int, realClientTime: int,
                             time: int, matchStartedTime: int, timeLimit: int)
    ensures var text := GameTime(Countdown, warmupEndTime, realClientTime, time, matchStartedTime, timeLimit);
      var ms := warmupEndTime - realClientTime;
      && (ms <= 0 ==> text == "WMP --")
      && (ms > 0 ==> ParseCountdown(text) == Some(ms / 1000 + 1))
  {
    var ms := warmupEndTime - realClientTime;
    if ms > 0 {
      var text := GameTime(Countdown, warmupEndTime, realClientTime, time, matchStartedTime, timeLimit);
      assert text[4..] == NatToString(ms / 1000 + 1);
      ParseNatToString(ms / 1000 + 1);
    }
  }

  /**
   * With a time limit the clock counts down to "0:00" and stays there once
   * the limit is reached (the moment Run ends the match on time), and shows
   * more than zero before.
   */
  lemma TimeUpShowsZero(gameState: GameState, warmupEndTime: int, realClientTime: int,
                        time: int, matchStartedTime: int, timeLimit: int)
    requires gameState != Countdown && timeLimit != 0
    ensures time >= matchStartedTime + timeLimit * 60000 ==>
      GameTime(gameState, warmupEndTime, realClientTime, time, matchStartedTime, timeLimit) == "0:00"
    ensures time < matchStartedTime + timeLimit * 60000 ==> ClockMs(timeLimit, time, matchStartedTime) > 0
  {
    if time >= matchStartedTime + timeLimit * 60000 {
      assert ClockMs(timeLimit, time, matchStartedTime) == 0;
      assert ClockText(0) == "0" + ":" + "0" + "0";
    }
  }
}
