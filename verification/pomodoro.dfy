/** The Pomodoro timer (src/components/PomodoroTimer.jsx): a work / short
    break / long break cycle driven by a one-second countdown.

    Each method of PomodoroTimer stands for one event handler together with
    the re-arm effect that React runs after it whenever the current session or
    the settings object changed, so every postcondition describes the state
    once the effects have settled. */
module Pomodoro {
  import opened Common

  datatype Session = Work | ShortBreak | LongBreak

  /** Minutes per session and the number of work sessions per long break. */
  datatype Settings = Settings(workTime: nat, shortBreakTime: nat, longBreakTime: nat, longBreakInterval: nat)

  const DefaultSettings: Settings := Settings(25, 5, 15, 4)

  /** Configured length of `session` in seconds: the value the countdown is
      re-armed to. */
  function SessionSeconds(settings: Settings, session: Session): (r: nat)
    ensures r % 60 == 0
    ensures session == Work ==> r / 60 == settings.workTime
    ensures session == ShortBreak ==> r / 60 == settings.shortBreakTime
    ensures session == LongBreak ==> r / 60 == settings.longBreakTime
  {
    match session
    case Work => settings.workTime * 60
    case ShortBreak => settings.shortBreakTime * 60
    case LongBreak => settings.longBreakTime * 60
  }

  /** `count % interval === 0` as JavaScript evaluates it on non-negative
      numbers: with an interval of 0 the remainder is NaN, which equals nothing. */
  predicate LongBreakDue(count: nat, interval: nat)
  {
    interval != 0 && count % interval == 0
  }

  /** The session and the completed-work count after `session` completes. */
  function Completed(session: Session, count: nat, settings: Settings): (r: (Session, nat))
    ensures session == Work ==> r.1 == count + 1 && r.0 != Work
    ensures session == Work ==> (r.0 == LongBreak <==> LongBreakDue(count + 1, settings.longBreakInterval))
    ensures session != Work ==> r.0 == Work && r.1 == count
  {
    match session
    case Work =>
      var next := count + 1;
      (if LongBreakDue(next, settings.longBreakInterval) then LongBreak else ShortBreak, next)
    case _ => (Work, count)
  }

  /** One call of the interval's state updater: the countdown value it
      returns and whether it fires the completion handler. */
  function CountdownStep(prev: int): (r: (int, bool))
    ensures r.1 <==> prev <= 1
    ensures r.1 ==> r.0 == 0
    ensures !r.1 ==> r.0 == prev - 1 && r.0 >= 1
  {
    if prev <= 1 then (0, true) else (prev - 1, false)
  }

  /** The header shown above the clock. */
  function SessionLabel(session: Session): (r: string)
    ensures r != "Session"
    ensures session == Work <==> r == "Work Session"
    ensures session == ShortBreak <==> r == "Short Break"
    ensures session == LongBreak <==> r == "Long Break"
  {
    match session
    case Work => "Work Session"
    case ShortBreak => "Short Break"
    case LongBreak => "Long Break"
  }

  /** The clock face: whole minutes and remaining seconds, each padded to two
      digits and joined by a colon. */
  function FormatTime(seconds: nat): (r: string)
    ensures |r| >= 5 && r[|r| - 3] == ':'
    ensures seconds < 6000 ==> |r| == 5
  {
    Pad2(seconds / 60) + ":" + Pad2(seconds % 60)
  }

  /** Reads a clock face "M…M:SS" back into seconds; None when the text has
      another shape or the seconds field is 60 or more. */
  function ParseClock(face: string): Option<nat>
  {
    if |face| < 4 || face[|face| - 3] != ':' then None
    else
      match (ParseNat(face[..|face| - 3]), ParseNat(face[|face| - 2..]))
      case (Some(mins), Some(secs)) => if secs < 60 then Some(mins * 60 + secs) else None
      case _ => None
  }

  /** The clock face loses nothing: reading it back gives the seconds shown. */
  lemma FormatTimeRoundTrip(seconds: nat)
    ensures ParseClock(FormatTime(seconds)) == Some(seconds)
  {
    var face := FormatTime(seconds);
    var mins, secs := Pad2(seconds / 60), Pad2(seconds % 60);
    assert face[..|face| - 3] == mins;
    assert face[|face| - 2..] == secs;
  }

  /** Two different countdown values never show the same clock face. */
  lemma FormatTimeInjective(a: nat, b: nat)
    requires FormatTime(a) == FormatTime(b)
    ensures a == b
  {
    FormatTimeRoundTrip(a);
    FormatTimeRoundTrip(b);
  }

  // ---------------------------------------------------------------------
  // The cycle of sessions
  // ---------------------------------------------------------------------

  /** Session and count after `n` consecutive completions. */
  function CompleteTimes(session: Session, count: nat, settings: Settings, n: nat): (Session, nat)
  {
    if n == 0 then (session, count)
    else
      var (s, c) := CompleteTimes(session, count, settings, n - 1);
      Completed(s, c, settings)
  }

  lemma RemainderAfterMultiple(count: nat, k: nat, j: nat)
    requires k > 0 && count % k == 0 && 0 < j < k
    ensures (count + j) % k != 0
  {
    var q := count / k;
    assert count == q * k;
    DivModUnique(count + j, k, q, j);
  }

  lemma RemainderAtNextMultiple(count: nat, k: nat)
    requires k > 0 && count % k == 0
    ensures (count + k) % k == 0
  {
    var q := count / k;
    assert count == q * k;
    assert count + k == (q + 1) * k;
    DivModUnique(count + k, k, q + 1, 0);
  }

  /** Starting a work session at a multiple of the long-break interval `k`,
      every two completions add one finished work session and return to work,
      as long as fewer than `k` have been added. */
  lemma {:induction false} WorkCycles(count: nat, settings: Settings, j: nat)
    requires settings.longBreakInterval > 0 && count % settings.longBreakInterval == 0
    requires j < settings.longBreakInterval
    ensures CompleteTimes(Work, count, settings, 2 * j) == (Work, count + j)
  {
    if j > 0 {
      WorkCycles(count, settings, j - 1);
      RemainderAfterMultiple(count, settings.longBreakInterval, j);
      assert CompleteTimes(Work, count, settings, 2 * j - 1) == (ShortBreak, count + j);
    }
  }

  /** ... and the completion after the `k`-th work session is the long break,
      entered with the count advanced by exactly `k`. */
  lemma LongBreakAfterInterval(count: nat, settings: Settings)
    requires settings.longBreakInterval > 0 && count % settings.longBreakInterval == 0
    ensures CompleteTimes(Work, count, settings, 2 * settings.longBreakInterval - 1)
         == (LongBreak, count + settings.longBreakInterval)
  {
    var k := settings.longBreakInterval;
    WorkCycles(count, settings, k - 1);
    RemainderAtNextMultiple(count, k);
  }

  /** With the default 25/5/15/4 settings, starting from the first work
      session, the seventh completion enters the long break with four work
      sessions done. */
  lemma DefaultCycle()
    ensures CompleteTimes(Work, 0, DefaultSettings, 7) == (LongBreak, 4)
  {
    LongBreakAfterInterval(0, DefaultSettings);
  }

  // ---------------------------------------------------------------------
  // The component state
  // ---------------------------------------------------------------------

  class PomodoroTimer {
    var timeLeft: int
    var isRunning: bool
    var currentSession: Session
    var sessionCount: nat
    var settings: Settings

    /** The countdown stays between zero and the current session's length. */
    ghost predicate Valid()
      reads this
    {
      0 <= timeLeft <= SessionSeconds(settings, currentSession)
    }

    /** The state the component mounts with. */
    constructor ()
      ensures Valid()
      ensures timeLeft == 25 * 60 && !isRunning && currentSession == Work
      ensures sessionCount == 0 && settings == DefaultSettings
    {
      timeLeft := 25 * 60;
      isRunning := false;
      currentSession := Work;
      sessionCount := 0;
      settings := DefaultSettings;
    }

    /** handleSessionComplete: stop, move to the next session (counting a
        finished work session), and re-arm the countdown for it. */
    method Complete()
      requires Valid()
      modifies this
      ensures Valid()
      ensures !isRunning && settings == old(settings)
      ensures (currentSession, sessionCount) == Completed(old(currentSession), old(sessionCount), settings)
      ensures currentSession != old(currentSession)
      ensures timeLeft == SessionSeconds(settings, currentSession)
    {
      isRunning := false;
      var (next, count) := Completed(currentSession, sessionCount, settings);
      sessionCount := count;
      currentSession := next;
      timeLeft := SessionSeconds(settings, currentSession);
    }

    /** One tick of the one-second interval. The interval only exists while
        the timer runs, so a tick of a stopped timer changes nothing. */
    method Tick()
      requires Valid()
      modifies this
      ensures Valid()
      ensures !old(isRunning) ==> unchanged(this)
      ensures old(isRunning) && old(timeLeft) > 1 ==>
                timeLeft == old(timeLeft) - 1 && isRunning && currentSession == old(currentSession)
                && sessionCount == old(sessionCount) && settings == old(settings)
      ensures old(isRunning) && old(timeLeft) <= 1 ==>
                !isRunning && settings == old(settings)
                && (currentSession, sessionCount) == Completed(old(currentSession), old(sessionCount), settings)
                && timeLeft == SessionSeconds(settings, currentSession)
    {
      if isRunning {
        var (next, fired) := CountdownStep(timeLeft);
        timeLeft := next;
        if fired {
          Complete();
        }
      }
    }

    /** handleStartPause. */
    method StartPause()
      modifies this
      ensures isRunning == !old(isRunning)
      ensures timeLeft == old(timeLeft) && currentSession == old(currentSession)
      ensures sessionCount == old(sessionCount) && settings == old(settings)
    {
      isRunning := !isRunning;
    }

    /** handleReset: stop and re-arm the current session. */
    method Reset()
      modifies this
      ensures Valid()
      ensures !isRunning && timeLeft == SessionSeconds(settings, currentSession)
      ensures currentSession == old(currentSession) && sessionCount == old(sessionCount)
      ensures settings == old(settings)
    {
      isRunning := false;
      timeLeft := SessionSeconds(settings, currentSession);
    }

    /** handleSkip: the same transition as a natural completion, whatever
        time is left. */
    method Skip()
      requires Valid()
      modifies this
      ensures Valid()
      ensures !isRunning && settings == old(settings)
      ensures (currentSession, sessionCount) == Completed(old(currentSession), old(sessionCount), settings)
      ensures timeLeft == SessionSeconds(settings, currentSession)
    {
      isRunning := false;
      Complete();
    }

    /** The Work / Short Break / Long Break buttons. Choosing the session that
        is already current leaves the state as it is (React skips the effect),
        so the countdown is only re-armed on a real change. */
    method SelectSession(target: Session)
      requires Valid()
      modifies this
      ensures Valid()
      ensures currentSession == target
      ensures isRunning == old(isRunning) && sessionCount == old(sessionCount) && settings == old(settings)
      ensures target != old(currentSession) ==> timeLeft == SessionSeconds(settings, target)
      ensures target == old(currentSession) ==> timeLeft == old(timeLeft)
    {
      if target != currentSession {
        currentSession := target;
        timeLeft := SessionSeconds(settings, target);
      }
    }

    /** A change in one of the settings inputs: the settings object is
        replaced at once, which re-arms the current session with its new
        length without stopping a running timer. */
    method EditSettings(newSettings: Settings)
      modifies this
      ensures Valid()
      ensures settings == newSettings && timeLeft == SessionSeconds(newSettings, currentSession)
      ensures isRunning == old(isRunning) && currentSession == old(currentSession)
      ensures sessionCount == old(sessionCount)
    {
      settings := newSettings;
      timeLeft := SessionSeconds(newSettings, currentSession);
    }

    /** handleSaveSettings: closing the panel performs a reset. */
    method SaveSettings()
      modifies this
      ensures Valid()
      ensures !isRunning && timeLeft == SessionSeconds(settings, currentSession)
      ensures currentSession == old(currentSession) && sessionCount == old(sessionCount)
      ensures settings == old(settings)
    {
      Reset();
    }
  }

  /** A caller's view of the contracts: from a fresh timer, skipping through
      the default cycle reaches the long break after four work sessions. */
  method DefaultCycleBySkipping() returns (session: Session, count: nat)
    ensures session == LongBreak && count == 4
  {
    var t := new PomodoroTimer();
    var i := 0;
    while i < 7
      invariant 0 <= i <= 7
      invariant t.Valid() && t.settings == DefaultSettings
      invariant (t.currentSession, t.sessionCount) == CompleteTimes(Work, 0, DefaultSettings, i)
    {
      t.Skip();
      i := i + 1;
    }
    DefaultCycle();
    session, count := t.currentSession, t.sessionCount;
  }
}
