/** The periodic check that keeps a log-in session alive by refreshing its token. */
module Session {
  import opened JsRuntime
  import opened JsDate
  import opened DateTimeMath

  const POLL_SECONDS := 60
  const SESSION_SECONDS := 60 * 20

  /** `asked` while a refresh has not been answered; times are in milliseconds. */
  datatype State = State(loggedIn: bool, rememberMe: bool, expiry: int, asked: bool)

  datatype Event =
    | Check(now: int)
    | Answer(now: int)

  function Sooner(t: int, seconds: int, tz: int): int {
    Advance(NO_OPTS.(second := Some(-seconds)), t, tz)
  }

  /** One event in a machine whose time zone is `tz`. */
  function After(s: State, e: Event, tz: int): State {
    match e
    case Check(now) =>
      if !s.loggedIn then s
      else
        var early := Sooner(s.expiry, POLL_SECONDS, tz);
        if now > early then s.(loggedIn := false)
        else if !s.rememberMe && now > Sooner(early, POLL_SECONDS, tz) then s.(asked := true)
        else s
    case Answer(now) => s.(asked := false, expiry := Advance(NO_OPTS.(second := Some(SESSION_SECONDS - 1)), now, tz))
  }

  function Run(s: State, events: seq<Event>, tz: int): State
    decreases |events|
  {
    if events == [] then s else Run(After(s, events[0], tz), events[1..], tz)
  }

  class SessionEngine {
    const tz: int
    var isLoggedIn: bool
    var rememberMe: bool
    var authenticationTokenExpiry: int
    ghost var asked: bool

    ghost function Now(): State
      reads this
    {
      State(isLoggedIn, rememberMe, authenticationTokenExpiry, asked)
    }

    constructor (tz: int, rememberMe: bool, expiry: int)
      ensures this.tz == tz && Now() == State(true, rememberMe, expiry, false)
    {
      this.tz, this.isLoggedIn, this.rememberMe, authenticationTokenExpiry, asked := tz, true, rememberMe, expiry,
          false;
    }

    /** Logs out when the expiry is less than one poll away, asks for a new token when it is less than two. */
    method CheckExpiry(now: int) returns (refresh: bool)
      modifies this
      ensures Now() == After(old(Now()), Check(now), tz)
      ensures refresh ==> asked
    {
      hide Advance;
      refresh := false;
      if isLoggedIn {
        var expiry := Sooner(authenticationTokenExpiry, POLL_SECONDS, tz);
        if now > expiry {
          isLoggedIn := false;
        } else if !rememberMe {
          expiry := Sooner(expiry, POLL_SECONDS, tz);
          if now > expiry {
            refresh := true;
            asked := true;
          }
        }
      }
    }

    /** The server's answer to a refresh. */
    method EndLogin(now: int)
      modifies this
      ensures Now() == After(old(Now()), Answer(now), tz)
    {
      hide Advance;
      authenticationTokenExpiry := Advance(NO_OPTS.(second := Some(SESSION_SECONDS - 1)), now, tz);
      asked := false;
    }
  }

  // ----- the arithmetic of the expiry

  /** Times from 1970 on, in any zone of less than a day. */
  predicate Modern(t: int, tz: int) {
    t >= 0 && -1440 <= tz <= 1440
  }

  lemma ModernYear(t: int, tz: int)
    requires Modern(t, tz)
    ensures !TwoDigitYear(Year(Local(t, tz)))
  {
    var y := Year(Local(t, tz));
    if y <= 99 {
      YearsAscend(y + 1, 1969);
    }
  }

  lemma Seconds(t: int, n: int, tz: int)
    requires Modern(t, tz)
    ensures Advance(NO_OPTS.(second := Some(n)), t, tz) == t + 1000 * n
  {
    hide Advance, Year, Local, TwoDigitYear, Modern;
    ModernYear(t, tz);
    AdvanceExact(NO_OPTS.(second := Some(n)), t, tz);
  }

  /**
   While logged in, a check logs out when less than a minute is left, and otherwise asks for a new token when less than
   two are left and the user does not want to be remembered; nothing else changes.
   */
  lemma CheckExactly(s: State, now: int, tz: int)
    requires Modern(s.expiry - 120000, tz)
    ensures var t := After(s, Check(now), tz);
            && t.expiry == s.expiry && t.rememberMe == s.rememberMe
            && (t.loggedIn <==> s.loggedIn && now + 1000 * 60 <= s.expiry)
            && (t.asked <==> s.asked || (t.loggedIn && !s.rememberMe && now + 2 * 1000 * 60 > s.expiry))
  {
    hide Advance;
    Seconds(s.expiry, -60, tz);
    Seconds(s.expiry - 60000, -60, tz);
  }

  /** An answer gives the token its twenty minutes, less a second, whoever is logged in. */
  lemma AnswerExactly(s: State, now: int, tz: int)
    requires Modern(now, tz)
    ensures After(s, Answer(now), tz) == State(s.loggedIn, s.rememberMe, now + 1000 * (20 * 60 - 1), false)
  {
    hide Advance;
    Seconds(now, 1199, tz);
  }

  /** Who is remembered is never asked for, and is logged out by the first check in the last minute. */
  lemma {:induction false} RememberedRuns(s: State, times: seq<int>, tz: int)
    requires Modern(s.expiry - 120000, tz) && s.loggedIn && s.rememberMe && !s.asked
    ensures var events := seq(|times|, i requires 0 <= i < |times| => Check(times[i]));
            var t := Run(s, events, tz);
            && !t.asked && t.expiry == s.expiry
            && (t.loggedIn <==> forall i :: 0 <= i < |times| ==> times[i] + 60000 <= s.expiry)
    decreases |times|
  {
    hide After;
    if times != [] {
      var events := seq(|times|, i requires 0 <= i < |times| => Check(times[i]));
      var rest := seq(|times| - 1, i requires 0 <= i < |times| - 1 => Check(times[1..][i]));
      assert events[1..] == rest && |times[1..]| == |times| - 1;
      CheckExactly(s, times[0], tz);
      var t := After(s, Check(times[0]), tz);
      if t.loggedIn {
        RememberedRuns(t, times[1..], tz);
        assert forall i :: 0 < i < |times| ==> times[i] == times[1..][i - 1];
      } else {
        LoggedOutStays(t, times[1..], tz);
      }
    }
  }

  lemma {:induction false} LoggedOutStays(s: State, times: seq<int>, tz: int)
    requires !s.loggedIn
    ensures Run(s, seq(|times|, i requires 0 <= i < |times| => Check(times[i])), tz) == s
    decreases |times|
  {
    if times != [] {
      var events := seq(|times|, i requires 0 <= i < |times| => Check(times[i]));
      assert events[1..] == seq(|times[1..]|, i requires 0 <= i < |times[1..]| => Check(times[1..][i]));
      LoggedOutStays(s, times[1..], tz);
    }
  }

  // ----- keeping alive

  /**
   The events as they may come: the next check at most `gap` after the last one at `last`, and each refresh
   answered before the next check.
   */
  ghost predicate Punctual(s: State, events: seq<Event>, last: int, clock: int, gap: int, tz: int)
    decreases |events|
  {
    events == [] ||
    match events[0]
    case Check(now) => clock <= now <= last + gap && !s.asked &&
        Punctual(After(s, events[0], tz), events[1..], now, now, gap, tz)
    case Answer(now) => clock <= now && s.asked && Punctual(After(s, events[0], tz), events[1..], last, now, gap, tz)
  }

  /** Between events: unless an answer is due, the next check still comes a full poll before the expiry. */
  predicate Safe(s: State, last: int, clock: int, tz: int) {
    && s.loggedIn && !s.rememberMe && last <= clock && Modern(s.expiry - 120000, tz) && Modern(clock, tz)
    && (!s.asked ==> last + 120000 <= s.expiry)
  }

  lemma SafeStep(s: State, e: Event, last: int, clock: int, gap: int, tz: int)
    requires Safe(s, last, clock, tz) && gap <= 60000
    requires if e.Check? then clock <= e.now <= last + gap && !s.asked else clock <= e.now && s.asked
    ensures Safe(After(s, e, tz), if e.Check? then e.now else last, e.now, tz)
  {
    hide Advance;
    Seconds(s.expiry, -60, tz);
    Seconds(s.expiry - 60000, -60, tz);
    Seconds(e.now, 1199, tz);
  }

  /** Polls at most 60 s apart never log out. */
  lemma {:induction false} StaysSafe(s: State, events: seq<Event>, last: int, clock: int, gap: int, tz: int)
    requires Safe(s, last, clock, tz) && gap <= 60000 && Punctual(s, events, last, clock, gap, tz)
    ensures Run(s, events, tz).loggedIn
    decreases |events|
  {
    hide After, Safe;
    if events != [] {
      SafeStep(s, events[0], last, clock, gap, tz);
      StaysSafe(After(s, events[0], tz), events[1..], if events[0].Check? then events[0].now else last, events[0].now,
                gap, tz);
    } else {
      assert Run(s, events, tz) == s && s.loggedIn by { SafeIsIn(s, last, clock, tz); }
    }
  }

  lemma SafeIsIn(s: State, last: int, clock: int, tz: int)
    requires Safe(s, last, clock, tz)
    ensures s.loggedIn
  {
  }

  /**
   A log-in survives any run in which the first check comes at least a minute before the expiry, checks
   are at most `gap` apart and every refresh is answered before the next check, provided that the gap
   is at most a minute.
   */
  lemma KeptAlive(expiry: int, events: seq<Event>, first: int, gap: int, tz: int)
    requires Modern(expiry - 120000, tz) && 0 <= first <= expiry - 60000 && gap <= 60000
    requires Punctual(After(State(true, false, expiry, false), Check(first), tz), events, first, first, gap, tz)
    ensures Run(State(true, false, expiry, false), [Check(first)] + events, tz).loggedIn
  {
    hide Advance, Punctual;
    var s := State(true, false, expiry, false);
    Seconds(expiry, -60, tz);
    Seconds(expiry - 60000, -60, tz);
    StaysSafe(After(s, Check(first), tz), events, first, first, gap, tz);
    RunFirst(s, Check(first), events, tz);
  }

  lemma RunFirst(s: State, e: Event, events: seq<Event>, tz: int)
    ensures Run(s, [e] + events, tz) == Run(After(s, e, tz), events, tz)
  {
    hide After;
    assert ([e] + events)[1..] == events;
  }

  /** Any longer gap admits a run that logs out. */
  lemma LongerGapLogsOut(expiry: int, gap: int, tz: int)
    requires Modern(expiry - 120000, tz) && gap > 60000
    ensures var first, s := expiry - 120000, State(true, false, expiry, false);
            var events := [Check(first + gap)];
            && Punctual(After(s, Check(first), tz), events, first, first, gap, tz)
            && !Run(s, [Check(first)] + events, tz).loggedIn
  {
    hide Advance;
    Seconds(expiry, -60, tz);
    Seconds(expiry - 60000, -60, tz);
    var first, s := expiry - 120000, State(true, false, expiry, false);
    RunFirst(s, Check(first), [Check(first + gap)], tz);
    assert After(s, Check(first), tz) == s;
    RunFirst(s, Check(first + gap), [], tz);
    assert [Check(first + gap)] + [] == [Check(first + gap)];
  }

  /** So a minute is the exact bound on the gap between checks. */
  lemma GapExactly(gap: nat, tz: int)
    requires -1440 <= tz <= 1440
    ensures gap <= 60000 <==>
            forall expiry, first, events ::
              (Modern(expiry - 120000, tz) && 0 <= first <= expiry - 60000 &&
               Punctual(After(State(true, false, expiry, false), Check(first), tz), events, first, first, gap, tz)) ==>
                Run(State(true, false, expiry, false), [Check(first)] + events, tz).loggedIn
  {
    hide Punctual, After, Run;
    if gap <= 60000 {
      forall expiry, first, events | Modern(expiry - 120000, tz) && 0 <= first <= expiry - 60000 &&
          Punctual(After(State(true, false, expiry, false), Check(first), tz), events, first, first, gap, tz)
        ensures Run(State(true, false, expiry, false), [Check(first)] + events, tz).loggedIn
      {
        KeptAlive(expiry, events, first, gap, tz);
      }
    } else {
      LongerGapLogsOut(120000, gap, tz);
    }
  }
}
