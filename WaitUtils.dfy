/** WaitUtils: how long a wait lasts, how often it polls, which exceptions it
    swallows, and what the page-load and jQuery conditions answer. The wall
    clock is not modelled: a wait is given the finite sequence of condition
    outcomes it observes before its deadline. */
module Waits {
  import opened Common
  import JavaStrings
  import Config

  const KeyExplicitWait := "explicit.wait"
  const KeyPollingInterval := "polling.interval"
  const DefaultExplicitWaitSeconds := 20
  const DefaultPollingIntervalMs := 500

  /** A java.time.Duration, as an exact number of milliseconds. */
  datatype Duration = Millis(ms: int)

  function OfSeconds(s: int): Duration { Millis(s * 1000) }
  function OfMillis(ms: int): Duration { Millis(ms) }

  /** `getExplicitWaitDuration`: `explicit.wait` seconds when either layer holds
      the key, else 20 s. A present key is read with `getLong`, whose failure
      propagates: a blank value does not fall back. */
  function ExplicitWaitDuration(c: Config.Layers): (r: Result<Duration>)
    ensures !Config.ContainsKey(c, KeyExplicitWait) ==> r == Ok(Millis(20_000))
    ensures Config.ContainsKey(c, KeyExplicitWait) && Config.GetLong(c, KeyExplicitWait).Ok? ==>
      r == Ok(Millis(Config.GetLong(c, KeyExplicitWait).value * 1000))
    ensures Config.ContainsKey(c, KeyExplicitWait) && Config.GetLong(c, KeyExplicitWait).Err? ==>
      r == Err(Config.GetLong(c, KeyExplicitWait).error)
  {
    if Config.ContainsKey(c, KeyExplicitWait) then
      match Config.GetLong(c, KeyExplicitWait)
      case Ok(n) => Ok(OfSeconds(n))
      case Err(e) => Err(e)
    else
      Ok(OfSeconds(DefaultExplicitWaitSeconds))
  }

  /** `getPollingInterval`: `polling.interval` milliseconds when either layer
      holds the key, else 500 ms. */
  function PollingInterval(c: Config.Layers): (r: Result<Duration>)
    ensures !Config.ContainsKey(c, KeyPollingInterval) ==> r == Ok(Millis(500))
    ensures Config.ContainsKey(c, KeyPollingInterval) && Config.GetLong(c, KeyPollingInterval).Ok? ==>
      r == Ok(Millis(Config.GetLong(c, KeyPollingInterval).value))
    ensures Config.ContainsKey(c, KeyPollingInterval) && Config.GetLong(c, KeyPollingInterval).Err? ==>
      r == Err(Config.GetLong(c, KeyPollingInterval).error)
  {
    if Config.ContainsKey(c, KeyPollingInterval) then
      match Config.GetLong(c, KeyPollingInterval)
      case Ok(n) => Ok(OfMillis(n))
      case Err(e) => Err(e)
    else
      Ok(OfMillis(DefaultPollingIntervalMs))
  }

  /** A key that is present but blank in every layer is neither read nor
      defaulted: both resolutions fail with the missing-key error. */
  lemma BlankKeyDoesNotFallBack(c: Config.Layers)
    requires Config.ContainsKey(c, KeyExplicitWait)
    requires KeyExplicitWait in c.env ==> JavaStrings.IsBlank(c.env[KeyExplicitWait])
    requires KeyExplicitWait in c.base ==> JavaStrings.IsBlank(c.base[KeyExplicitWait])
    ensures ExplicitWaitDuration(c) == Err(MissingConfigKey(KeyExplicitWait))
  {
    Config.ContainsKeyVersusGet(c, KeyExplicitWait);
  }

  /** A configured timeout is read as whole seconds, so it is always a
      multiple of one second and lies in the signed 64-bit range of seconds. */
  lemma ExplicitWaitInSeconds(c: Config.Layers)
    requires ExplicitWaitDuration(c).Ok?
    ensures ExplicitWaitDuration(c).value.ms % 1000 == 0
    ensures JavaStrings.MinLong * 1000 <= ExplicitWaitDuration(c).value.ms <= JavaStrings.MaxLong * 1000
  {
  }

  // ------------------------------------------------------------ polling

  /** What one evaluation of a wait condition can throw. */
  datatype Failure =
    /** NoSuchElementException and its subclasses (InvalidSelector, NoSuchCookie) */
    | NoSuchElement
    /** every other NotFoundException: NoSuchWindow, NoSuchFrame,
        NoAlertPresent, NoSuchShadowRoot */
    | OtherNotFound
    | StaleElementReference
    | JavascriptError
    | ScriptNullPointer
    | ClassCast
    | OtherWebDriver

  /** One evaluation of a condition: a truthy value, a falsy one (false or
      null: keep polling), or an exception. */
  datatype Poll = Holds | NotYet | Throws(failure: Failure)

  /** How a wait ends. */
  datatype WaitEnd = Satisfied | TimedOut | Raised(failure: Failure)

  /** A configured wait: its timeout, its polling interval and the exceptions
      it swallows between polls. */
  datatype Wait = Wait(timeout: Duration, polling: Duration, ignored: set<Failure>)

  /** `newFluentWait`: ignores NoSuchElementException and
      StaleElementReferenceException, and nothing else. */
  function NewFluentWait(timeout: Duration, polling: Duration): (w: Wait)
    ensures w.timeout == timeout && w.polling == polling
    ensures forall f :: f in w.ignored <==> f == NoSuchElement || f == StaleElementReference
  {
    Wait(timeout, polling, {NoSuchElement, StaleElementReference})
  }

  /** `new WebDriverWait(driver, timeout)`: Selenium's default polling of
      500 ms and its default ignore of NotFoundException and its subclasses. */
  function NewExplicitWait(timeout: Duration): (w: Wait)
    ensures w.timeout == timeout && w.polling == Millis(500)
    ensures forall f :: f in w.ignored <==> f == NoSuchElement || f == OtherNotFound
  {
    Wait(timeout, Millis(500), {NoSuchElement, OtherNotFound})
  }

  /** `Wait.until` over the outcomes `polls` seen before the deadline: the first
      truthy result ends the wait, an exception outside the ignore set leaves
      it, and running out of polls is a timeout. */
  function Until(w: Wait, polls: seq<Poll>): (end: WaitEnd)
    ensures end.Raised? ==> end.failure !in w.ignored
    ensures polls == [] ==> end == TimedOut
  {
    if polls == [] then TimedOut
    else match polls[0]
      case Holds => Satisfied
      case NotYet => Until(w, polls[1..])
      case Throws(f) => if f in w.ignored then Until(w, polls[1..]) else Raised(f)
  }

  /** Until is satisfied exactly when some poll holds before any exception
      the wait does not ignore. */
  lemma {:induction false} UntilSatisfiedIff(w: Wait, polls: seq<Poll>)
    ensures Until(w, polls) == Satisfied <==>
      exists k :: 0 <= k < |polls| && polls[k] == Holds &&
        forall j :: 0 <= j < k ==> polls[j] == NotYet || (polls[j].Throws? && polls[j].failure in w.ignored)
  {
    if polls != [] {
      UntilSatisfiedIff(w, polls[1..]);
      if Until(w, polls) == Satisfied && polls[0] != Holds {
        var k :| 0 <= k < |polls[1..]| && polls[1..][k] == Holds &&
          forall j :: 0 <= j < k ==> polls[1..][j] == NotYet || (polls[1..][j].Throws? && polls[1..][j].failure in w.ignored);
        assert polls[k + 1] == Holds;
        assert forall j :: 0 <= j < k + 1 ==> polls[j] == NotYet || (polls[j].Throws? && polls[j].failure in w.ignored) by {
          forall j | 0 <= j < k + 1
            ensures polls[j] == NotYet || (polls[j].Throws? && polls[j].failure in w.ignored)
          {
            if j > 0 {
              assert polls[j] == polls[1..][j - 1];
            }
          }
        }
      }
      if !(Until(w, polls) == Satisfied) {
        forall k | 0 <= k < |polls| && polls[k] == Holds
          ensures exists j :: 0 <= j < k && !(polls[j] == NotYet || (polls[j].Throws? && polls[j].failure in w.ignored))
        {
          if k == 0 {
            assert false;
          }
          if polls[0] == NotYet || (polls[0].Throws? && polls[0].failure in w.ignored) {
            assert polls[1..][k - 1] == Holds;
            var j :| 0 <= j < k - 1 && !(polls[1..][j] == NotYet || (polls[1..][j].Throws? && polls[1..][j].failure in w.ignored));
            assert polls[j + 1] == polls[1..][j];
          } else {
            assert 0 < k;
          }
        }
      }
    }
  }

  /** A fluent wait rides out any number of missing or stale elements: only
      the remaining polls decide it. */
  lemma {:induction false} FluentWaitSkipsIgnored(timeout: Duration, polling: Duration, skipped: seq<Poll>, rest: seq<Poll>)
    requires forall j :: 0 <= j < |skipped| ==> skipped[j] in {NotYet, Throws(NoSuchElement), Throws(StaleElementReference)}
    ensures Until(NewFluentWait(timeout, polling), skipped + rest) == Until(NewFluentWait(timeout, polling), rest)
  {
    if skipped != [] {
      var w := NewFluentWait(timeout, polling);
      var all := skipped + rest;
      assert all[1..] == skipped[1..] + rest;
      assert all[0] == skipped[0];
      assert all[0] == NotYet || (all[0].Throws? && all[0].failure in w.ignored);
      assert Until(w, all) == Until(w, all[1..]);
      FluentWaitSkipsIgnored(timeout, polling, skipped[1..], rest);
    } else {
      assert skipped + rest == rest;
    }
  }

  /** A stale element ends an explicit wait, but not a fluent one. */
  lemma StaleElementEndsOnlyExplicitWaits(timeout: Duration, polling: Duration)
    ensures Until(NewExplicitWait(timeout), [Throws(StaleElementReference), Holds]) == Raised(StaleElementReference)
    ensures Until(NewFluentWait(timeout, polling), [Throws(StaleElementReference), Holds]) == Satisfied
  {
    var p := [Throws(StaleElementReference), Holds];
    assert p[1..] == [Holds];
  }

  /** A missing window, frame or alert ends a fluent wait, but not an
      explicit one. */
  lemma OtherNotFoundEndsOnlyFluentWaits(timeout: Duration, polling: Duration)
    ensures Until(NewExplicitWait(timeout), [Throws(OtherNotFound), Holds]) == Satisfied
    ensures Until(NewFluentWait(timeout, polling), [Throws(OtherNotFound), Holds]) == Raised(OtherNotFound)
  {
    var p := [Throws(OtherNotFound), Holds];
    assert p[1..] == [Holds];
  }

  // -------------------------------------------------------- until overloads

  /** `until(condition)`: the fluent wait with the configured timeout, then the
      configured polling interval (read in that order), on the worker's driver
      (`hasDriver`: its slot is filled, otherwise getDriver raises). */
  function UntilWait(c: Config.Layers, hasDriver: bool): (r: Result<Wait>)
    ensures r.Ok? <==> ExplicitWaitDuration(c).Ok? && PollingInterval(c).Ok? && hasDriver
    ensures r.Ok? ==> r.value == NewFluentWait(ExplicitWaitDuration(c).value, PollingInterval(c).value)
    ensures ExplicitWaitDuration(c).Err? ==> r == Err(ExplicitWaitDuration(c).error)
    ensures ExplicitWaitDuration(c).Ok? && PollingInterval(c).Err? ==> r == Err(PollingInterval(c).error)
    ensures ExplicitWaitDuration(c).Ok? && PollingInterval(c).Ok? && !hasDriver ==> r == Err(NotInitialized)
  {
    match ExplicitWaitDuration(c)
    case Err(e) => Err(e)
    case Ok(timeout) =>
      match PollingInterval(c)
      case Err(e) => Err(e)
      case Ok(polling) =>
        if hasDriver then Ok(NewFluentWait(timeout, polling)) else Err(NotInitialized)
  }

  /** `until(condition, timeout, polling)`: exactly the given durations; the
      configuration is not consulted. */
  function UntilWaitWith(timeout: Duration, polling: Duration, hasDriver: bool): (r: Result<Wait>)
    ensures r.Ok? <==> hasDriver
    ensures r.Ok? ==> r.value.timeout == timeout && r.value.polling == polling
    ensures r.Ok? ==> r.value.ignored == {NoSuchElement, StaleElementReference}
  {
    if hasDriver then Ok(NewFluentWait(timeout, polling)) else Err(NotInitialized)
  }

  /** With no wait keys configured, the one-argument `until` is the
      three-argument one at 20 s and 500 ms. */
  lemma UntilDefaults(c: Config.Layers, hasDriver: bool)
    requires !Config.ContainsKey(c, KeyExplicitWait) && !Config.ContainsKey(c, KeyPollingInterval)
    ensures UntilWait(c, hasDriver) == UntilWaitWith(Millis(20_000), Millis(500), hasDriver)
  {
  }

  // --------------------------------------------------- page-load and jQuery

  /** What `executeScript` hands back (or throws). */
  datatype ScriptResult = Text(s: string) | Number(n: int) | Null | ScriptThrows(failure: Failure)

  /** The `forPageLoad` condition `executeScript("return document.readyState")
      .equals("complete")`: a null result throws a NullPointerException. */
  function PageLoadPoll(readyState: ScriptResult): (p: Poll)
    ensures p == Holds <==> readyState == Text("complete")
    ensures p.Throws? <==> readyState.Null? || readyState.ScriptThrows?
  {
    match readyState
    case Text(s) => if s == "complete" then Holds else NotYet
    case Number(_) => NotYet
    case Null => Throws(ScriptNullPointer)
    case ScriptThrows(f) => Throws(f)
  }

  /** The jQuery condition `(Long) executeScript("return jQuery.active") == 0`,
      true whenever the script, the cast or the unboxing throws. */
  function JQueryPoll(active: ScriptResult): (p: Poll)
    ensures p != Holds <==> active.Number? && active.n != 0
    ensures !p.Throws?
  {
    match active
    case Number(n) => if n == 0 then Holds else NotYet
    case _ => Holds
  }

  function PollsOf(results: seq<ScriptResult>, f: ScriptResult -> Poll): (polls: seq<Poll>)
    ensures |polls| == |results|
    ensures forall i :: 0 <= i < |results| ==> polls[i] == f(results[i])
  {
    seq(|results|, i requires 0 <= i < |results| => f(results[i]))
  }

  /** `forPageLoad`: one explicit wait for readyState "complete". */
  function ForPageLoad(c: Config.Layers, hasDriver: bool, readyStates: seq<ScriptResult>): (r: Result<WaitEnd>)
    ensures r.Ok? <==> ExplicitWaitDuration(c).Ok? && hasDriver
    ensures r.Ok? ==> (r.value == Satisfied <==>
      exists k :: 0 <= k < |readyStates| && readyStates[k] == Text("complete") &&
        forall j :: 0 <= j < k ==>
          PageLoadPoll(readyStates[j]) == NotYet ||
          readyStates[j] == ScriptThrows(NoSuchElement) || readyStates[j] == ScriptThrows(OtherNotFound))
  {
    match ExplicitWaitDuration(c)
    case Err(e) => Err(e)
    case Ok(timeout) =>
      if !hasDriver then Err(NotInitialized)
      else
        var w := NewExplicitWait(timeout);
        var polls := PollsOf(readyStates, PageLoadPoll);
        UntilSatisfiedIff(w, polls);
        PageLoadIgnoredOnlyWhenNotFound(readyStates, polls);
        Ok(Until(w, polls))
  }

  lemma PageLoadIgnoredOnlyWhenNotFound(readyStates: seq<ScriptResult>, polls: seq<Poll>)
    requires polls == PollsOf(readyStates, PageLoadPoll)
    ensures forall j :: 0 <= j < |polls| ==>
      ((polls[j] == NotYet || (polls[j].Throws? && polls[j].failure in {NoSuchElement, OtherNotFound})) <==>
       (PageLoadPoll(readyStates[j]) == NotYet ||
        readyStates[j] == ScriptThrows(NoSuchElement) || readyStates[j] == ScriptThrows(OtherNotFound)))
    ensures forall j :: 0 <= j < |polls| ==> (polls[j] == Holds <==> readyStates[j] == Text("complete"))
  {
  }

  /** `forJSandJQuery`: two separate waits on the same explicit wait, the
      jQuery one first. The readyState wait starts only once the jQuery wait
      is satisfied, and it has its own full timeout. */
  function ForJSandJQuery(c: Config.Layers, hasDriver: bool, jqueryActive: seq<ScriptResult>, readyStates: seq<ScriptResult>): (r: Result<WaitEnd>)
    ensures r.Ok? <==> ExplicitWaitDuration(c).Ok? && hasDriver
    ensures r.Ok? ==>
      var w := NewExplicitWait(ExplicitWaitDuration(c).value);
      var first := Until(w, PollsOf(jqueryActive, JQueryPoll));
      (first != Satisfied ==> r.value == first) &&
      (first == Satisfied ==> r.value == Until(w, PollsOf(readyStates, PageLoadPoll)))
  {
    match ExplicitWaitDuration(c)
    case Err(e) => Err(e)
    case Ok(timeout) =>
      if !hasDriver then Err(NotInitialized)
      else
        var w := NewExplicitWait(timeout);
        var first := Until(w, PollsOf(jqueryActive, JQueryPoll));
        if first != Satisfied then Ok(first)
        else Ok(Until(w, PollsOf(readyStates, PageLoadPoll)))
  }

  /** The jQuery wait never raises; it is satisfied by the first poll whose
      answer is not a non-zero count, and it times out only when every poll
      reports pending requests. */
  lemma {:induction false} JQueryWaitNeverRaises(w: Wait, active: seq<ScriptResult>)
    ensures !Until(w, PollsOf(active, JQueryPoll)).Raised?
    ensures Until(w, PollsOf(active, JQueryPoll)) == TimedOut <==>
      forall i :: 0 <= i < |active| ==> active[i].Number? && active[i].n != 0
  {
    if active != [] {
      assert PollsOf(active, JQueryPoll)[1..] == PollsOf(active[1..], JQueryPoll);
      JQueryWaitNeverRaises(w, active[1..]);
      if JQueryPoll(active[0]) == NotYet {
        assert forall i :: 1 <= i < |active| ==> active[i] == active[1..][i - 1];
      }
    }
  }

  /** Readiness is not one gated check: a page that is complete while jQuery
      stays busy still times out, and the readyState answers are never
      looked at. */
  lemma BusyJQueryHidesLoadedPage(c: Config.Layers, readyStates: seq<ScriptResult>)
    requires ExplicitWaitDuration(c).Ok?
    ensures ForJSandJQuery(c, true, [Number(1), Number(1)], readyStates) == Ok(TimedOut)
  {
    var w := NewExplicitWait(ExplicitWaitDuration(c).value);
    var polls := PollsOf([Number(1), Number(1)], JQueryPoll);
    assert polls == [NotYet, NotYet];
    assert Until(w, polls[1..][1..]) == TimedOut;
    assert Until(w, polls[1..]) == TimedOut;
    assert Until(w, polls) == TimedOut;
  }
}
