/**
 * The shared-browser lifecycle of scraper.py: the module globals
 * `_PLAYWRIGHT`, `_BROWSER` and `_REQUEST_COUNT`, and the two coroutines that
 * update them, `get_browser` and `close_browser`.
 *
 * The `asyncio.Lock` makes the two bodies mutually exclusive, so each call is
 * one sequential step. Starting Playwright, launching Firefox and closing or
 * stopping a handle are foreign calls: their outcomes are inputs (`Calls`), a
 * handle is an opaque number, and every such call is recorded as an `Event`.
 *
 * `GetBrowserStep` and `CloseBrowserStep` state one call on values; the class
 * `Supervisor` updates its fields in place and is proved to follow them.
 */
module Lifecycle {
  import opened PyText

  /** `_MAX_REQUESTS_PER_BROWSER`. */
  const MaxRequestsPerBrowser: nat := 100

  type PlaywrightId = nat
  type BrowserId = nat

  /** The three module globals; None stands for Python's None. */
  datatype Globals = Globals(playwright: Option<PlaywrightId>, browser: Option<BrowserId>, requestCount: nat)

  /** The globals as the module initialises them. */
  const Startup := Globals(None, None, 0)

  /**
   * What the foreign calls of one `get_browser` do: whether `_BROWSER.close()`
   * raises, and the handle `async_playwright().start()` and `firefox.launch()`
   * return (None where the call raises). A call that is not made is ignored.
   */
  datatype Calls = Calls(closeRaises: bool, start: Option<PlaywrightId>, launch: Option<BrowserId>)

  predicate NoneRaise(c: Calls) {
    !c.closeRaises && c.start.Some? && c.launch.Some?
  }

  /** A foreign call made on the engine: one that returned a handle, or a close/stop request. */
  datatype Event =
    | PlaywrightStarted(p: PlaywrightId)
    | BrowserLaunched(b: BrowserId)
    | BrowserCloseCalled(b: BrowserId)
    | PlaywrightStopCalled(p: PlaywrightId)

  /**
   * One call of `get_browser`: the globals afterwards, the browser returned
   * (None where the call raised) and the foreign calls made, in order.
   */
  datatype Acquire = Acquire(after: Globals, returned: Option<BrowserId>, events: seq<Event>)

  /** The recycle condition tested first by `get_browser`. */
  predicate Recycles(g: Globals) {
    g.browser.Some? && g.requestCount >= MaxRequestsPerBrowser
  }

  /** `get_browser` on the globals `g`. */
  function GetBrowserStep(g: Globals, c: Calls): Acquire {
    if Recycles(g) && c.closeRaises then
      Acquire(g, None, [BrowserCloseCalled(g.browser.value)])
    else
      var g1 := if Recycles(g) then g.(browser := None, requestCount := 0) else g;
      var ev1 := if Recycles(g) then [BrowserCloseCalled(g.browser.value)] else [];
      if g1.browser.Some? then
        Acquire(g1.(requestCount := g1.requestCount + 1), g1.browser, ev1)
      else if c.start.None? then
        Acquire(g1, None, ev1)
      else
        var g2 := g1.(playwright := c.start);
        var ev2 := ev1 + [PlaywrightStarted(c.start.value)];
        if c.launch.None? then
          Acquire(g2, None, ev2)
        else
          Acquire(g2.(browser := c.launch, requestCount := g2.requestCount + 1), c.launch,
                  ev2 + [BrowserLaunched(c.launch.value)])
  }

  /**
   * `close_browser` on the globals `g`. Errors raised by `close()` and `stop()`
   * are swallowed, so they have no effect. `_REQUEST_COUNT` is not among the
   * globals it declares, and stays as it is.
   */
  function CloseBrowserStep(g: Globals): Globals {
    Globals(None, None, g.requestCount)
  }

  /** The foreign calls `close_browser` makes on `g`. */
  function CloseBrowserEvents(g: Globals): seq<Event> {
    (if g.browser.Some? then [BrowserCloseCalled(g.browser.value)] else [])
    + (if g.playwright.Some? then [PlaywrightStopCalled(g.playwright.value)] else [])
  }

  /** The owner of the three globals. */
  class Supervisor {
    var playwright: Option<PlaywrightId>
    var browser: Option<BrowserId>
    var requestCount: nat
    /** Every foreign call made so far. */
    ghost var events: seq<Event>

    function Current(): Globals
      reads this
    {
      Globals(playwright, browser, requestCount)
    }

    constructor ()
      ensures Current() == Startup && events == []
    {
      playwright, browser, requestCount := None, None, 0;
      events := [];
    }

    /** `get_browser`: `b` is the browser returned, None where the call raised. */
    method GetBrowser(c: Calls) returns (b: Option<BrowserId>)
      modifies this
      ensures var a := GetBrowserStep(old(Current()), c);
        Current() == a.after && b == a.returned && events == old(events) + a.events
    {
      if browser.Some? && requestCount >= MaxRequestsPerBrowser {
        events := events + [BrowserCloseCalled(browser.value)];
        if c.closeRaises {
          return None;
        }
        browser := None;
        requestCount := 0;
      }
      if browser.None? {
        if c.start.None? {
          return None;
        }
        playwright := c.start;
        events := events + [PlaywrightStarted(c.start.value)];
        if c.launch.None? {
          return None;
        }
        browser := c.launch;
        events := events + [BrowserLaunched(c.launch.value)];
      }
      requestCount := requestCount + 1;
      b := browser;
    }

    /**
     * `close_browser`. Whether `close()` (`closeRaises`) or `stop()`
     * (`stopRaises`) raises makes no difference: the error is ignored and the
     * handle dropped.
     */
    method CloseBrowser(closeRaises: bool, stopRaises: bool)
      modifies this
      ensures Current() == CloseBrowserStep(old(Current()))
      ensures events == old(events) + CloseBrowserEvents(old(Current()))
    {
      if browser.Some? {
        events := events + [BrowserCloseCalled(browser.value)];
        browser := None;
      }
      if playwright.Some? {
        events := events + [PlaywrightStopCalled(playwright.value)];
        playwright := None;
      }
    }
  }

  // -----------------------------------------------------------------------
  // One call of get_browser
  // -----------------------------------------------------------------------

  /**
   * A call that returns leaves a browser held, returns that browser, and
   * counts one request more than the counter held after the recycle reset.
   */
  lemma GetBrowserCountsRequest(g: Globals, c: Calls)
    requires GetBrowserStep(g, c).returned.Some?
    ensures var a := GetBrowserStep(g, c);
      a.after.browser == a.returned
      && a.after.requestCount == (if Recycles(g) then 0 else g.requestCount) + 1
  {
  }

  /**
   * A call raises exactly when a foreign call it makes raises; it then counts
   * nothing, and leaves no browser held unless the recycling close raised, in
   * which case nothing changed at all.
   */
  lemma GetBrowserRaises(g: Globals, c: Calls)
    ensures var a := GetBrowserStep(g, c);
      a.returned.None? <==>
        if Recycles(g) then c.closeRaises || c.start.None? || c.launch.None?
        else g.browser.None? && (c.start.None? || c.launch.None?)
    ensures var a := GetBrowserStep(g, c);
      a.returned.None? ==>
        a.after.requestCount <= g.requestCount
        && (if Recycles(g) && c.closeRaises then a.after == g else a.after.browser.None?)
  {
  }

  /**
   * The recycle rule: with a browser held and the threshold reached, the old
   * browser is closed, a new Playwright handle and browser are started, and
   * the count is 1. The old Playwright handle is replaced without ever being
   * stopped.
   */
  lemma RecycleReplacesBrowser(g: Globals, c: Calls)
    requires Recycles(g) && NoneRaise(c)
    ensures var a := GetBrowserStep(g, c);
      && a.returned == c.launch
      && a.after == Globals(c.start, c.launch, 1)
      && a.events == [BrowserCloseCalled(g.browser.value), PlaywrightStarted(c.start.value), BrowserLaunched(c.launch.value)]
      && (forall p :: PlaywrightStopCalled(p) !in a.events)
  {
  }

  /** Below the threshold the held browser is reused: one more request, no foreign call. */
  lemma ReuseBelowThreshold(g: Globals, c: Calls)
    requires g.browser.Some? && g.requestCount < MaxRequestsPerBrowser
    ensures GetBrowserStep(g, c) == Acquire(g.(requestCount := g.requestCount + 1), g.browser, [])
  {
  }

  /**
   * With no browser held the counter is never reset, however high it is,
   * although a new Playwright handle and browser are started.
   */
  lemma NoBrowserNoReset(g: Globals, c: Calls)
    requires g.browser.None? && c.start.Some? && c.launch.Some?
    ensures var a := GetBrowserStep(g, c);
      a.after == Globals(c.start, c.launch, g.requestCount + 1)
      && a.events == [PlaywrightStarted(c.start.value), BrowserLaunched(c.launch.value)]
  {
  }

  // -----------------------------------------------------------------------
  // Runs of get_browser only
  // -----------------------------------------------------------------------

  /** The globals after a run of `get_browser` calls. */
  function RunGets(g: Globals, cs: seq<Calls>): Globals
    decreases |cs|
  {
    if cs == [] then g else RunGets(GetBrowserStep(g, cs[0]).after, cs[1..])
  }

  /**
   * What holds of the globals as long as only `get_browser` runs: the count
   * never exceeds the threshold, it is 0 while no browser is held, and it is
   * at least 1 while one is.
   */
  predicate GetsOnly(g: Globals) {
    && g.requestCount <= MaxRequestsPerBrowser
    && (g.browser.None? ==> g.requestCount == 0)
    && (g.browser.Some? ==> g.requestCount >= 1)
  }

  lemma GetBrowserKeepsGetsOnly(g: Globals, c: Calls)
    requires GetsOnly(g)
    ensures GetsOnly(GetBrowserStep(g, c).after)
  {
  }

  /**
   * From the initial globals, whatever the foreign calls do, `get_browser`
   * alone keeps the count within 0..100 (within 1..100 while a browser is held).
   */
  lemma {:induction false} GetsFromStartupStayBounded(cs: seq<Calls>)
    ensures GetsOnly(RunGets(Startup, cs))
  {
    GetsKeepGetsOnly(Startup, cs);
  }

  lemma {:induction false} GetsKeepGetsOnly(g: Globals, cs: seq<Calls>)
    requires GetsOnly(g)
    ensures GetsOnly(RunGets(g, cs))
    decreases |cs|
  {
    if cs != [] {
      GetBrowserKeepsGetsOnly(g, cs[0]);
      GetsKeepGetsOnly(GetBrowserStep(g, cs[0]).after, cs[1..]);
    }
  }

  /** Every call that returns, in a run from startup, returns with a count in 1..100. */
  lemma {:induction false} GetFromStartupReturnsWithinThreshold(cs: seq<Calls>, c: Calls)
    requires GetBrowserStep(RunGets(Startup, cs), c).returned.Some?
    ensures 1 <= GetBrowserStep(RunGets(Startup, cs), c).after.requestCount <= MaxRequestsPerBrowser
  {
    GetsFromStartupStayBounded(cs);
    GetBrowserKeepsGetsOnly(RunGets(Startup, cs), c);
  }

  // -----------------------------------------------------------------------
  // close_browser
  // -----------------------------------------------------------------------

  /** After `close_browser` neither handle is held, and the count is unchanged. */
  lemma CloseDropsHandles(g: Globals)
    ensures var h := CloseBrowserStep(g);
      h.browser.None? && h.playwright.None? && h.requestCount == g.requestCount
  {
  }

  /** `close_browser` is idempotent: a second call changes nothing and calls nothing. */
  lemma CloseIdempotent(g: Globals)
    ensures CloseBrowserStep(CloseBrowserStep(g)) == CloseBrowserStep(g)
    ensures CloseBrowserEvents(CloseBrowserStep(g)) == []
  {
  }

  /** With nothing open, `close_browser` changes nothing and calls nothing. */
  lemma CloseWithNothingOpen(g: Globals)
    requires g.browser.None? && g.playwright.None?
    ensures CloseBrowserStep(g) == g && CloseBrowserEvents(g) == []
  {
  }

  /**
   * Because `close_browser` keeps the count, a close at the threshold followed
   * by a `get_browser` reaches 101 requests on the new browser.
   */
  lemma CloseThenGetPassesThreshold(g: Globals, c: Calls)
    requires g.browser.Some? && g.requestCount == MaxRequestsPerBrowser && NoneRaise(c)
    ensures GetBrowserStep(CloseBrowserStep(g), c).after.requestCount == MaxRequestsPerBrowser + 1
  {
  }

  /** The globals after alternating `close_browser` and `get_browser`, once per element of `cs`. */
  function RunCloseGets(g: Globals, cs: seq<Calls>): Globals
    decreases |cs|
  {
    if cs == [] then g else RunCloseGets(GetBrowserStep(CloseBrowserStep(g), cs[0]).after, cs[1..])
  }

  /**
   * Alternating close and get never resets the count: each round adds one,
   * so the count has no upper bound once `close_browser` is used.
   */
  lemma {:induction false} CloseGetRoundsGrowCount(g: Globals, cs: seq<Calls>)
    requires forall i :: 0 <= i < |cs| ==> cs[i].start.Some? && cs[i].launch.Some?
    ensures RunCloseGets(g, cs).requestCount == g.requestCount + |cs|
    ensures cs != [] ==> RunCloseGets(g, cs).browser == cs[|cs| - 1].launch
    decreases |cs|
  {
    if cs != [] {
      var h := GetBrowserStep(CloseBrowserStep(g), cs[0]).after;
      assert h.requestCount == g.requestCount + 1;
      CloseGetRoundsGrowCount(h, cs[1..]);
      if |cs| > 1 {
        assert cs[1..][|cs[1..]| - 1] == cs[|cs| - 1];
      }
    }
  }
}
