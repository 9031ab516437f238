/** DriverManager: the per-thread WebDriver slot, modelled as a map from an
    explicit worker id to the browser registered for it. Threads are not
    modelled; every operation names the worker it runs on. Browser launch,
    implicit-wait setup, window maximising, quitting and screenshots are
    Selenium calls: their success or failure is an input of the model. */
module Drivers {
  import opened Common
  import opened JavaStrings
  import Config

  type Worker = nat

  const KeyBrowser := "browser"
  const KeyGridUrl := "seleniumGrid.url"
  const KeyImplicitWait := "implicit.wait"

  const RemoteInitFailed := "Failed to initialize RemoteWebDriver"
  const InitFailed := "WebDriver initialization failed"

  datatype BrowserKind = Chrome | Firefox

  /** A local driver process, or a RemoteWebDriver session on a Selenium Grid. */
  datatype Target = Local | Remote(gridUrl: string)

  /** Which driver constructor `initDriver` calls. */
  datatype LaunchRequest = LaunchRequest(kind: BrowserKind, target: Target)

  /** A browser session; its identity is the object's identity. */
  class Browser {
    const request: LaunchRequest
    /** false once `quit()` has returned normally */
    var open: bool
    /** the URL last navigated to */
    var location: Option<string>

    constructor (request: LaunchRequest)
      ensures this.request == request && open && location == None
    {
      this.request := request;
      open := true;
      location := None;
    }
  }

  /** How the Selenium calls inside `initDriver`'s try block turn out. */
  datatype Host = Host(
    /** `new URL(gridUrl)` does not throw MalformedURLException */
    acceptsUrl: bool,
    /** the driver constructor returns a session */
    launches: bool,
    /** `implicitlyWait` and `window().maximize()` return normally */
    configures: bool)

  /** The `switch` on the lower-cased browser name: "firefox" chooses Firefox,
      every other name falls through to Chrome. */
  function SelectBrowser(browser: string): (kind: BrowserKind)
    ensures kind == Firefox <==> browser == "firefox"
  {
    match browser
    case "firefox" => Firefox
    case _ => Chrome
  }

  /** `gridUrl != null && !gridUrl.isEmpty()` chooses a remote session. */
  function SelectTarget(gridUrl: string): (t: Target)
    ensures t.Remote? <==> gridUrl != ""
    ensures t.Remote? ==> t.gridUrl == gridUrl
  {
    if gridUrl != "" then Remote(gridUrl) else Local
  }

  /** What one call of `initDriver` does. */
  datatype InitPlan =
    /** raise `error`; nothing was launched */
    | Refuse(error: Error)
    /** `request` was launched, then setup raised `error`: the browser is
        neither registered nor quit */
    | Abandon(request: LaunchRequest, error: Error)
    /** launch `request` and register it in the worker's slot */
    | Register(request: LaunchRequest)

  /** The specification of `initDriver`: the two configuration reads happen
      outside the try block, so their failures leave unwrapped; every later
      failure becomes a FrameworkException. */
  function PlanInit(c: Config.Layers, host: Host): (p: InitPlan)
    ensures Config.Get(c, KeyBrowser).Err? ==> p == Refuse(MissingConfigKey(KeyBrowser))
    ensures Config.Get(c, KeyBrowser).Ok? && Config.GetProperty(c, KeyGridUrl).Err? ==>
      p == Refuse(MissingConfigKey(KeyGridUrl))
    ensures p.Register? <==>
      && Config.Get(c, KeyBrowser).Ok? && Config.GetProperty(c, KeyGridUrl).Ok?
      && host.acceptsUrl && host.launches && Config.GetLong(c, KeyImplicitWait).Ok? && host.configures
    ensures Config.Get(c, KeyBrowser).Ok? && Config.GetProperty(c, KeyGridUrl).Ok? && !p.Register? ==>
      p.error.Framework?
  {
    match Config.Get(c, KeyBrowser)
    case Err(e) => Refuse(e)
    case Ok(name) =>
      var browser := ToLowerCase(name);
      match Config.GetProperty(c, KeyGridUrl)
      case Err(e) => Refuse(e)
      case Ok(gridUrl) =>
        var request := LaunchRequest(SelectBrowser(browser), SelectTarget(gridUrl));
        PlanAfterReads(request, Config.GetLong(c, KeyImplicitWait), host)
  }

  /** The try block of `initDriver`, once the browser name and grid URL are read. */
  function PlanAfterReads(request: LaunchRequest, implicitWait: Result<int>, host: Host): (p: InitPlan)
    ensures p.Register? <==> (request.target.Local? || host.acceptsUrl) && host.launches && implicitWait.Ok? && host.configures
    ensures !p.Register? ==> p.error.Framework?
    ensures p.Register? || p.Abandon? ==> p.request == request
    ensures p.Refuse? <==> (request.target.Remote? && !host.acceptsUrl) || !host.launches
    ensures p.Abandon? <==> (request.target.Local? || host.acceptsUrl) && host.launches &&
                            (implicitWait.Err? || !host.configures)
    ensures !p.Register? ==>
      p.error.message == (if request.target.Remote? && !host.acceptsUrl then RemoteInitFailed else InitFailed)
    ensures p.Abandon? && implicitWait.Err? ==> p.error.cause == Some(implicitWait.error)
  {
    if request.target.Remote? && !host.acceptsUrl then
      Refuse(Framework(RemoteInitFailed, Some(MalformedUrl)))
    else if !host.launches then
      Refuse(Framework(InitFailed, Some(WebDriverFailure)))
    else
      match implicitWait
      case Err(e) => Abandon(request, Framework(InitFailed, Some(e)))
      case Ok(_) =>
        if host.configures then Register(request)
        else Abandon(request, Framework(InitFailed, Some(WebDriverFailure)))
  }

  /** Once both reads succeed, `initDriver` is its try block. */
  lemma PlanInitAfterReads(c: Config.Layers, host: Host)
    requires Config.Get(c, KeyBrowser).Ok? && Config.GetProperty(c, KeyGridUrl).Ok?
    ensures PlanInit(c, host) == PlanAfterReads(
      LaunchRequest(SelectBrowser(ToLowerCase(Config.Get(c, KeyBrowser).value)),
                    SelectTarget(Config.GetProperty(c, KeyGridUrl).value)),
      Config.GetLong(c, KeyImplicitWait), host)
  {
  }

  /** The browser kind follows the configured name, ignoring case. */
  lemma BrowserChoice(c: Config.Layers, host: Host)
    requires PlanInit(c, host).Register? || PlanInit(c, host).Abandon?
    ensures Config.Get(c, KeyBrowser).Ok?
    ensures PlanInit(c, host).request.kind == Firefox <==>
      ToLowerCase(Config.Get(c, KeyBrowser).value) == "firefox"
  {
  }

  /** `getProperty` never returns an empty grid URL, so every session that
      `initDriver` launches is remote: the local branch cannot be reached. */
  lemma AlwaysRemote(c: Config.Layers, host: Host)
    requires PlanInit(c, host).Register? || PlanInit(c, host).Abandon?
    ensures PlanInit(c, host).request.target == Remote(Config.Get(c, KeyGridUrl).value)
  {
  }

  /** A malformed grid URL has its own message, and nothing is launched. */
  lemma MalformedUrlMessage(c: Config.Layers, host: Host)
    requires Config.Get(c, KeyBrowser).Ok? && Config.Get(c, KeyGridUrl).Ok?
    requires !host.acceptsUrl
    ensures PlanInit(c, host) == Refuse(Framework(RemoteInitFailed, Some(MalformedUrl)))
  {
  }

  class DriverManager {
    /** the ThreadLocal DRIVER: the browser registered for each worker */
    var slots: map<Worker, Browser>
    /** every browser this manager has launched */
    ghost var launched: set<Browser>

    /** No browser is registered for two workers. */
    ghost predicate Valid()
      reads this
    {
      && slots.Values <= launched
      && forall v, u :: v in slots && u in slots && v != u ==> slots[v] != slots[u]
    }

    constructor ()
      ensures Valid() && slots == map[] && launched == {}
    {
      slots := map[];
      launched := {};
    }

    /** `initDriver` for worker `w`, as `PlanInit` describes it. A browser
        already in the slot is overwritten without being quit. */
    method InitDriver(w: Worker, c: Config.Layers, host: Host) returns (r: Outcome, ghost started: Browser?)
      requires Valid()
      modifies this
      ensures Valid()
      ensures match PlanInit(c, host)
        case Refuse(e) =>
          r == Fail(e) && started == null && slots == old(slots) && launched == old(launched)
        case Abandon(request, e) =>
          && r == Fail(e) && started != null && fresh(started)
          && started.request == request && started.open
          && slots == old(slots) && launched == old(launched) + {started}
        case Register(request) =>
          && r == Pass && started != null && fresh(started)
          && started.request == request && started.open && started.location == None
          && slots == old(slots)[w := started] && launched == old(launched) + {started}
      ensures r.Pass? && w in old(slots) ==>
        old(slots)[w] !in slots.Values && old(slots)[w].open == old(slots[w].open)
    {
      started := null;
      var name := Config.Get(c, KeyBrowser);
      if name.Err? {
        assert PlanInit(c, host) == Refuse(name.error);
        return Fail(name.error), started;
      }
      var browser := ToLowerCase(name.value);
      var gridUrl := Config.GetProperty(c, KeyGridUrl);
      if gridUrl.Err? {
        assert PlanInit(c, host) == Refuse(gridUrl.error);
        return Fail(gridUrl.error), started;
      }
      // try {
      var request := LaunchRequest(SelectBrowser(browser), SelectTarget(gridUrl.value));
      PlanInitAfterReads(c, host);
      r, started := Launch(w, request, Config.GetLong(c, KeyImplicitWait), host);
    }

    /** The try block of `initDriver`, as `PlanAfterReads` describes it. */
    method Launch(w: Worker, request: LaunchRequest, implicitWait: Result<int>, host: Host)
      returns (r: Outcome, ghost started: Browser?)
      requires Valid()
      modifies this
      ensures Valid()
      ensures match PlanAfterReads(request, implicitWait, host)
        case Refuse(e) =>
          r == Fail(e) && started == null && slots == old(slots) && launched == old(launched)
        case Abandon(request, e) =>
          && r == Fail(e) && started != null && fresh(started)
          && started.request == request && started.open
          && slots == old(slots) && launched == old(launched) + {started}
        case Register(request) =>
          && r == Pass && started != null && fresh(started)
          && started.request == request && started.open && started.location == None
          && slots == old(slots)[w := started] && launched == old(launched) + {started}
      ensures r.Pass? && w in old(slots) ==>
        old(slots)[w] !in slots.Values && old(slots)[w].open == old(slots[w].open)
    {
      started := null;
      if request.target.Remote? && !host.acceptsUrl {
        return Fail(Framework(RemoteInitFailed, Some(MalformedUrl))), started;
      }
      if !host.launches {
        return Fail(Framework(InitFailed, Some(WebDriverFailure))), started;
      }
      var driver := new Browser(request);
      started := driver;
      launched := launched + {driver};
      if implicitWait.Err? {
        return Fail(Framework(InitFailed, Some(implicitWait.error))), started;
      }
      if !host.configures {
        return Fail(Framework(InitFailed, Some(WebDriverFailure))), started;
      }
      slots := slots[w := driver];
      r := Pass;
      // } catch ...
    }

    /** `getDriver`: the browser in the worker's slot, or IllegalStateException. */
    method GetDriver(w: Worker) returns (r: Result<Browser>)
      ensures w in slots ==> r == Ok(slots[w])
      ensures w !in slots ==> r == Err(NotInitialized)
    {
      if w in slots {
        r := Ok(slots[w]);
      } else {
        r := Err(NotInitialized);
      }
    }

    /** `quitDriver`: on an empty slot nothing happens; otherwise the browser is
        asked to quit (`quitFails` says whether quit() throws) and the slot is
        emptied either way. It never raises, so a second call is a no-op. */
    method QuitDriver(w: Worker, quitFails: bool)
      requires Valid()
      modifies this, if w in slots then {slots[w]} else {}
      ensures Valid()
      ensures slots == old(slots) - {w} && launched == old(launched)
      ensures w in old(slots) ==>
        && old(slots)[w].open == (old(slots[w].open) && quitFails)
        && old(slots)[w].location == old(slots[w].location)
    {
      if w in slots {
        var driver := slots[w];
        if !quitFails {
          driver.open := false;
        }
        slots := slots - {w};
      }
    }

    /** `captureScreenshot`: the screenshot of the worker's browser, or no bytes
        when no browser is registered or `getScreenshotAs` throws (`shot` is
        `None`). It never raises. */
    method CaptureScreenshot(w: Worker, shot: Option<Bytes>) returns (bytes: Bytes)
      ensures w in slots && shot.Some? ==> bytes == shot.value
      ensures w !in slots || shot.None? ==> bytes == []
    {
      var driver := GetDriver(w);
      if driver.Err? || shot.None? {
        return [];
      }
      bytes := shot.value;
    }
  }

  /** A second `initDriver` on the same worker replaces the first browser,
      which stays open with no slot holding it; quitting twice is harmless. */
  method ReinitThenQuitTwice(m: DriverManager, w: Worker, c: Config.Layers, host: Host)
    requires m.Valid() && PlanInit(c, host).Register?
    modifies m
    ensures m.Valid() && w !in m.slots
  {
    var r1, first := m.InitDriver(w, c, host);
    var r2, second := m.InitDriver(w, c, host);
    assert first.open && first != second && first !in m.slots.Values;
    m.QuitDriver(w, false);
    assert first.open && !second.open;
    m.QuitDriver(w, false);
  }
}
