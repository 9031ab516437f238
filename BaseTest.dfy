/** BaseTest: the TestNG hooks around every test class, as a state machine
    over the driver registry. `setUpClass` starts and caches a browser,
    `setUpTest` opens the base URL, `tearDownMethod` gathers evidence for a
    failed test, and `tearDownClass` quits the browser. What the hooks log
    is not modelled; what they attach to the report is. */
module Lifecycle {
  import opened Common
  import Config
  import Drivers

  const DefaultBrowser := "chrome"
  const KeyBaseUrl := "baseUrl"
  const SetupFailed := "Test setup failed"

  /** `ITestResult` status codes. */
  const Success := 1
  const Failure := 2
  const Skip := 3

  const LastScreenshotTitle := "Last Screenshot"
  const LogFileTitle := "Complete Log File"

  /** What the hooks add to the report: a parameter or an attachment. */
  datatype Entry = Parameter(name: string, value: string) | Attachment(title: string, content: Bytes)

  /** The attachments `tearDownMethod` adds for a failed test, in order: the
      registry's screenshot, the report manager's screenshot, the log file. */
  function FailureEvidence(testName: string, lastShot: Bytes, namedShot: Bytes, logFile: Bytes): (es: seq<Entry>)
    ensures |es| == 3 && forall i :: 0 <= i < 3 ==> es[i].Attachment?
    ensures es[0].title == LastScreenshotTitle && es[0].content == lastShot
    ensures es[1].title == "Screenshot - " + testName && es[1].content == namedShot
    ensures es[2].title == LogFileTitle && es[2].content == logFile
  {
    [Attachment(LastScreenshotTitle, lastShot), Attachment("Screenshot - " + testName, namedShot), Attachment(LogFileTitle, logFile)]
  }

  class BaseTest {
    /** the `driver` field: the browser cached by `setUpClass` */
    var driver: Drivers.Browser?
    /** the registry `DriverManager` keeps, shared by every test class */
    const registry: Drivers.DriverManager
    /** the thread the hooks of this instance run on */
    const worker: Drivers.Worker
    /** the report entries this instance has added, oldest first */
    var report: seq<Entry>

    constructor (registry: Drivers.DriverManager, worker: Drivers.Worker)
      ensures this.registry == registry && this.worker == worker
      ensures driver == null && report == []
    {
      this.registry := registry;
      this.worker := worker;
      driver := null;
      report := [];
    }

    /** `setUpClass(@Optional("chrome") browser)`. The parameter is only
        reported: `initDriver` reads the configured browser. Any failure is
        raised again as "Test setup failed" with the failure as its cause. */
    method SetUpClass(browser: Option<string>, c: Config.Layers, host: Drivers.Host) returns (r: Outcome)
      requires registry.Valid()
      modifies this, registry
      ensures registry.Valid()
      ensures match Drivers.PlanInit(c, host)
        case Register(request) =>
          && r == Pass && driver != null && fresh(driver)
          && registry.slots == old(registry.slots)[worker := driver]
          && driver.request == request && driver.open && driver.location == None
          && report == old(report) + [Parameter("Browser", browser.GetOr(DefaultBrowser))]
        case Refuse(e) =>
          && r == Fail(Framework(SetupFailed, Some(e)))
          && driver == old(driver) && report == old(report) && registry.slots == old(registry.slots)
        case Abandon(_, e) =>
          && r == Fail(Framework(SetupFailed, Some(e)))
          && driver == old(driver) && report == old(report) && registry.slots == old(registry.slots)
      ensures r.Pass? ==> worker in registry.slots && driver == registry.slots[worker]
    {
      var name := browser.GetOr(DefaultBrowser);
      // try {
      var init, started := registry.InitDriver(worker, c, host);
      if init.Fail? {
        return Fail(Framework(SetupFailed, Some(init.error)));
      }
      var cached := registry.GetDriver(worker);
      if cached.Err? {
        assert false;
        return Fail(Framework(SetupFailed, Some(NotInitialized)));
      }
      driver := cached.value;
      report := report + [Parameter("Browser", name)];
      r := Pass;
      // } catch (Exception e) { throw new FrameworkException("Test setup failed", e); }
    }

    /** `setUpTest`: the base URL is read first, so a missing `baseUrl`
        fails before the browser is touched; then the cached browser opens
        it. A class whose setup failed has no browser (NullPointerException);
        a quit browser or a failing page load raises a WebDriverException. */
    method SetUpTest(c: Config.Layers, loads: bool) returns (r: Outcome)
      modifies if driver != null then {driver} else {}
      ensures Config.Get(c, KeyBaseUrl).Err? ==> r == Fail(Config.Get(c, KeyBaseUrl).error)
      ensures Config.Get(c, KeyBaseUrl).Ok? && driver == null ==> r == Fail(NullPointer)
      ensures Config.Get(c, KeyBaseUrl).Ok? && driver != null ==>
        if old(driver.open) && loads then
          r == Pass && driver.location == Some(Config.Get(c, KeyBaseUrl).value)
        else
          r == Fail(WebDriverFailure) && driver.location == old(driver.location)
      ensures driver != null ==> driver.open == old(driver.open)
    {
      var baseUrl := Config.Get(c, KeyBaseUrl);
      if baseUrl.Err? {
        return Fail(baseUrl.error);
      }
      if driver == null {
        return Fail(NullPointer);
      }
      if !driver.open || !loads {
        return Fail(WebDriverFailure);
      }
      driver.location := Some(baseUrl.value);
      r := Pass;
    }

    /** `tearDownMethod`: nothing unless the test FAILED; then the two
        screenshots and the log file are attached, in that order (`lastShot`,
        `namedShot` and `logFile` are what the screenshot calls and the log
        file read return, `None` when they throw). It never raises. */
    method TearDownMethod(status: int, testName: string, lastShot: Option<Bytes>, namedShot: Option<Bytes>, logFile: Option<Bytes>)
      modifies this
      ensures driver == old(driver)
      ensures status != Failure ==> report == old(report)
      ensures status == Failure ==>
        var has := worker in registry.slots;
        report == old(report) + FailureEvidence(testName,
          if has && lastShot.Some? then lastShot.value else [],
          if has && namedShot.Some? then namedShot.value else [],
          logFile.GetOr([]))
    {
      if status == Failure {
        var last := registry.CaptureScreenshot(worker, lastShot);
        var named := registry.CaptureScreenshot(worker, namedShot);
        var log := logFile.GetOr([]);
        report := report + FailureEvidence(testName, last, named, log);
      }
    }

    /** `tearDownClass`: quits the worker's browser and empties its slot; a
        failing quit is logged and swallowed. The cached `driver` field is
        left pointing at the quit browser. */
    method TearDownClass(quitFails: bool)
      requires registry.Valid()
      modifies registry, if worker in registry.slots then {registry.slots[worker]} else {}
      ensures registry.Valid()
      ensures registry.slots == old(registry.slots) - {worker}
      ensures worker in old(registry.slots) ==> old(registry.slots)[worker].open == (old(registry.slots[worker].open) && quitFails)
    {
      registry.QuitDriver(worker, quitFails);
    }
  }

  /** One test class on one worker: setup, a test that fails, teardown. The
      evidence is attached, the slot is emptied, and the cached browser is
      closed, so opening the base URL again fails. */
  method FailedTestLifecycle(registry: Drivers.DriverManager, worker: Drivers.Worker, c: Config.Layers,
                             host: Drivers.Host, shot: Bytes, log: Bytes)
    requires registry.Valid() && Drivers.PlanInit(c, host).Register? && Config.Get(c, KeyBaseUrl).Ok?
    modifies registry
    ensures registry.Valid() && worker !in registry.slots
  {
    var t := new BaseTest(registry, worker);
    var setup := t.SetUpClass(None, c, host);
    assert setup == Pass && t.report == [Parameter("Browser", "chrome")];
    var b := t.driver;
    var nav := t.SetUpTest(c, true);
    assert nav == Pass && b.location == Some(Config.Get(c, KeyBaseUrl).value);
    var again := FailThenTearDown(t, c, "checkout", shot, log);
    assert |t.report| == 4 && t.report[3] == Attachment(LogFileTitle, log);
    assert !b.open && again == Fail(WebDriverFailure);
  }

  /** A test that fails on a class whose browser is registered and open: the
      evidence is attached, `tearDownClass` empties the slot, and the cached
      browser, now closed, can no longer open the base URL. */
  method FailThenTearDown(t: BaseTest, c: Config.Layers, testName: string, shot: Bytes, log: Bytes)
    returns (again: Outcome)
    requires t.registry.Valid() && t.driver != null && t.driver.open
    requires t.worker in t.registry.slots && t.registry.slots[t.worker] == t.driver
    requires Config.Get(c, KeyBaseUrl).Ok?
    modifies t, t.registry, t.driver
    ensures t.registry.Valid() && t.worker !in t.registry.slots
    ensures t.driver == old(t.driver) && !t.driver.open
    ensures t.report == old(t.report) + FailureEvidence(testName, shot, shot, log)
    ensures again == Fail(WebDriverFailure)
  {
    t.TearDownMethod(Failure, testName, Some(shot), Some(shot), Some(log));
    t.TearDownClass(false);
    again := t.SetUpTest(c, true);
  }
}
