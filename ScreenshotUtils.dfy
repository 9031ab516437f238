/** ScreenshotUtils: screenshot bytes for the report, and screenshots saved
    under a timestamped file name. The clock, the date formatter, the file
    system and the browser's screenshot call are outside the model: the
    formatted timestamp and the outcome of each effect are inputs. */
module Screenshots {
  import opened Common
  import opened JavaStrings
  import Config
  import Drivers

  const KeyScreenshotPath := "screenshot.path"
  const KeyTimestampPattern := "log.timestamp.pattern"
  const DefaultScreenshotDir := "screenshots"
  const DefaultTimestampPattern := "yyyyMMdd_HHmmss_SSS"
  const Extension := ".png"

  // ------------------------------------------------------------ file names

  /** A character of the regular-expression class `\s`. */
  predicate IsWhitespace(c: char) {
    c == ' ' || c == '\t' || c == '\n' || c == '\U{B}' || c == '\U{C}' || c == '\r'
  }

  predicate NoWhitespace(s: string) {
    forall i :: 0 <= i < |s| ==> !IsWhitespace(s[i])
  }

  /** The left-to-right scan of `replaceAll("\\s+", "_")`: `inRun` says
      that the character before `s` was whitespace already replaced. */
  function Replace(s: string, inRun: bool): string {
    if s == [] then []
    else if IsWhitespace(s[0]) then (if inRun then Replace(s[1..], true) else "_" + Replace(s[1..], true))
    else [s[0]] + Replace(s[1..], false)
  }

  /** `s.replaceAll("\\s+", "_")`: every maximal run of whitespace becomes
      one underscore. */
  function Collapse(s: string): string {
    Replace(s, false)
  }

  /** Whether the scan is inside a run after reading `a`. */
  function InRunAfter(a: string, inRun: bool): bool {
    if a == [] then inRun else IsWhitespace(a[|a| - 1])
  }

  /** What is left of the name holds no whitespace and is never longer. */
  lemma {:induction false} ReplaceHasNoWhitespace(s: string, inRun: bool)
    ensures NoWhitespace(Replace(s, inRun))
    ensures |Replace(s, inRun)| <= |s|
  {
    if s != [] {
      ReplaceHasNoWhitespace(s[1..], IsWhitespace(s[0]));
    }
  }

  lemma CollapseHasNoWhitespace(s: string)
    ensures NoWhitespace(Collapse(s)) && |Collapse(s)| <= |s|
  {
    ReplaceHasNoWhitespace(s, false);
  }

  /** A name without whitespace is kept as it is. */
  lemma {:induction false} CollapseKeepsPlainNames(s: string)
    ensures NoWhitespace(s) ==> Collapse(s) == s
  {
    if s != [] && NoWhitespace(s) {
      CollapseKeepsPlainNames(s[1..]);
    }
  }

  /** The scan is a homomorphism: after `a`, the rest is scanned in the
      state `a` left it in. */
  lemma {:induction false} ReplaceConcat(a: string, b: string, inRun: bool)
    ensures Replace(a + b, inRun) == Replace(a, inRun) + Replace(b, InRunAfter(a, inRun))
  {
    if a == [] {
      assert a + b == b;
    } else {
      assert (a + b)[0] == a[0] && (a + b)[1..] == a[1..] + b;
      ReplaceConcat(a[1..], b, IsWhitespace(a[0]));
      if a[1..] != [] {
        assert a[1..][|a[1..]| - 1] == a[|a| - 1];
      }
    }
  }

  /** Inside a run or not makes no difference ahead of a non-blank character. */
  lemma ReplaceAtWord(s: string)
    requires s == [] || !IsWhitespace(s[0])
    ensures Replace(s, true) == Replace(s, false)
  {
  }

  /** A run of whitespace, however long, ahead of a non-blank character
      leaves one underscore. */
  lemma {:induction false} CollapseRun(run: string, rest: string)
    requires run != [] && forall i :: 0 <= i < |run| ==> IsWhitespace(run[i])
    requires rest == [] || !IsWhitespace(rest[0])
    ensures Collapse(run + rest) == "_" + Collapse(rest)
  {
    ReplaceConcat(run, rest, false);
    RunReplacement(run);
    ReplaceAtWord(rest);
  }

  lemma {:induction false} RunReplacement(run: string)
    requires run != [] && forall i :: 0 <= i < |run| ==> IsWhitespace(run[i])
    ensures Replace(run, false) == "_" && Replace(run, true) == []
  {
    if |run| > 1 {
      RunReplacement(run[1..]);
    }
  }

  /** Cutting the name where no run is split, the pieces are collapsed
      independently. */
  lemma CollapseConcat(a: string, b: string)
    requires a == [] || b == [] || !IsWhitespace(a[|a| - 1]) || !IsWhitespace(b[0])
    ensures Collapse(a + b) == Collapse(a) + Collapse(b)
  {
    ReplaceConcat(a, b, false);
    if InRunAfter(a, false) {
      ReplaceAtWord(b);
    }
  }

  /** `String.format("%s_%s.png", collapsed name, timestamp)` */
  function FileName(name: string, timestamp: string): (f: string)
    ensures |f| == |Collapse(name)| + 1 + |timestamp| + |Extension|
    ensures f[..|Collapse(name)|] == Collapse(name) && NoWhitespace(f[..|Collapse(name)|])
    ensures NoWhitespace(name) ==> f == name + "_" + timestamp + Extension
    ensures f[|Collapse(name)|] == '_'
    ensures f[|Collapse(name)| + 1..|f| - |Extension|] == timestamp
    ensures f[|f| - |Extension|..] == Extension
  {
    CollapseHasNoWhitespace(name);
    CollapseKeepsPlainNames(name);
    var f := Collapse(name) + "_" + timestamp + Extension;
    assert f[..|Collapse(name)|] == Collapse(name);
    assert f[|Collapse(name)| + 1..|f| - |Extension|] == timestamp;
    assert f[|f| - |Extension|..] == Extension;
    f
  }

  // ------------------------------------------------------- configuration

  /** `SCREENSHOT_DIR`: `screenshot.path` when configured, else
      `screenshots`. A configured but blank value fails in `get`. */
  function ScreenshotDir(c: Config.Layers): (r: Result<string>)
    ensures !Config.ContainsKey(c, KeyScreenshotPath) ==> r == Ok(DefaultScreenshotDir)
    ensures Config.ContainsKey(c, KeyScreenshotPath) ==> r == Config.Get(c, KeyScreenshotPath)
    ensures r.Ok? ==> r.value != ""
  {
    if Config.ContainsKey(c, KeyScreenshotPath) then Config.Get(c, KeyScreenshotPath)
    else Ok(DefaultScreenshotDir)
  }

  /** The pattern `TIMESTAMP_FORMAT` is built from. */
  function TimestampPattern(c: Config.Layers): (r: Result<string>)
    ensures !Config.ContainsKey(c, KeyTimestampPattern) ==> r == Ok(DefaultTimestampPattern)
    ensures Config.ContainsKey(c, KeyTimestampPattern) ==> r == Config.Get(c, KeyTimestampPattern)
  {
    if Config.ContainsKey(c, KeyTimestampPattern) then Config.Get(c, KeyTimestampPattern)
    else Ok(DefaultTimestampPattern)
  }

  /** `Paths.get(dir, fileName).toString()` for a directory that is not
      empty: the two joined by one separator. */
  function OutputPath(dir: string, fileName: string): (p: string)
    requires dir != ""
    ensures |p| == |dir| + 1 + |fileName|
    ensures p[..|dir|] == dir && p[|dir|] == '/' && p[|dir| + 1..] == fileName
  {
    var p := dir + "/" + fileName;
    assert p[..|dir|] == dir && p[|dir| + 1..] == fileName;
    p
  }

  /** Two words around a whitespace run: the run becomes one `_`, so
      "login page" collapses to `login_page`. */
  lemma CollapseTwoWords(first: string, run: string, second: string)
    requires NoWhitespace(first) && NoWhitespace(second) && second != []
    requires run != [] && forall i :: 0 <= i < |run| ==> IsWhitespace(run[i])
    ensures Collapse(first + run + second) == first + "_" + second
  {
    assert first + run + second == first + (run + second);
    CollapseKeepsPlainNames(first);
    CollapseKeepsPlainNames(second);
    CollapseRun(run, second);
    CollapseConcat(first, run + second);
  }

  /** With nothing configured, a screenshot is saved under `screenshots/`. */
  lemma {:induction false} DefaultLocation(c: Config.Layers, fileName: string)
    requires !Config.ContainsKey(c, KeyScreenshotPath)
    ensures ScreenshotDir(c) == Ok("screenshots")
    ensures OutputPath(ScreenshotDir(c).value, fileName) == "screenshots/" + fileName
  {
    assert "screenshots" + "/" == "screenshots/";
  }

  /** The screenshot of a two-word page name such as "login page", taken at
      `t`, is named `login_page_t.png`. */
  lemma {:induction false} TwoWordFileName(first: string, run: string, second: string, t: string)
    requires NoWhitespace(first) && NoWhitespace(second) && second != []
    requires run != [] && forall i :: 0 <= i < |run| ==> IsWhitespace(run[i])
    ensures FileName(first + run + second, t) == first + "_" + second + "_" + t + Extension
  {
    CollapseTwoWords(first, run, second);
  }

  // -------------------------------------------------------------- capture

  /** `captureScreenshotToAllure`: the same capture as the registry's
      `captureScreenshot`, attached under the caller's name instead of
      "Last Screenshot"; the attachment title is not modelled. */
  method CaptureScreenshotToAllure(m: Drivers.DriverManager, w: Drivers.Worker, name: string, shot: Option<Bytes>)
    returns (bytes: Bytes)
    ensures w in m.slots && shot.Some? ==> bytes == shot.value
    ensures w !in m.slots || shot.None? ==> bytes == []
  {
    bytes := m.CaptureScreenshot(w, shot);
  }

  /** How the effects of `captureAndSaveScreenshot` turn out. */
  datatype Effects = Effects(
    /** `Files.createDirectories` returns normally */
    dirsCreated: bool,
    /** what `getScreenshotAs` returns (`None`: it throws) */
    shot: Option<Bytes>,
    /** `Files.write` returns normally */
    written: bool,
    /** what the second capture for the report returns */
    reportShot: Option<Bytes>)

  /** The outcome: the returned path (`None` is Java's `null`) or the
      exception that escapes, the file written, and the report attachment. */
  datatype Saved = Saved(result: Result<Option<string>>, file: Option<(string, Bytes)>, attached: Option<Bytes>)

  /** `captureAndSaveScreenshot`. Only an IOException is caught; a missing
      driver or a failing `getScreenshotAs` escapes. A blank configured
      directory or pattern fails the class initialiser before anything runs. */
  method CaptureAndSaveScreenshot(m: Drivers.DriverManager, w: Drivers.Worker, c: Config.Layers,
                                  name: string, timestamp: string, fx: Effects)
    returns (s: Saved)
    ensures ScreenshotDir(c).Err? ==> s == Saved(Err(ScreenshotDir(c).error), None, None)
    ensures ScreenshotDir(c).Ok? && TimestampPattern(c).Err? ==> s == Saved(Err(TimestampPattern(c).error), None, None)
    ensures ScreenshotDir(c).Ok? && TimestampPattern(c).Ok? ==>
      var path := OutputPath(ScreenshotDir(c).value, FileName(name, timestamp));
      && (!fx.dirsCreated ==> s == Saved(Ok(None), None, None))
      && (fx.dirsCreated && w !in m.slots ==> s == Saved(Err(NotInitialized), None, None))
      && (fx.dirsCreated && w in m.slots && fx.shot.None? ==> s == Saved(Err(WebDriverFailure), None, None))
      && (fx.dirsCreated && w in m.slots && fx.shot.Some? && !fx.written ==> s == Saved(Ok(None), None, None))
      && (fx.dirsCreated && w in m.slots && fx.shot.Some? && fx.written ==>
            s == Saved(Ok(Some(path)), Some((path, fx.shot.value)), Some(fx.reportShot.GetOr([]))))
    ensures s.result.Ok? && s.result.value.Some? ==> s.file.Some? && s.file.value.0 == s.result.value.value
  {
    var dir := ScreenshotDir(c);
    if dir.Err? {
      return Saved(Err(dir.error), None, None);
    }
    var pattern := TimestampPattern(c);
    if pattern.Err? {
      return Saved(Err(pattern.error), None, None);
    }
    var fileName := FileName(name, timestamp);
    var outputPath := OutputPath(dir.value, fileName);
    // try {
    if !fx.dirsCreated {
      return Saved(Ok(None), None, None);
    }
    var driver := m.GetDriver(w);
    if driver.Err? {
      return Saved(Err(driver.error), None, None);
    }
    if fx.shot.None? {
      return Saved(Err(WebDriverFailure), None, None);
    }
    if !fx.written {
      return Saved(Ok(None), None, None);
    }
    var attached := CaptureScreenshotToAllure(m, w, name, fx.reportShot);
    s := Saved(Ok(Some(outputPath)), Some((outputPath, fx.shot.value)), Some(attached));
    // } catch (IOException e) { return null; }
  }
}
