# eCommerce automation framework: a Dafny model of its core rules

This project models the deterministic core of a Selenium/TestNG test framework
written in Java. It covers:

- the two-layer configuration lookup (`ConfigReader`);
- the retry counter (`RetryAnalyzer`);
- the per-thread browser registry (`DriverManager`);
- the wait configuration and the page-load and jQuery conditions (`WaitUtils`);
- the class lifecycle hooks (`BaseTest`);
- sheet-to-records conversion (`ExcelUtils`);
- the Excel, JSON, database and CSV data providers (`DataProviders`);
- random strings, e-mail addresses and ranged integers (`RandomUtils`);
- screenshot naming and capture fallbacks (`ScreenshotUtils`).

Each Java class is one module:

| module | file | form |
|---|---|---|
| `Config` | `ConfigReader.dfy` | functions |
| `Retry` | `RetryAnalyzer.dfy` | class |
| `Drivers` | `DriverManager.dfy` | class |
| `Waits` | `WaitUtils.dfy` | functions |
| `Lifecycle` | `BaseTest.dfy` | class |
| `Excel` | `ExcelUtils.dfy` | functions plus a looping method |
| `DataProviders` | `DataProviders.dfy` | functions and looping methods |
| `RandomValues` | `RandomUtils.dfy` | a looping method, functions |
| `Screenshots` | `ScreenshotUtils.dfy` | functions and methods |

Two more modules hold the shared pieces. `Common` has the option and result
types and the Java exceptions the core raises. `JavaStrings` models the
`java.lang.String` and `Long` behaviour the code relies on: `trim`, ASCII
`toLowerCase`, `Long.parseLong`, `Long.toString` and `split(",")`.

Java exceptions become `Err`/`Fail` values. Each layer keeps the message and
the cause the source gives it.

The model keeps Java's semantics where it matters:

- `trim` removes every character up to U+0020.
- `split` drops trailing empty fields, but a line without a comma stays one field.
- `int` arithmetic wraps at 32 bits in the random range.
- `Long.parseLong` accepts the signed 64-bit range only, written with ASCII
  digits (other Unicode decimal digits are left out).

Selenium, POI, JDBC, the file system, the clock and `SecureRandom` are outside
the model. Their outcomes are inputs:

- a `Host` says whether a browser launches;
- an `Option<Bytes>` is a screenshot or a thrown exception;
- a parsed workbook or `None` stands for POI;
- the polls a wait observes;
- the indices `nextInt` returns.

The `ThreadLocal` registry is a map keyed by an explicit worker id.

Four behaviours of the code are easy to overlook:

- **Retry state.** The retry counter belongs to the analyzer instance and
  never resets (`Retry.DecisionsFromZero`).
- **Local sessions.** `initDriver` reads the grid URL with `getProperty`, which
  throws on a missing or blank key, so it only launches remote sessions
  (`Drivers.AlwaysRemote`).
- **Setup failures.** A failing implicit wait or maximise fails `initDriver`,
  and the launched browser is neither registered nor quit (`InitPlan.Abandon`).
- **Failure evidence.** A failed test gets three attachments, in order
  (`Lifecycle.FailureEvidence`):
  1. the registry's screenshot;
  2. a second screenshot named after the test;
  3. the log file.

## Model

| member | source | states |
|---|---|---|
| Config.EnvFilePath | src/main/java/com/ecommerce/utils/ConfigReader.java:42-43 | the environment file is `src/main/resources/config/`, then the `env` property (default `dev`) lower-cased, then `.properties` |
| Config.DefaultEnvFile | src/main/java/com/ecommerce/utils/ConfigReader.java:16-43 | without an `env` property the file is `.../dev.properties` |
| Config.EnvFileIgnoresCase | src/main/java/com/ecommerce/utils/ConfigReader.java:42 | two `env` values equal up to case select the same file |
| Config.Get | src/main/java/com/ecommerce/utils/ConfigReader.java:54-65 | succeeds iff some layer holds a non-blank value; the environment value wins; the result is trimmed and non-blank; otherwise "Missing config key" |
| Config.GetLong | src/main/java/com/ecommerce/utils/ConfigReader.java:68-75 | a `get` failure passes through; an unparsable value is "Invalid long value"; a parsed value is in the 64-bit range |
| Config.GetAllProperties | src/main/java/com/ecommerce/utils/ConfigReader.java:83-88 | the union of both layers' keys, environment values overriding base values |
| Config.ContainsKey | src/main/java/com/ecommerce/utils/ConfigReader.java:78-80 | a key is contained iff the merged view of `getAllProperties` holds it, blank or not |
| Config.GetProperty | src/main/java/com/ecommerce/utils/ConfigReader.java:91-93 | behaves exactly as `get` |
| Config.ContainsKeyVersusGet | src/main/java/com/ecommerce/utils/ConfigReader.java:54-80 | whatever `get` finds is contained; a contained key fails `get` iff all its values are blank |
| Config.BlankKeyContainedButMissing | src/main/java/com/ecommerce/utils/ConfigReader.java:56-80 | a key whose only value is blank is contained yet missing |
| Config.MergedViewVersusGet | src/main/java/com/ecommerce/utils/ConfigReader.java:54-88 | the merged view agrees with `get` on a usable environment value and disagrees when that value is blank but the base one is not |
| Config.GetLongOfWrittenNumber | src/main/java/com/ecommerce/utils/ConfigReader.java:64-70 | any 64-bit number written with trimmable padding reads back through `getLong` |
| Config.TrimPadded | src/main/java/com/ecommerce/utils/ConfigReader.java:64 | trimming removes exactly the padding around a word |
| JavaStrings.TrimShape | src/main/java/com/ecommerce/utils/ConfigReader.java:64 | `trim` returns the slice between the leading and trailing runs of characters <= U+0020, and it starts and ends with a non-trimmable character |
| JavaStrings.BlankIff | src/main/java/com/ecommerce/utils/ConfigReader.java:56 | `trim().isEmpty()` holds iff every character is <= U+0020 |
| JavaStrings.TrimIdempotent | src/main/java/com/ecommerce/utils/ConfigReader.java:64 | trimming twice is trimming once |
| JavaStrings.ToLowerCase | src/main/java/com/ecommerce/drivers/DriverManager.java:41 | same length; each ASCII upper-case letter becomes its lower-case letter (code point + 32); every other character is unchanged |
| JavaStrings.ToLowerCaseIdempotent | src/main/java/com/ecommerce/utils/ConfigReader.java:42 | lower-casing twice is lower-casing once |
| JavaStrings.ParseLong | src/main/java/com/ecommerce/utils/ConfigReader.java:70 | a parsed value lies in the signed 64-bit range; the text is a sign or a digit followed only by digits, and ends in a digit; a digit string whose value fits is read as that value |
| JavaStrings.ParseLongRejectsNonDigit | src/main/java/com/ecommerce/utils/ConfigReader.java:68-75 | any non-digit after the first character makes the parse fail, so `getLong` reports "Invalid long value" |
| JavaStrings.DigitsValueLeadingZeros | src/main/java/com/ecommerce/utils/ConfigReader.java:70 | leading zeros do not change a numeral's value |
| JavaStrings.ParseLongOfSignedDigits | src/main/java/com/ecommerce/utils/ConfigReader.java:70 | `+`, `-` or no sign before decimal digits parses to their signed value iff it is in the 64-bit range, and fails otherwise |
| JavaStrings.ParseLongOfNumeral | src/main/java/com/ecommerce/utils/ConfigReader.java:70 | a sign, any leading zeros and the digits of `k` (`"+007"`, `"-0042"`) parse to `±k` iff that is in the 64-bit range |
| JavaStrings.ParseLongOfToString | src/main/java/com/ecommerce/utils/ConfigReader.java:70 | parsing undoes `Long.toString` on the whole 64-bit range |
| JavaStrings.Fields | src/main/java/com/ecommerce/utils/DataProviders.java:127 | a string has at least one field |
| JavaStrings.DropTrailingEmpty | src/main/java/com/ecommerce/utils/DataProviders.java:127 | keeps a prefix, drops only empty strings, and ends with a non-empty field |
| JavaStrings.FieldsJoin | src/main/java/com/ecommerce/utils/DataProviders.java:127 | joining the fields with the separator gives the line back; no field holds a separator |
| JavaStrings.Split | src/main/java/com/ecommerce/utils/DataProviders.java:127 | a line without the separator is returned whole; otherwise the result is a prefix of the fields, drops only empty ones and ends in a non-empty value; no value holds the separator |
| Retry.DecisionsFromZero | src/main/java/com/ecommerce/listeners/RetryAnalyzer.java:10-22 | from a fresh counter, call i retries iff i < 2: two retries, then refusals forever |
| Retry.DecisionsFrom | src/main/java/com/ecommerce/listeners/RetryAnalyzer.java:15-21 | from counter `c`, call i retries iff c + i < 2 |
| Retry.DecisionsSnoc | src/main/java/com/ecommerce/listeners/RetryAnalyzer.java:15-21 | one more call appends the decision `count + n < 2` |
| Retry.TwoInstances | src/main/java/com/ecommerce/listeners/RetryAnalyzer.java:10-22 | one analyzer answers true, true, false; a second, fresh analyzer still answers true |
| Retry.RetryAnalyzer.constructor | src/main/java/com/ecommerce/listeners/RetryAnalyzer.java:10 | the counter starts at 0 |
| Retry.RetryAnalyzer.Retry | src/main/java/com/ecommerce/listeners/RetryAnalyzer.java:15-22 | true and one more count while the counter is below 2; false with the counter unchanged afterwards; the history stays the decision sequence from zero |
| Drivers.SelectBrowser | src/main/java/com/ecommerce/drivers/DriverManager.java:45-62 | Firefox iff the lower-cased name is "firefox"; every other name is Chrome |
| Drivers.SelectTarget | src/main/java/com/ecommerce/drivers/DriverManager.java:48-61 | remote iff the grid URL is non-empty, and then with that URL |
| Drivers.PlanInit | src/main/java/com/ecommerce/drivers/DriverManager.java:40-77 | the two reads fail unwrapped; registration happens iff both reads succeed, the URL is accepted, the browser launches, `implicit.wait` parses and setup succeeds; any other failure is a FrameworkException |
| Drivers.PlanAfterReads | src/main/java/com/ecommerce/drivers/DriverManager.java:43-76 | the try block: nothing is launched iff the URL is rejected or the launch fails; the browser is abandoned iff it launched and the implicit-wait read or the setup failed; registration iff all succeed; a rejected URL gives "Failed to initialize RemoteWebDriver", every other failure "WebDriver initialization failed"; a failed `implicit.wait` read is the cause; a launched browser keeps the request |
| Drivers.PlanInitAfterReads | src/main/java/com/ecommerce/drivers/DriverManager.java:41-66 | once both reads succeed, `initDriver` is its try block applied to the request built from them |
| Drivers.BrowserChoice | src/main/java/com/ecommerce/drivers/DriverManager.java:41-56 | a launched browser is Firefox iff the configured name lower-cases to "firefox" |
| Drivers.AlwaysRemote | src/main/java/com/ecommerce/drivers/DriverManager.java:42-58 | every launched browser is a remote session at the configured grid URL |
| Drivers.MalformedUrlMessage | src/main/java/com/ecommerce/drivers/DriverManager.java:70-72 | a rejected URL gives "Failed to initialize RemoteWebDriver" caused by MalformedURLException, and nothing is launched |
| Drivers.DriverManager.constructor | src/main/java/com/ecommerce/drivers/DriverManager.java:30 | every slot starts empty |
| Drivers.DriverManager.InitDriver | src/main/java/com/ecommerce/drivers/DriverManager.java:40-77 | the new state follows `PlanInit`: only the worker's slot changes, only on success, holding a fresh open browser; a browser it replaces stays open and unregistered |
| Drivers.DriverManager.Launch | src/main/java/com/ecommerce/drivers/DriverManager.java:43-76 | as `InitDriver`, for the try block described by `PlanAfterReads` |
| Drivers.DriverManager.GetDriver | src/main/java/com/ecommerce/drivers/DriverManager.java:83-89 | the worker's browser, or IllegalStateException for an empty slot |
| Drivers.DriverManager.QuitDriver | src/main/java/com/ecommerce/drivers/DriverManager.java:95-107 | the worker's slot is emptied even when `quit` throws; the browser is closed iff quit succeeds; other slots are unchanged; an empty slot is a no-op |
| Drivers.DriverManager.CaptureScreenshot | src/main/java/com/ecommerce/drivers/DriverManager.java:113-121 | the screenshot bytes, or no bytes when no browser is registered or the capture throws |
| Drivers.ReinitThenQuitTwice | src/main/java/com/ecommerce/drivers/DriverManager.java:68-107 | the registry stays valid and the slot ends empty after two `initDriver` calls and two `quitDriver` calls; on the way, the first browser is shown to stay open and unregistered |
| Waits.ExplicitWaitDuration | src/main/java/com/ecommerce/utils/WaitUtils.java:37-41 | `explicit.wait` seconds when either layer holds the key, else 20 s; a `getLong` failure propagates |
| Waits.PollingInterval | src/main/java/com/ecommerce/utils/WaitUtils.java:46-50 | `polling.interval` milliseconds when the key is held, else 500 ms; a `getLong` failure propagates |
| Waits.BlankKeyDoesNotFallBack | src/main/java/com/ecommerce/utils/WaitUtils.java:38-39 | a key present only with blank values fails with "Missing config key" instead of defaulting |
| Waits.ExplicitWaitInSeconds | src/main/java/com/ecommerce/utils/WaitUtils.java:39 | a configured timeout is whole seconds within the 64-bit range of seconds |
| Waits.NewFluentWait | src/main/java/com/ecommerce/utils/WaitUtils.java:56-61 | the given timeout and polling, ignoring exactly NoSuchElement and StaleElementReference |
| Waits.NewExplicitWait | src/main/java/com/ecommerce/utils/WaitUtils.java:52-54 | the given timeout, 500 ms polling, ignoring exactly NotFoundException: NoSuchElement and the other not-found kinds |
| Waits.Until | src/main/java/com/ecommerce/utils/WaitUtils.java:56-60 | a raised failure is never an ignored one; no polls means a timeout |
| Waits.UntilSatisfiedIff | src/main/java/com/ecommerce/utils/WaitUtils.java:56-60 | satisfied iff some poll holds and every earlier poll was falsy or threw an ignored exception |
| Waits.FluentWaitSkipsIgnored | src/main/java/com/ecommerce/utils/WaitUtils.java:60 | any run of falsy, missing-element or stale-element polls is ridden out by a fluent wait |
| Waits.StaleElementEndsOnlyExplicitWaits | src/main/java/com/ecommerce/utils/WaitUtils.java:52-60 | a stale element raises out of an explicit wait but not out of a fluent one |
| Waits.OtherNotFoundEndsOnlyFluentWaits | src/main/java/com/ecommerce/utils/WaitUtils.java:52-60 | a missing window, frame or alert is ridden out by an explicit wait but raises out of a fluent one |
| Waits.UntilWait | src/main/java/com/ecommerce/utils/WaitUtils.java:102-105 | the fluent wait with the configured timeout, then polling, read in that order; their failures and a missing driver propagate |
| Waits.UntilWaitWith | src/main/java/com/ecommerce/utils/WaitUtils.java:107-109 | exactly the given durations with the fluent ignore set; only a missing driver fails |
| Waits.UntilDefaults | src/main/java/com/ecommerce/utils/WaitUtils.java:102-109 | with no wait keys, the one-argument `until` is the three-argument one at 20 s and 500 ms |
| Waits.PageLoadPoll | src/main/java/com/ecommerce/utils/WaitUtils.java:115-116 | holds iff readyState is "complete"; throws iff the script throws or returns null |
| Waits.JQueryPoll | src/main/java/com/ecommerce/utils/WaitUtils.java:123-129 | false iff the script returns a non-zero count; never throws |
| Waits.ForPageLoad | src/main/java/com/ecommerce/utils/WaitUtils.java:113-118 | satisfied iff some readyState is "complete" after only other values or NotFoundException errors |
| Waits.ForJSandJQuery | src/main/java/com/ecommerce/utils/WaitUtils.java:120-136 | the jQuery wait runs first; the readyState wait runs only if it is satisfied, and decides the outcome |
| Waits.JQueryWaitNeverRaises | src/main/java/com/ecommerce/utils/WaitUtils.java:123-129 | the jQuery wait never raises and times out iff every poll reports pending requests |
| Waits.BusyJQueryHidesLoadedPage | src/main/java/com/ecommerce/utils/WaitUtils.java:134-135 | busy jQuery times the whole wait out whatever readyState says |
| Excel.ExcelFilePath | src/main/java/com/ecommerce/utils/ExcelUtils.java:23-25 | `excel.path` when configured, else the bundled workbook |
| Excel.KeysAt | src/main/java/com/ecommerce/utils/ExcelUtils.java:70-74 | the i-th key of a map is its i-th entry's key |
| Excel.Put | src/main/java/com/ecommerce/utils/ExcelUtils.java:74 | `put` leaves the new entry in the map and grows it by at most one |
| Excel.PutSpec | src/main/java/com/ecommerce/utils/ExcelUtils.java:74 | a new key goes last, an existing key keeps its place, `k` now maps to `v`, other keys are unchanged |
| Excel.PutKeepsDistinct | src/main/java/com/ecommerce/utils/ExcelUtils.java:70-74 | `put` never duplicates a key |
| Excel.HeaderText | src/main/java/com/ecommerce/utils/ExcelUtils.java:62 | a header cell has a string value iff it is text, blank or a formula with a cached text result (then that text); otherwise IllegalStateException |
| Excel.FormattedAt | src/main/java/com/ecommerce/utils/ExcelUtils.java:65-73 | a missing cell, inside or past the row, reads as ""; a formula cell reads as its formula text |
| Excel.HeadersUpTo | src/main/java/com/ecommerce/utils/ExcelUtils.java:61-63 | failures are IllegalStateException; at most one header per physical cell |
| Excel.HeadersOkIff | src/main/java/com/ecommerce/utils/ExcelUtils.java:61-63 | the header read succeeds iff every present header cell has a string value |
| Excel.HeadersArePresentTexts | src/main/java/com/ecommerce/utils/ExcelUtils.java:59-63 | on success the headers are the present cells' string values, trimmed, one per present cell, in order |
| Excel.HeadersErrorPersists | src/main/java/com/ecommerce/utils/ExcelUtils.java:61-62 | the first header cell without a string value fails the whole header row |
| Excel.RecordUpTo | src/main/java/com/ecommerce/utils/ExcelUtils.java:71-75 | after n columns the map holds column n under header n, and has at most n entries |
| Excel.RowRecord | src/main/java/com/ecommerce/utils/ExcelUtils.java:70-75 | at most one entry per header; the last header maps to the last column's cell |
| Excel.RowRecords | src/main/java/com/ecommerce/utils/ExcelUtils.java:68-77 | one map per data row, in row order |
| Excel.TestData | src/main/java/com/ecommerce/utils/ExcelUtils.java:38-87 | I/O failure and a missing sheet are FrameworkExceptions; an empty sheet gives no rows; a header failure propagates; otherwise one record per data row built from the headers |
| Excel.GetTestData | src/main/java/com/ecommerce/utils/ExcelUtils.java:38-87 | the header loop and the row/column loops compute exactly `TestData` |
| Excel.RecordKeysUpTo | src/main/java/com/ecommerce/utils/ExcelUtils.java:71-75 | after n columns, the keys of the map are exactly the first n headers |
| Excel.RecordKeysDistinct | src/main/java/com/ecommerce/utils/ExcelUtils.java:70-75 | after n columns, no key occurs twice |
| Excel.RecordKeysAreHeaders | src/main/java/com/ecommerce/utils/ExcelUtils.java:70-76 | a row's map has exactly the headers as keys, none twice |
| Excel.HeadersAreTrimmed | src/main/java/com/ecommerce/utils/ExcelUtils.java:62 | every header is already trimmed |
| Excel.RecordValueIsLastColumn | src/main/java/com/ecommerce/utils/ExcelUtils.java:71-74 | a header maps to the formatted cell of the last column carrying that title |
| Excel.ExtraCellsIgnored | src/main/java/com/ecommerce/utils/ExcelUtils.java:71 | cells beyond the last header do not change the map |
| Excel.MissingCellsAreBlank | src/main/java/com/ecommerce/utils/ExcelUtils.java:72-73 | a short row maps the headers past its end to "" |
| Excel.HeaderGapShiftsColumns | src/main/java/com/ecommerce/utils/ExcelUtils.java:61-63 | a gap in the header row shifts later titles one column to the left |
| DataProviders.Wrap | src/main/java/com/ecommerce/utils/DataProviders.java:52-54 | one single-argument invocation per record, in order |
| DataProviders.ExcelDataProvider | src/main/java/com/ecommerce/utils/DataProviders.java:42-55 | the wrapped Excel rows, or "Excel data load failure for sheet" caused by the loader's error |
| DataProviders.JsonDataProvider | src/main/java/com/ecommerce/utils/DataProviders.java:62-75 | the wrapped JSON records, or "JSON data load failure for key" caused by the loader's error |
| DataProviders.WrapOnePerRecord | src/main/java/com/ecommerce/utils/DataProviders.java:52-54 | every invocation has one argument, and flattening gives the records back |
| DataProviders.QueryKey | src/main/java/com/ecommerce/utils/DataProviders.java:83 | the key is `db.query.` followed by the method name |
| DataProviders.ResolveQuery | src/main/java/com/ecommerce/utils/DataProviders.java:84-114 | a key absent from both layers gives "No database query configured for test"; otherwise the result of `get` |
| DataProviders.GetObject | src/main/java/com/ecommerce/utils/DataProviders.java:98 | defined iff the 1-based column exists, and then that column's value |
| DataProviders.DbDataProvider | src/main/java/com/ecommerce/utils/DataProviders.java:82-108 | a query failure propagates; a failing query or column read gives "Error querying database for test"; otherwise one array per row holding columns 1..cols in slots 0..cols-1 |
| DataProviders.CsvPath | src/main/java/com/ecommerce/utils/DataProviders.java:33-35 | `csv.path` when configured, else the bundled CSV file |
| DataProviders.CsvDataProvider | src/main/java/com/ecommerce/utils/DataProviders.java:121-136 | an I/O failure gives "CSV data load failure"; otherwise one argument array per line, equal to `line.split(",")` |
| DataProviders.CsvSplitExamples | src/main/java/com/ecommerce/utils/DataProviders.java:127 | `"a,,b,,"` gives the three values `a`, an empty value and `b` |
| DataProviders.CsvDegenerateLines | src/main/java/com/ecommerce/utils/DataProviders.java:127 | an empty line gives one empty value, and `",,"` gives none |
| RandomValues.LowerIsConsecutive | src/main/java/com/ecommerce/utils/RandomUtils.java:18-19 | the lower-case alphabet is `a`..`z` in order |
| RandomValues.LettersAreAsciiLetters | src/main/java/com/ecommerce/utils/RandomUtils.java:40 | the alphabetic alphabet has 52 characters and holds exactly the ASCII letters |
| RandomValues.AlphaNumIsLettersAndDigits | src/main/java/com/ecommerce/utils/RandomUtils.java:18-21 | the alphanumeric alphabet has 62 characters and holds exactly the ASCII letters and digits |
| RandomValues.Draw | src/main/java/com/ecommerce/utils/RandomUtils.java:48-49 | one character per index, each the alphabet's character at that index |
| RandomValues.DrawCoversAlphabet | src/main/java/com/ecommerce/utils/RandomUtils.java:48-49 | every string over the alphabet is drawn by some index sequence |
| RandomValues.GenerateRandomString | src/main/java/com/ecommerce/utils/RandomUtils.java:43-54 | a length below 1 gives "Length must be at least 1"; an empty alphabet makes `nextInt` fail; otherwise the string of `length` drawn characters |
| RandomValues.GenerateRandomAlphaNumeric | src/main/java/com/ecommerce/utils/RandomUtils.java:29-31 | `length` ASCII letters or digits |
| RandomValues.GenerateRandomNumeric | src/main/java/com/ecommerce/utils/RandomUtils.java:34-36 | `length` decimal digits |
| RandomValues.GenerateRandomAlphabetic | src/main/java/com/ecommerce/utils/RandomUtils.java:39-41 | `length` ASCII letters |
| RandomValues.GenerateRandomEmail | src/main/java/com/ecommerce/utils/RandomUtils.java:57-61 | the prefix, six ASCII letters or digits, then `@testmail.com` |
| RandomValues.Wrap32 | src/main/java/com/ecommerce/utils/RandomUtils.java:66 | Java `int` arithmetic: congruent modulo 2^32, unchanged inside the range |
| RandomValues.BoundPositive | src/main/java/com/ecommerce/utils/RandomUtils.java:66 | the bound `(max - min) + 1` is positive iff `max - min <= 2^31 - 2`, and is then the true count |
| RandomValues.GenerateRandomIntInRange | src/main/java/com/ecommerce/utils/RandomUtils.java:64-69 | `min >= max` gives "max must be greater than min"; a wrapped bound makes `nextInt` fail; otherwise `min + draw`, within `[min, max]` |
| RandomValues.RangeCovered | src/main/java/com/ecommerce/utils/RandomUtils.java:66 | every value of an accepted range comes from exactly one draw |
| RandomValues.FullRangeRejected | src/main/java/com/ecommerce/utils/RandomUtils.java:65-66 | the full `int` range passes the guard and still fails |
| RandomValues.GenerateRandomIntInRangeWide | src/main/java/com/ecommerce/utils/RandomUtils.java:64-69 | the corrected range draw: succeeds iff `min < max`, within `[min, max]` |
| RandomValues.WideAgreesOnNarrowRanges | src/main/java/com/ecommerce/utils/RandomUtils.java:66 | the corrected draw agrees with the code on every range whose bound does not wrap |
| Screenshots.ReplaceHasNoWhitespace | src/main/java/com/ecommerce/utils/ScreenshotUtils.java:68 | the replacement scan leaves no whitespace and never lengthens the name |
| Screenshots.CollapseHasNoWhitespace | src/main/java/com/ecommerce/utils/ScreenshotUtils.java:68 | the name part of the file name holds no whitespace |
| Screenshots.CollapseKeepsPlainNames | src/main/java/com/ecommerce/utils/ScreenshotUtils.java:68 | a name without whitespace is unchanged |
| Screenshots.ReplaceConcat | src/main/java/com/ecommerce/utils/ScreenshotUtils.java:68 | replacing `a + b` is replacing `a`, then `b` in the state `a` left the scan in |
| Screenshots.CollapseRun | src/main/java/com/ecommerce/utils/ScreenshotUtils.java:68 | a whitespace run of any length before a non-blank character becomes one `_` |
| Screenshots.CollapseConcat | src/main/java/com/ecommerce/utils/ScreenshotUtils.java:68 | pieces cut outside a run are replaced independently |
| Screenshots.FileName | src/main/java/com/ecommerce/utils/ScreenshotUtils.java:68 | the whitespace-free collapsed name, `_`, the timestamp, `.png`; a plain name appears unchanged |
| Screenshots.CollapseTwoWords | src/main/java/com/ecommerce/utils/ScreenshotUtils.java:68 | two words around any whitespace run collapse to the words joined by one `_` ("login page" to `login_page`) |
| Screenshots.TwoWordFileName | src/main/java/com/ecommerce/utils/ScreenshotUtils.java:68 | a two-word name such as "login page" at `t` is saved as `login_page_t.png` |
| Screenshots.ScreenshotDir | src/main/java/com/ecommerce/utils/ScreenshotUtils.java:26-28 | `screenshot.path` when configured, else `screenshots`; never empty |
| Screenshots.TimestampPattern | src/main/java/com/ecommerce/utils/ScreenshotUtils.java:31-35 | `log.timestamp.pattern` when configured, else `yyyyMMdd_HHmmss_SSS` |
| Screenshots.OutputPath | src/main/java/com/ecommerce/utils/ScreenshotUtils.java:69 | the directory, one separator, the file name |
| Screenshots.DefaultLocation | src/main/java/com/ecommerce/utils/ScreenshotUtils.java:26-28 | with no directory configured, screenshots go to `screenshots/` |
| Screenshots.CaptureScreenshotToAllure | src/main/java/com/ecommerce/utils/ScreenshotUtils.java:48-58 | the registry's capture: the screenshot, or empty bytes when no browser is registered or the capture throws |
| Screenshots.CaptureAndSaveScreenshot | src/main/java/com/ecommerce/utils/ScreenshotUtils.java:66-90 | a directory-creation or write failure returns null; a missing driver or failed capture propagates; success writes the bytes to the path, attaches a second capture and returns the path |
| Lifecycle.FailureEvidence | src/main/java/com/ecommerce/base/BaseTest.java:68-71 | three attachments in order: "Last Screenshot", "Screenshot - name", the log file |
| Lifecycle.BaseTest.constructor | src/main/java/com/ecommerce/base/BaseTest.java:17 | no cached driver, nothing reported |
| Lifecycle.BaseTest.SetUpClass | src/main/java/com/ecommerce/base/BaseTest.java:25-37 | on success the cached driver is the worker's registered browser and the browser name (default "chrome") is reported; any failure is "Test setup failed" caused by it, with nothing cached or reported |
| Lifecycle.BaseTest.SetUpTest | src/main/java/com/ecommerce/base/BaseTest.java:43-47 | a missing `baseUrl` fails before navigation; no cached driver is a NullPointerException; a closed browser or a failed load is a WebDriverException; otherwise the browser is at the base URL |
| Lifecycle.BaseTest.TearDownMethod | src/main/java/com/ecommerce/base/BaseTest.java:66-73 | nothing unless the status is FAILURE; then the failure evidence is appended; it never raises |
| Lifecycle.BaseTest.TearDownClass | src/main/java/com/ecommerce/base/BaseTest.java:53-60 | the worker's slot ends empty and other slots are unchanged; it never raises |
| Lifecycle.FailedTestLifecycle | src/main/java/com/ecommerce/base/BaseTest.java:25-73 | setup, navigation, failure evidence and teardown in sequence keep the registry valid and leave the slot empty; on the way, the cached browser is shown to end closed, so navigating again fails |
| Lifecycle.FailThenTearDown | src/main/java/com/ecommerce/base/BaseTest.java:43-73 | on a registered, open browser, a failed test gets the three attachments with the captured screenshots, the slot ends empty, the cached browser ends closed, and opening the base URL again is a WebDriverException |

## Left out

- Loading the property files, the workbook, the JSON file, the CSV file and the log file is I/O. The model takes the loaded contents, or the I/O failure, as inputs.
- `Excel.TestData` treats every workbook load failure as the caught IOException. Runtime failures of `WorkbookFactory.create` escape `getTestData` unwrapped in the code; these are not modelled. Examples are an EncryptedDocumentException, or a NotOfficeXmlFileException for a file that is not a workbook.
- Class initialisers are not modelled as class loading. `DataProviders` reads `db.url`, `db.user` and `db.password` eagerly, so a missing `db.url` makes every provider of that class fail. Cached paths are recomputed per call from the configuration.
- The JDBC connection is an input. `DbDataProvider` takes the query outcome as `Option<ResultSet>`.
- The polling clock of WebDriverWait/FluentWait is an input. A wait receives the polls it observes before its deadline.
- The explicit-wait helpers `forVisibility`, `forClickable`, `forPresence`, `forText` and `forFrameAndSwitch` are left out. Their conditions live in Selenium's `ExpectedConditions`.
- `hardWait` is left out: it is only a sleep.
- POI's case-insensitive sheet lookup is not modelled. `Excel.TestData` looks the sheet name up exactly.
- DataFormatter's rendering of numeric, boolean, date and error cells arrives pre-formatted in `OtherCell`.
- `Excel.HeaderText`: a formula's cached result is modelled only as text or not text; a cached numeric, boolean or error result is not told apart, since each raises IllegalStateException.
- `Screenshots.OutputPath` does not model `Paths` normalisation. Repeated or trailing separators, and file names that contain a separator, are not modelled. It always joins with `/`, where `Paths.get` uses the platform's separator (`\` on Windows).
- The date formatter and `LocalDateTime.now()` are left out; the formatted timestamp is an input.
- `generateRandomBoolean` is left out: it returns `nextBoolean()` unchanged, so it has no rule worth stating.
- `SecureRandom`'s distribution is not modelled. The drawn indices are inputs, each below its bound.
- Logging, Allure steps, the `@Attachment` mechanics and `System.setProperty("browser", ...)` are left out. The property write is never read back by `ConfigReader.get`.
- Threads are not modelled. The registry is keyed by an explicit worker id, and each operation changes only its worker's slot.
- `JavaStrings.ToLowerCase`: does not model case mapping outside ASCII, because the configuration values this core lower-cases are ASCII names. It also does not model the default locale that `toLowerCase()` uses at `DriverManager.java:41` and `ConfigReader.java:42`: under a Turkish locale `"FIREFOX"` becomes `"fırefox"` (dotless i), which selects Chrome. The model is the behaviour under a locale with the ASCII mapping.
- `JavaStrings.ParseLong`: accepts only ASCII digits. `Long.parseLong` also accepts every other Unicode decimal digit (`"３０"` parses to 30); the model reports such a value as "Invalid long value".
- `Lifecycle.BaseTest.TearDownMethod`: the report manager's named screenshot is modelled with the registry's capture rule. The two rules are the same: catch any exception, return empty bytes.

## Findings

| source | as written | input that shows it | evidently intended | confidence | as-written member | corrected member |
|---|---|---|---|---|---|---|
| src/main/java/com/ecommerce/utils/RandomUtils.java:66 | the bound `(max - min) + 1` is computed in `int` and wraps for ranges wider than 2^31 - 1 values, so `nextInt` throws "bound must be positive" after the `min >= max` guard accepted the range | `min = -2147483648`, `max = 2147483647` | every range with `min < max` yields a value in `[min, max]` | not executed | RandomValues.FullRangeRejected | RandomValues.GenerateRandomIntInRangeWide |
