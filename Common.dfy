/** Shared vocabulary of the model: optional values, results with the Java
    exceptions the framework raises, and byte strings. */
module Common {

  datatype Option<+T> = None | Some(value: T) {
    function GetOr(default: T): T {
      match this
      case Some(v) => v
      case None => default
    }
  }

  /** The exceptions that leave the modelled operations. */
  datatype Error =
    /** RuntimeException "Missing config key: <key>" from ConfigReader.get */
    | MissingConfigKey(key: string)
    /** RuntimeException "Invalid long value for key: <key>" from ConfigReader.getLong */
    | InvalidLong(key: string)
    /** IllegalStateException from DriverManager.getDriver on an empty slot */
    | NotInitialized
    /** FrameworkException with its message and, when there is one, its cause */
    | Framework(message: string, cause: Option<Error>)
    | IllegalArgument(message: string)
    /** IllegalStateException raised by a library (POI on a non-text header cell) */
    | IllegalState
    | NullPointer
    /** MalformedURLException from `new URL(gridUrl)` */
    | MalformedUrl
    /** any WebDriverException raised by a browser or by Selenium Grid */
    | WebDriverFailure
    | IOFailure
    | SqlFailure

  datatype Result<+T> = Ok(value: T) | Err(error: Error)

  /** The result of an operation that returns nothing (Java `void`). */
  datatype Outcome = Pass | Fail(error: Error)

  type Bytes = seq<bv8>
}
