/** The shared record types of the scanner (the `models` package) and the
    two failure-carrying wrappers the rest of the model uses. */
module Models {

  /** Ordinal impact classification: Low < Medium < High < Critical. */
  datatype Severity = Low | Medium | High | Critical

  /** One installed package as listed by the image's package manager.
      Only `Name` takes part in vulnerability matching. */
  datatype Package = Package(Name: string, Version: string)

  /** One known vulnerability record of the corpus. */
  datatype Vulnerability = Vulnerability(
    ID: string,
    Package: string,
    Version: string,
    FixedIn: string,
    Severity: Severity,
    Description: string,
    References: seq<string>)

  /** A value or the error that replaced it (Go's `(T, error)` pair). */
  datatype Result<+T, +E> = Ok(value: T) | Err(error: E)

  datatype Option<+T> = None | Some(value: T)

  /** The answer of a vulnerability lookup: the matching records, or the
      lookup's error text. */
  type Lookup = Result<seq<Vulnerability>, string>
}
