/** The records shared by the dashboard, the form, the summary and the card
    (src/lib/types.ts), and the shape of an asynchronous call's outcome. */
module Types {

  /** `SeverityLevel`: exactly three values. */
  datatype Severity = Low | Medium | High

  /** The string each severity value is in the source. */
  function SeverityName(s: Severity): (name: string)
    ensures |name| > 0
  {
    match s
    case Low => "Low"
    case Medium => "Medium"
    case High => "High"
  }

  /** An incident as the server returns it. `reported_at` is an ISO 8601 string
      in the source; here it is the instant it denotes, as an integer. */
  datatype Incident = Incident(
    id: string,
    title: string,
    description: string,
    severity: Severity,
    reportedAt: int)

  /** The dashboard's severity filter: `SeverityLevel | "All"`. */
  datatype SeverityFilter = All | Only(level: Severity)

  /** The dashboard's sort order: `"newest" | "oldest"`. */
  datatype SortOrder = Newest | Oldest

  datatype Option<T> = None | Some(value: T)

  /** What a `catch` clause receives: an `Error` instance (with its message)
      or any other thrown value. */
  datatype Thrown = ErrorInstance(message: string) | OtherValue

  /** The settled outcome of an awaited promise. */
  datatype Outcome<T> = Resolved(value: T) | Rejected(reason: Thrown)

  /** `err instanceof Error ? err.message : fallback`. */
  function ErrorMessage(reason: Thrown, fallback: string): string
  {
    match reason
    case ErrorInstance(message) => message
    case OtherValue => fallback
  }

  /** The filter predicate `incident => incident.severity === level`. */
  function HasSeverity(level: Severity): Incident -> bool
  {
    (x: Incident) => x.severity == level
  }

  /** The filter predicate `incident => incident._id !== id`. */
  function IdIsNot(id: string): Incident -> bool
  {
    (x: Incident) => x.id != id
  }

  /** Selects the incidents reported at instant `t`; used to state stability. */
  function ReportedAt(t: int): Incident -> bool
  {
    (x: Incident) => x.reportedAt == t
  }
}
