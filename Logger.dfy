/** The request logger's colour marker for a response status code
    (backend/middleware/logger.js). */
module Logger {

  datatype Severity = Success | Warning | Error

  const SUCCESS_COLOR: string := "\U{1F7E2}"
  const WARNING_COLOR: string := "\U{1F7E1}"
  const ERROR_COLOR: string := "\U{1F534}"

  /** `STATUS_COLORS` */
  function Color(s: Severity): string {
    match s
    case Success => SUCCESS_COLOR
    case Warning => WARNING_COLOR
    case Error => ERROR_COLOR
  }

  /** The bucket a status code falls in: server errors from 500, client errors
      from 400 up to 499, everything below 400 a success. */
  function StatusSeverity(statusCode: int): (s: Severity)
    ensures s == Error <==> statusCode >= 500
    ensures s == Warning <==> 400 <= statusCode < 500
    ensures s == Success <==> statusCode < 400
  {
    if statusCode >= 500 then Error
    else if statusCode >= 400 then Warning
    else Success
  }

  /** `getStatusColor(statusCode)`: the colour of the code's bucket. */
  function GetStatusColor(statusCode: int): (c: string)
    ensures c == Color(StatusSeverity(statusCode))
  {
    if statusCode >= 500 then ERROR_COLOR
    else if statusCode >= 400 then WARNING_COLOR
    else SUCCESS_COLOR
  }

  function Rank(s: Severity): nat {
    match s
    case Success => 0
    case Warning => 1
    case Error => 2
  }

  /** A larger status code is never logged as less severe. */
  lemma SeverityMonotone(a: int, b: int)
    requires a <= b
    ensures Rank(StatusSeverity(a)) <= Rank(StatusSeverity(b))
  {
  }

  /** The three colours differ, so the colour tells the bucket. */
  lemma ColorTellsSeverity(a: int, b: int)
    ensures GetStatusColor(a) == GetStatusColor(b) <==> StatusSeverity(a) == StatusSeverity(b)
  {
    assert SUCCESS_COLOR[0] != WARNING_COLOR[0] && SUCCESS_COLOR[0] != ERROR_COLOR[0]
        && WARNING_COLOR[0] != ERROR_COLOR[0];
  }
}
