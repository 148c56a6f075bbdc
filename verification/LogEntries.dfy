/** Log entries as the dashboard backend receives them, with the parsed values it derives. */
module LogEntries {
  import opened Wrappers

  /** A JSON field read with `dict.get`: absent, null, or a string. */
  datatype Field = Missing | Null | Text(value: string)

  /** The `status_code` field: absent, null, something `int()` rejects, or an integer. */
  datatype Status = NoStatus | NullStatus | BadStatus | Code(code: int)

  /** The `duration_ms` field: absent, null, something `float()` rejects, or a number. */
  datatype Timing = NoTiming | NullTiming | BadTiming | Millis(ms: real)

  /**
   A log entry.  `time` is the `timestamp` text parsed to microseconds since the epoch, if it parses;
   the text itself is what entries are sorted and deduplicated by.
   */
  datatype Entry = Entry(
    timestamp: Field,
    time: Option<int>,
    level: Field,
    logger: Field,
    message: Field,
    path: Field,
    instanceId: Field,
    status: Status,
    durationMs: Timing)

  /** Python's `str(entry.get(key, default))`. */
  function AsText(f: Field, default: string): string {
    match f
    case Missing => default
    case Null => "None"
    case Text(s) => s
  }

  /** The entry fits the columns of `kafka_logs`; a batch with one that does not cannot be inserted. */
  predicate Storable(e: Entry) { !e.status.BadStatus? && !e.durationMs.BadTiming? }

  predicate IsErrorCode(s: Status) { s.Code? && s.code >= 400 }
}
