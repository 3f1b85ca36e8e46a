/**
 * `get_json_handler` (app/opentelemetry_wrapper/instrument_logging.py, lines 181-199): the
 * logging handler that writes JSON records to a file, to a given stream, or to standard
 * error, at the given level.
 */
module JsonHandler {
  import opened Wrappers
  import opened Values

  /** Where a handler writes: a file path, a caller's stream (by identity), or `sys.stderr`. */
  datatype Destination = File(path: string) | Stream(stream: nat) | Stderr

  /** A handler with a default `JsonFormatter`, as far as the arguments decide it. */
  datatype Handler = Handler(destination: Destination, level: int)

  /** Lines 187-198. */
  function GetJsonHandler(level: int, path: Option<string>, stream: Option<nat>): Outcome<Handler>
  {
    if path.Some? && stream.Some? then Err(ValueError)
    else if path.Some? then Ok(Handler(File(path.value), level))
    else if stream.Some? then Ok(Handler(Stream(stream.value), level))
    else Ok(Handler(Stderr, level))
  }

  /**
   * Giving both a path and a stream is the only error, and it is a ValueError; otherwise the
   * handler writes to the one destination given, or to standard error when none is, and
   * keeps the level.
   */
  lemma HandlerFacts(level: int, path: Option<string>, stream: Option<nat>)
    ensures GetJsonHandler(level, path, stream).Err? <==> path.Some? && stream.Some?
    ensures GetJsonHandler(level, path, stream).Err? ==> GetJsonHandler(level, path, stream).error == ValueError
    ensures GetJsonHandler(level, path, stream).Ok? ==>
      var h := GetJsonHandler(level, path, stream).value;
      h.level == level &&
      (h.destination.File? <==> path.Some?) &&
      (h.destination.File? ==> h.destination.path == path.value) &&
      (h.destination.Stream? <==> stream.Some?) &&
      (h.destination.Stream? ==> h.destination.stream == stream.value) &&
      (h.destination.Stderr? <==> path.None? && stream.None?)
  {
  }
}
