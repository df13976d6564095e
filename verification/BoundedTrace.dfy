/** The bounded read of a job's log, and which traces the cache may hold. */
module BoundedTrace {

  newtype Byte = x: int | 0 <= x < 256

  /** A log, or a response body, as the bytes it holds. */
  type Log = seq<Byte>

  /** At most 4 MiB of a body are kept. */
  const MAX_TRACE_BYTES: nat := 4 * 1024 * 1024

  /** Larger traces than 512 KiB bypass the cache. */
  const MAX_CACHEABLE_TRACE_BYTES: nat := 512 * 1024

  datatype Trace = Trace(content: Log, truncated: bool)

  /** io.LimitReader followed by io.ReadAll: the first `limit` bytes, fewer when the body is shorter. */
  function ReadLimited(body: Log, limit: nat): Log {
    if |body| <= limit then body else body[..limit]
  }

  /** Reads one byte more than is kept, so that a cut is detected and not guessed from the length.
      The trace is the longest prefix that fits, and it is flagged exactly when bytes were lost. */
  function BoundedRead(body: Log): (trace: Trace)
    ensures trace.content <= body && |trace.content| <= 4 * 1024 * 1024
    ensures forall p: Log :: p <= body && |p| <= 4 * 1024 * 1024 ==> |p| <= |trace.content|
    ensures trace.truncated <==> trace.content != body
  {
    var data := ReadLimited(body, MAX_TRACE_BYTES + 1);
    if |data| > MAX_TRACE_BYTES then Trace(data[..MAX_TRACE_BYTES], true) else Trace(data, false)
  }

  predicate Cacheable(trace: Trace) {
    !trace.truncated && |trace.content| <= MAX_CACHEABLE_TRACE_BYTES
  }

  /** The flag and the length test together admit exactly the whole bodies of at most 512 KiB. */
  lemma CacheableIff(body: Log)
    ensures Cacheable(BoundedRead(body)) <==> |body| <= 512 * 1024
    ensures Cacheable(BoundedRead(body)) ==> BoundedRead(body).content == body
  {
  }
}
