/**
 * The parts of a JAX-RS request and response that the admission filters
 * read or write, as plain values. Header lookup is by the exact name the
 * filters ask for; request properties that the filters set are fields.
 */
module Http {
  import opened Wrappers

  /** A byte of a request entity. */
  newtype byte = b: int | 0 <= b < 256

  /** The size of the buffer the body is read into (`new byte[1024]`). */
  const READ_BUFFER_SIZE: int := 1024

  /** What one `read(buffer)` into that buffer returns before the end of the
      stream: between one byte and a full buffer. */
  type Chunk = c: seq<byte> | 0 < |c| <= READ_BUFFER_SIZE witness [0]

  /** The entity stream of a request: either the original stream, given as
      the successive results of `read(buffer)` on it, or a
      `ByteArrayInputStream` over bytes a filter has already buffered. */
  datatype EntityStream =
    | Original(chunks: seq<Chunk>)
    | Buffered(bytes: seq<byte>)

  /** The bytes of a sequence of reads, in order. */
  function Concat(chunks: seq<Chunk>): seq<byte>
    decreases |chunks|
  {
    if chunks == [] then [] else chunks[0] + Concat(chunks[1..])
  }

  lemma {:induction false} ConcatAppend(chunks: seq<Chunk>, c: Chunk)
    ensures Concat(chunks + [c]) == Concat(chunks) + c
    decreases |chunks|
  {
    if chunks != [] {
      assert (chunks + [c])[1..] == chunks[1..] + [c];
      ConcatAppend(chunks[1..], c);
    }
  }

  /** The reads a `ByteArrayInputStream` over `bytes` answers to a
      `READ_BUFFER_SIZE` buffer: full buffers, then the remainder. */
  function Chunked(bytes: seq<byte>): seq<Chunk>
    decreases |bytes|
  {
    if bytes == [] then []
    else if |bytes| <= READ_BUFFER_SIZE then [bytes]
    else [bytes[..READ_BUFFER_SIZE]] + Chunked(bytes[READ_BUFFER_SIZE..])
  }

  lemma {:induction false} ConcatChunked(bytes: seq<byte>)
    ensures Concat(Chunked(bytes)) == bytes
    decreases |bytes|
  {
    if |bytes| > READ_BUFFER_SIZE {
      ConcatChunked(bytes[READ_BUFFER_SIZE..]);
      assert bytes == bytes[..READ_BUFFER_SIZE] + bytes[READ_BUFFER_SIZE..];
    }
  }

  /** What reading an entity stream to its end returns, read by read. */
  function Reads(e: EntityStream): seq<Chunk> {
    match e
    case Original(chunks) => chunks
    case Buffered(bytes) => Chunked(bytes)
  }

  /** All the bytes an entity stream delivers. A buffered stream delivers
      exactly the bytes it was made from. */
  function Content(e: EntityStream): (bytes: seq<byte>)
    ensures e.Buffered? ==> bytes == e.bytes
  {
    if e.Buffered? then ConcatChunked(e.bytes); Concat(Reads(e)) else Concat(Reads(e))
  }

  /** An inbound request together with the request properties the filters
      set on its context: "idempotency.key", "original.request.body" and
      "requestId". */
  datatype Request = Request(
    verb: string,
    headers: map<string, string>,
    hasEntity: bool,
    entity: EntityStream,
    idempotencyKey: Option<string>,
    originalBody: Option<seq<byte>>,
    requestId: Option<string>)
  {
    /** `getHeaderString(name)`, with `null` as None. */
    function Header(name: string): Option<string> {
      if name in headers then Some(headers[name]) else None
    }
  }

  /** A response: status code, the response entity's `toString()` (None for
      no entity) and the headers, rendered as strings. */
  datatype Response = Response(status: int, entity: Option<string>, headers: map<string, string>)

  /** A response with the given status and a text entity, and no headers. */
  function TextResponse(status: int, body: string): Response {
    Response(status, Some(body), map[])
  }

  /** What a request filter does to the request: let it continue, abort it
      with a response (`abortWith`), or throw, which JAX-RS turns into a
      500 response. */
  datatype Verdict = Continue | Abort(response: Response) | Fault

  const INTERNAL_SERVER_ERROR: int := 500
}
