/**
 Model of the Amazon event-stream decoder (crates/kproxy-kiro/src/event_stream.rs).

 A frame is a 12-byte prelude (total length, headers length, prelude CRC), the headers, the
 payload and a 4-byte message CRC. The CRC, UTF-8, JSON and event-classification routines are
 fields of a `Codec`, so every result below holds for any choice of them.
 */
module EventStream {
  import opened Wrappers

  type Byte = b: nat | b < 256
  type U32 = n: nat | n < 0x1_0000_0000

  const MIN_FRAME_LENGTH := 16
  const MAX_FRAME_LENGTH := 50 * 1024 * 1024

  /** A decoded message: an upstream error report, or anything else. */
  datatype KiroEvent<+V> = Failure(kind: string, message: string) | Event(body: V)

  /** The foreign routines the decoder calls. */
  datatype Codec<!J, !V> = Codec(
    crc: seq<Byte> -> U32,
    utf8: seq<Byte> -> Option<string>,
    json: seq<Byte> -> Result<J, string>,
    toEvent: (map<string, string>, J) -> KiroEvent<V>)

  datatype HeaderError =
    | TruncatedName | NameNotUtf8 | TruncatedString | TruncatedStringValue | ValueNotUtf8
    | TruncatedByteArray | UnknownKind(kind: Byte) | TruncatedValue

  datatype DecodeError =
    | InvalidLength(total: nat)
    | InvalidHeadersLength(headers: nat, frame: nat)
    | PreludeCrcMismatch
    | MessageCrcMismatch
    | InvalidHeader(header: HeaderError)
    | InvalidJson(detail: string)
    | Incomplete(remaining: nat)

  function U16At(s: seq<Byte>, i: nat): (n: nat)
    requires i + 2 <= |s|
  {
    (s[i] as int) * 256 + s[i + 1]
  }

  function U32At(s: seq<Byte>, i: nat): (n: U32)
    requires i + 4 <= |s|
  {
    U16At(s, i) * 0x1_0000 + U16At(s, i + 2)
  }

  // ---------------------------------------------------------------- headers

  /** Bytes taken by a value of fixed size, for the eight kinds that have one. */
  function FixedSize(kind: Byte): (n: Option<nat>) {
    match kind
    case 0 => Some(0)
    case 1 => Some(0)
    case 2 => Some(1)
    case 3 => Some(2)
    case 4 => Some(4)
    case 5 => Some(8)
    case 8 => Some(8)
    case 9 => Some(16)
    case _ => None
  }

  /** The value of kind `kind` at offset `at`: its text if it is a string, and the offset after it. */
  function ParseValue<J, V>(c: Codec<J, V>, b: seq<Byte>, kind: Byte, at: nat): (r: Result<(Option<string>, nat), HeaderError>)
    requires at <= |b|
    ensures r.Ok? ==> at <= r.value.1 <= |b|
  {
    if kind == 7 then
      if at + 2 > |b| then Err(TruncatedString)
      else
        var end := at + 2 + U16At(b, at);
        if end > |b| then Err(TruncatedStringValue)
        else if c.utf8(b[at + 2..end]).None? then Err(ValueNotUtf8)
        else Ok((c.utf8(b[at + 2..end]), end))
    else if kind == 6 then
      if at + 2 > |b| then Err(TruncatedByteArray)
      else
        var end := at + 2 + U16At(b, at);
        if end > |b| then Err(TruncatedValue) else Ok((None, end))
    else if FixedSize(kind).None? then Err(UnknownKind(kind))
    else
      var end := at + FixedSize(kind).value;
      if end > |b| then Err(TruncatedValue) else Ok((None, end))
  }

  /** The header at offset `start`: the string entry it adds, if any, and the offset after it. */
  function ParseHeader<J, V>(c: Codec<J, V>, b: seq<Byte>, start: nat): (r: Result<(Option<(string, string)>, nat), HeaderError>)
    requires start < |b|
    ensures r.Ok? ==> start + 2 <= r.value.1 <= |b|
  {
    var at := start + 2 + b[start];
    if at > |b| then Err(TruncatedName)
    else
      match c.utf8(b[start + 1..at - 1])
      case None => Err(NameNotUtf8)
      case Some(name) =>
        match ParseValue(c, b, b[at - 1], at)
        case Err(e) => Err(e)
        case Ok((value, end)) => Ok((if value.None? then None else Some((name, value.value)), end))
  }

  function Put(m: map<string, string>, entry: Option<(string, string)>): map<string, string> {
    if entry.None? then m else m[entry.value.0 := entry.value.1]
  }

  /** All headers from offset `start` on, added to `acc`. */
  function ParseHeaders<J, V>(c: Codec<J, V>, b: seq<Byte>, start: nat, acc: map<string, string>): Result<map<string, string>, HeaderError>
    requires start <= |b|
    decreases |b| - start
  {
    if start == |b| then Ok(acc)
    else
      match ParseHeader(c, b, start)
      case Err(e) => Err(e)
      case Ok((entry, end)) => ParseHeaders(c, b, end, Put(acc, entry))
  }

  /** The offset loop of `parse_headers`. */
  method ParseHeadersLoop<J, V>(c: Codec<J, V>, bytes: seq<Byte>) returns (r: Result<map<string, string>, HeaderError>)
    ensures r == ParseHeaders(c, bytes, 0, map[])
  {
    var headers: map<string, string> := map[];
    var offset := 0;
    while offset < |bytes|
      invariant 0 <= offset <= |bytes|
      invariant ParseHeaders(c, bytes, 0, map[]) == ParseHeaders(c, bytes, offset, headers)
    {
      var nameLength := bytes[offset];
      offset := offset + 1;
      if offset + nameLength + 1 > |bytes| {
        return Err(TruncatedName);
      }
      var name := c.utf8(bytes[offset..offset + nameLength]);
      if name.None? {
        return Err(NameNotUtf8);
      }
      offset := offset + nameLength;
      var kind := bytes[offset];
      offset := offset + 1;
      var value := ParseValue(c, bytes, kind, offset);
      if value.Err? {
        return Err(value.error);
      }
      offset := value.value.1;
      if value.value.0.Some? {
        headers := headers[name.value := value.value.0.value];
      }
    }
    return Ok(headers);
  }

  // ---------------------------------------------------------------- frames

  /** What one decoding attempt finds at the front of the buffer. */
  datatype Attempt<+V> = NeedMore | Fail(error: DecodeError) | Frame(event: KiroEvent<V>, length: nat)

  function CheckCrc<J, V>(c: Codec<J, V>, frame: seq<Byte>): (r: Option<DecodeError>)
    requires |frame| >= MIN_FRAME_LENGTH
  {
    var prelude, message := U32At(frame, 8), U32At(frame, |frame| - 4);
    if prelude != 0 && c.crc(frame[..8]) != prelude then Some(PreludeCrcMismatch)
    else if message != 0 && c.crc(frame[..|frame| - 4]) != message then Some(MessageCrcMismatch)
    else None
  }

  /** The checks `decode` makes on a frame that has fully arrived. */
  function ReadFrame<J, V>(c: Codec<J, V>, frame: seq<Byte>, headersLength: nat): (r: Attempt<V>)
    requires |frame| >= MIN_FRAME_LENGTH && headersLength <= |frame| - MIN_FRAME_LENGTH
    ensures r.Frame? ==> r.length == |frame|
    ensures !r.NeedMore?
  {
    if CheckCrc(c, frame).Some? then Fail(CheckCrc(c, frame).value)
    else
      match ParseHeaders(c, frame[12..12 + headersLength], 0, map[])
      case Err(e) => Fail(InvalidHeader(e))
      case Ok(headers) =>
        match c.json(frame[12 + headersLength..|frame| - 4])
        case Err(detail) => Fail(InvalidJson(detail))
        case Ok(value) => Frame(c.toEvent(headers, value), |frame|)
  }

  function DecodeFrame<J, V>(c: Codec<J, V>, s: seq<Byte>): (r: Attempt<V>)
    ensures r.Frame? ==> MIN_FRAME_LENGTH <= r.length <= |s|
  {
    if |s| < MIN_FRAME_LENGTH then NeedMore
    else
      var total, headersLength := U32At(s, 0), U32At(s, 4);
      if !(MIN_FRAME_LENGTH <= total <= MAX_FRAME_LENGTH) then Fail(InvalidLength(total))
      else if headersLength > total - MIN_FRAME_LENGTH then Fail(InvalidHeadersLength(headersLength, total))
      else if |s| < total then NeedMore
      else ReadFrame(c, s[..total], headersLength)
  }

  /** Bytes that arrive later never change what an attempt already found. */
  lemma {:induction false} LaterBytesDoNotMatter<J, V>(c: Codec<J, V>, s: seq<Byte>, later: seq<Byte>)
    requires !DecodeFrame(c, s).NeedMore?
    ensures DecodeFrame(c, s + later) == DecodeFrame(c, s)
  {
    var total := U32At(s, 0);
    assert U32At(s + later, 0) == total && U32At(s + later, 4) == U32At(s, 4);
    if total <= |s| {
      assert (s + later)[..total] == s[..total];
    }
  }

  /** The receive buffer together with the operations the codec performs on it. */
  class FrameBuffer {
    var source: seq<Byte>

    constructor ()
      ensures source == []
    {
      source := [];
    }

    method Extend(chunk: seq<Byte>)
      modifies this
      ensures source == old(source) + chunk
    {
      source := source + chunk;
    }

    /** `decode`: a frame leaves the buffer exactly when its event is returned. */
    method Decode<J, V>(c: Codec<J, V>) returns (r: Result<Option<KiroEvent<V>>, DecodeError>)
      modifies this
      ensures match DecodeFrame(c, old(source))
              case NeedMore => r == Ok(None) && source == old(source)
              case Fail(e) => r == Err(e) && source == old(source)
              case Frame(event, n) => r == Ok(Some(event)) && source == old(source)[n..]
    {
      if |source| < MIN_FRAME_LENGTH {
        return Ok(None);
      }
      var total, headersLength := U32At(source, 0), U32At(source, 4);
      if !(MIN_FRAME_LENGTH <= total <= MAX_FRAME_LENGTH) {
        return Err(InvalidLength(total));
      }
      if headersLength > total - MIN_FRAME_LENGTH {
        return Err(InvalidHeadersLength(headersLength, total));
      }
      if |source| < total {
        return Ok(None);
      }
      var bad := CheckCrc(c, source[..total]);
      if bad.Some? {
        return Err(bad.value);
      }
      assert source[..total][12..12 + headersLength] == source[12..12 + headersLength];
      var headers := ParseHeadersLoop(c, source[12..12 + headersLength]);
      if headers.Err? {
        return Err(InvalidHeader(headers.error));
      }
      assert source[..total][12 + headersLength..total - 4] == source[12 + headersLength..total - 4];
      var value := c.json(source[12 + headersLength..total - 4]);
      if value.Err? {
        return Err(InvalidJson(value.error));
      }
      source := source[total..];
      return Ok(Some(c.toEvent(headers.value, value.value)));
    }

    /** `decode_eof`: bytes that cannot be completed any more are an error. */
    method DecodeEof<J, V>(c: Codec<J, V>) returns (r: Result<Option<KiroEvent<V>>, DecodeError>)
      modifies this
      ensures match DecodeFrame(c, old(source))
              case NeedMore =>
                && source == old(source)
                && r == if source == [] then Ok(None) else Err(Incomplete(|source|))
              case Fail(e) => r == Err(e) && source == old(source)
              case Frame(event, n) => r == Ok(Some(event)) && source == old(source)[n..]
    {
      r := Decode(c);
      if r == Ok(None) && source != [] {
        r := Err(Incomplete(|source|));
      }
    }
  }

  // ---------------------------------------------------------------- streams

  datatype StreamError =
    | Transport(reason: string)
    | Protocol(error: DecodeError)
    | Upstream(kind: string, message: string)

  type Stream<V> = Result<seq<V>, StreamError>

  function Prepend<V>(first: seq<V>, rest: Stream<V>): Stream<V> {
    match rest
    case Ok(events) => Ok(first + events)
    case Err(e) => Err(e)
  }

  /**
   The meaning of a whole response body: its frames read one after another with no notion of
   chunks. `broken` is the transport error that cut the body short, if one did.
   */
  function DecodeBody<J, V>(c: Codec<J, V>, s: seq<Byte>, broken: Option<string>): Stream<V>
    decreases |s|
  {
    match DecodeFrame(c, s)
    case Fail(e) => Err(Protocol(e))
    case Frame(Failure(kind, message), _) => Err(Upstream(kind, message))
    case Frame(Event(body), n) => Prepend([body], DecodeBody(c, s[n..], broken))
    case NeedMore =>
      if broken.Some? then Err(Transport(broken.value))
      else if s == [] then Ok([])
      else Err(Protocol(Incomplete(|s|)))
  }

  function Concat(chunks: seq<seq<Byte>>): seq<Byte> {
    if chunks == [] then [] else chunks[0] + Concat(chunks[1..])
  }

  /** One decoding step of the feed loop, seen from the bytes that are still to come. */
  lemma {:induction false} StepOfBody<J, V>(c: Codec<J, V>, buffer: seq<Byte>, later: seq<Byte>, broken: Option<string>)
    requires !DecodeFrame(c, buffer).NeedMore?
    ensures DecodeBody(c, buffer + later, broken) ==
            match DecodeFrame(c, buffer)
            case Fail(e) => Err(Protocol(e))
            case Frame(Failure(kind, message), _) => Err(Upstream(kind, message))
            case Frame(Event(body), n) => Prepend([body], DecodeBody(c, buffer[n..] + later, broken))
  {
    LaterBytesDoNotMatter(c, buffer, later);
    match DecodeFrame(c, buffer)
    case Fail(e) =>
    case Frame(event, n) => assert (buffer + later)[n..] == buffer[n..] + later;
  }

  /** The inner loop of `collect_events`: takes every event that has fully arrived. */
  method DrainBuffer<J, V>(c: Codec<J, V>, buffer: FrameBuffer, ghost later: seq<Byte>, ghost broken: Option<string>)
    returns (r: Stream<V>)
    modifies buffer
    ensures match r
            case Ok(events) =>
              && DecodeFrame(c, buffer.source).NeedMore?
              && DecodeBody(c, old(buffer.source) + later, broken)
                 == Prepend(events, DecodeBody(c, buffer.source + later, broken))
            case Err(e) => DecodeBody(c, old(buffer.source) + later, broken) == Err(e)
  {
    var output: seq<V> := [];
    ghost var target := DecodeBody(c, buffer.source + later, broken);
    PrependNothing(target);
    while true
      invariant target == Prepend(output, DecodeBody(c, buffer.source + later, broken))
      decreases |buffer.source|
    {
      ghost var before := buffer.source;
      var event := buffer.Decode(c);
      if event == Ok(None) {
        return Ok(output);
      }
      StepOfBody(c, before, later, broken);
      if event.Err? {
        return Err(Protocol(event.error));
      }
      if event.value.value.Failure? {
        return Err(Upstream(event.value.value.kind, event.value.value.message));
      }
      PrependTwice(output, [event.value.value.body], DecodeBody(c, buffer.source + later, broken));
      output := output + [event.value.value.body];
    }
  }

  /** The last loop of `collect_events`, at the end of a body that was not cut short. */
  method DrainAtEnd<J, V>(c: Codec<J, V>, buffer: FrameBuffer) returns (r: Stream<V>)
    modifies buffer
    ensures r == DecodeBody(c, old(buffer.source), None)
  {
    var output: seq<V> := [];
    ghost var target := DecodeBody(c, buffer.source, None);
    PrependNothing(target);
    while true
      invariant target == Prepend(output, DecodeBody(c, buffer.source, None))
      decreases |buffer.source|
    {
      var event := buffer.DecodeEof(c);
      if event.Err? {
        return Err(Protocol(event.error));
      }
      if event.value.None? {
        assert output + [] == output;
        return Ok(output);
      }
      if event.value.value.Failure? {
        return Err(Upstream(event.value.value.kind, event.value.value.message));
      }
      PrependTwice(output, [event.value.value.body], DecodeBody(c, buffer.source, None));
      output := output + [event.value.value.body];
    }
  }

  /**
   `collect_events`. However the body was cut into chunks, the outcome is that of the body read
   at once: the same events in the same order, or the same first error.
   */
  method CollectEvents<J, V>(c: Codec<J, V>, chunks: seq<seq<Byte>>, broken: Option<string>) returns (r: Stream<V>)
    ensures r == DecodeBody(c, Concat(chunks), broken)
  {
    var buffer := new FrameBuffer();
    var output: seq<V> := [];
    ghost var target := DecodeBody(c, Concat(chunks), broken);
    assert chunks[0..] == chunks && [] + Concat(chunks) == Concat(chunks);
    PrependNothing(target);
    for i := 0 to |chunks|
      invariant fresh(buffer)
      invariant DecodeFrame(c, buffer.source).NeedMore?
      invariant target == Prepend(output, DecodeBody(c, buffer.source + Concat(chunks[i..]), broken))
    {
      ghost var later := Concat(chunks[i + 1..]);
      assert chunks[i..][1..] == chunks[i + 1..];
      assert buffer.source + Concat(chunks[i..]) == buffer.source + chunks[i] + later;
      buffer.Extend(chunks[i]);
      var events := DrainBuffer(c, buffer, later, broken);
      if events.Err? {
        return Err(events.error);
      }
      PrependTwice(output, events.value, DecodeBody(c, buffer.source + later, broken));
      output := output + events.value;
    }
    assert buffer.source + Concat(chunks[|chunks|..]) == buffer.source;
    if broken.Some? {
      return Err(Transport(broken.value));
    }
    var last := DrainAtEnd(c, buffer);
    r := Prepend(output, last);
  }

  lemma PrependNothing<V>(s: Stream<V>)
    ensures Prepend([], s) == s
  {
    if s.Ok? {
      assert [] + s.value == s.value;
    }
  }

  lemma PrependTwice<V>(a: seq<V>, b: seq<V>, s: Stream<V>)
    ensures Prepend(a, Prepend(b, s)) == Prepend(a + b, s)
  {
    if s.Ok? {
      assert a + (b + s.value) == a + b + s.value;
    }
  }
}
