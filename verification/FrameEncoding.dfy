/**
 The wire format that the decoder of `EventStream` reads, written the other way round: an encoder
 for headers, frames and bodies. The lemmas make the decoder its exact inverse.
 */
module FrameEncoding {
  import opened Wrappers
  import opened EventStream

  /** A header value: eight kinds of fixed size, byte arrays (6) and strings (7). */
  datatype HeaderValue =
    | Fixed(kind: Byte, raw: seq<Byte>)
    | ByteArray(raw: seq<Byte>)
    | Text(raw: seq<Byte>)

  datatype Header = Header(name: seq<Byte>, value: HeaderValue)

  datatype FrameData = FrameData(headers: seq<Header>, payload: seq<Byte>)

  /** The widths of the eight fixed kinds: two booleans, integers of 1, 2, 4 and 8 bytes, a time, a UUID. */
  predicate HasWidth(kind: Byte, width: nat) {
    || (kind == 0 && width == 0) || (kind == 1 && width == 0)
    || (kind == 2 && width == 1) || (kind == 3 && width == 2) || (kind == 4 && width == 4) || (kind == 5 && width == 8)
    || (kind == 8 && width == 8) || (kind == 9 && width == 16)
  }

  ghost predicate WellFormedValue<J, V>(c: Codec<J, V>, v: HeaderValue) {
    match v
    case Fixed(kind, raw) => HasWidth(kind, |raw|)
    case ByteArray(raw) => |raw| < 0x1_0000
    case Text(raw) => |raw| < 0x1_0000 && c.utf8(raw).Some?
  }

  predicate Encodable(h: Header) {
    |h.name| < 256 && (!h.value.Fixed? ==> |h.value.raw| < 0x1_0000)
  }

  ghost predicate WellFormedHeader<J, V>(c: Codec<J, V>, h: Header)
    ensures WellFormedHeader(c, h) ==> Encodable(h)
  {
    |h.name| < 256 && c.utf8(h.name).Some? && WellFormedValue(c, h.value)
  }

  function U16Bytes(n: nat): (s: seq<Byte>)
    requires n < 0x1_0000
    ensures |s| == 2 && U16At(s, 0) == n
  {
    [n / 256, n % 256]
  }

  function U32Bytes(n: U32): (s: seq<Byte>)
    ensures |s| == 4 && U32At(s, 0) == n
  {
    var s := U16Bytes(n / 0x1_0000) + U16Bytes(n % 0x1_0000);
    assert U16At(s, 0) == U16At(U16Bytes(n / 0x1_0000), 0) && U16At(s, 2) == U16At(U16Bytes(n % 0x1_0000), 0);
    s
  }

  function EncodeValue(v: HeaderValue): seq<Byte>
    requires !v.Fixed? ==> |v.raw| < 0x1_0000
  {
    match v
    case Fixed(kind, raw) => [kind] + raw
    case ByteArray(raw) => [6] + U16Bytes(|raw|) + raw
    case Text(raw) => [7] + U16Bytes(|raw|) + raw
  }

  function EncodeHeader(h: Header): (s: seq<Byte>)
    requires Encodable(h)
  {
    [|h.name|] + h.name + EncodeValue(h.value)
  }

  ghost predicate WellFormedHeaders<J, V>(c: Codec<J, V>, hs: seq<Header>) {
    forall i :: 0 <= i < |hs| ==> WellFormedHeader(c, hs[i])
  }

  ghost function EncodeHeaders<J, V>(c: Codec<J, V>, hs: seq<Header>): seq<Byte>
    requires WellFormedHeaders(c, hs)
  {
    if hs == [] then [] else EncodeHeader(hs[0]) + EncodeHeaders(c, hs[1..])
  }

  /** The entry a header contributes: only strings are kept. */
  ghost function Entry<J, V>(c: Codec<J, V>, h: Header): Option<(string, string)>
    requires WellFormedHeader(c, h)
  {
    if h.value.Text? then Some((c.utf8(h.name).value, c.utf8(h.value.raw).value)) else None
  }

  /** The string headers of a list; a later duplicate replaces an earlier one. */
  ghost function StringHeaders<J, V>(c: Codec<J, V>, hs: seq<Header>): map<string, string>
    requires WellFormedHeaders(c, hs)
  {
    if hs == [] then map[]
    else Put(StringHeaders(c, hs[..|hs| - 1]), Entry(c, hs[|hs| - 1]))
  }

  // ---------------------------------------------------------------- headers

  lemma SliceOfSlice<T>(s: seq<T>, a: nat, b: nat, c: nat, d: nat)
    requires a <= b <= |s| && c <= d <= b - a
    ensures s[a..b][c..d] == s[a + c..a + d]
  {
    assert forall i :: 0 <= i < d - c ==> s[a..b][c..d][i] == s[a..b][c + i] == s[a + c..a + d][i];
  }

  lemma {:induction false} ParseEncodedHeader<J, V>(c: Codec<J, V>, h: Header, b: seq<Byte>, start: nat)
    requires WellFormedHeader(c, h)
    requires start + |EncodeHeader(h)| <= |b|
    requires b[start..start + |EncodeHeader(h)|] == EncodeHeader(h)
    ensures ParseHeader(c, b, start) == Ok((Entry(c, h), start + |EncodeHeader(h)|))
  {
    HeaderBytes(h, b, start);
    hide EncodeHeader, EncodeValue, ParseValue, WellFormedValue;
    ParseEncodedValue(c, h.value, b, start + 2 + |h.name|);
  }

  /** Where the parts of an encoded header stand in the block. */
  lemma {:induction false} HeaderBytes(h: Header, b: seq<Byte>, start: nat)
    requires Encodable(h) && start + |EncodeHeader(h)| <= |b| && b[start..start + |EncodeHeader(h)|] == EncodeHeader(h)
    ensures var n, at, end := |h.name|, start + 2 + |h.name|, start + |EncodeHeader(h)|;
            && at <= end == at - 1 + |EncodeValue(h.value)|
            && b[start] == n && b[start + 1..at - 1] == h.name && b[at - 1..end] == EncodeValue(h.value)
  {
    EncodedHeaderParts(h);
    hide EncodeHeader, EncodeValue;
    var e, n := EncodeHeader(h), |h.name|;
    assert b[start] == b[start..start + |e|][0];
    SliceOfSlice(b, start, start + |e|, 1, 1 + n);
    SliceOfSlice(b, start, start + |e|, 1 + n, |e|);
  }

  lemma {:induction false} EncodedHeaderParts(h: Header)
    requires Encodable(h)
    ensures var e, n := EncodeHeader(h), |h.name|;
            && |EncodeValue(h.value)| >= 1 && |e| == 1 + n + |EncodeValue(h.value)|
            && e[0] == n && e[1..1 + n] == h.name && e[1 + n..] == EncodeValue(h.value)
  {
    assert |EncodeValue(h.value)| >= 1;
    hide EncodeValue;
  }

  lemma {:induction false} ParseEncodedValue<J, V>(c: Codec<J, V>, v: HeaderValue, b: seq<Byte>, at: nat)
    requires WellFormedValue(c, v)
    requires 1 <= at && at - 1 + |EncodeValue(v)| <= |b|
    requires b[at - 1..at - 1 + |EncodeValue(v)|] == EncodeValue(v)
    ensures ParseValue(c, b, b[at - 1], at) == Ok((if v.Text? then c.utf8(v.raw) else None, at - 1 + |EncodeValue(v)|))
  {
    var e := EncodeValue(v);
    var w := b[at - 1..at - 1 + |e|];
    assert b[at - 1] == w[0] == e[0];
    if !v.Fixed? {
      assert b[at] == w[1] == U16Bytes(|v.raw|)[0] && b[at + 1] == w[2] == U16Bytes(|v.raw|)[1];
      assert b[at + 2..at - 1 + |e|] == w[3..] == v.raw;
    }
  }

  /** The header that a successful parse read. */
  ghost function HeaderAt<J, V>(c: Codec<J, V>, b: seq<Byte>, start: nat): Header
    requires start < |b| && ParseHeader(c, b, start).Ok?
  {
    var at, end := start + 2 + b[start], ParseHeader(c, b, start).value.1;
    Header(b[start + 1..at - 1], ValueAt(c, b, at, end))
  }

  ghost function ValueAt<J, V>(c: Codec<J, V>, b: seq<Byte>, at: nat, end: nat): (v: HeaderValue)
    requires 1 <= at <= |b|
    requires ParseValue(c, b, b[at - 1], at).Ok? && ParseValue(c, b, b[at - 1], at).value.1 == end
    ensures WellFormedValue(c, v)
    ensures EncodeValue(v) == b[at - 1..end]
    ensures ParseValue(c, b, b[at - 1], at).value.0 == if v.Text? then c.utf8(v.raw) else None
  {
    var kind := b[at - 1];
    if kind == 7 || kind == 6 then
      var raw := b[at + 2..end];
      assert b[at - 1..end] == [kind] + [b[at], b[at + 1]] + raw;
      assert U16Bytes(|raw|) == [b[at], b[at + 1]];
      if kind == 7 then Text(raw) else ByteArray(raw)
    else
      assert b[at - 1..end] == [kind] + b[at..end];
      Fixed(kind, b[at..end])
  }

  lemma {:induction false} ParsedHeader<J, V>(c: Codec<J, V>, b: seq<Byte>, start: nat)
    requires start < |b| && ParseHeader(c, b, start).Ok?
    ensures var h := HeaderAt(c, b, start);
            && WellFormedHeader(c, h)
            && Entry(c, h) == ParseHeader(c, b, start).value.0
            && EncodeHeader(h) == b[start..ParseHeader(c, b, start).value.1]
  {
    var at, end := start + 2 + b[start], ParseHeader(c, b, start).value.1;
    assert b[start..end] == [b[start]] + b[start + 1..at - 1] + b[at - 1..end];
  }

  lemma {:induction false} ParseEncodedFrom<J, V>(c: Codec<J, V>, done: seq<Header>, hs: seq<Header>, b: seq<Byte>, start: nat)
    requires WellFormedHeaders(c, done) && WellFormedHeaders(c, hs)
    requires start <= |b| && b[start..] == EncodeHeaders(c, hs)
    ensures WellFormedHeaders(c, done + hs)
    ensures ParseHeaders(c, b, start, StringHeaders(c, done)) == Ok(StringHeaders(c, done + hs))
    decreases |hs|
  {
    hide ParseHeader, EncodeHeader, Entry, WellFormedHeader, Encodable;
    if hs == [] {
      assert done + hs == done;
    } else {
      var e := EncodeHeader(hs[0]);
      assert b[start..start + |e|] == b[start..][..|e|] == e;
      ParseEncodedHeader(c, hs[0], b, start);
      assert b[start + |e|..] == b[start..][|e|..] == EncodeHeaders(c, hs[1..]);
      var next := done + [hs[0]];
      assert next[..|next| - 1] == done;
      ParseEncodedFrom(c, next, hs[1..], b, start + |e|);
      assert next + hs[1..] == done + hs;
    }
  }

  /** Parsing undoes encoding, for headers of all ten kinds. */
  lemma {:induction false} HeadersRoundTrip<J, V>(c: Codec<J, V>, hs: seq<Header>)
    requires WellFormedHeaders(c, hs)
    ensures ParseHeaders(c, EncodeHeaders(c, hs), 0, map[]) == Ok(StringHeaders(c, hs))
  {
    var b := EncodeHeaders(c, hs);
    assert b[0..] == b && [] + hs == hs;
    ParseEncodedFrom(c, [], hs, b, 0);
  }

  ghost predicate Encodes<J, V>(c: Codec<J, V>, hs: seq<Header>, b: seq<Byte>) {
    WellFormedHeaders(c, hs) && EncodeHeaders(c, hs) == b
  }

  /** Reads back the list of headers that a successful parse went through. */
  lemma {:induction false} ParsedHeadersFrom<J, V>(c: Codec<J, V>, b: seq<Byte>, start: nat, acc: map<string, string>) returns (hs: seq<Header>)
    requires start <= |b| && ParseHeaders(c, b, start, acc).Ok?
    ensures Encodes(c, hs, b[start..])
    decreases |b| - start
  {
    hide ParseHeader, EncodeHeader, Entry, HeaderAt;
    if start == |b| {
      hs := [];
    } else {
      var h := HeaderAt(c, b, start);
      ParsedHeader(c, b, start);
      var (entry, end) := ParseHeader(c, b, start).value;
      var rest := ParsedHeadersFrom(c, b, end, Put(acc, entry));
      hs := [h] + rest;
      assert hs[1..] == rest;
      assert b[start..] == b[start..end] + b[end..];
    }
  }

  /** `parse_headers` accepts exactly the encodings of well-formed header lists. */
  lemma {:induction false} ParseAcceptsExactlyEncodings<J, V>(c: Codec<J, V>, b: seq<Byte>)
    ensures ParseHeaders(c, b, 0, map[]).Ok? <==> exists hs :: Encodes(c, hs, b)
  {
    if ParseHeaders(c, b, 0, map[]).Ok? {
      var hs := ParsedHeadersFrom(c, b, 0, map[]);
      assert b[0..] == b;
      assert Encodes(c, hs, b);
    }
    if hs :| Encodes(c, hs, b) {
      HeadersRoundTrip(c, hs);
    }
  }

  // ---------------------------------------------------------------- frames

  ghost predicate WellFormedFrame<J, V>(c: Codec<J, V>, f: FrameData) {
    && WellFormedHeaders(c, f.headers)
    && 16 + |EncodeHeaders(c, f.headers)| + |f.payload| <= 52428800
    && c.json(f.payload).Ok?
  }

  /** A CRC field holds the checksum, or zero where the sender left it out. */
  ghost predicate CrcField(expected: U32, field: U32) {
    field == expected || field == 0
  }

  /** `s` is frame `f` on the wire, with either form of each CRC. */
  ghost predicate IsFrame<J, V>(c: Codec<J, V>, f: FrameData, s: seq<Byte>)
    requires WellFormedFrame(c, f)
  {
    var hs := EncodeHeaders(c, f.headers);
    var total := 16 + |hs| + |f.payload|;
    && |s| == total
    && s[..8] == U32Bytes(total) + U32Bytes(|hs|)
    && CrcField(c.crc(s[..8]), U32At(s, 8))
    && s[12..12 + |hs|] == hs
    && s[12 + |hs|..total - 4] == f.payload
    && CrcField(c.crc(s[..total - 4]), U32At(s, total - 4))
  }

  ghost function FrameEvent<J, V>(c: Codec<J, V>, f: FrameData): KiroEvent<V>
    requires WellFormedFrame(c, f)
  {
    c.toEvent(StringHeaders(c, f.headers), c.json(f.payload).value)
  }

  lemma {:induction false} PreludeLengths(s: seq<Byte>, total: U32, headers: U32)
    requires |s| >= 8
    ensures s[..8] == U32Bytes(total) + U32Bytes(headers) <==> U32At(s, 0) == total && U32At(s, 4) == headers
  {
    var p := U32Bytes(total) + U32Bytes(headers);
    assert U32At(p, 0) == U32At(U32Bytes(total), 0) && U32At(p, 4) == U32At(U32Bytes(headers), 0);
    if s[..8] == p {
      assert forall i :: 0 <= i < 8 ==> s[i] == s[..8][i];
      assert U32At(s, 0) == U32At(p, 0) && U32At(s, 4) == U32At(p, 4);
    }
    if U32At(s, 0) == total && U32At(s, 4) == headers {
      SameU32(s, 0, p, 0);
      SameU32(s, 4, p, 4);
      assert s[..8] == p;
    }
  }

  lemma SameU32(s: seq<Byte>, i: nat, t: seq<Byte>, j: nat)
    requires i + 4 <= |s| && j + 4 <= |t| && U32At(s, i) == U32At(t, j)
    ensures s[i..i + 4] == t[j..j + 4]
    ensures s[i] == t[j] && s[i + 1] == t[j + 1] && s[i + 2] == t[j + 2] && s[i + 3] == t[j + 3]
  {
    assert U16At(s, i) == U16At(t, j) && U16At(s, i + 2) == U16At(t, j + 2);
    assert s[i] == t[j] && s[i + 1] == t[j + 1] && s[i + 2] == t[j + 2] && s[i + 3] == t[j + 3];
  }

  /** A frame is decoded whole, whatever follows it. */
  lemma {:induction false} FrameRoundTrip<J, V>(c: Codec<J, V>, f: FrameData, s: seq<Byte>, later: seq<Byte>)
    requires WellFormedFrame(c, f) && IsFrame(c, f, s)
    ensures DecodeFrame(c, s + later) == Frame(FrameEvent(c, f), |s|)
  {
    hide ParseHeaders, EncodeHeaders, WellFormedHeaders, StringHeaders, U16At;
    var n := |EncodeHeaders(c, f.headers)|;
    PreludeLengths(s, |s|, n);
    assert s[..|s|] == s;
    assert DecodeFrame(c, s) == ReadFrame(c, s, n);
    assert ReadFrame(c, s, n) == Frame(FrameEvent(c, f), |s|) by {
      HeadersRoundTrip(c, f.headers);
    }
    LaterBytesDoNotMatter(c, s, later);
  }

  lemma {:induction false} U32OfPrefix(s: seq<Byte>, n: nat, i: nat)
    requires i + 4 <= n <= |s|
    ensures U32At(s[..n], i) == U32At(s, i)
  {
    assert U16At(s[..n], i) == U16At(s, i) && U16At(s[..n], i + 2) == U16At(s, i + 2);
  }

  /** Whatever `decode` accepts is a well-formed frame on the wire. */
  lemma {:induction false} AcceptedIsFrame<J, V>(c: Codec<J, V>, s: seq<Byte>) returns (f: FrameData)
    requires DecodeFrame(c, s).Frame?
    ensures WellFormedFrame(c, f) && IsFrame(c, f, s[..DecodeFrame(c, s).length])
  {
    hide ParseHeaders, EncodeHeaders, WellFormedHeaders, StringHeaders, U16At;
    var total, n := U32At(s, 0), U32At(s, 4);
    var w := s[..total];
    var hs := ParsedHeadersFrom(c, w[12..12 + n], 0, map[]);
    assert w[12..12 + n][0..] == w[12..12 + n];
    f := FrameData(hs, w[12 + n..total - 4]);
    U32OfPrefix(s, total, 0);
    U32OfPrefix(s, total, 4);
    PreludeLengths(w, total, n);
  }

  ghost predicate StartsWithFrame<J, V>(c: Codec<J, V>, s: seq<Byte>, f: FrameData, n: nat) {
    n <= |s| && WellFormedFrame(c, f) && IsFrame(c, f, s[..n])
  }

  /** `decode` yields an event exactly when the buffer starts with a well-formed frame. */
  lemma {:induction false} DecodeAcceptsExactlyFrames<J, V>(c: Codec<J, V>, s: seq<Byte>)
    ensures DecodeFrame(c, s).Frame? <==> exists f, n: nat :: StartsWithFrame(c, s, f, n)
  {
    if DecodeFrame(c, s).Frame? {
      var f := AcceptedIsFrame(c, s);
      assert StartsWithFrame(c, s, f, DecodeFrame(c, s).length);
    }
    if f, n: nat :| StartsWithFrame(c, s, f, n) {
      FrameRoundTrip(c, f, s[..n], s[n..]);
      assert s[..n] + s[n..] == s;
    }
  }

  /** A big-endian number of four bytes. */
  function BigEndian(s: seq<Byte>, i: nat): nat
    requires i + 4 <= |s|
  {
    s[i] as nat * 16777216 + s[i + 1] as nat * 65536 + s[i + 2] as nat * 256 + s[i + 3] as nat
  }

  lemma {:induction false} U32IsBigEndian(s: seq<Byte>, i: nat)
    requires i + 4 <= |s|
    ensures U32At(s, i) == BigEndian(s, i)
  {
  }

  /** The lengths in the prelude are possible: 16 bytes to 50 MiB, with room for the headers. */
  predicate LengthsFit(s: seq<Byte>)
    requires |s| >= 16
  {
    16 <= BigEndian(s, 0) <= 52428800 && 16 + BigEndian(s, 4) <= BigEndian(s, 0)
  }

  /** `decode` waits exactly while the prelude, or a frame of possible lengths, is incomplete. */
  lemma {:induction false} WaitsExactly<J, V>(c: Codec<J, V>, s: seq<Byte>)
    ensures DecodeFrame(c, s).NeedMore? <==> |s| < 16 || (LengthsFit(s) && |s| < BigEndian(s, 0))
  {
    hide ReadFrame;
    if |s| >= 16 {
      U32IsBigEndian(s, 0);
      U32IsBigEndian(s, 4);
    }
  }

  /** Which length, and which checksum, is refused. */
  lemma {:induction false} RefusesExactly<J, V>(c: Codec<J, V>, s: seq<Byte>)
    requires |s| >= 16
    ensures var total, headers := BigEndian(s, 0), BigEndian(s, 4);
            && (DecodeFrame(c, s) == Fail(InvalidLength(total)) <==> total < 16 || 52428800 < total)
            && (DecodeFrame(c, s) == Fail(InvalidHeadersLength(headers, total)) <==> 16 <= total <= 52428800 && total < 16 + headers)
    ensures LengthsFit(s) && BigEndian(s, 0) <= |s| ==>
            var total := BigEndian(s, 0);
            var prelude, message := BigEndian(s, 8), BigEndian(s, total - 4);
            && (DecodeFrame(c, s) == Fail(PreludeCrcMismatch) <==> prelude != 0 && prelude != c.crc(s[..8]))
            && (DecodeFrame(c, s) == Fail(MessageCrcMismatch) <==>
                  (prelude == 0 || prelude == c.crc(s[..8])) && message != 0 && message != c.crc(s[..total - 4]))
  {
    U32IsBigEndian(s, 0);
    U32IsBigEndian(s, 4);
    if LengthsFit(s) && BigEndian(s, 0) <= |s| {
      var total := BigEndian(s, 0);
      U32IsBigEndian(s, 8);
      U32IsBigEndian(s, total - 4);
      U32OfPrefix(s, total, 8);
      U32OfPrefix(s, total, total - 4);
      assert s[..total][..8] == s[..8] && s[..total][..total - 4] == s[..total - 4];
      hide U32At, BigEndian, ParseHeaders;
    } else {
      hide ReadFrame;
    }
  }

  ghost predicate AreFrames<J, V>(c: Codec<J, V>, fs: seq<FrameData>, ws: seq<seq<Byte>>) {
    |fs| == |ws| && forall i :: 0 <= i < |fs| ==> WellFormedFrame(c, fs[i]) && IsFrame(c, fs[i], ws[i])
  }

  /** Events up to the first upstream error, which ends the stream. */
  ghost function FrameEvents<J, V>(c: Codec<J, V>, fs: seq<FrameData>): Stream<V>
    requires forall i :: 0 <= i < |fs| ==> WellFormedFrame(c, fs[i])
  {
    if fs == [] then Ok([])
    else
      match FrameEvent(c, fs[0])
      case Failure(kind, message) => Err(Upstream(kind, message))
      case Event(body) => Prepend([body], FrameEvents(c, fs[1..]))
  }

  /** Concatenated frames decode to their events, and no byte is left over. */
  lemma {:induction false} BodyRoundTrip<J, V>(c: Codec<J, V>, fs: seq<FrameData>, ws: seq<seq<Byte>>)
    requires AreFrames(c, fs, ws)
    ensures DecodeBody(c, Concat(ws), None) == FrameEvents(c, fs)
  {
    if fs != [] {
      var rest := Concat(ws[1..]);
      FrameRoundTrip(c, fs[0], ws[0], rest);
      assert (ws[0] + rest)[|ws[0]|..] == rest;
      BodyRoundTrip(c, fs[1..], ws[1..]);
    }
  }
}
