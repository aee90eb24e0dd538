/** The binary event-stream framing: length-prefixed messages with two checksums and string headers. */
module EventStream {
  import opened Seqs

  type Byte = n: nat | n < 256 witness 0

  type Octets = seq<Byte>

  datatype Header = Header(name: string, value: string)

  /** A dict of headers, in insertion order. */
  type Headers = seq<Header>

  datatype Message = Message(headers: Headers, payload: Octets)

  /** UTF-8 and CRC-32. */
  datatype Codec = Codec(utf8: string -> Octets, text: Octets -> Option<string>, crc: Octets -> nat) {
    ghost predicate Contract() {
      && (forall s: string :: text(utf8(s)) == Some(s))
      && forall b: Octets :: crc(b) < 0x1_0000_0000
    }
  }

  datatype Problem =
    | TruncatedPrelude
    | PreludeCrcMismatch
    | TruncatedMessage
    | MessageCrcMismatch
    | UnsupportedHeaderType
    | StructError   // an unpack outside the buffer, or a pack out of range
    | UnicodeError
    | TooLong       // a header name or value over its length field

  datatype Outcome<T> = Good(value: T) | Bad(problem: Problem)

  const PRELUDE_LEN := 12
  const STRING_TYPE: Byte := 7

  // ---- struct ---------------------------------------------------------------------------------------------

  function U16(n: nat): (b: Octets)
    requires n < 0x1_0000
    ensures |b| == 2
  {
    [n / 256, n % 256]
  }

  function U32(n: nat): (b: Octets)
    requires n < 0x1_0000_0000
    ensures |b| == 4
  {
    [n / 0x100_0000, n / 0x1_0000 % 256, n / 256 % 256, n % 256]
  }

  function Big16(b: Octets): nat
    requires |b| == 2
  {
    b[0] as nat * 256 + b[1] as nat
  }

  function Big32(b: Octets): nat
    requires |b| == 4
  {
    b[0] as nat * 0x100_0000 + b[1] as nat * 0x1_0000 + b[2] as nat * 256 + b[3] as nat
  }

  lemma Reads16(n: nat)
    ensures n < 0x1_0000 ==> Big16(U16(n)) == n
  {
  }

  lemma HighBytes(n: nat)
    ensures n / 0x1_0000 == n / 256 / 256 && n / 0x100_0000 == n / 0x1_0000 / 256
  {
  }

  lemma Reads32(n: nat)
    ensures n < 0x1_0000_0000 ==> Big32(U32(n)) == n
  {
    HighBytes(n);
    var a := n / 256;
    var b := a / 256;
    assert n == a * 256 + n % 256 && a == b * 256 + a % 256 && b == b / 256 * 256 + b % 256;
  }

  /** Where `unpack_from` starts: a negative offset counts from the end, and must leave room for the item. */
  function Offset(length: nat, offset: int, size: nat): Option<nat> {
    var at := if offset < 0 then offset + length else offset;
    if offset < 0 && offset + size > 0 then None
    else if at < 0 || length - at < size then None
    else Some(at)
  }

  function Unpack32(data: Octets, offset: int): Option<nat> {
    var at := Offset(|data|, offset, 4);
    if at.Some? then Some(Big32(data[at.value..at.value + 4])) else None
  }

  function Clip(i: int, length: nat): (r: nat)
    ensures r <= length
  {
    var at := if i < 0 then i + length else i;
    if at < 0 then 0 else if at > length then length else at
  }

  /** `data[lo:hi]` */
  function Slice(data: Octets, lo: int, hi: int): Octets {
    var from, to := Clip(lo, |data|), Clip(hi, |data|);
    if from <= to then data[from..to] else []
  }

  // ---- encoding -------------------------------------------------------------------------------------------

  function EncodeHeader(codec: Codec, h: Header): Outcome<Octets> {
    var name, value := codec.utf8(h.name), codec.utf8(h.value);
    if |name| > 0xFF || |value| > 0xFFFF then Bad(TooLong)
    else Good([|name|] + name + [STRING_TYPE] + U16(|value|) + value)
  }

  /** `b"".join(...)` over the headers. */
  function EncodeHeaders(codec: Codec, headers: Headers): Outcome<Octets> {
    if headers == [] then Good([])
    else
      var first := EncodeHeader(codec, headers[0]);
      if first.Bad? then first
      else
        var rest := EncodeHeaders(codec, headers[1..]);
        if rest.Bad? then rest else Good(first.value + rest.value)
  }

  /** The frame around encoded headers and a payload. */
  function Framed(codec: Codec, headers: Octets, payload: Octets): Octets
    requires codec.Contract() && PRELUDE_LEN + |headers| + |payload| + 4 < 0x1_0000_0000
  {
    var prelude := U32(PRELUDE_LEN + |headers| + |payload| + 4) + U32(|headers|);
    var body := U32(codec.crc(prelude)) + headers + payload;
    prelude + body + U32(codec.crc(prelude + body))
  }

  function EncodeMessage(codec: Codec, m: Message): Outcome<Octets>
    requires codec.Contract()
  {
    var headers := EncodeHeaders(codec, m.headers);
    if headers.Bad? then headers
    else if PRELUDE_LEN + |headers.value| + |m.payload| + 4 >= 0x1_0000_0000 then Bad(StructError)
    else Good(Framed(codec, headers.value, m.payload))
  }

  // ---- decoding -------------------------------------------------------------------------------------------

  /** `headers[name] = value` */
  function Put(headers: Headers, h: Header): Headers {
    if headers == [] then [h]
    else if headers[0].name == h.name then [h] + headers[1..]
    else [headers[0]] + Put(headers[1..], h)
  }

  datatype HeaderRest = HeaderRest(header: Header, rest: Octets)

  /** A value shorter than its length field is accepted as it is. */
  function DecodeHeader(codec: Codec, data: Octets): (r: Outcome<HeaderRest>)
    ensures r.Good? ==> |r.value.rest| < |data|
  {
    if data == [] then Bad(StructError)
    else
      var nameLen := data[0] as nat;
      var name := codec.text(Slice(data, 1, 1 + nameLen));
      if name == None then Bad(UnicodeError)
      else if 1 + nameLen >= |data| then Bad(StructError)
      else if data[1 + nameLen] != STRING_TYPE then Bad(UnsupportedHeaderType)
      else if |data| - (2 + nameLen) < 2 then Bad(StructError)
      else
        var valueLen := Big16(data[2 + nameLen..4 + nameLen]);
        var value := codec.text(Slice(data, 4 + nameLen, 4 + nameLen + valueLen));
        if value == None then Bad(UnicodeError)
        else Good(HeaderRest(Header(name.value, value.value), Slice(data, 4 + nameLen + valueLen, |data|)))
  }

  function DecodeHeaders(codec: Codec, remaining: Octets, headers: Headers): Outcome<Headers>
    decreases |remaining|
  {
    if remaining == [] then Good(headers)
    else
      var h := DecodeHeader(codec, remaining);
      if h.Bad? then Bad(h.problem) else DecodeHeaders(codec, h.value.rest, Put(headers, h.value.header))
  }

  datatype MessageRest = MessageRest(message: Message, rest: Octets)

  /** Whether the two lengths and checksums fit. */
  function Checked(codec: Codec, data: Octets): Outcome<()> {
    if |data| < PRELUDE_LEN then Bad(TruncatedPrelude)
    else if codec.crc(data[..8]) != Big32(data[8..12]) then Bad(PreludeCrcMismatch)
    else
      var total := Big32(data[..4]);
      if |data| < total then Bad(TruncatedMessage)
      else
        var messageCrc := Unpack32(data, total - 4);
        if messageCrc == None then Bad(StructError)
        else if codec.crc(Slice(data, 0, total - 4)) != messageCrc.value then Bad(MessageCrcMismatch)
        else Good(())
  }

  /** What decoding one message gives. */
  function Decoded(codec: Codec, data: Octets): Outcome<MessageRest> {
    var checked := Checked(codec, data);
    if checked.Bad? then Bad(checked.problem)
    else if |data| < PRELUDE_LEN then Bad(TruncatedPrelude)
    else
      var total, headersEnd := Big32(data[..4]), PRELUDE_LEN + Big32(data[4..8]);
      var headers := DecodeHeaders(codec, Slice(data, PRELUDE_LEN, headersEnd), []);
      if headers.Bad? then Bad(headers.problem)
      else Good(MessageRest(Message(headers.value, Slice(data, headersEnd, total - 4)), Slice(data, total, |data|)))
  }

  method DecodeMessage(codec: Codec, data: Octets) returns (r: Outcome<MessageRest>)
    ensures r == Decoded(codec, data)
  {
    var checked := Checked(codec, data);
    if checked.Bad? {
      return Bad(checked.problem);
    }
    var total: int, headersEnd: int := Big32(data[..4]), PRELUDE_LEN + Big32(data[4..8]);
    var headers: Headers := [];
    var remaining := Slice(data, PRELUDE_LEN, headersEnd);
    ghost var all := remaining;
    while remaining != []
      invariant DecodeHeaders(codec, all, []) == DecodeHeaders(codec, remaining, headers)
      decreases |remaining|
    {
      var h := DecodeHeader(codec, remaining);
      if h.Bad? {
        return Bad(h.problem);
      }
      headers, remaining := Put(headers, h.value.header), h.value.rest;
    }
    return Good(MessageRest(Message(headers, Slice(data, headersEnd, total - 4)), Slice(data, total, |data|)));
  }

  /** `Loops` is a buffer on which the source never returns: a message that leaves everything to decode. */
  datatype Stream = Messages(messages: seq<Message>) | Failed(problem: Problem) | Loops

  lemma RestShrinks(codec: Codec, data: Octets)
    ensures Decoded(codec, data).Good? ==>
              && (Decoded(codec, data).value.rest == data <==> Big32(data[..4]) == 0)
              && (Decoded(codec, data).value.rest != data ==> |Decoded(codec, data).value.rest| < |data|)
  {
    if Decoded(codec, data).Good? {
      var total := Big32(data[..4]);
      assert Slice(data, total, |data|) == data[total..];
    }
  }

  function DecodedAll(codec: Codec, data: Octets): Stream
    decreases |data|
  {
    if data == [] then Messages([])
    else
      var m := Decoded(codec, data);
      if m.Bad? then Failed(m.problem)
      else
        RestShrinks(codec, data);
        if m.value.rest == data then Loops
        else
          var more := DecodedAll(codec, m.value.rest);
          if more.Messages? then Messages([m.value.message] + more.messages) else more
  }

  /** What the rest of a buffer adds to the messages decoded already. */
  function Joined(messages: seq<Message>, more: Stream): Stream {
    if more.Messages? then Messages(messages + more.messages) else more
  }

  method DecodeMessages(codec: Codec, data: Octets) returns (r: Stream)
    ensures r == DecodedAll(codec, data)
  {
    var messages: seq<Message> := [];
    var remaining := data;
    while remaining != []
      invariant DecodedAll(codec, data) == Joined(messages, DecodedAll(codec, remaining))
      decreases |remaining|
    {
      var m := DecodeMessage(codec, remaining);
      if m.Bad? {
        return Failed(m.problem);
      }
      RestShrinks(codec, remaining);
      if m.value.rest == remaining {
        return Loops;
      }
      JoinOne(messages, m.value.message, DecodedAll(codec, m.value.rest));
      messages, remaining := messages + [m.value.message], m.value.rest;
    }
    assert messages + [] == messages;
    return Messages(messages);
  }

  lemma JoinOne(messages: seq<Message>, m: Message, more: Stream)
    ensures Joined(messages, if more.Messages? then Messages([m] + more.messages) else more)
         == Joined(messages + [m], more)
  {
    if more.Messages? {
      assert messages + ([m] + more.messages) == messages + [m] + more.messages;
    }
  }

  // ---- round trips ----------------------------------------------------------------------------------------

  ghost predicate DistinctNames(headers: Headers) {
    forall i, j :: 0 <= i < j < |headers| ==> headers[i].name != headers[j].name
  }

  lemma {:induction false} PutNew(headers: Headers, h: Header)
    requires forall i :: 0 <= i < |headers| ==> headers[i].name != h.name
    ensures Put(headers, h) == headers + [h]
  {
    if headers != [] {
      PutNew(headers[1..], h);
    }
  }

  lemma PutNext(before: Headers, headers: Headers)
    requires headers != [] && DistinctNames(before + headers)
    ensures Put(before, headers[0]) == before + [headers[0]]
    ensures before + [headers[0]] + headers[1..] == before + headers
  {
    var h := headers[0];
    forall i | 0 <= i < |before| ensures before[i].name != h.name {
      assert (before + headers)[i] == before[i] && (before + headers)[|before|] == h;
    }
    PutNew(before, h);
  }

  lemma HeaderRoundTrip(codec: Codec, h: Header, rest: Octets)
    requires codec.Contract() && EncodeHeader(codec, h).Good?
    ensures DecodeHeader(codec, EncodeHeader(codec, h).value + rest) == Good(HeaderRest(h, rest))
    ensures EncodeHeader(codec, h).value != []
  {
    var name, value := codec.utf8(h.name), codec.utf8(h.value);
    var data := EncodeHeader(codec, h).value + rest;
    var n, v := |name|, |value|;
    assert data == [n] + name + [STRING_TYPE] + U16(v) + value + rest;
    assert data[0] == n && Slice(data, 1, 1 + n) == name;
    assert data[1 + n] == STRING_TYPE && data[2 + n..4 + n] == U16(v);
    Reads16(v);
    assert Slice(data, 4 + n, 4 + n + v) == value;
    assert Slice(data, 4 + n + v, |data|) == rest;
  }

  lemma {:induction false} HeadersRoundTrip(codec: Codec, headers: Headers, before: Headers)
    requires codec.Contract() && EncodeHeaders(codec, headers).Good? && DistinctNames(before + headers)
    ensures DecodeHeaders(codec, EncodeHeaders(codec, headers).value, before) == Good(before + headers)
    decreases |headers|
  {
    if headers == [] {
      assert before + headers == before;
    } else {
      var h := headers[0];
      var rest := EncodeHeaders(codec, headers[1..]).value;
      HeaderRoundTrip(codec, h, rest);
      PutNext(before, headers);
      HeadersRoundTrip(codec, headers[1..], before + [h]);
    }
  }

  lemma FrameParts(codec: Codec, headers: Octets, payload: Octets, rest: Octets)
    requires codec.Contract() && PRELUDE_LEN + |headers| + |payload| + 4 < 0x1_0000_0000
    ensures var data, total := Framed(codec, headers, payload) + rest, PRELUDE_LEN + |headers| + |payload| + 4;
            && |data| == total + |rest| && |data| >= 16
            && Big32(data[..4]) == total && Big32(data[4..8]) == |headers|
            && Big32(data[8..12]) == codec.crc(data[..8])
            && data[12..12 + |headers|] == headers && data[12 + |headers|..total - 4] == payload
            && Big32(data[total - 4..total]) == codec.crc(data[..total - 4])
            && data[total..] == rest
  {
    var total := PRELUDE_LEN + |headers| + |payload| + 4;
    var prelude := U32(total) + U32(|headers|);
    var check := U32(codec.crc(prelude));
    var last := U32(codec.crc(prelude + (check + headers + payload)));
    Reads32(total);
    Reads32(|headers|);
    Reads32(codec.crc(prelude));
    Reads32(codec.crc(prelude + (check + headers + payload)));
    Segments(U32(total), U32(|headers|), check, headers, payload, last, rest, Framed(codec, headers, payload) + rest);
  }

  /** The pieces of a frame, by position. */
  lemma Segments(
    a: Octets, b: Octets, c: Octets, headers: Octets, payload: Octets, last: Octets, rest: Octets, data: Octets)
    requires |a| == |b| == |c| == |last| == 4
    requires data == (a + b) + (c + headers + payload) + last + rest
    ensures var total := 12 + |headers| + |payload| + 4;
            && |data| == total + |rest| && data[..4] == a && data[4..8] == b && data[8..12] == c && data[..8] == a + b
            && data[12..12 + |headers|] == headers && data[12 + |headers|..total - 4] == payload
            && data[total - 4..total] == last && data[..total - 4] == (a + b) + (c + headers + payload)
            && data[total..] == rest
  {
  }

  lemma FrameChecks(codec: Codec, headers: Octets, payload: Octets, rest: Octets)
    requires codec.Contract() && PRELUDE_LEN + |headers| + |payload| + 4 < 0x1_0000_0000
    ensures Checked(codec, Framed(codec, headers, payload) + rest) == Good(())
  {
    FrameParts(codec, headers, payload, rest);
    var data, total := Framed(codec, headers, payload) + rest, PRELUDE_LEN + |headers| + |payload| + 4;
    assert Slice(data, 0, total - 4) == data[..total - 4];
  }

  lemma FrameSlices(codec: Codec, headers: Octets, payload: Octets, rest: Octets)
    requires codec.Contract() && PRELUDE_LEN + |headers| + |payload| + 4 < 0x1_0000_0000
    ensures var data, total := Framed(codec, headers, payload) + rest, PRELUDE_LEN + |headers| + |payload| + 4;
            && |data| >= 16 && Big32(data[..4]) == total && Big32(data[4..8]) == |headers|
            && Slice(data, PRELUDE_LEN, PRELUDE_LEN + |headers|) == headers
            && Slice(data, PRELUDE_LEN + |headers|, total - 4) == payload
            && Slice(data, total, |data|) == rest
  {
    FrameParts(codec, headers, payload, rest);
  }

  /** Decoding what was encoded gives back the message and whatever followed it. */
  lemma MessageRoundTrip(codec: Codec, m: Message, rest: Octets)
    requires codec.Contract() && DistinctNames(m.headers) && EncodeMessage(codec, m).Good?
    ensures Decoded(codec, EncodeMessage(codec, m).value + rest) == Good(MessageRest(m, rest))
    ensures |EncodeMessage(codec, m).value| >= 16
  {
    var headers := EncodeHeaders(codec, m.headers).value;
    FrameChecks(codec, headers, m.payload, rest);
    FrameSlices(codec, headers, m.payload, rest);
    assert [] + m.headers == m.headers;
    HeadersRoundTrip(codec, m.headers, []);
  }

  /** A dict of headers that fits its length fields. */
  ghost predicate Encodable(codec: Codec, m: Message)
    requires codec.Contract()
  {
    DistinctNames(m.headers) && EncodeMessage(codec, m).Good?
  }

  /** The frames of some messages, one after the other. */
  ghost predicate Concatenated(codec: Codec, messages: seq<Message>, data: Octets)
    requires codec.Contract()
  {
    if messages == [] then data == []
    else exists frame, rest :: data == frame + rest && FrameOf(codec, messages[0], frame)
                               && Concatenated(codec, messages[1..], rest)
  }

  ghost predicate FrameOf(codec: Codec, m: Message, frame: Octets)
    requires codec.Contract()
  {
    Encodable(codec, m) && frame == EncodeMessage(codec, m).value
  }

  /** Decoding a buffer inverts the concatenation of any encoded messages. */
  lemma {:induction false} StreamRoundTrip(codec: Codec, messages: seq<Message>, data: Octets)
    requires codec.Contract() && Concatenated(codec, messages, data)
    ensures DecodedAll(codec, data) == Messages(messages)
  {
    if messages != [] {
      var frame, rest :| data == frame + rest && FrameOf(codec, messages[0], frame)
                         && Concatenated(codec, messages[1..], rest);
      StreamRoundTrip(codec, messages[1..], rest);
      FrameDecodes(codec, messages[0], frame, rest);
      DecodesNext(codec, data, messages, rest);
    }
  }

  lemma FrameDecodes(codec: Codec, m: Message, frame: Octets, rest: Octets)
    requires codec.Contract() && FrameOf(codec, m, frame)
    ensures Decoded(codec, frame + rest) == Good(MessageRest(m, rest)) && |frame| >= 16
  {
    MessageRoundTrip(codec, m, rest);
  }

  lemma DecodesNext(codec: Codec, data: Octets, messages: seq<Message>, rest: Octets)
    requires messages != [] && |rest| < |data| && Decoded(codec, data) == Good(MessageRest(messages[0], rest))
    requires DecodedAll(codec, rest) == Messages(messages[1..])
    ensures DecodedAll(codec, data) == Messages(messages)
  {
    assert [messages[0]] + messages[1..] == messages;
  }

  /** No encoded message is a prefix of what another could begin: the code is uniquely decodable. */
  lemma PrefixFree(codec: Codec, a: Message, b: Message, afterA: Octets, afterB: Octets)
    requires codec.Contract() && DistinctNames(a.headers) && DistinctNames(b.headers)
    requires EncodeMessage(codec, a).Good? && EncodeMessage(codec, b).Good?
    requires EncodeMessage(codec, a).value + afterA == EncodeMessage(codec, b).value + afterB
    ensures a == b && afterA == afterB
  {
    MessageRoundTrip(codec, a, afterA);
    MessageRoundTrip(codec, b, afterB);
  }

  // ---- exactly what is encoded ----------------------------------------------------------------------------

  ghost predicate HeaderFits(codec: Codec, h: Header) {
    |codec.utf8(h.name)| <= 0xFF && |codec.utf8(h.value)| <= 0xFFFF
  }

  /** The bytes the headers take. */
  function HeadersSize(codec: Codec, headers: Headers): nat {
    if headers == [] then 0
    else 4 + |codec.utf8(headers[0].name)| + |codec.utf8(headers[0].value)| + HeadersSize(codec, headers[1..])
  }

  lemma {:induction false} HeadersEncodeIff(codec: Codec, headers: Headers)
    ensures EncodeHeaders(codec, headers).Good? <==> forall h :: h in headers ==> HeaderFits(codec, h)
    ensures EncodeHeaders(codec, headers).Good? ==> |EncodeHeaders(codec, headers).value| == HeadersSize(codec, headers)
    ensures EncodeHeaders(codec, headers).Bad? ==> EncodeHeaders(codec, headers) == Bad(TooLong)
  {
    if headers != [] {
      HeadersEncodeIff(codec, headers[1..]);
      assert headers == [headers[0]] + headers[1..];
      assert EncodeHeader(codec, headers[0]).Good? <==> HeaderFits(codec, headers[0]);
      assert headers[0] in headers;
    }
  }

  /** A message is encoded exactly when its names, values and whole length fit their fields. */
  lemma EncodesIff(codec: Codec, m: Message)
    requires codec.Contract()
    ensures EncodeMessage(codec, m).Good? <==>
              && (forall h :: h in m.headers ==> HeaderFits(codec, h))
              && 16 + HeadersSize(codec, m.headers) + |m.payload| < 0x1_0000_0000
    ensures EncodeMessage(codec, m).Good? ==>
              |EncodeMessage(codec, m).value| == 16 + HeadersSize(codec, m.headers) + |m.payload|
  {
    HeadersEncodeIff(codec, m.headers);
  }

  // ---- exactly what is accepted ---------------------------------------------------------------------------

  /** One header as it lies in a frame: name, tag, and a value that only the end of the headers may cut short. */
  ghost predicate HeaderLies(
    codec: Codec, data: Octets, h: Header, rest: Octets, name: Octets, value: Octets, length: nat)
  {
    && |name| <= 0xFF && length <= 0xFFFF
    && data == [|name| as Byte] + name + [STRING_TYPE] + U16(length) + value + rest
    && codec.text(name) == Some(h.name) && codec.text(value) == Some(h.value)
    && (|value| == length || (|value| < length && rest == []))
  }

  ghost predicate HeaderForm(codec: Codec, data: Octets, h: Header, rest: Octets) {
    exists name, value, length :: HeaderLies(codec, data, h, rest, name, value, length)
  }

  lemma BigInverts(b: Octets)
    requires |b| == 2
    ensures Big16(b) <= 0xFFFF && U16(Big16(b)) == b
  {
  }

  /** A header is decoded exactly from the bytes that lie as one. */
  lemma HeaderDecodesIff(codec: Codec, data: Octets, h: Header, rest: Octets)
    ensures DecodeHeader(codec, data) == Good(HeaderRest(h, rest)) <==> HeaderForm(codec, data, h, rest)
  {
    if DecodeHeader(codec, data) == Good(HeaderRest(h, rest)) {
      DecodedLies(codec, data, h, rest);
    }
    if name, value, length :| HeaderLies(codec, data, h, rest, name, value, length) {
      LyingDecodes(codec, data, h, rest, name, value, length);
    }
  }

  lemma DecodedLies(codec: Codec, data: Octets, h: Header, rest: Octets)
    requires DecodeHeader(codec, data) == Good(HeaderRest(h, rest))
    ensures HeaderForm(codec, data, h, rest)
  {
    var n := data[0] as nat;
    var length := Big16(data[2 + n..4 + n]);
    var end := Clip(4 + n + length, |data|);
    DecodedParts(codec, data, h, rest, n, length, end);
    BigInverts(data[2 + n..4 + n]);
    Reassembled(data, n, end);
    assert HeaderLies(codec, data, h, rest, data[1..1 + n], data[4 + n..end], length);
  }

  lemma DecodedParts(codec: Codec, data: Octets, h: Header, rest: Octets, n: nat, length: nat, end: nat)
    requires DecodeHeader(codec, data) == Good(HeaderRest(h, rest)) && n == data[0] as nat
    requires length == Big16(data[2 + n..4 + n]) && end == Clip(4 + n + length, |data|)
    ensures 4 + n <= end <= |data| && data[1 + n] == STRING_TYPE && rest == data[end..]
    ensures codec.text(data[1..1 + n]) == Some(h.name) && codec.text(data[4 + n..end]) == Some(h.value)
  {
    assert Slice(data, 1, 1 + n) == data[1..1 + n];
    assert Slice(data, 4 + n, 4 + n + length) == data[4 + n..end];
    assert Slice(data, 4 + n + length, |data|) == data[end..];
  }

  lemma Reassembled(data: Octets, n: nat, end: nat)
    requires 4 + n <= end <= |data|
    ensures data == [data[0]] + data[1..1 + n] + [data[1 + n]] + data[2 + n..4 + n] + data[4 + n..end] + data[end..]
  {
  }

  lemma LyingDecodes(
    codec: Codec, data: Octets, h: Header, rest: Octets, name: Octets, value: Octets, length: nat)
    requires HeaderLies(codec, data, h, rest, name, value, length)
    ensures DecodeHeader(codec, data) == Good(HeaderRest(h, rest))
  {
    var n := |name|;
    assert data[0] as nat == n && Slice(data, 1, 1 + n) == name;
    assert data[1 + n] == STRING_TYPE && data[2 + n..4 + n] == U16(length);
    Reads16(length);
    assert Slice(data, 4 + n, 4 + n + length) == value;
    assert Slice(data, 4 + n + length, |data|) == rest;
  }

  /** Headers one after the other. */
  ghost predicate HeadersForm(codec: Codec, data: Octets, headers: Headers)
    decreases |headers|
  {
    if headers == [] then data == []
    else exists rest :: HeaderForm(codec, data, headers[0], rest) && HeadersForm(codec, rest, headers[1..])
  }

  /** The dict they are stored in, on top of `before`. */
  function PutAll(before: Headers, headers: Headers): Headers
    decreases |headers|
  {
    if headers == [] then before else PutAll(Put(before, headers[0]), headers[1..])
  }

  /** A block of headers decodes exactly when it is headers one after the other, to the dict of them. */
  lemma {:induction false} HeadersDecodeIff(codec: Codec, data: Octets, before: Headers, headers: Headers)
    requires HeadersForm(codec, data, headers)
    ensures DecodeHeaders(codec, data, before) == Good(PutAll(before, headers))
    decreases |headers|
  {
    if headers != [] {
      var rest :| HeaderForm(codec, data, headers[0], rest) && HeadersForm(codec, rest, headers[1..]);
      HeaderDecodesIff(codec, data, headers[0], rest);
      HeadersDecodeIff(codec, rest, Put(before, headers[0]), headers[1..]);
    }
  }

  lemma {:induction false} DecodedHeadersLie(codec: Codec, data: Octets, before: Headers) returns (headers: Headers)
    requires DecodeHeaders(codec, data, before).Good?
    ensures HeadersForm(codec, data, headers)
    ensures DecodeHeaders(codec, data, before) == Good(PutAll(before, headers))
    decreases |data|
  {
    headers := [];
    if data != [] {
      var h := DecodeHeader(codec, data).value;
      HeaderDecodesIff(codec, data, h.header, h.rest);
      var more := DecodedHeadersLie(codec, h.rest, Put(before, h.header));
      headers := [h.header] + more;
      assert headers[1..] == more;
    }
  }

  function Lookup(headers: Headers, name: string): Option<string> {
    if headers == [] then None
    else if headers[0].name == name then Some(headers[0].value)
    else Lookup(headers[1..], name)
  }

  /** Storing a header changes the value of its own name and of no other. */
  lemma {:induction false} PutLooksUp(headers: Headers, h: Header, name: string)
    ensures Lookup(Put(headers, h), name) == if name == h.name then Some(h.value) else Lookup(headers, name)
  {
    if headers != [] && headers[0].name != h.name {
      PutLooksUp(headers[1..], h, name);
      assert ([headers[0]] + Put(headers[1..], h))[1..] == Put(headers[1..], h);
    }
  }

  // The parts of a frame, by plain positions.

  function Length(data: Octets): nat
    requires |data| >= PRELUDE_LEN
  {
    Big32(data[..4])
  }

  /** Where the message checksum lies: with a length field of 0 at the end of the buffer. */
  function CrcAt(data: Octets): int
    requires |data| >= PRELUDE_LEN
  {
    if Length(data) == 0 then |data| - 4 else Length(data) - 4
  }

  function HeadersTo(data: Octets): (end: nat)
    requires |data| >= PRELUDE_LEN
    ensures PRELUDE_LEN <= end <= |data|
  {
    if PRELUDE_LEN + Big32(data[4..8]) <= |data| then PRELUDE_LEN + Big32(data[4..8]) else |data|
  }

  function PayloadOf(data: Octets): Octets
    requires |data| >= PRELUDE_LEN && LengthFits(data)
  {
    if HeadersTo(data) <= CrcAt(data) then data[HeadersTo(data)..CrcAt(data)] else []
  }

  ghost predicate PreludeFits(codec: Codec, data: Octets)
    requires |data| >= PRELUDE_LEN
  {
    codec.crc(data[..8]) == Big32(data[8..12])
  }

  predicate LengthFits(data: Octets)
    requires |data| >= PRELUDE_LEN
  {
    Length(data) == 0 || 4 <= Length(data) <= |data|
  }

  ghost predicate MessageFits(codec: Codec, data: Octets)
    requires |data| >= PRELUDE_LEN && LengthFits(data)
  {
    codec.crc(data[..CrcAt(data)]) == Big32(data[CrcAt(data)..CrcAt(data) + 4])
  }

  /** Each failing clause is its own error, in the order of the checks. */
  lemma RefusedBefore(codec: Codec, data: Octets)
    ensures |data| < PRELUDE_LEN ==> Decoded(codec, data) == Bad(TruncatedPrelude)
    ensures |data| >= PRELUDE_LEN && !PreludeFits(codec, data) ==> Decoded(codec, data) == Bad(PreludeCrcMismatch)
    ensures |data| >= PRELUDE_LEN && PreludeFits(codec, data) && |data| < Length(data) ==>
              Decoded(codec, data) == Bad(TruncatedMessage)
    ensures |data| >= PRELUDE_LEN && PreludeFits(codec, data) && 1 <= Length(data) <= 3 ==>
              Decoded(codec, data) == Bad(StructError)
    ensures |data| >= PRELUDE_LEN && PreludeFits(codec, data) && LengthFits(data) && !MessageFits(codec, data) ==>
              Decoded(codec, data) == Bad(MessageCrcMismatch)
  {
    if |data| >= PRELUDE_LEN && LengthFits(data) {
      CheckedFits(codec, data);
    }
  }

  /** Likewise of a header: its name, then its type, then the length and the text of its value. */
  lemma HeaderRefused(codec: Codec, data: Octets)
    requires data != []
    ensures var n, r := 1 + data[0] as nat, DecodeHeader(codec, data);
            if codec.text(if n <= |data| then data[1..n] else data[1..]) == None then r == Bad(UnicodeError)
            else if |data| <= n then r == Bad(StructError)
            else if data[n] != STRING_TYPE then r == Bad(UnsupportedHeaderType)
            else if |data| < n + 3 then r == Bad(StructError)
            else
              var end := n + 3 + Big16(data[n + 1..n + 3]);
              codec.text(if end <= |data| then data[n + 3..end] else data[n + 3..]) == None ==> r == Bad(UnicodeError)
  {
    var n := 1 + data[0] as nat;
    ClippedSlice(data, 1, n);
    if |data| >= n + 3 {
      ClippedSlice(data, n + 3, n + 3 + Big16(data[n + 1..n + 3]));
    }
  }

  lemma ClippedSlice(data: Octets, lo: nat, hi: nat)
    requires lo <= |data| && lo <= hi
    ensures Slice(data, lo, hi) == if hi <= |data| then data[lo..hi] else data[lo..]
  {
  }

  /** `at` is what some headers at the front of `data` leave. */
  ghost predicate HeadersLeave(codec: Codec, data: Octets, at: Octets)
    decreases |data|
  {
    || at == data
    || exists h, rest :: |rest| < |data| && HeaderForm(codec, data, h, rest) && HeadersLeave(codec, rest, at)
  }

  /** The header bytes fail with a problem if and only if some headers leave bytes that do. */
  lemma {:induction false} HeadersFailIff(codec: Codec, data: Octets, before: Headers, problem: Problem)
    ensures DecodeHeaders(codec, data, before) == Bad(problem) <==>
              exists at :: at != [] && HeadersLeave(codec, data, at) && DecodeHeader(codec, at) == Bad(problem)
    decreases |data|
  {
    if data != [] && DecodeHeader(codec, data).Good? {
      var h, rest := DecodeHeader(codec, data).value.header, DecodeHeader(codec, data).value.rest;
      HeadersFailIff(codec, rest, Put(before, h), problem);
      HeaderDecodesIff(codec, data, h, rest);
      if at :| at != [] && HeadersLeave(codec, rest, at) && DecodeHeader(codec, at) == Bad(problem) {
        assert HeadersLeave(codec, data, at);
      }
      if at :| at != [] && HeadersLeave(codec, data, at) && DecodeHeader(codec, at) == Bad(problem) {
        LeavesRest(codec, data, at, h, rest);
      }
    } else if data != [] {
      assert HeadersLeave(codec, data, data);
      if at :| at != [] && HeadersLeave(codec, data, at) && DecodeHeader(codec, at) == Bad(problem) && at != data {
        var h, rest :| |rest| < |data| && HeaderForm(codec, data, h, rest) && HeadersLeave(codec, rest, at);
        HeaderDecodesIff(codec, data, h, rest);
      }
    }
  }

  lemma LeavesRest(codec: Codec, data: Octets, at: Octets, h: Header, rest: Octets)
    requires HeadersLeave(codec, data, at) && at != data && DecodeHeader(codec, data) == Good(HeaderRest(h, rest))
    ensures HeadersLeave(codec, rest, at)
  {
    var h', rest' :| |rest'| < |data| && HeaderForm(codec, data, h', rest') && HeadersLeave(codec, rest', at);
    HeaderDecodesIff(codec, data, h', rest');
  }

  /** Where all the lengths and checksums fit, what is wrong with the headers is what is reported. */
  lemma HeadersReported(codec: Codec, data: Octets, problem: Problem)
    requires |data| >= PRELUDE_LEN && PreludeFits(codec, data) && LengthFits(data) && MessageFits(codec, data)
    ensures Decoded(codec, data) == Bad(problem) <==>
              DecodeHeaders(codec, data[PRELUDE_LEN..HeadersTo(data)], []) == Bad(problem)
  {
    CheckedFits(codec, data);
    PartsAre(codec, data);
  }

  lemma CheckedFits(codec: Codec, data: Octets)
    requires |data| >= PRELUDE_LEN && LengthFits(data)
    ensures PreludeFits(codec, data) ==>
              Checked(codec, data) == if MessageFits(codec, data) then Good(()) else Bad(MessageCrcMismatch)
  {
    var at := CrcAt(data);
    assert Unpack32(data, Length(data) - 4) == Some(Big32(data[at..at + 4]));
    assert Slice(data, 0, Length(data) - 4) == data[..at];
  }

  lemma PartsAre(codec: Codec, data: Octets)
    requires |data| >= PRELUDE_LEN && LengthFits(data)
    ensures var headersEnd := PRELUDE_LEN + Big32(data[4..8]);
            && Slice(data, PRELUDE_LEN, headersEnd) == data[PRELUDE_LEN..HeadersTo(data)]
            && Slice(data, headersEnd, Length(data) - 4)
               == PayloadOf(data)
            && Slice(data, Length(data), |data|) == data[Length(data)..]
  {
  }

  ghost predicate HeadersLie(codec: Codec, lying: Octets) {
    exists headers :: HeadersForm(codec, lying, headers)
  }

  lemma HeadersGoodIff(codec: Codec, lying: Octets)
    ensures DecodeHeaders(codec, lying, []).Good? <==> HeadersLie(codec, lying)
  {
    if DecodeHeaders(codec, lying, []).Good? {
      var headers := DecodedHeadersLie(codec, lying, []);
    }
    if headers :| HeadersForm(codec, lying, headers) {
      HeadersDecodeIff(codec, lying, [], headers);
    }
  }

  lemma FittingDecodes(codec: Codec, data: Octets)
    requires |data| >= PRELUDE_LEN && PreludeFits(codec, data) && LengthFits(data) && MessageFits(codec, data)
    ensures var headers := DecodeHeaders(codec, data[PRELUDE_LEN..HeadersTo(data)], []);
            Decoded(codec, data) ==
            if headers.Bad? then Bad(headers.problem)
            else Good(MessageRest(Message(headers.value, PayloadOf(data)), data[Length(data)..]))
  {
    CheckedFits(codec, data);
    PartsAre(codec, data);
  }

  /** A message is accepted if and only if both checksums are those of the bytes before them, the length lies within the
      buffer and the header block is headers one after the other. */
  lemma AcceptedIff(codec: Codec, data: Octets)
    ensures Decoded(codec, data).Good? <==>
              && |data| >= PRELUDE_LEN && PreludeFits(codec, data) && LengthFits(data) && MessageFits(codec, data)
              && HeadersLie(codec, data[PRELUDE_LEN..HeadersTo(data)])
  {
    RefusedBefore(codec, data);
    if |data| >= PRELUDE_LEN && PreludeFits(codec, data) && LengthFits(data) && MessageFits(codec, data) {
      FittingDecodes(codec, data);
      HeadersGoodIff(codec, data[PRELUDE_LEN..HeadersTo(data)]);
    }
  }

  /** It then holds just those headers and the bytes between them and the checksum, and leaves what follows its length. */
  lemma AcceptedIs(codec: Codec, data: Octets, headers: Headers)
    requires Decoded(codec, data).Good? && |data| >= PRELUDE_LEN
    requires HeadersForm(codec, data[PRELUDE_LEN..HeadersTo(data)], headers)
    ensures Length(data) <= |data|
    ensures Decoded(codec, data).value
         == MessageRest(Message(PutAll([], headers), PayloadOf(data)), data[Length(data)..])
  {
    AcceptedIff(codec, data);
    FittingDecodes(codec, data);
    HeadersDecodeIff(codec, data[PRELUDE_LEN..HeadersTo(data)], [], headers);
  }

  /** A frame altered in transit, its checksums as they were sent, is refused wherever the alteration changes what one of
      them is computed from, and whatever follows it. */
  lemma AlteredIsRefused(codec: Codec, m: Message, frame: Octets, altered: Octets, rest: Octets)
    requires codec.Contract() && FrameOf(codec, m, frame)
    requires |altered| == |frame| && altered[8..12] == frame[8..12] && altered[|frame| - 4..] == frame[|frame| - 4..]
    ensures codec.crc(altered[..8]) != codec.crc(frame[..8]) ==>
              Decoded(codec, altered + rest) == Bad(PreludeCrcMismatch)
    ensures altered[..8] == frame[..8] && codec.crc(altered[..|frame| - 4]) != codec.crc(frame[..|frame| - 4]) ==>
              Decoded(codec, altered + rest) == Bad(MessageCrcMismatch)
  {
    var data, n := altered + rest, |frame|;
    FrameFits(codec, m, frame);
    assert data[..8] == altered[..8] && data[8..12] == altered[8..12] && data[..4] == data[..8][..4];
    RefusedBefore(codec, data);
    if altered[..8] == frame[..8] {
      assert frame[..8][..4] == frame[..4];
      assert Length(data) == Length(frame) == n && CrcAt(data) == n - 4;
      assert data[..n - 4] == altered[..n - 4] && data[n - 4..n - 4 + 4] == altered[n - 4..];
    }
  }

  lemma FrameFits(codec: Codec, m: Message, frame: Octets)
    requires codec.Contract() && FrameOf(codec, m, frame)
    ensures |frame| >= 16 && Length(frame) == |frame|
    ensures codec.crc(frame[..8]) == Big32(frame[8..12])
    ensures codec.crc(frame[..|frame| - 4]) == Big32(frame[|frame| - 4..])
  {
    var headers := EncodeHeaders(codec, m.headers).value;
    FrameParts(codec, headers, m.payload, []);
    assert frame + [] == frame;
  }

  /** A checksum altered in transit is refused as well. */
  lemma AlteredChecksumIsRefused(codec: Codec, m: Message, frame: Octets, altered: Octets, rest: Octets)
    requires codec.Contract() && FrameOf(codec, m, frame) && |altered| == |frame|
    requires altered[..|frame| - 4] == frame[..|frame| - 4] && altered != frame
    ensures Decoded(codec, altered + rest) == Bad(MessageCrcMismatch)
  {
    var data, n := altered + rest, |frame|;
    FrameFits(codec, m, frame);
    assert altered == altered[..n - 4] + altered[n - 4..] && frame == frame[..n - 4] + frame[n - 4..];
    assert data[..8] == altered[..n - 4][..8] == frame[..8] && data[8..12] == altered[..n - 4][8..12] == frame[8..12];
    assert data[..4] == data[..8][..4] == frame[..4];
    assert data[..n - 4] == altered[..n - 4] && data[n - 4..n - 4 + 4] == altered[n - 4..];
    assert altered[n - 4..] != frame[n - 4..];
    BigDetermines(altered[n - 4..], frame[n - 4..]);
    RefusedBefore(codec, data);
  }

  /** Different bytes read as different numbers. */
  lemma BigDetermines(a: Octets, b: Octets)
    requires |a| == |b| == 4 && a != b
    ensures Big32(a) != Big32(b)
  {
    BigHalves(a);
    BigHalves(b);
    assert a == a[..2] + a[2..] && b == b[..2] + b[2..];
    BigInverts(a[..2]);
    BigInverts(a[2..]);
    BigInverts(b[..2]);
    BigInverts(b[2..]);
    Digits(Big16(a[..2]), Big16(a[2..]), Big16(b[..2]), Big16(b[2..]));
  }

  lemma BigHalves(b: Octets)
    requires |b| == 4
    ensures Big32(b) == Big16(b[..2]) * 0x1_0000 + Big16(b[2..])
  {
  }

  lemma Digits(p: nat, q: nat, r: nat, t: nat)
    requires q <= 0xFFFF && t <= 0xFFFF
    ensures p * 0x1_0000 + q == r * 0x1_0000 + t ==> p == r && q == t
  {
  }

  // ---- the missing lower bound ----------------------------------------------------------------------------

  /** Decoding `data` gets to where `at` is what remains. */
  ghost predicate Reached(codec: Codec, data: Octets, at: Octets)
    decreases |data|
  {
    || at == data
    || (data != [] && Decoded(codec, data).Good?
        && |Decoded(codec, data).value.rest| < |data| && Reached(codec, Decoded(codec, data).value.rest, at))
  }

  /** A message that the decoder accepts although its length field is zero. */
  ghost predicate AcceptedAtZero(codec: Codec, data: Octets) {
    data != [] && Decoded(codec, data).Good? && Big32(data[..4]) == 0
  }

  /** Decoding a buffer never ends if and only if it gets to an accepted message of length zero. */
  lemma {:induction false} LoopsIff(codec: Codec, data: Octets)
    ensures DecodedAll(codec, data).Loops? <==> exists at :: Reached(codec, data, at) && AcceptedAtZero(codec, at)
    decreases |data|
  {
    if data != [] && Decoded(codec, data).Good? {
      var rest := Decoded(codec, data).value.rest;
      RestShrinks(codec, data);
      if rest == data {
        assert Reached(codec, data, data) && AcceptedAtZero(codec, data);
      } else {
        LoopsIff(codec, rest);
        if at :| Reached(codec, rest, at) && AcceptedAtZero(codec, at) {
          assert Reached(codec, data, at);
        }
      }
    }
  }

  /** It fails with a problem if and only if it gets to a message that has it; what was decoded before is lost. */
  lemma {:induction false} FailsIff(codec: Codec, data: Octets, problem: Problem)
    ensures DecodedAll(codec, data) == Failed(problem) <==>
              exists at :: Reached(codec, data, at) && at != [] && Decoded(codec, at) == Bad(problem)
    decreases |data|
  {
    if data != [] && Decoded(codec, data).Good? {
      var rest := Decoded(codec, data).value.rest;
      RestShrinks(codec, data);
      if rest != data {
        FailsIff(codec, rest, problem);
        if at :| Reached(codec, rest, at) && at != [] && Decoded(codec, at) == Bad(problem) {
          assert Reached(codec, data, at);
        }
      }
    } else if data != [] {
      assert Reached(codec, data, data);
    }
  }

  /** `messages` are accepted one after the other, the first at the front of `data` and each at what its predecessor
      leaves, until nothing is left. */
  ghost predicate Accepted(codec: Codec, data: Octets, messages: seq<Message>)
    decreases |messages|
  {
    if messages == [] then data == []
    else data != [] && exists rest :: AcceptedFirst(codec, data, messages[0], rest) && Accepted(codec, rest, messages[1..])
  }

  ghost predicate AcceptedFirst(codec: Codec, data: Octets, m: Message, rest: Octets) {
    Decoded(codec, data) == Good(MessageRest(m, rest)) && |rest| < |data|
  }

  /** It gives a list of messages if and only if those are accepted so. */
  lemma {:induction false} MessagesIff(codec: Codec, data: Octets, messages: seq<Message>)
    ensures DecodedAll(codec, data) == Messages(messages) <==> Accepted(codec, data, messages)
    decreases |data|
  {
    if data != [] && Decoded(codec, data).Good? {
      var first, rest := Decoded(codec, data).value.message, Decoded(codec, data).value.rest;
      RestShrinks(codec, data);
      if messages != [] && rest != data {
        MessagesIff(codec, rest, messages[1..]);
        assert Accepted(codec, data, messages) <==>
                 first == messages[0] && Accepted(codec, rest, messages[1..]) by {
          assert AcceptedFirst(codec, data, first, rest);
        }
        FirstThenRest(first, DecodedAll(codec, rest), messages);
      }
    }
  }

  lemma FirstThenRest(first: Message, more: Stream, messages: seq<Message>)
    requires messages != []
    ensures (if more.Messages? then Messages([first] + more.messages) else more) == Messages(messages)
       <==> more == Messages(messages[1..]) && first == messages[0]
  {
    if more.Messages? {
      assert ([first] + more.messages)[1..] == more.messages;
      assert [messages[0]] + messages[1..] == messages;
    }
  }

  /** So it ends on every buffer in which no message gotten to has length zero. */
  lemma EndsWithoutZeroLengths(codec: Codec, data: Octets)
    requires forall at :: Reached(codec, data, at) && |at| >= 4 ==> Big32(at[..4]) != 0
    ensures !DecodedAll(codec, data).Loops?
  {
    LoopsIff(codec, data);
    forall at | Reached(codec, data, at) ensures !AcceptedAtZero(codec, at) {
      assert at != [] && Decoded(codec, at).Good? ==> |at| >= PRELUDE_LEN;
    }
  }

  /** A message of length zero is accepted if and only if its prelude checksum fits, the last four bytes of the whole
      buffer are the checksum of all before them, and its headers decode. */
  lemma ZeroLengthAcceptedIff(codec: Codec, data: Octets)
    requires |data| >= PRELUDE_LEN && Big32(data[..4]) == 0
    ensures Decoded(codec, data).Good? <==>
              && codec.crc(data[..8]) == Big32(data[8..12])
              && codec.crc(data[..|data| - 4]) == Big32(data[|data| - 4..])
              && DecodeHeaders(codec, Slice(data, PRELUDE_LEN, PRELUDE_LEN + Big32(data[4..8])), []).Good?
    ensures Decoded(codec, data).Good? ==> DecodedAll(codec, data) == Loops
  {
    assert Slice(data, 0, -4) == data[..|data| - 4];
    assert data[|data| - 4..] == data[|data| - 4..|data| - 4 + 4];
    assert Unpack32(data, -4) == Some(Big32(data[|data| - 4..]));
    RestShrinks(codec, data);
  }

  /** A buffer whose length field is zero and whose checksums fit. */
  function ZeroLength(codec: Codec): Octets
    requires codec.Contract()
  {
    var prelude := U32(0) + U32(0);
    var head := prelude + U32(codec.crc(prelude));
    head + U32(codec.crc(head))
  }

  /** The length field has no lower bound: with zero the checksum is looked for at the end of the buffer, the
      message is accepted, and nothing is consumed, so that decoding the buffer never ends. */
  lemma ZeroLengthLoops(codec: Codec)
    requires codec.Contract()
    ensures Decoded(codec, ZeroLength(codec)) == Good(MessageRest(Message([], []), ZeroLength(codec)))
    ensures DecodedAll(codec, ZeroLength(codec)) == Loops
  {
    var data := ZeroLength(codec);
    var prelude := U32(0) + U32(0);
    var head := prelude + U32(codec.crc(prelude));
    assert data == head + U32(codec.crc(head)) && |data| == 16;
    Reads32(0);
    Reads32(codec.crc(prelude));
    Reads32(codec.crc(head));
    assert data[..4] == U32(0) && data[4..8] == U32(0) && data[..8] == prelude && data[8..12] == U32(codec.crc(prelude));
    assert data[12..16] == U32(codec.crc(head)) && Slice(data, 0, -4) == head;
    assert Unpack32(data, -4) == Some(codec.crc(head));
    assert Checked(codec, data) == Good(());
    assert Slice(data, 12, 12) == [] && Slice(data, 12, -4) == [] && Slice(data, 0, 16) == data;
  }
}
