/** De-framing of aws-chunked bodies: crates/ozone-s3-gw/src/lib.rs. A byte is written as the character
    with the same code. */
module AwsChunked {
  import opened Wrappers
  import opened Text
  import opened Numerals

  const CRLF := "\r\n"

  /** The last one is no answer: the end of the chunk overflows a usize, and the addition or the slice panics. */
  datatype ChunkError = MissingSizeLine | NonUtf8Size | BadHexSize | TruncatedChunk | IndexOverflow

  /** UTF-8 decoding of a size field; only its value on ASCII matters here. */
  type Utf8 = string -> Option<string>

  predicate Ascii(s: string) {
    forall i :: 0 <= i < |s| ==> s[i] < '\U{0080}'
  }

  ghost predicate DecodesAscii(utf8: Utf8) {
    forall s :: Ascii(s) ==> utf8(s) == Some(s)
  }

  function FindCrlf(raw: string, from: nat): (r: Option<nat>)
    ensures r.Some? ==> from <= r.value && r.value + 2 <= |raw|
  {
    if from > |raw| then None
    else match Find(raw[from..], CRLF) case None => None case Some(p) => Some(from + p)
  }

  function TrimStart(s: string): string {
    if s != "" && White(s[0]) then TrimStart(s[1..]) else s
  }

  function TrimEnd(s: string): string {
    if s != "" && White(s[|s| - 1]) then TrimEnd(s[..|s| - 1]) else s
  }

  predicate AllWhite(s: string) {
    forall i :: 0 <= i < |s| ==> White(s[i])
  }

  /** Trimming takes white space off both ends, and leaves none there. */
  lemma TrimIs(s: string)
    ensures var t := TrimEnd(TrimStart(s));
      && (exists a, b :: AllWhite(a) && AllWhite(b) && s == a + t + b)
      && (t != "" ==> !White(t[0]) && !White(t[|t| - 1]))
  {
    var u := TrimStart(s);
    var a := TrimStartIs(s);
    var b := TrimEndIs(u);
    assert s == a + TrimEnd(u) + b;
  }

  lemma {:induction false} TrimStartIs(s: string) returns (a: string)
    ensures AllWhite(a) && s == a + TrimStart(s) && (TrimStart(s) != "" ==> !White(TrimStart(s)[0]))
  {
    if s != "" && White(s[0]) {
      var b := TrimStartIs(s[1..]);
      a := [s[0]] + b;
      assert s == [s[0]] + s[1..];
    } else {
      a := "";
    }
  }

  lemma {:induction false} TrimEndIs(s: string) returns (b: string)
    ensures AllWhite(b) && s == TrimEnd(s) + b
    ensures var t := TrimEnd(s); t != "" ==> !White(t[|t| - 1]) && t[0] == s[0]
  {
    if s != "" && White(s[|s| - 1]) {
      var a := TrimEndIs(s[..|s| - 1]);
      b := a + [s[|s| - 1]];
      assert s == s[..|s| - 1] + [s[|s| - 1]];
    } else {
      b := "";
    }
  }

  function ParseHex(s: string): Option<nat> {
    var digits := if s != "" && s[0] == '+' then s[1..] else s;
    if digits == "" then None
    else match Value(digits, 16) case None => None case Some(v) => if v <= USIZE_MAX then Some(v) else None
  }

  /** The size a chunk header announces: the hexadecimal text before any extension. */
  function SizeOf(utf8: Utf8, header: string): Result<nat, ChunkError> {
    var field := match Find(header, ";") case None => header case Some(i) => header[..i];
    match utf8(field)
    case None => Err(NonUtf8Size)
    case Some(t) =>
      match ParseHex(TrimEnd(TrimStart(t)))
      case None => Err(BadHexSize)
      case Some(n) => Ok(n)
  }

  /** Where the next header starts, after n bytes of data and an optional CRLF. */
  function AfterData(s: string, n: nat): string
    requires n <= |s|
  {
    if CRLF <= s[n..] then s[n + 2..] else s[n..]
  }

  /** The payload of a framed body, if no index overflows. */
  function Payload(utf8: Utf8, s: string): Result<string, ChunkError>
    decreases |s|
  {
    match Find(s, CRLF)
    case None => Err(MissingSizeLine)
    case Some(nl) =>
      var body := s[nl + 2..];
      match SizeOf(utf8, s[..nl])
      case Err(e) => Err(e)
      case Ok(n) =>
        if n == 0 then Ok("")
        else if n > |body| then Err(TruncatedChunk)
        else Then(body[..n], Payload(utf8, AfterData(body, n)))
  }

  /** The de-framing, started at index `at`, comes to a chunk that is cut short and whose end no usize holds. */
  predicate Overflows(utf8: Utf8, s: string, at: nat)
    decreases |s|
  {
    match Find(s, CRLF)
    case None => false
    case Some(nl) =>
      var body := s[nl + 2..];
      match SizeOf(utf8, s[..nl])
      case Err(_) => false
      case Ok(n) =>
        if n == 0 then false
        else if n > |body| then at + nl + 2 + n > USIZE_MAX
        else Overflows(utf8, AfterData(body, n), at + |s| - |AfterData(body, n)|)
  }

  /** What de-framing comes to. */
  function Outcome(utf8: Utf8, raw: string): Result<string, ChunkError> {
    if Overflows(utf8, raw, 0) then Err(IndexOverflow) else Payload(utf8, raw)
  }

  function Then(out: string, r: Result<string, ChunkError>): Result<string, ChunkError> {
    match r case Ok(s) => Ok(out + s) case Err(e) => Err(e)
  }

  /** The index after an optional CRLF. */
  function SkipCrlf(raw: string, i: nat): (j: nat)
    requires i <= |raw|
    ensures i <= j <= |raw|
  {
    if CRLF <= raw[i..] then i + 2 else i
  }

  /** One turn of the decoder, by index. */
  lemma PayloadAt(utf8: Utf8, raw: string, i: nat)
    requires i <= |raw|
    ensures match FindCrlf(raw, i)
            case None => Payload(utf8, raw[i..]) == Err(MissingSizeLine)
            case Some(nl) =>
              match SizeOf(utf8, raw[i..nl])
              case Err(e) => Payload(utf8, raw[i..]) == Err(e)
              case Ok(n) =>
                var j := nl + 2 + n;
                if n == 0 then Payload(utf8, raw[i..]) == Ok("")
                else if j > |raw| then Payload(utf8, raw[i..]) == Err(TruncatedChunk)
                else Payload(utf8, raw[i..]) == Then(raw[nl + 2..j], Payload(utf8, raw[SkipCrlf(raw, j)..]))
  {
    hide SizeOf, Find, AfterData, SkipCrlf, Then;
    var nl := FindCrlf(raw, i);
    if nl.Some? {
      var k := nl.value;
      LineAt(raw, i, k);
      var n := SizeOf(utf8, raw[i..k]);
      if n.Ok? && k + 2 + n.value <= |raw| {
        DataAt(raw, k + 2, n.value);
      }
    }
  }

  lemma LineAt(raw: string, i: nat, k: nat)
    requires i <= k && k + 2 <= |raw|
    ensures raw[i..][..k - i] == raw[i..k] && raw[i..][k - i + 2..] == raw[k + 2..]
  {}

  lemma DataAt(raw: string, i: nat, n: nat)
    requires i + n <= |raw|
    ensures raw[i..][..n] == raw[i..i + n]
    ensures AfterData(raw[i..], n) == raw[SkipCrlf(raw, i + n)..]
  {
    assert raw[i..][n..] == raw[i + n..];
    if CRLF <= raw[i + n..] { assert raw[i..][n + 2..] == raw[i + n + 2..]; }
  }

  /** The same turn, as to overflow. */
  lemma OverflowAt(utf8: Utf8, raw: string, i: nat)
    requires i <= |raw|
    ensures match FindCrlf(raw, i)
            case None => !Overflows(utf8, raw[i..], i)
            case Some(nl) =>
              match SizeOf(utf8, raw[i..nl])
              case Err(_) => !Overflows(utf8, raw[i..], i)
              case Ok(n) =>
                var j := nl + 2 + n;
                if n == 0 then !Overflows(utf8, raw[i..], i)
                else if j > |raw| then Overflows(utf8, raw[i..], i) <==> j > USIZE_MAX
                else Overflows(utf8, raw[i..], i) <==> Overflows(utf8, raw[SkipCrlf(raw, j)..], SkipCrlf(raw, j))
  {
    hide SizeOf, Find, AfterData, SkipCrlf;
    var nl := FindCrlf(raw, i);
    if nl.Some? {
      var k := nl.value;
      LineAt(raw, i, k);
      var n := SizeOf(utf8, raw[i..k]);
      if n.Ok? && k + 2 + n.value <= |raw| {
        DataAt(raw, k + 2, n.value);
      }
    }
  }

  /** De-frame the body, a byte slice; adding a size to the index may overflow. */
  method Decode(utf8: Utf8, raw: string) returns (r: Result<string, ChunkError>)
    requires |raw| <= ISIZE_MAX
    ensures r == Outcome(utf8, raw)
  {
    hide Payload, Overflows, SizeOf, Find, FindCrlf;
    var out, i := "", 0;
    assert raw[0..] == raw;
    ThenNothing(Payload(utf8, raw));
    while true
      invariant i <= |raw| && Payload(utf8, raw) == Then(out, Payload(utf8, raw[i..]))
      invariant Overflows(utf8, raw, 0) <==> Overflows(utf8, raw[i..], i)
      decreases |raw| - i
    {
      PayloadAt(utf8, raw, i);
      OverflowAt(utf8, raw, i);
      var nl := FindCrlf(raw, i);
      if nl.None? {
        return Err(MissingSizeLine);
      }
      var header := raw[i..nl.value];
      i := nl.value + 2;
      var size := SizeOf(utf8, header);
      if size.Err? {
        return Err(size.error);
      }
      if size.value == 0 {
        assert out + "" == out;
        break;
      }
      if i + size.value > USIZE_MAX {
        return Err(IndexOverflow);
      }
      if i + size.value > |raw| {
        return Err(TruncatedChunk);
      }
      ghost var next := SkipCrlf(raw, i + size.value);
      ThenThen(out, raw[i..i + size.value], Payload(utf8, raw[next..]));
      out := out + raw[i..i + size.value];
      i := i + size.value;
      if CRLF <= raw[i..] {
        i := i + 2;
      }
    }
    return Ok(out);
  }

  lemma ThenNothing(r: Result<string, ChunkError>)
    ensures Then("", r) == r
  {
    if r.Ok? { assert "" + r.value == r.value; }
  }

  lemma ThenThen(a: string, b: string, r: Result<string, ChunkError>)
    ensures Then(a, Then(b, r)) == Then(a + b, r)
  {
    if r.Ok? { assert a + (b + r.value) == a + b + r.value; }
  }

  // ---- framing ----

  /** A chunk as a client frames it: a size field, an optional extension, the data. */
  datatype Chunk = Chunk(size: string, extension: Option<string>, data: string)

  function Header(c: Chunk): string {
    c.size + (match c.extension case None => "" case Some(e) => ";" + e)
  }

  /** The size field announces the data, and the header holds no line end. */
  predicate WellFramed(utf8: Utf8, c: Chunk) {
    && ';' !in c.size && Find(Header(c), CRLF).None?
    && match utf8(c.size)
       case None => false
       case Some(t) => ParseHex(TrimEnd(TrimStart(t))) == Some(|c.data|)
  }

  function Frame(chunks: seq<Chunk>): string {
    if chunks == [] then "" else Header(chunks[0]) + CRLF + chunks[0].data + CRLF + Frame(chunks[1..])
  }

  function Joined(chunks: seq<Chunk>): string {
    if chunks == [] then "" else chunks[0].data + Joined(chunks[1..])
  }

  lemma HeaderSize(utf8: Utf8, c: Chunk)
    requires WellFramed(utf8, c)
    ensures SizeOf(utf8, Header(c)) == Ok(|c.data|)
  {
    match c.extension {
      case None =>
        assert Header(c) == c.size;
        FindAbsent(c.size, ';');
      case Some(e) =>
        assert Header(c) == c.size + [';'] + e;
        FindChar(c.size, ';', e);
    }
  }

  /** The first line end after a header without one is the one that ends it. */
  lemma {:induction false} FindLineEnd(h: string, rest: string)
    requires Find(h, CRLF).None?
    ensures Find(h + CRLF + rest, CRLF) == Some(|h|)
  {
    var s := h + CRLF + rest;
    if h == "" {
      assert s == CRLF + rest;
      assert s[..2] == CRLF;
    } else {
      assert s[1..] == h[1..] + CRLF + rest;
      FindLineEnd(h[1..], rest);
      assert s[0] == h[0];
      if |h| > 1 {
        assert s[1] == h[1];
        assert h[..2] == [h[0], h[1]] && s[..2] == [s[0], s[1]];
        assert !(CRLF <= h);
      } else {
        assert s[1] == '\r';
      }
    }
  }

  lemma CutChunk(header: string, data: string, rest: string)
    ensures var s, tail := header + CRLF + data + CRLF + rest, data + CRLF + rest;
            && s == header + CRLF + tail && s[..|header|] == header && s[|header| + 2..] == tail
            && tail[..|data|] == data && tail[|data|..] == CRLF + rest && tail[|data| + 2..] == rest
  {
    var tail := data + CRLF + rest;
    assert header + CRLF + data + CRLF + rest == header + CRLF + tail;
  }

  lemma PayloadOfChunk(utf8: Utf8, c: Chunk, rest: string)
    requires WellFramed(utf8, c) && c.data != ""
    ensures Payload(utf8, Header(c) + CRLF + c.data + CRLF + rest) == Then(c.data, Payload(utf8, rest))
  {
    hide SizeOf, Find, Header, Then;
    HeaderSize(utf8, c);
    FindLineEnd(Header(c), c.data + CRLF + rest);
    CutChunk(Header(c), c.data, rest);
    hide WellFramed;
  }

  /** The line end after the data may be missing. */
  lemma PayloadOfBareChunk(utf8: Utf8, c: Chunk, rest: string)
    requires WellFramed(utf8, c) && c.data != "" && !(CRLF <= rest)
    ensures Payload(utf8, Header(c) + CRLF + c.data + rest) == Then(c.data, Payload(utf8, rest))
  {
    hide SizeOf, Find, Header, Then;
    HeaderSize(utf8, c);
    FindLineEnd(Header(c), c.data + rest);
    var s, body := Header(c) + CRLF + c.data + rest, c.data + rest;
    assert s == Header(c) + CRLF + body && s[..|Header(c)|] == Header(c) && s[|Header(c)| + 2..] == body;
    assert body[..|c.data|] == c.data && body[|c.data|..] == rest;
    hide WellFramed;
  }

  /** A size line that is not there, is not text, or is not a size is refused as such, whatever follows it. */
  lemma BadSizeLine(utf8: Utf8, header: string, rest: string)
    requires Find(header, CRLF).None?
    ensures Payload(utf8, header) == Err(MissingSizeLine)
    ensures var field := match Find(header, ";") case None => header case Some(i) => header[..i];
      var r := Payload(utf8, header + CRLF + rest);
      && (utf8(field).None? ==> r == Err(NonUtf8Size))
      && (utf8(field).Some? && ParseHex(TrimEnd(TrimStart(utf8(field).value))).None? ==> r == Err(BadHexSize))
  {
    FindLineEnd(header, rest);
    var s := header + CRLF + rest;
    assert s[..|header|] == header;
    hide Find, ParseHex, TrimStart, TrimEnd;
  }

  /** The zero-size chunk and whatever follows it. */
  function Terminator(end: Chunk, trailers: string): string {
    Header(end) + CRLF + trailers
  }

  lemma FrameCons(chunks: seq<Chunk>, tail: string)
    requires chunks != []
    ensures Frame(chunks) + tail == Header(chunks[0]) + CRLF + chunks[0].data + CRLF + (Frame(chunks[1..]) + tail)
  {
    hide Header;
  }

  lemma PayloadOfTerminator(utf8: Utf8, end: Chunk, trailers: string)
    requires WellFramed(utf8, end) && end.data == ""
    ensures Payload(utf8, Terminator(end, trailers)) == Ok("")
  {
    HeaderSize(utf8, end);
    FindLineEnd(Header(end), trailers);
    assert Terminator(end, trailers)[..|Header(end)|] == Header(end);
    hide SizeOf, Find, WellFramed, Header;
  }

  /** De-framing inverts framing: any chunks, any extensions, any terminator and trailers. */
  lemma {:induction false} DecodeInvertsFraming(utf8: Utf8, chunks: seq<Chunk>, end: Chunk, trailers: string)
    requires forall i :: 0 <= i < |chunks| ==> WellFramed(utf8, chunks[i]) && chunks[i].data != ""
    requires WellFramed(utf8, end) && end.data == ""
    ensures Payload(utf8, Frame(chunks) + Terminator(end, trailers)) == Ok(Joined(chunks))
  {
    hide Payload, WellFramed, Header, Terminator;
    var tail := Terminator(end, trailers);
    if chunks == [] {
      assert Frame(chunks) + tail == tail;
      PayloadOfTerminator(utf8, end, trailers);
    } else {
      FrameCons(chunks, tail);
      PayloadOfChunk(utf8, chunks[0], Frame(chunks[1..]) + tail);
      DecodeInvertsFraming(utf8, chunks[1..], end, trailers);
    }
  }

  // ---- the usual frames are well framed ----

  predicate HexDigits(s: string) {
    s != "" && forall i :: 0 <= i < |s| ==> '0' <= s[i] <= '9' || 'a' <= s[i] <= 'f' || 'A' <= s[i] <= 'F'
  }

  lemma {:induction false} SpellIsHex(n: nat)
    ensures HexDigits(Spell(n, 16))
  {
    if n >= 16 { SpellIsHex(n / 16); }
  }

  /** Text without a carriage return in front neither makes nor hides a line end. */
  lemma {:induction false} PlainPrefix(s: string, rest: string)
    requires '\r' !in s
    ensures Find(s + rest, CRLF).None? <==> Find(rest, CRLF).None?
  {
    if s == "" {
      assert s + rest == rest;
    } else {
      assert s[0] in s && (s + rest)[0] == s[0];
      assert !(CRLF <= s + rest);
      assert (s + rest)[1..] == s[1..] + rest;
      PlainPrefix(s[1..], rest);
    }
  }

  lemma HexIsPlain(s: string)
    requires HexDigits(s)
    ensures Ascii(s) && '\r' !in s && ';' !in s && s[0] != '+' && TrimEnd(TrimStart(s)) == s
  {
    assert TrimStart(s) == s;
    assert TrimEnd(s) == s;
  }

  lemma PlainHeader(c: Chunk)
    requires '\r' !in c.size
    ensures Find(Header(c), CRLF).None? <==> (c.extension.Some? ==> Find(c.extension.value, CRLF).None?)
  {
    match c.extension
    case None =>
      PlainPrefix(c.size, "");
      assert c.size + "" == c.size;
    case Some(e) =>
      PlainPrefix(c.size + ";", e);
      assert Header(c) == c.size + ";" + e;
  }

  /** A hexadecimal size in either case, with leading zeros or without, with a plus sign or without, frames its data
      if and only if the extension holds no line end. */
  lemma AnyHexFrameIsWellFramed(utf8: Utf8, size: string, extension: Option<string>, data: string)
    requires DecodesAscii(utf8) && |data| <= USIZE_MAX && HexDigits(size) && Value(size, 16) == Some(|data|)
    ensures WellFramed(utf8, Chunk(size, extension, data)) <==>
      (extension.Some? ==> Find(extension.value, CRLF).None?)
    ensures WellFramed(utf8, Chunk("+" + size, extension, data)) <==>
      (extension.Some? ==> Find(extension.value, CRLF).None?)
  {
    hide Value, Find, Header;
    HexIsPlain(size);
    SignedIsPlain(size);
    PlainHeader(Chunk(size, extension, data));
    PlainHeader(Chunk("+" + size, extension, data));
    hide TrimStart, TrimEnd, HexDigits, Ascii;
    assert ("+" + size)[1..] == size;
  }

  lemma SignedIsPlain(s: string)
    requires HexDigits(s)
    ensures var t := "+" + s; Ascii(t) && '\r' !in t && ';' !in t && TrimEnd(TrimStart(t)) == t
  {
    var t := "+" + s;
    assert t[|t| - 1] == s[|s| - 1];
    assert TrimStart(t) == t;
    assert TrimEnd(t) == t;
  }

  /** A lower-case hexadecimal size, alone or with an extension, frames its data if and only if the extension holds no
      line end. */
  lemma HexFrameIsWellFramed(utf8: Utf8, extension: Option<string>, data: string)
    requires DecodesAscii(utf8) && |data| <= USIZE_MAX
    ensures WellFramed(utf8, Chunk(Spell(|data|, 16), extension, data)) <==>
      (extension.Some? ==> Find(extension.value, CRLF).None?)
  {
    hide Spell, Value, Find, Header, TrimStart, TrimEnd, HexDigits, Ascii;
    SpellIsHex(|data|);
    SpellRoundTrip(|data|, 16);
    HexIsPlain(Spell(|data|, 16));
    PlainHeader(Chunk(Spell(|data|, 16), extension, data));
  }

  // ---- sizes that overflow ----

  /** An overflow is a chunk cut short: a body that de-frames to a payload has none. */
  lemma {:induction false} OverflowIsCutShort(utf8: Utf8, s: string, at: nat)
    requires Overflows(utf8, s, at)
    ensures Payload(utf8, s) == Err(TruncatedChunk)
    decreases |s|
  {
    hide SizeOf, Find, AfterData, Then;
    var nl := Find(s, CRLF).value;
    var body, n := s[nl + 2..], SizeOf(utf8, s[..nl]).value;
    if n <= |body| {
      AfterDataShorter(body, n);
      ThenFails(body[..n], Payload(utf8, AfterData(body, n)));
      OverflowIsCutShort(utf8, AfterData(body, n), at + |s| - |AfterData(body, n)|);
    }
  }

  lemma AfterDataShorter(s: string, n: nat)
    requires n <= |s|
    ensures |AfterData(s, n)| <= |s| - n
  {}

  lemma ThenFails(out: string, r: Result<string, ChunkError>)
    ensures r.Err? ==> Then(out, r) == r
  {}

  /** At a first chunk that is cut short, the handler panics if and only if header, line end and size exceed a usize. */
  lemma FirstChunkOverflowsIff(utf8: Utf8, header: string, rest: string)
    requires Find(header, CRLF).None? && SizeOf(utf8, header).Ok? && SizeOf(utf8, header).value > |rest|
    ensures Outcome(utf8, header + CRLF + rest) == Err(IndexOverflow) <==>
      |header| + 2 + SizeOf(utf8, header).value > USIZE_MAX
    ensures Outcome(utf8, header + CRLF + rest) == Err(TruncatedChunk) <==>
      |header| + 2 + SizeOf(utf8, header).value <= USIZE_MAX
  {
    FindLineEnd(header, rest);
    var s := header + CRLF + rest;
    assert s[..|header|] == header && s[|header| + 2..] == rest;
    hide SizeOf, Find;
  }

  /** Such a size is `ffffffffffffffff`, whatever follows it. */
  lemma LargestSizeOverflows(utf8: Utf8, rest: string)
    requires DecodesAscii(utf8) && |rest| < USIZE_MAX
    ensures Outcome(utf8, Spell(USIZE_MAX, 16) + CRLF + rest) == Err(IndexOverflow)
  {
    hide Spell, Value, Find, TrimStart, TrimEnd, HexDigits, Ascii, Outcome;
    var size := Spell(USIZE_MAX, 16);
    SpellIsHex(USIZE_MAX);
    SpellRoundTrip(USIZE_MAX, 16);
    HexIsPlain(size);
    PlainPrefix(size, "");
    assert size + "" == size;
    NoLineEndInNothing();
    FindAbsent(size, ';');
    FirstChunkOverflowsIff(utf8, size, rest);
  }

  lemma NoLineEndInNothing()
    ensures Find("", CRLF).None?
  {}

  /** A framed body never overflows. */
  lemma FramedNeverOverflows(utf8: Utf8, chunks: seq<Chunk>, end: Chunk, trailers: string)
    requires forall i :: 0 <= i < |chunks| ==> WellFramed(utf8, chunks[i]) && chunks[i].data != ""
    requires WellFramed(utf8, end) && end.data == ""
    ensures Outcome(utf8, Frame(chunks) + Terminator(end, trailers)) == Ok(Joined(chunks))
  {
    hide Payload, Overflows, WellFramed, Terminator;
    var raw := Frame(chunks) + Terminator(end, trailers);
    DecodeInvertsFraming(utf8, chunks, end, trailers);
    if Overflows(utf8, raw, 0) { OverflowIsCutShort(utf8, raw, 0); }
  }
}
