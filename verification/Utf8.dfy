/**
 * UTF-8 as Node writes it and as the browser's streaming `TextDecoder` reads it (sections 8.1.1 and
 * 8.1.2 of the WHATWG Encoding Standard), malformed input included.
 */
module Utf8 {
  import opened Collections

  type Byte = n: int | 0 <= n < 256

  // ------------------------------------------------------------------ encoder

  function EncodeChar(c: char): seq<Byte> {
    var n := c as int;
    if n < 0x80 then [n]
    else if n < 0x800 then [0xC0 + n / 64, 0x80 + n % 64]
    else if n < 0x1_0000 then [0xE0 + n / 4096, 0x80 + n / 64 % 64, 0x80 + n % 64]
    else [0xF0 + n / 262_144, 0x80 + n / 4096 % 64, 0x80 + n / 64 % 64, 0x80 + n % 64]
  }

  function Encode(text: string): seq<Byte> {
    if text == "" then [] else EncodeChar(text[0]) + Encode(text[1..])
  }

  lemma {:induction false} EncodeJoin(a: string, b: string)
    ensures Encode(a + b) == Encode(a) + Encode(b)
  {
    if a == "" {
      assert a + b == b;
    } else {
      CutBeforeJoin(a, b, 1);
      EncodeJoin(a[1..], b);
      JoinAssociates(EncodeChar(a[0]), Encode(a[1..]), Encode(b));
    }
  }

  // ------------------------------------------------------------------ decoder

  // Inside a character: the bits so far, how many bytes are missing, and the bounds of the next one.
  datatype Decoder = Ready | Pending(codePoint: nat, missing: nat, lower: int, upper: int)
  {
    /** The smallest and the largest code point that can still come out. */
    function Least(): int
      requires Pending?
    {
      (64 * codePoint + lower - 0x80) * (if missing == 1 then 1 else if missing == 2 then 64 else 4096)
    }

    function Greatest(): int
      requires Pending?
    {
      if missing == 1 then 64 * codePoint + upper - 0x80
      else if missing == 2 then 64 * (64 * codePoint + upper - 0x80) + 63
      else 4096 * (64 * codePoint + upper - 0x80) + 4095
    }

    predicate Valid() {
      Pending? ==>
        && 1 <= missing <= 3 && 0x80 <= lower <= upper <= 0xBF && Greatest() <= 0x10_FFFF
        && (Greatest() < 0xD800 || 0xE000 <= Least())
    }
  }

  type State = d: Decoder | d.Valid() witness Ready

  datatype Output = Output(text: string, state: State)

  const REPLACEMENT := "\U{FFFD}"

  /** A byte between characters. */
  function Lead(b: Byte): Output {
    if b < 0x80 then Output([b as char], Ready)
    else if 0xC2 <= b <= 0xDF then Output("", Pending(b - 0xC0, 1, 0x80, 0xBF))
    else if b == 0xE0 then Output("", Pending(0, 2, 0xA0, 0xBF))
    else if b == 0xED then Output("", Pending(0xD, 2, 0x80, 0x9F))
    else if 0xE1 <= b <= 0xEF then Output("", Pending(b - 0xE0, 2, 0x80, 0xBF))
    else if b == 0xF0 then Output("", Pending(0, 3, 0x90, 0xBF))
    else if b == 0xF4 then Output("", Pending(4, 3, 0x80, 0x8F))
    else if 0xF1 <= b <= 0xF3 then Output("", Pending(b - 0xF0, 3, 0x80, 0xBF))
    else Output(REPLACEMENT, Ready)
  }

  /** One byte; an unexpected one ends the character before it and is read again. */
  function Step(s: State, b: Byte): Output {
    if s.Ready? then Lead(b)
    else if !(s.lower <= b <= s.upper) then
      var again := Lead(b);
      Output(REPLACEMENT + again.text, again.state)
    else
      var n := 64 * s.codePoint + b - 0x80;
      if s.missing == 1 then Output([n as char], Ready) else Output("", Pending(n, s.missing - 1, 0x80, 0xBF))
  }

  function Decode(s: State, bytes: seq<Byte>): Output
    decreases |bytes|
  {
    if bytes == [] then Output("", s)
    else
      var first := Step(s, bytes[0]);
      var rest := Decode(first.state, bytes[1..]);
      Output(first.text + rest.text, rest.state)
  }

  /** Decoding is online: the state carries an unfinished character over to the next chunk. */
  lemma {:induction false} DecodeJoin(s: State, a: seq<Byte>, b: seq<Byte>)
    ensures var p := Decode(s, a);
      var q := Decode(p.state, b);
      Decode(s, a + b) == Output(p.text + q.text, q.state)
    decreases |a|
  {
    if a == [] {
      assert a + b == b;
    } else {
      var first := Step(s, a[0]);
      var rest := Decode(first.state, a[1..]);
      CutBeforeJoin(a, b, 1);
      DecodeJoin(first.state, a[1..], b);
      JoinAssociates(first.text, rest.text, Decode(rest.state, b).text);
    }
  }

  // ------------------------------------------------------------------ round trip

  lemma DecodeOne(s: State, b: Byte)
    ensures Decode(s, [b]) == Step(s, b)
  {
    assert [b][1..] == [];
    assert Decode(Step(s, b).state, []) == Output("", Step(s, b).state);
  }

  lemma DecodeChar(c: char)
    ensures Decode(Ready, EncodeChar(c)) == Output([c], Ready)
  {
    var n := c as int;
    if n < 0x80 {
      DecodeOne(Ready, n);
    } else if n < 0x800 {
      DecodeTwo(c, 0xC0 + n / 64, 0x80 + n % 64);
    } else if n < 0x1_0000 {
      DecodeBasic(c);
    } else {
      DecodeSupplementary(c);
    }
  }

  lemma DecodeBasic(c: char)
    requires 0x800 <= c as int < 0x1_0000
    ensures Decode(Ready, EncodeChar(c)) == Output([c], Ready)
  {
    var n := c as int;
    Sextets(n);
    DecodeThree(c, 0xE0 + n / 4096, 0x80 + n / 64 % 64, 0x80 + n % 64);
  }

  lemma DecodeSupplementary(c: char)
    requires 0x1_0000 <= c as int
    ensures Decode(Ready, EncodeChar(c)) == Output([c], Ready)
  {
    var n := c as int;
    Sextets(n);
    SupplementaryBytes(c);
    DecodeFour(c, 0xF0 + n / 262_144, 0x80 + n / 4096 % 64, 0x80 + n / 64 % 64, 0x80 + n % 64);
  }

  lemma SupplementaryBytes(c: char)
    requires 0x1_0000 <= c as int
    ensures var n := c as int;
      EncodeChar(c) == [0xF0 + n / 262_144, 0x80 + n / 4096 % 64, 0x80 + n / 64 % 64, 0x80 + n % 64]
  {
  }

  lemma Sextets(n: nat)
    ensures n / 64 == 64 * (n / 4096) + n / 64 % 64
    ensures n / 4096 == 64 * (n / 262_144) + n / 4096 % 64
  {
    assert n / 64 / 64 == n / 4096;
    assert n / 4096 / 64 == n / 262_144;
  }

  lemma DecodeTwo(c: char, a: Byte, b: Byte)
    requires 0x80 <= c as int < 0x800 && a == 0xC0 + c as int / 64 && b == 0x80 + c as int % 64
    ensures Decode(Ready, [a, b]) == Output([c], Ready)
  {
    DecodeFirst([a, b]);
    assert [a, b][1..] == [b];
    DecodeLast(Pending(a - 0xC0, 1, 0x80, 0xBF), b, c);
  }

  lemma DecodeThree(c: char, a: Byte, b: Byte, d: Byte)
    requires var n := c as int;
      0x800 <= n < 0x1_0000 && a == 0xE0 + n / 4096 && 0x80 <= b <= 0xBF && n / 64 == 64 * (n / 4096) + b - 0x80
      && d == 0x80 + n % 64
    ensures Decode(Ready, [a, b, d]) == Output([c], Ready)
  {
    var s := Lead(a).state;
    DecodeFirst([a, b, d]);
    assert [a, b, d][1..] == [b, d] && [b, d][1..] == [d];
    assert s.lower <= b <= s.upper;
    DecodeSilent(s, [b, d]);
    DecodeLast(Step(s, b).state, d, c);
  }

  lemma DecodeFour(c: char, a: Byte, b: Byte, d: Byte, e: Byte)
    requires var n := c as int;
      0x1_0000 <= n && a == 0xF0 + n / 262_144 && 0x80 <= b <= 0xBF && n / 4096 == 64 * (n / 262_144) + b - 0x80
      && 0x80 <= d <= 0xBF && n / 64 == 64 * (n / 4096) + d - 0x80 && e == 0x80 + n % 64
    ensures Decode(Ready, [a, b, d, e]) == Output([c], Ready)
  {
    var s := Lead(a).state;
    DecodeFirst([a, b, d, e]);
    assert [a, b, d, e][1..] == [b, d, e] && [b, d, e][1..] == [d, e] && [d, e][1..] == [e];
    assert s.lower <= b <= s.upper;
    DecodeSilent(s, [b, d, e]);
    DecodeSilent(Step(s, b).state, [d, e]);
    DecodeLast(Step(Step(s, b).state, d).state, e, c);
  }

  lemma DecodeLast(s: State, b: Byte, c: char)
    requires s.Pending? && s.missing == 1 && s.lower <= b <= s.upper && 64 * s.codePoint + b - 0x80 == c as int
    ensures Decode(s, [b]) == Output([c], Ready)
  {
    DecodeOne(s, b);
  }

  lemma DecodeSilent(s: State, bytes: seq<Byte>)
    requires bytes != [] && Step(s, bytes[0]).text == ""
    ensures Decode(s, bytes) == Decode(Step(s, bytes[0]).state, bytes[1..])
  {
    var rest := Decode(Step(s, bytes[0]).state, bytes[1..]);
    assert "" + rest.text == rest.text;
  }

  lemma DecodeFirst(bytes: seq<Byte>)
    requires bytes != [] && Lead(bytes[0]).text == ""
    ensures Decode(Ready, bytes) == Decode(Lead(bytes[0]).state, bytes[1..])
  {
  }

  /** Decoding what was encoded gives the text back, and leaves nothing pending. */
  lemma {:induction false} DecodeEncoded(text: string)
    ensures Decode(Ready, Encode(text)) == Output(text, Ready)
  {
    if text != "" {
      DecodeChar(text[0]);
      DecodeEncoded(text[1..]);
      DecodeJoin(Ready, EncodeChar(text[0]), Encode(text[1..]));
      HeadAndTail(text);
    }
  }

  // ------------------------------------------------------------------ malformed input never passes for text

  /** The states between the bytes of a character: enough bits to be sure that no shorter form is read. */
  predicate Shaped(s: State) {
    s.Pending? ==>
      && (s.missing == 3 ==> s.codePoint <= 4 && (s.codePoint == 0 ==> s.lower >= 0x90))
      && (s.missing == 2 ==> s.codePoint < 320 && (s.codePoint == 0 ==> s.lower >= 0xA0))
      && (s.missing == 1 ==> 2 <= s.codePoint)
  }

  /** The bytes of the unfinished character. */
  function Begun(s: State): seq<int> {
    if s.Ready? then [] else BegunBytes(s.missing, s.codePoint)
  }

  function BegunBytes(missing: nat, n: nat): seq<int> {
    if missing == 3 then [0xF0 + n]
    else if missing == 2 then (if n < 16 then [0xE0 + n] else [0xF0 + n / 64, 0x80 + n % 64])
    else if n < 32 then [0xC0 + n]
    else if n < 1024 then [0xE0 + n / 64, 0x80 + n % 64]
    else [0xF0 + n / 4096, 0x80 + n / 64 % 64, 0x80 + n % 64]
  }

  lemma NextSextet(n: nat, c: nat)
    requires c < 64
    ensures var m := 64 * n + c;
      m % 64 == c && m / 64 == n && m / 4096 == n / 64 && m / 262_144 == n / 4096
  {
    var m := 64 * n + c;
    assert m / 64 == n;
    assert m / 64 / 64 == m / 4096;
    assert m / 4096 / 64 == m / 262_144;
    assert n / 64 / 64 == n / 4096;
  }

  lemma LastByteIsEncoded(n: nat, b: Byte, c: char)
    requires 2 <= n && 0x80 <= b <= 0xBF && c as int == 64 * n + b - 0x80
    ensures EncodeChar(c) == BegunBytes(1, n) + [b]
  {
    NextSextet(n, b - 0x80);
  }

  lemma NextByteIsEncoded(missing: nat, n: nat, b: Byte)
    requires 0x80 <= b <= 0xBF
    requires (missing == 3 && n <= 4 && (n == 0 ==> b >= 0x90)) || (missing == 2 && n < 320 && (n == 0 ==> b >= 0xA0))
    ensures BegunBytes(missing - 1, 64 * n + b - 0x80) == BegunBytes(missing, n) + [b]
  {
    NextSextet(n, b - 0x80);
  }

  lemma EncodeOne(c: char)
    ensures Encode([c]) == EncodeChar(c)
  {
    assert [c][1..] == "";
    assert EncodeChar(c) + Encode("") == EncodeChar(c);
  }

  lemma LeadIsEncoded(b: Byte)
    requires REPLACEMENT[0] !in Lead(b).text
    ensures var out := Lead(b); Shaped(out.state) && Encode(out.text) + Begun(out.state) == [b]
  {
    if b < 0x80 {
      EncodeOne(b as char);
    }
  }

  lemma StepIsEncoded(s: State, b: Byte)
    requires Shaped(s) && REPLACEMENT[0] !in Step(s, b).text
    ensures var out := Step(s, b); Shaped(out.state) && Encode(out.text) + Begun(out.state) == Begun(s) + [b]
  {
    if s.Ready? {
      LeadIsEncoded(b);
    } else if s.missing == 1 {
      EncodeOne((64 * s.codePoint + b - 0x80) as char);
      LastByteIsEncoded(s.codePoint, b, (64 * s.codePoint + b - 0x80) as char);
    } else {
      NextByteIsEncoded(s.missing, s.codePoint, b);
    }
  }

  /** If no replacement character comes out and nothing is pending, the bytes are the encoding of the text. */
  lemma {:induction false} CleanIsEncoded(s: State, bytes: seq<Byte>)
    requires Shaped(s) && Decode(s, bytes).state == Ready && REPLACEMENT[0] !in Decode(s, bytes).text
    ensures Encode(Decode(s, bytes).text) == Begun(s) + bytes
    decreases |bytes|
  {
    if bytes != [] {
      var first := Step(s, bytes[0]);
      var rest := Decode(first.state, bytes[1..]);
      StepIsEncoded(s, bytes[0]);
      CleanIsEncoded(first.state, bytes[1..]);
      EncodeJoin(first.text, rest.text);
      Chained(Encode(first.text), Begun(first.state), Begun(s), bytes);
    }
  }

  lemma Chained(out: seq<int>, begun: seq<int>, before: seq<int>, bytes: seq<int>)
    requires bytes != [] && out + begun == before + [bytes[0]]
    ensures out + (begun + bytes[1..]) == before + bytes
  {
    assert out + (begun + bytes[1..]) == (before + [bytes[0]]) + bytes[1..];
  }

  /** Bytes decode to a text without replacement characters, and completely, if and only if they are its encoding. */
  lemma CleanIffEncoded(text: string, bytes: seq<Byte>)
    requires REPLACEMENT[0] !in text
    ensures Decode(Ready, bytes) == Output(text, Ready) <==> bytes == Encode(text)
  {
    if Decode(Ready, bytes) == Output(text, Ready) {
      CleanIsEncoded(Ready, bytes);
    } else {
      DecodeEncoded(text);
    }
  }

  /** A byte that no character starts with, and a character that breaks off, give one replacement character each. */
  lemma MalformedIsReplaced(s: State, b: Byte, bytes: seq<Byte>)
    ensures 0x80 <= b <= 0xC1 || b >= 0xF5 ==>
      Decode(Ready, [b] + bytes).text == "\U{FFFD}" + Decode(Ready, bytes).text
    ensures s.Pending? && !(s.lower <= b <= s.upper) ==>
      Decode(s, [b] + bytes).text == "\U{FFFD}" + Decode(Ready, [b] + bytes).text
  {
    assert ([b] + bytes)[1..] == bytes;
    JoinAssociates(REPLACEMENT, Lead(b).text, Decode(Lead(b).state, bytes).text);
  }

  // ------------------------------------------------------------------ TextDecoder

  const BYTE_ORDER_MARK := '\U{FEFF}'

  // `started`: something has come out, so a byte order mark is no longer special.
  datatype TextDecoder = TextDecoder(started: bool, state: State)
  datatype Decoded = Decoded(text: string, decoder: TextDecoder)

  function NewDecoder(): TextDecoder {
    TextDecoder(false, Ready)
  }

  function DropMark(started: bool, text: string): string {
    if !started && text != "" && text[0] == BYTE_ORDER_MARK then text[1..] else text
  }

  /** `decode(chunk, { stream: true })`. */
  function DecodeChunk(d: TextDecoder, bytes: seq<Byte>): Decoded {
    var out := Decode(d.state, bytes);
    Decoded(DropMark(d.started, out.text), TextDecoder(d.started || out.text != "", out.state))
  }

  /** Two chunks decode to what their concatenation does, wherever the cut is. */
  lemma DecodeChunkJoin(d: TextDecoder, a: seq<Byte>, b: seq<Byte>)
    ensures var p := DecodeChunk(d, a);
      var q := DecodeChunk(p.decoder, b);
      DecodeChunk(d, a + b) == Decoded(p.text + q.text, q.decoder)
  {
    var first := Decode(d.state, a);
    DecodeJoin(d.state, a, b);
    DropMarkJoin(d.started, first.text, Decode(first.state, b).text);
  }

  lemma DropMarkJoin(started: bool, a: string, b: string)
    ensures DropMark(started, a + b) == DropMark(started, a) + DropMark(started || a != "", b)
  {
    if a == "" {
      assert a + b == b && DropMark(started, a) + DropMark(started, b) == DropMark(started, b);
    } else if !started && a[0] == BYTE_ORDER_MARK {
      CutBeforeJoin(a, b, 1);
    }
  }

  /** A byte order mark at the very beginning is not part of the text; anything else is. */
  lemma MarkIsDropped(text: string)
    ensures DecodeChunk(NewDecoder(), Encode("\U{FEFF}" + text)).text == text
    ensures text == "" || text[0] != '\U{FEFF}' ==> DecodeChunk(NewDecoder(), Encode(text)).text == text
    ensures DecodeChunk(TextDecoder(true, Ready), Encode(text)).text == text
  {
    DecodeEncoded("\U{FEFF}" + text);
    DecodeEncoded(text);
    assert ("\U{FEFF}" + text)[1..] == text;
  }
}
