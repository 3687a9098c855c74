/**
 * A reader of serialized JSON values, after the grammar of RFC 8259, and the proof that it gives every
 * value back. (White space between tokens is not read: the serializer writes none.)
 */
module JsonReader {
  import opened Collections
  import opened Json

  // What has been read, and the text behind it.
  datatype Read<+T> = Fail | Got(value: T, rest: string)

  // ------------------------------------------------------------------ strings (section 7)

  function HexValue(c: char): Option<nat> {
    if '0' <= c <= '9' then Some(c as int - '0' as int)
    else if 'a' <= c <= 'f' then Some(10 + c as int - 'a' as int)
    else if 'A' <= c <= 'F' then Some(10 + c as int - 'A' as int)
    else None
  }

  function ReadHex(s: string): Read<Unit> {
    if |s| < 4 || exists i :: 0 <= i < 4 && HexValue(s[i]).None? then Fail
    else
      var n := 4096 * HexValue(s[0]).value + 256 * HexValue(s[1]).value + 16 * HexValue(s[2]).value
        + HexValue(s[3]).value;
      if n >= 0x1_0000 then Fail
      else Got(if 0xD800 <= n <= 0xDFFF then Lone(n) else Scalar(n as char), s[4..])
  }

  /** What a backslash and the text behind it stand for. */
  function ReadEscape(s: string): Read<Unit> {
    if s == "" then Fail
    else
      match s[0]
      case '\"' => Got(Scalar('\"'), s[1..])
      case '\\' => Got(Scalar('\\'), s[1..])
      case '/' => Got(Scalar('/'), s[1..])
      case 'b' => Got(Scalar('\U{0008}'), s[1..])
      case 'f' => Got(Scalar('\U{000C}'), s[1..])
      case 'n' => Got(Scalar('\n'), s[1..])
      case 'r' => Got(Scalar('\r'), s[1..])
      case 't' => Got(Scalar('\t'), s[1..])
      case 'u' => ReadHex(s[1..])
      case _ => Fail
  }

  /** One character of a string. */
  function ReadUnit(s: string): (read: Read<Unit>)
    ensures read.Got? ==> |read.rest| < |s|
  {
    if s == "" || s[0] == '\"' || s[0] < ' ' then Fail
    else if s[0] == '\\' then ReadEscape(s[1..])
    else Got(Scalar(s[0]), s[1..])
  }

  /** A string after its opening quotation mark. */
  function ReadText(s: string): (read: Read<Text>)
    ensures read.Got? ==> |read.rest| < |s|
    decreases |s|
  {
    if s != "" && s[0] == '\"' then Got([], s[1..])
    else
      var first := ReadUnit(s);
      if first.Fail? then Fail
      else
        var more := ReadText(first.rest);
        if more.Fail? then Fail else Got([first.value] + more.value, more.rest)
  }

  // ------------------------------------------------------------------ values (sections 3 to 6)

  function NumericCount(s: string): (n: nat)
    ensures n <= |s|
  {
    if s == "" || !IsNumeric(s[0]) then 0 else 1 + NumericCount(s[1..])
  }

  function ReadNumber(s: string): (read: Read<Json>)
    ensures read.Got? ==> |read.rest| < |s|
  {
    var n := NumericCount(s);
    if IsNumberText(s[..n]) then Got(Number(s[..n]), s[n..]) else Fail
  }

  function ReadWord(s: string, word: string, value: Json): (read: Read<Json>)
    requires word != ""
    ensures read.Got? ==> |read.rest| < |s|
  {
    if |word| <= |s| && s[..|word|] == word then Got(value, s[|word|..]) else Fail
  }

  function ReadValue(s: string): (read: Read<Json>)
    ensures read.Got? ==> |read.rest| < |s|
    decreases |s|, 0
  {
    if s == "" then Fail
    else if s[0] == 'n' then ReadWord(s, "null", Null)
    else if s[0] == 't' then ReadWord(s, "true", Bool(true))
    else if s[0] == 'f' then ReadWord(s, "false", Bool(false))
    else if s[0] == '\"' then
      var text := ReadText(s[1..]);
      if text.Fail? then Fail else Got(String(text.value), text.rest)
    else if s[0] == '[' then ReadArray(s[1..])
    else if s[0] == '{' then ReadObject(s[1..])
    else ReadNumber(s)
  }

  /** An array after its opening bracket. */
  function ReadArray(s: string): (read: Read<Json>)
    ensures read.Got? ==> |read.rest| < |s|
    decreases |s|, 3
  {
    if s != "" && s[0] == ']' then Got(Array([]), s[1..])
    else
      var items := ReadItems(s);
      if items.Fail? then Fail else Got(Array(items.value), items.rest)
  }

  /** An object after its opening brace. */
  function ReadObject(s: string): (read: Read<Json>)
    ensures read.Got? ==> |read.rest| < |s|
    decreases |s|, 3
  {
    if s != "" && s[0] == '}' then Got(Object([]), s[1..])
    else
      var members := ReadMembers(s);
      if members.Fail? then Fail else Got(Object(members.value), members.rest)
  }

  /** One or more elements, and the closing bracket. */
  function ReadItems(s: string): (read: Read<seq<Json>>)
    ensures read.Got? ==> |read.rest| < |s|
    decreases |s|, 1
  {
    var first := ReadValue(s);
    if first.Fail? || first.rest == "" then Fail
    else if first.rest[0] == ']' then Got([first.value], first.rest[1..])
    else if first.rest[0] != ',' then Fail
    else
      var more := ReadItems(first.rest[1..]);
      if more.Fail? then Fail else Got([first.value] + more.value, more.rest)
  }

  /** A name, a colon and a value. */
  function ReadMember(s: string): (read: Read<Member>)
    ensures read.Got? ==> |read.rest| < |s|
    decreases |s|, 1
  {
    if s == "" || s[0] != '\"' then Fail
    else
      var name := ReadText(s[1..]);
      if name.Fail? || name.rest == "" || name.rest[0] != ':' then Fail
      else
        var value := ReadValue(name.rest[1..]);
        if value.Fail? then Fail else Got(Member(name.value, value.value), value.rest)
  }

  /** One or more members, and the closing brace. */
  function ReadMembers(s: string): (read: Read<seq<Member>>)
    ensures read.Got? ==> |read.rest| < |s|
    decreases |s|, 2
  {
    var first := ReadMember(s);
    if first.Fail? || first.rest == "" then Fail
    else if first.rest[0] == '}' then Got([first.value], first.rest[1..])
    else if first.rest[0] != ',' then Fail
    else
      var more := ReadMembers(first.rest[1..]);
      if more.Fail? then Fail else Got([first.value] + more.value, more.rest)
  }

  /** A whole text. */
  function ParseJson(s: string): Option<Json> {
    var read := ReadValue(s);
    if read.Got? && read.rest == "" then Some(read.value) else None
  }

  // ------------------------------------------------------------------ reading back strings

  lemma Behind(head: string, x: string)
    ensures (head + x)[..|head|] == head && (head + x)[|head|..] == x
    ensures head != "" ==> (head + x)[0] == head[0]
  {
  }

  lemma HexReadsBack(n: nat)
    requires n < 16
    ensures HexValue(HexDigit(n)) == Some(n)
  {
  }

  lemma Nibbles(n: nat)
    ensures n == 4096 * (n / 4096) + 256 * (n / 256 % 16) + 16 * (n / 16 % 16) + n % 16
  {
    assert n / 16 / 16 == n / 256;
    assert n / 256 / 16 == n / 4096;
  }

  lemma UnicodeEscapeReadsBack(n: nat, x: string)
    requires n < 0x1_0000
    ensures ReadUnit(UnicodeEscape(n) + x) == Got(if 0xD800 <= n <= 0xDFFF then Lone(n) else Scalar(n as char), x)
  {
    var digits := [HexDigit(n / 4096), HexDigit(n / 256 % 16), HexDigit(n / 16 % 16), HexDigit(n % 16)];
    var s := UnicodeEscape(n) + x;
    assert s == "\\" + ("u" + (digits + x));
    Behind("\\", "u" + (digits + x));
    Behind("u", digits + x);
    Behind(digits, x);
    HexReadsBack(n / 4096);
    HexReadsBack(n / 256 % 16);
    HexReadsBack(n / 16 % 16);
    HexReadsBack(n % 16);
    Nibbles(n);
    HexRead(digits + x, n / 4096, n / 256 % 16, n / 16 % 16, n % 16);
  }

  lemma HexRead(s: string, a: nat, b: nat, c: nat, d: nat)
    requires |s| >= 4 && HexValue(s[0]) == Some(a) && HexValue(s[1]) == Some(b) && HexValue(s[2]) == Some(c)
    requires HexValue(s[3]) == Some(d) && 4096 * a + 256 * b + 16 * c + d < 0x1_0000
    ensures var n := 4096 * a + 256 * b + 16 * c + d;
      ReadHex(s) == Got(if 0xD800 <= n <= 0xDFFF then Lone(n) else Scalar(n as char), s[4..])
  {
  }

  lemma UnitReadsBack(u: Unit, x: string)
    ensures EscapeUnit(u) != "" && EscapeUnit(u)[0] != '\"'
    ensures ReadUnit(EscapeUnit(u) + x) == Got(u, x)
  {
    match u
    case Lone(n) => UnicodeEscapeReadsBack(n, x);
    case Scalar(c) =>
      if |EscapeUnit(u)| == 6 {
        UnicodeEscapeReadsBack(c as int, x);
      } else if |EscapeUnit(u)| == 2 {
        ShortEscapeReadsBack(c, x);
      } else {
        Behind([c], x);
      }
  }

  lemma ShortEscapeReadsBack(c: char, x: string)
    requires |EscapeUnit(Scalar(c))| == 2
    ensures ReadUnit(EscapeUnit(Scalar(c)) + x) == Got(Scalar(c), x)
  {
    var escape := EscapeUnit(Scalar(c));
    assert escape[0] == '\\' && escape + x == "\\" + ([escape[1]] + x);
    Behind("\\", [escape[1]] + x);
    Behind([escape[1]], x);
  }

  lemma {:induction false} TextReadsBack(t: Text, x: string)
    ensures ReadText(Escape(t) + "\"" + x) == Got(t, x)
    decreases |t|
  {
    if t == [] {
      assert Escape(t) + "\"" + x == "\"" + x;
      Behind("\"", x);
    } else {
      var later := Escape(t[1..]) + "\"" + x;
      assert Escape(t) + "\"" + x == EscapeUnit(t[0]) + later;
      UnitReadsBack(t[0], later);
      Behind(EscapeUnit(t[0]), later);
      TextReadsBack(t[1..], x);
      HeadAndTail(t);
    }
  }

  lemma QuoteReadsBack(t: Text, x: string)
    ensures (Quote(t) + x)[0] == '\"' && ReadText((Quote(t) + x)[1..]) == Got(t, x)
  {
    TextReadsBack(t, x);
    Quoted(Escape(t), x);
  }

  lemma Quoted(inner: string, x: string)
    ensures var s := "\"" + inner + "\"" + x; s[0] == '\"' && s[1..] == inner + "\"" + x
  {
    assert "\"" + inner + "\"" + x == "\"" + (inner + "\"" + x);
    Behind("\"", inner + "\"" + x);
  }

  // ------------------------------------------------------------------ reading back values

  /** What may follow a value. */
  predicate Ends(s: string) {
    s != "" ==> s[0] in {',', ']', '}'}
  }

  lemma {:induction false} NumericCountOf(digits: string, x: string)
    requires (forall i :: 0 <= i < |digits| ==> IsNumeric(digits[i])) && (x != "" ==> !IsNumeric(x[0]))
    ensures NumericCount(digits + x) == |digits|
  {
    if digits == "" {
      assert digits + x == x;
    } else {
      CutBeforeJoin(digits, x, 1);
      NumericCountOf(digits[1..], x);
    }
  }

  lemma NumberReadsBack(number: NumberText, x: string)
    requires Ends(x)
    ensures ReadValue(number + x) == Got(Number(number), x)
  {
    NumericCountOf(number, x);
    Behind(number, x);
  }

  lemma WordReadsBack(word: string, value: Json, x: string)
    requires word != ""
    ensures ReadWord(word + x, word, value) == Got(value, x)
  {
    Behind(word, x);
  }

  lemma ConstantReadsBack(v: Json, x: string)
    requires v.Null? || v.Bool?
    ensures ReadValue(Stringify(v) + x) == Got(v, x)
  {
    WordReadsBack("null", Null, x);
    WordReadsBack("true", Bool(true), x);
    WordReadsBack("false", Bool(false), x);
    Behind(Stringify(v), x);
  }

  lemma StringReadsBack(text: Text, x: string)
    ensures ReadValue(Stringify(String(text)) + x) == Got(String(text), x)
  {
    QuoteReadsBack(text, x);
  }

  /** The first character of a value. */
  lemma FirstChar(v: Json, x: string)
    ensures Stringify(v) != "" && (Stringify(v) + x)[0] == Stringify(v)[0] && Stringify(v)[0] != ']'
  {
  }

  /** Reading what was written gives the value back and leaves the text behind it. */
  lemma {:induction false} ValueReadsBack(v: Json, x: string)
    requires Ends(x)
    ensures ReadValue(Stringify(v) + x) == Got(v, x)
    decreases v, 0
  {
    match v
    case Null => ConstantReadsBack(v, x);
    case Bool(value) => ConstantReadsBack(v, x);
    case Number(number) => NumberReadsBack(number, x);
    case String(text) => StringReadsBack(text, x);
    case Array(items) =>
      Bracketed(StringifyItems(items), x);
      if items == [] {
        EmptyReads(x);
      } else {
        ItemsReadBack(items, x);
        ArrayRead(StringifyItems(items) + "]" + x, items, x);
      }
    case Object(members) =>
      Bracketed(StringifyMembers(members), x);
      if members == [] {
        EmptyReads(x);
      } else {
        MembersReadBack(members, x);
        ObjectRead(StringifyMembers(members) + "}" + x, members, x);
      }
  }

  lemma EmptyReads(x: string)
    ensures ReadArray("" + "]" + x) == Got(Array([]), x) && ReadObject("" + "}" + x) == Got(Object([]), x)
  {
    assert "" + "]" + x == "]" + x && "" + "}" + x == "}" + x;
    Behind("]", x);
    Behind("}", x);
  }

  lemma Bracketed(inner: string, x: string)
    ensures ReadValue("[" + inner + "]" + x) == ReadArray(inner + "]" + x)
    ensures ReadValue("{" + inner + "}" + x) == ReadObject(inner + "}" + x)
  {
    assert "[" + inner + "]" + x == "[" + (inner + "]" + x);
    assert "{" + inner + "}" + x == "{" + (inner + "}" + x);
    Opened("[", inner + "]" + x);
    Opened("{", inner + "}" + x);
  }

  lemma Opened(open: string, s: string)
    ensures open == "[" ==> ReadValue(open + s) == ReadArray(s)
    ensures open == "{" ==> ReadValue(open + s) == ReadObject(s)
  {
    Behind(open, s);
  }

  lemma ArrayRead(s: string, items: seq<Json>, x: string)
    requires s != "" && s[0] != ']' && ReadItems(s) == Got(items, x)
    ensures ReadArray(s) == Got(Array(items), x)
  {
  }

  lemma ObjectRead(s: string, members: seq<Member>, x: string)
    requires s != "" && s[0] == '\"' && ReadMembers(s) == Got(members, x)
    ensures ReadObject(s) == Got(Object(members), x)
  {
  }

  lemma {:induction false} ItemsReadBack(items: seq<Json>, x: string)
    requires items != []
    ensures ReadItems(StringifyItems(items) + "]" + x) == Got(items, x)
    ensures StringifyItems(items) != "" && StringifyItems(items)[0] != ']'
    decreases items, 1
  {
    FirstItem(items);
    if |items| == 1 {
      ValueReadsBack(items[0], "]" + x);
      LastItem(Stringify(items[0]), items[0], x);
      assert items == [items[0]];
    } else {
      var later := StringifyItems(items[1..]) + "]" + x;
      ValueReadsBack(items[0], "," + later);
      ItemsReadBack(items[1..], x);
      NextItem(Stringify(items[0]), items[0], later, items[1..], x);
      Separated(Stringify(items[0]), StringifyItems(items[1..]), "]", x);
      HeadAndTail(items);
    }
  }

  lemma FirstItem(items: seq<Json>)
    requires items != []
    ensures StringifyItems(items) != "" && StringifyItems(items)[0] != ']'
  {
    FirstChar(items[0], "");
  }

  lemma Separated(first: string, later: string, close: string, x: string)
    ensures first + "," + later + close + x == first + ("," + (later + close + x))
  {
  }

  lemma LastItem(first: string, v: Json, x: string)
    requires ReadValue(first + ("]" + x)) == Got(v, "]" + x)
    ensures ReadItems(first + "]" + x) == Got([v], x)
  {
    JoinAssociates(first, "]", x);
    Behind("]", x);
  }

  lemma NextItem(first: string, v: Json, later: string, items: seq<Json>, x: string)
    requires ReadValue(first + ("," + later)) == Got(v, "," + later) && ReadItems(later) == Got(items, x)
    ensures ReadItems(first + ("," + later)) == Got([v] + items, x)
  {
    Behind(",", later);
  }

  lemma MemberReadsBack(m: Member, x: string)
    requires ReadValue(Stringify(m.value) + x) == Got(m.value, x)
    ensures ReadMember(Quote(m.name) + ":" + Stringify(m.value) + x) == Got(m, x)
  {
    var later := Stringify(m.value) + x;
    NameAndValue(Quote(m.name), Stringify(m.value), x);
    QuoteReadsBack(m.name, ":" + later);
    MemberRead(Quote(m.name) + (":" + later), m.name, later, m.value, x);
  }

  lemma NameAndValue(name: string, value: string, x: string)
    ensures name + ":" + value + x == name + (":" + (value + x))
  {
  }

  lemma MemberRead(s: string, name: Text, later: string, value: Json, x: string)
    requires s != "" && s[0] == '\"' && ReadText(s[1..]) == Got(name, ":" + later)
    requires ReadValue(later) == Got(value, x)
    ensures ReadMember(s) == Got(Member(name, value), x)
  {
    Behind(":", later);
  }

  lemma {:induction false} MembersReadBack(members: seq<Member>, x: string)
    requires members != []
    ensures ReadMembers(StringifyMembers(members) + "}" + x) == Got(members, x)
    ensures StringifyMembers(members) != "" && StringifyMembers(members)[0] == '\"'
    decreases members, 1
  {
    var m := members[0];
    var first := Quote(m.name) + ":" + Stringify(m.value);
    MembersWritten(members, x);
    if |members| == 1 {
      ValueReadsBack(m.value, "}" + x);
      MemberReadsBack(m, "}" + x);
      LastMember(first, m, x);
      assert members == [m];
    } else {
      var later := StringifyMembers(members[1..]) + "}" + x;
      ValueReadsBack(m.value, "," + later);
      MemberReadsBack(m, "," + later);
      MembersReadBack(members[1..], x);
      NextMember(first, m, later, members[1..], x);
      HeadAndTail(members);
    }
  }

  lemma MembersWritten(members: seq<Member>, x: string)
    requires members != []
    ensures StringifyMembers(members) != "" && StringifyMembers(members)[0] == '\"'
    ensures var first := Quote(members[0].name) + ":" + Stringify(members[0].value);
      StringifyMembers(members) + "}" + x ==
        if |members| == 1 then first + "}" + x else first + ("," + (StringifyMembers(members[1..]) + "}" + x))
  {
    var first := Quote(members[0].name) + ":" + Stringify(members[0].value);
    if |members| == 1 {
      assert StringifyMembers(members) == first;
    } else {
      Grouped(first, StringifyMembers(members[1..]), x);
    }
  }

  lemma Grouped(first: string, later: string, x: string)
    ensures first + ("," + later) + "}" + x == first + ("," + (later + "}" + x))
  {
  }

  lemma LastMember(first: string, m: Member, x: string)
    requires ReadMember(first + ("}" + x)) == Got(m, "}" + x)
    ensures ReadMembers(first + "}" + x) == Got([m], x)
  {
    JoinAssociates(first, "}", x);
    Behind("}", x);
  }

  lemma NextMember(first: string, m: Member, later: string, members: seq<Member>, x: string)
    requires ReadMember(first + ("," + later)) == Got(m, "," + later) && ReadMembers(later) == Got(members, x)
    ensures ReadMembers(first + ("," + later)) == Got([m] + members, x)
  {
    Behind(",", later);
  }

  /** Every value is read back from its serialization. */
  lemma ParseReadsBack(v: Json)
    ensures ParseJson(Stringify(v)) == Some(v)
  {
    ValueReadsBack(v, "");
    assert Stringify(v) + "" == Stringify(v);
  }

  /** No two values are written alike, and none is written like the beginning of another. */
  lemma Unambiguous(a: Json, b: Json, x: string, y: string)
    requires Stringify(a) + x == Stringify(b) + y && Ends(x) && Ends(y)
    ensures a == b && x == y
  {
    ValueReadsBack(a, x);
    ValueReadsBack(b, y);
  }
}
