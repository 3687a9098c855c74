/**
 * JSON values and their serialization, as ECMA-262 defines `JSON.stringify` (grammar: section 7 of RFC 8259
 * for strings).
 */
module Json {
  import opened Collections
  import opened RowLabels

  // A JavaScript string: Unicode characters, and surrogate code units that are not part of a pair.
  type Surrogate = n: int | 0xD800 <= n <= 0xDFFF witness 0xD800
  datatype Unit = Scalar(c: char) | Lone(surrogate: Surrogate)
  type Text = seq<Unit>

  function Plain(s: string): Text {
    Map(c => Scalar(c), s)
  }

  // A finite number, carried by the text that Number::toString gives it.
  predicate IsNumeric(c: char) {
    IsDigit(c) || c == '-' || c == '+' || c == '.' || c == 'e'
  }

  predicate IsNumberText(s: string) {
    s != "" && (IsDigit(s[0]) || s[0] == '-') && forall i :: 0 <= i < |s| ==> IsNumeric(s[i])
  }

  type NumberText = s: string | IsNumberText(s) witness "0"

  datatype Json =
    | Null
    | Bool(value: bool)
    | Number(number: NumberText)
    | String(text: Text)
    | Array(items: seq<Json>)
    | Object(members: seq<Member>)

  datatype Member = Member(name: Text, value: Json)

  function HexDigit(n: nat): char
    requires n < 16
  {
    if n < 10 then (48 + n) as char else (87 + n) as char
  }

  function UnicodeEscape(n: nat): string
    requires n < 0x1_0000
  {
    "\\u" + [HexDigit(n / 4096), HexDigit(n / 256 % 16), HexDigit(n / 16 % 16), HexDigit(n % 16)]
  }

  /** A quotation mark, a backslash, every control character and every lone surrogate is escaped. */
  function EscapeUnit(u: Unit): string {
    match u
    case Lone(n) => UnicodeEscape(n)
    case Scalar(c) =>
      if c == '\"' then "\\\""
      else if c == '\\' then "\\\\"
      else if c as int == 8 then "\\b"
      else if c as int == 9 then "\\t"
      else if c as int == 10 then "\\n"
      else if c as int == 12 then "\\f"
      else if c as int == 13 then "\\r"
      else if c < ' ' then UnicodeEscape(c as int)
      else [c]
  }

  function Escape(s: Text): string {
    if s == [] then "" else EscapeUnit(s[0]) + Escape(s[1..])
  }

  function Quote(s: Text): string {
    "\"" + Escape(s) + "\""
  }

  function Stringify(json: Json): string {
    match json
    case Null => "null"
    case Bool(value) => if value then "true" else "false"
    case Number(number) => number
    case String(text) => Quote(text)
    case Array(items) => "[" + StringifyItems(items) + "]"
    case Object(members) => "{" + StringifyMembers(members) + "}"
  }

  function StringifyItems(items: seq<Json>): string {
    if items == [] then ""
    else if |items| == 1 then Stringify(items[0])
    else Stringify(items[0]) + "," + StringifyItems(items[1..])
  }

  function StringifyMembers(members: seq<Member>): string {
    if members == [] then ""
    else
      var m := members[0];
      Quote(m.name) + ":" + Stringify(m.value) + (if |members| == 1 then "" else "," + StringifyMembers(members[1..]))
  }

  // ------------------------------------------------------------------ one line

  predicate OneLine(s: string) {
    forall i :: 0 <= i < |s| ==> s[i] != '\n'
  }

  lemma {:induction false} EscapeIsOneLine(s: Text)
    ensures OneLine(Escape(s))
  {
    if s != [] {
      EscapeIsOneLine(s[1..]);
      assert OneLine(EscapeUnit(s[0]));
    }
  }

  /** The serialization of any value has no raw line feed, whatever its strings contain. */
  lemma {:induction false} StringifyIsOneLine(json: Json)
    ensures OneLine(Stringify(json)) && Stringify(json) != ""
  {
    match json
    case Null =>
    case Bool(value) =>
    case Number(number) => assert forall i :: 0 <= i < |number| ==> IsNumeric(number[i]);
    case String(text) => EscapeIsOneLine(text);
    case Array(items) => ItemsAreOneLine(items);
    case Object(members) => MembersAreOneLine(members);
  }

  lemma {:induction false} ItemsAreOneLine(items: seq<Json>)
    ensures OneLine(StringifyItems(items))
  {
    if items != [] {
      StringifyIsOneLine(items[0]);
      ItemsAreOneLine(items[1..]);
    }
  }

  lemma {:induction false} MembersAreOneLine(members: seq<Member>)
    ensures OneLine(StringifyMembers(members))
  {
    if members != [] {
      EscapeIsOneLine(members[0].name);
      StringifyIsOneLine(members[0].value);
      MembersAreOneLine(members[1..]);
    }
  }
}
