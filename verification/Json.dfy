/**
JSON texts as sections 2 to 7 of RFC 8259 define them, by derivation trees: a string is a JSON text when it is
the Text of a Valid tree. The writer uses no insignificant white space, so Text has none.
*/
module Json {
  import Strings

  /** The three ways in which section 7 lets a character of a string be written. */
  datatype Character = Plain(c: char) | Short(c: char) | Unicode(digits: string)

  datatype Value =
    | Null
    | Bool(b: bool)
    | Number(digits: string)
    | Str(characters: seq<Character>)
    | Array(items: seq<Value>)
    | Object(members: seq<Member>)

  datatype Member = Member(name: seq<Character>, value: Value)

  // ----- texts -----

  function CharacterText(ch: Character): string {
    match ch
    case Plain(c) => [c]
    case Short(c) => ['\\', c]
    case Unicode(digits) => "\\u" + digits
  }

  function CharactersText(s: seq<Character>): string {
    if s == [] then "" else CharactersText(s[..|s| - 1]) + CharacterText(s[|s| - 1])
  }

  function StringText(s: seq<Character>): string {
    "\"" + CharactersText(s) + "\""
  }

  function Text(v: Value): string {
    match v
    case Null => "null"
    case Bool(b) => if b then "true" else "false"
    case Number(digits) => digits
    case Str(s) => StringText(s)
    case Array(items) => "[" + ItemsText(items) + "]"
    case Object(members) => "{" + MembersText(members) + "}"
  }

  function ItemsText(items: seq<Value>): string {
    var n := |items|;
    if n == 0 then "" else ItemsText(items[..n - 1]) + (if n > 1 then "," else "") + Text(items[n - 1])
  }

  function MembersText(members: seq<Member>): string {
    var n := |members|;
    if n == 0 then "" else MembersText(members[..n - 1]) + (if n > 1 then "," else "") + MemberText(members[n - 1])
  }

  function MemberText(m: Member): string {
    StringText(m.name) + ":" + Text(m.value)
  }

  // ----- validity -----

  predicate IsHex(c: char) {
    '0' <= c <= '9' || 'a' <= c <= 'f' || 'A' <= c <= 'F'
  }

  predicate ValidCharacter(ch: Character) {
    match ch
    case Plain(c) => IsPlain(c)
    case Short(c) => c in "\"\\/bfnrt"
    case Unicode(digits) => |digits| == 4 && forall i :: 0 <= i < 4 ==> IsHex(digits[i])
  }

  predicate IsPlain(c: char) {
    c >= ' ' && c != '"' && c != '\\'
  }

  predicate ValidString(s: seq<Character>) {
    forall i :: 0 <= i < |s| ==> ValidCharacter(s[i])
  }

  function Digits(s: string): (n: nat)
    ensures n <= |s|
  {
    if s != "" && '0' <= s[0] <= '9' then 1 + Digits(s[1..]) else 0
  }

  /** [ minus ] int [ frac ] [ exp ] */
  predicate ValidNumber(s: string) {
    var t := if s != "" && s[0] == '-' then s[1..] else s;
    var whole := Digits(t);
    && whole > 0 && (t[0] == '0' ==> whole == 1)
    && ValidFraction(t[whole..])
  }

  predicate ValidFraction(s: string) {
    if s != "" && s[0] == '.' then
      var n := Digits(s[1..]);
      n > 0 && ValidExponent(s[1 + n..])
    else
      ValidExponent(s)
  }

  predicate ValidExponent(s: string) {
    || s == ""
    || (&& s[0] in "eE"
        && var t := if |s| > 1 && s[1] in "+-" then s[2..] else s[1..];
           t != "" && Digits(t) == |t|)
  }

  predicate Valid(v: Value) {
    match v
    case Number(digits) => ValidNumber(digits)
    case Str(s) => ValidString(s)
    case Array(items) => forall i :: 0 <= i < |items| ==> Valid(items[i])
    case Object(members) => forall i :: 0 <= i < |members| ==> ValidString(members[i].name) && Valid(members[i].value)
    case _ => true
  }

  // ----- reading strings -----

  function HexValue(c: char): (n: nat)
    requires IsHex(c)
    ensures n < 16
  {
    if c <= '9' then (c - '0') as nat else if c <= 'F' then (c - 'A') as nat + 10 else (c - 'a') as nat + 10
  }

  function HexNumber(digits: string): (n: nat)
    requires |digits| == 4 && forall i :: 0 <= i < 4 ==> IsHex(digits[i])
    ensures n < 0x1_0000
  {
    ((HexValue(digits[0]) * 16 + HexValue(digits[1])) * 16 + HexValue(digits[2])) * 16 + HexValue(digits[3])
  }

  /** The character, or UTF-16 unit, that a character of a JSON string stands for. */
  function Meaning(ch: Character): char
    requires ValidCharacter(ch)
  {
    match ch
    case Plain(c) => c
    case Short(c) =>
      if c == 'b' then 8 as char else if c == 't' then '\t' else if c == 'n' then '\n' else if c == 'f' then 12 as char
      else if c == 'r' then '\r' else c
    case Unicode(digits) => Strings.Unit(HexNumber(digits))
  }

  /** A JSON string denotes this text. */
  predicate Denotes(s: seq<Character>, text: string)
    requires ValidString(s)
  {
    |s| == |text| && forall i :: 0 <= i < |s| ==> Meaning(s[i]) == text[i]
  }
}
