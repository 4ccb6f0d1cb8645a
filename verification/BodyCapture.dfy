/**
The budgeted body renderer (BodyCapture.cs; the Java and Python versions are
the same algorithm): a command tree is printed into one growing buffer, with a
budget per nesting level, until the first cut.

The redactor belongs to another library; it is an arbitrary one here. A char stands for one UTF-16 unit, as
Strings.Unit says, so lengths are those that .NET counts.
*/
module BodyCapture {
  import opened Wrappers
  import Strings

  const MARKER := "\"__truncated__\""
  const MAX_DEPTH := 24
  const CLOSING_COST_PER_LEVEL := 18
  const SCALAR_RESERVE := 32

  // ----- what is rendered -----

  /** The length of a .NET array. */
  type ArrayLength = n: nat | n < 0x8000_0000

  /**
  A payload item, by the type test that it passes. Number carries its invariant text; Other carries what
  Format returns for it.
  */
  datatype Value =
    | Null
    | Nested(command: Command)
    | Text(text: string)
    | Flag(flag: bool)
    | Number(digits: string)
    | Bytes(length: ArrayLength)
    | Other(formatted: Option<string>)

  datatype Command = Command(runtime: string, kind: string, payload: seq<Value>)

  datatype Redactor = Redactor(
    redactValue: Option<string> -> Option<string>,
    isSensitiveKey: string -> bool,
    redactBody: string -> string,
    placeholder: string)

  // ----- pieces of text -----

  /** The text a call appends, whether it set the truncation flag, and the boolean it returned. */
  datatype Piece = Piece(text: string, cut: bool, ok: bool)

  function Header(c: Command): string {
    "{\"runtime\":\"" + c.runtime + "\",\"type\":\"" + c.kind + "\",\"payload\":["
  }

  function LocalBudget(budget: int, depth: nat): nat {
    var b := budget - (depth + 1) * CLOSING_COST_PER_LEVEL - SCALAR_RESERVE;
    if b < 0 then 0 else b
  }

  function HexDigit(n: nat): char
    requires n < 16
  {
    "0123456789abcdef"[n]
  }

  function Hex4(n: nat): string
    requires n < 0x1_0000
  {
    [HexDigit(n / 0x1000), HexDigit(n / 0x100 % 16), HexDigit(n / 0x10 % 16), HexDigit(n % 16)]
  }

  function Escape(c: char): (e: string)
    ensures 1 <= |e| <= 6
  {
    if c == '"' then "\\\""
    else if c == '\\' then "\\\\"
    else if c == '\n' then "\\n"
    else if c == '\r' then "\\r"
    else if c == '\t' then "\\t"
    else if c < ' ' then "\\u" + Hex4(c as int)
    else [c]
  }

  /** A surrogate is written as it is, so a cut may fall between the two of a pair; it is counted as one character. */
  lemma SurrogatesAreWritten(u: nat)
    requires 0xD800 <= u < 0xE000
    ensures Escape(Strings.Unit(u)) == [Strings.Unit(u)]
  {
  }

  /** The characters of a string value and its closing quote, from a buffer of the given length on. */
  function StringTail(length: nat, s: string, budget: nat): Piece
    decreases |s|
  {
    if s == "" then Piece("\"", false, true)
    else if length >= budget then Piece("\"", true, false)
    else
      var e := Escape(s[0]);
      var rest := StringTail(length + |e|, s[1..], budget);
      rest.(text := e + rest.text)
  }

  function StringPiece(length: nat, value: Option<string>, budget: nat): Piece {
    match value
    case None => Piece("\"\"", false, true)
    case Some(s) =>
      var tail := StringTail(length + 1, s, budget);
      tail.(text := "\"" + tail.text)
  }

  function Decimal(n: nat): (s: string)
    ensures s != ""
  {
    var digit := ['0' + (n % 10) as char];
    if n < 10 then digit else Decimal(n / 10) + digit
  }

  predicate FollowsSensitiveKey(r: Redactor, payload: seq<Value>, i: nat)
    requires i < |payload|
  {
    i > 0 && payload[i - 1].Text? && r.isSensitiveKey(payload[i - 1].text)
  }

  function Redacted(r: Redactor, value: Option<string>, forceRedact: bool): Option<string> {
    if forceRedact then Some(r.placeholder) else r.redactValue(value)
  }

  function ValuePiece(r: Redactor, length: nat, v: Value, depth: nat, budget: int, localBudget: nat, forceRedact: bool): Piece
    decreases v
  {
    if v.Null? then Piece("null", false, true)
    else if depth >= MAX_DEPTH then Piece(MARKER, true, true)
    else
      match v
      case Nested(c) => CommandPiece(r, length, c, depth, budget)
      case Text(text) => StringPiece(length, Redacted(r, Some(text), forceRedact), localBudget)
      case Flag(flag) => Piece(if flag then "true" else "false", false, true)
      case Number(digits) => Piece(digits, false, true)
      case Bytes(n) => Piece("\"[bytes:" + Decimal(n) + "]\"", false, true)
      case Other(formatted) => StringPiece(length, Redacted(r, formatted, forceRedact), localBudget)
  }

  /** The payload from item i on, with the marker after a cut. */
  function ItemsPiece(r: Redactor, length: nat, c: Command, i: nat, depth: nat, budget: int): Piece
    requires i <= |c.payload|
    decreases c, |c.payload| - i
  {
    var localBudget := LocalBudget(budget, depth);
    var comma := if i > 0 then "," else "";
    if i == |c.payload| then Piece("", false, true)
    else if length >= localBudget then Piece(comma + MARKER, true, false)
    else
      var value := ValuePiece(r, length + |comma|, c.payload[i], depth + 1, budget, localBudget,
                              FollowsSensitiveKey(r, c.payload, i));
      if !value.ok then value.(text := comma + value.text + "," + MARKER)
      else
        var rest := ItemsPiece(r, length + |comma| + |value.text|, c, i + 1, depth, budget);
        Piece(comma + value.text + rest.text, value.cut || rest.cut, rest.ok)
  }

  function CommandPiece(r: Redactor, length: nat, c: Command, depth: nat, budget: int): Piece
    decreases c, |c.payload| + 1
  {
    var items := ItemsPiece(r, length + |Header(c)|, c, 0, depth, budget);
    items.(text := Header(c) + items.text + "]}")
  }

  /** The body before the redactor sees it. */
  function Rendered(r: Redactor, c: Command, maxCharacters: int): Piece {
    CommandPiece(r, 0, c, 0, maxCharacters)
  }

  // ----- the procedures of the source -----

  class StringBuilder {
    var text: string

    constructor ()
      ensures text == ""
    {
      text := "";
    }

    method Append(s: string)
      modifies this
      ensures text == old(text) + s
    {
      text := text + s;
    }
  }

  method Render(r: Redactor, command: Option<Command>, maxCharacters: int) returns (body: Option<string>, truncated: bool)
    ensures command.None? ==> body == None && !truncated
    ensures command.Some? ==>
              var piece := Rendered(r, command.value, maxCharacters);
              body == Some(r.redactBody(piece.text)) && truncated == piece.cut
  {
    truncated := false;
    if command.None? {
      return None, false;
    }
    var builder := new StringBuilder();
    var _, cut := WriteCommand(r, builder, command.value, 0, maxCharacters, truncated);
    truncated := cut;
    assert builder.text == Rendered(r, command.value, maxCharacters).text;
    body := Some(r.redactBody(builder.text));
  }

  /** The source's "ref bool truncated" is the in-parameter and the out-parameter cut. */
  method WriteCommand(r: Redactor, builder: StringBuilder, command: Command, depth: nat, budget: int, truncated: bool)
    returns (withinBudget: bool, cut: bool)
    modifies builder
    ensures var piece := CommandPiece(r, |old(builder.text)|, command, depth, budget);
            && builder.text == old(builder.text) + piece.text
            && withinBudget == piece.ok && cut == (truncated || piece.cut)
    decreases command, |command.payload| + 2
  {
    WriteHeader(builder, command);
    ghost var items := ItemsPiece(r, |builder.text|, command, 0, depth, budget);
    withinBudget, cut := WriteItems(r, builder, command, depth, budget, truncated);
    builder.Append("]}");
    Regroup(old(builder.text), Header(command), items.text);
    Regroup(old(builder.text), Header(command) + items.text, "]}");
  }

  method WriteHeader(builder: StringBuilder, command: Command)
    modifies builder
    ensures builder.text == old(builder.text) + Header(command)
  {
    builder.Append("{\"runtime\":\"");
    builder.Append(command.runtime);
    builder.Append("\",\"type\":\"");
    builder.Append(command.kind);
    builder.Append("\",\"payload\":[");
    assert builder.text == old(builder.text) + Header(command);
  }

  /** The loop of the source's WriteCommand. */
  method WriteItems(r: Redactor, builder: StringBuilder, command: Command, depth: nat, budget: int, truncated: bool)
    returns (withinBudget: bool, cut: bool)
    modifies builder
    ensures var items := ItemsPiece(r, |old(builder.text)|, command, 0, depth, budget);
            && builder.text == old(builder.text) + items.text
            && withinBudget == items.ok && cut == (truncated || items.cut)
    decreases command, |command.payload| + 1
  {
    cut := truncated;
    withinBudget := true;
    var payload := command.payload;
    var hasContent := false;
    var localBudget := if budget - (depth + 1) * CLOSING_COST_PER_LEVEL - SCALAR_RESERVE > 0
                       then budget - (depth + 1) * CLOSING_COST_PER_LEVEL - SCALAR_RESERVE else 0;
    ghost var start := builder.text;
    ghost var items := ItemsPiece(r, |start|, command, 0, depth, budget);
    var i := 0;
    while i < |payload|
      invariant 0 <= i <= |payload| && hasContent == (i > 0) && withinBudget
      invariant Remaining(items, truncated, start, ItemsPiece(r, |builder.text|, command, i, depth, budget), cut, builder.text)
    {
      ghost var before := builder.text;
      if |builder.text| >= localBudget {
        ItemsCut(r, command, depth, budget, before, i);
        cut := true;
        withinBudget := false;
        break;
      }
      if hasContent {
        builder.Append(",");
      }
      var followsSensitiveKey := i > 0 && payload[i - 1].Text? && r.isSensitiveKey(payload[i - 1].text);
      ItemsStep(r, command, depth, budget, before, builder.text, i);
      var ok;
      ok, cut := WriteValue(r, builder, payload[i], depth + 1, budget, localBudget, followsSensitiveKey, cut);
      hasContent := true;
      if !ok {
        withinBudget := false;
        break;
      }
      i := i + 1;
    }

    if !withinBudget {
      if hasContent {
        builder.Append(",");
      }
      builder.Append(MARKER);
    } else {
      Nothing(builder.text);
    }
  }

  /** What is still to be written after this text, by a piece, gives what a whole piece gives after the start. */
  ghost predicate Remaining(whole: Piece, truncated: bool, start: string, rest: Piece, cut: bool, text: string) {
    start + whole.text == text + rest.text && (truncated || whole.cut) == (cut || rest.cut) && whole.ok == rest.ok
  }

  lemma Nothing(text: string)
    ensures text + "" == text
  {
  }

  lemma Regroup(a: string, b: string, c: string)
    ensures a + (b + c) == a + b + c
  {
  }

  lemma {:induction false} ItemsCut(r: Redactor, c: Command, depth: nat, budget: int, text: string, i: nat)
    requires i < |c.payload| && |text| >= LocalBudget(budget, depth)
    ensures var items := ItemsPiece(r, |text|, c, i, depth, budget);
            && text + items.text == (if i > 0 then text + "," else text) + MARKER && items.cut && !items.ok
  {
    if i > 0 {
      Regroup(text, ",", MARKER);
    } else {
      assert "" + MARKER == MARKER;
    }
  }

  /** One round of the loop over the payload. */
  lemma {:induction false} ItemsStep(r: Redactor, c: Command, depth: nat, budget: int, text: string, withComma: string, i: nat)
    requires i < |c.payload| && |text| < LocalBudget(budget, depth)
    requires withComma == if i > 0 then text + "," else text
    ensures var items := ItemsPiece(r, |text|, c, i, depth, budget);
            var value := ValuePiece(r, |withComma|, c.payload[i], depth + 1, budget, LocalBudget(budget, depth),
                                    FollowsSensitiveKey(r, c.payload, i));
            if value.ok then
              var rest := ItemsPiece(r, |withComma + value.text|, c, i + 1, depth, budget);
              && text + items.text == withComma + value.text + rest.text
              && items.cut == (value.cut || rest.cut) && items.ok == rest.ok
            else
              text + items.text == withComma + value.text + "," + MARKER && items.cut == value.cut && !items.ok
  {
    hide ValuePiece, LocalBudget, FollowsSensitiveKey;
    var comma := if i > 0 then "," else "";
    Nothing(text);
    assert withComma == text + comma;
    var value := ValuePiece(r, |withComma|, c.payload[i], depth + 1, budget, LocalBudget(budget, depth),
                            FollowsSensitiveKey(r, c.payload, i));
    Regroup(text, comma, value.text);
    if value.ok {
      var rest := ItemsPiece(r, |withComma + value.text|, c, i + 1, depth, budget);
      Regroup(text, comma + value.text, rest.text);
    } else {
      Regroup(text, comma + value.text + ",", MARKER);
      Regroup(text, comma + value.text, ",");
    }
  }

  method WriteValue(r: Redactor, builder: StringBuilder, value: Value, depth: nat, budget: int, localBudget: nat,
                    forceRedact: bool, truncated: bool)
    returns (ok: bool, cut: bool)
    modifies builder
    ensures var piece := ValuePiece(r, |old(builder.text)|, value, depth, budget, localBudget, forceRedact);
            && builder.text == old(builder.text) + piece.text
            && ok == piece.ok && cut == (truncated || piece.cut)
    decreases value
  {
    ok, cut := true, truncated;
    if value.Null? {
      builder.Append("null");
      return;
    }
    if depth >= MAX_DEPTH {
      cut := true;
      builder.Append(MARKER);
      return;
    }
    match value
    case Nested(nested) =>
      ok, cut := WriteCommand(r, builder, nested, depth, budget, truncated);
    case Text(text) =>
      ok, cut := WriteString(builder, if forceRedact then Some(r.placeholder) else r.redactValue(Some(text)), localBudget, truncated);
    case Flag(flag) =>
      builder.Append(if flag then "true" else "false");
    case Number(digits) =>
      builder.Append(digits);
    case Bytes(n) =>
      builder.Append("\"[bytes:");
      builder.Append(Decimal(n));
      builder.Append("]\"");
    case Other(formatted) =>
      ok, cut := WriteString(builder, if forceRedact then Some(r.placeholder) else r.redactValue(formatted), localBudget, truncated);
  }

  method WriteString(builder: StringBuilder, value: Option<string>, budget: nat, truncated: bool)
    returns (ok: bool, cut: bool)
    modifies builder
    ensures var piece := StringPiece(|old(builder.text)|, value, budget);
            && builder.text == old(builder.text) + piece.text
            && ok == piece.ok && cut == (truncated || piece.cut)
  {
    hide StringTail, Escape;
    cut := truncated;
    builder.Append("\"");
    if value.None? {
      builder.Append("\"");
      return true, cut;
    }
    var s := value.value;
    ghost var start := builder.text;
    ghost var whole := StringTail(|start|, s, budget);
    assert s[0..] == s;
    for i := 0 to |s|
      invariant cut == truncated
      invariant Remaining(whole, truncated, start, StringTail(|builder.text|, s[i..], budget), cut, builder.text)
    {
      TailEnd(|builder.text|, s[i..], budget);
      if |builder.text| >= budget {
        builder.Append("\"");
        return false, true;
      }
      TailStep(budget, builder.text, s[i..]);
      assert s[i..][1..] == s[i + 1..];
      WriteCharacter(builder, s[i]);
    }
    TailEnd(|builder.text|, s[|s|..], budget);
    builder.Append("\"");
    return true, cut;
  }

  lemma TailEnd(length: nat, rest: string, budget: nat)
    ensures rest == "" ==> StringTail(length, rest, budget) == Piece("\"", false, true)
    ensures rest != "" && length >= budget ==> StringTail(length, rest, budget) == Piece("\"", true, false)
  {
  }

  lemma {:induction false} TailStep(budget: nat, text: string, rest: string)
    requires rest != "" && |text| < budget
    ensures var e := Escape(rest[0]);
            var tail, tail' := StringTail(|text|, rest, budget), StringTail(|text + e|, rest[1..], budget);
            text + tail.text == text + e + tail'.text && tail.cut == tail'.cut && tail.ok == tail'.ok
  {
    var e := Escape(rest[0]);
    Regroup(text, e, StringTail(|text + e|, rest[1..], budget).text);
  }

  method WriteCharacter(builder: StringBuilder, character: char)
    modifies builder
    ensures builder.text == old(builder.text) + Escape(character)
  {
    if character == '"' {
      builder.Append("\\\"");
    } else if character == '\\' {
      builder.Append("\\\\");
    } else if character == '\n' {
      builder.Append("\\n");
    } else if character == '\r' {
      builder.Append("\\r");
    } else if character == '\t' {
      builder.Append("\\t");
    } else if character < ' ' {
      builder.Append("\\u");
      builder.Append(Hex4(character as int));
    } else {
      builder.Append([character]);
    }
  }
}
