/**
Every rendered body is a JSON text, wherever it is cut. The trees say what a reader of the body gets: the
runtime and type names, the items before the cut, the beginning of the string that was cut, and the marker.
*/
module BodyCaptureJson {
  import opened Wrappers
  import opened BodyCapture
  import opened BodyCaptureText
  import Json

  // ----- strings -----

  function Escaped(c: char): Json.Character {
    if c == '"' || c == '\\' then Json.Short(c)
    else if c == '\n' then Json.Short('n')
    else if c == '\r' then Json.Short('r')
    else if c == '\t' then Json.Short('t')
    else if c < ' ' then Json.Unicode(Hex4(c as int))
    else Json.Plain(c)
  }

  function EscapedAll(s: string): seq<Json.Character> {
    seq(|s|, i requires 0 <= i < |s| => Escaped(s[i]))
  }

  lemma EscapedOne(c: char)
    ensures Json.CharacterText(Escaped(c)) == Escape(c)
    ensures Json.ValidCharacter(Escaped(c)) && Json.Meaning(Escaped(c)) == c
  {
    hide Hex4, Json.HexValue, Json.IsHex;
    if c < ' ' {
      ControlDigits(c as int);
    }
  }

  lemma ControlDigits(n: nat)
    requires n < 32
    ensures Json.ValidCharacter(Json.Unicode(Hex4(n))) && Json.Meaning(Json.Unicode(Hex4(n))) == n as char
  {
    assert n / 0x1000 == 0 && n / 0x100 == 0;
    HexDigits(n / 0x10);
    HexDigits(n % 16);
    HexDigits(0);
  }

  lemma HexDigits(n: nat)
    requires n < 16
    ensures Json.IsHex(HexDigit(n)) && Json.HexValue(HexDigit(n)) == n
  {
  }

  /** A string value is written as a JSON string that denotes it. */
  lemma {:induction false} EscapedText(s: string)
    ensures Json.CharactersText(EscapedAll(s)) == EscapeAll(s)
    ensures Json.ValidString(EscapedAll(s)) && Json.Denotes(EscapedAll(s), s)
    decreases |s|
  {
    hide Escaped, Escape, Json.CharacterText, Json.ValidCharacter, Json.Meaning;
    forall i | 0 <= i < |s|
      ensures Json.ValidCharacter(EscapedAll(s)[i]) && Json.Meaning(EscapedAll(s)[i]) == s[i]
    {
      EscapedOne(s[i]);
    }
    if s != "" {
      var n := |s| - 1;
      EscapedText(s[..n]);
      assert EscapedAll(s)[..n] == EscapedAll(s[..n]);
      EscapedOne(s[n]);
    }
  }

  predicate PlainText(s: string) {
    forall i :: 0 <= i < |s| ==> Json.IsPlain(s[i])
  }

  /** A text without quotes, backslashes and control characters is its own JSON string. */
  lemma {:induction false} PlainIsItself(s: string)
    requires PlainText(s)
    ensures EscapeAll(s) == s
    decreases |s|
  {
    if s != "" {
      PlainIsItself(s[..|s| - 1]);
      assert s == s[..|s| - 1] + [s[|s| - 1]];
    }
  }

  function Str(s: string): Json.Value {
    Json.Str(EscapedAll(s))
  }

  lemma PlainStr(s: string)
    requires PlainText(s)
    ensures Json.Valid(Str(s)) && Json.Text(Str(s)) == "\"" + s + "\""
    ensures Json.StringText(EscapedAll(s)) == "\"" + s + "\""
  {
    PlainIsItself(s);
    EscapedText(s);
  }

  lemma {:induction false} DecimalIsPlain(n: nat)
    ensures PlainText(Decimal(n))
  {
    if n >= 10 {
      DecimalIsPlain(n / 10);
    }
  }

  // ----- the trees -----

  const CUT_NAME := "__truncated__"

  predicate Renderable(c: Command)
    decreases c
  {
    && PlainText(c.runtime) && PlainText(c.kind)
    && forall i :: 0 <= i < |c.payload| ==> RenderableValue(c.payload[i])
  }

  /** Finite numbers have JSON texts; the names of commands need no escapes. */
  predicate RenderableValue(v: Value)
    decreases v
  {
    match v
    case Nested(c) => Renderable(c)
    case Number(digits) => Json.ValidNumber(digits)
    case _ => true
  }

  function Body(c: Command, items: seq<Json.Value>): Json.Value {
    Json.Object([
      Json.Member(EscapedAll("runtime"), Str(c.runtime)),
      Json.Member(EscapedAll("type"), Str(c.kind)),
      Json.Member(EscapedAll("payload"), Json.Array(items))
    ])
  }

  function StringJson(value: Option<string>): Json.Value {
    if value.None? then Str("") else Str(value.value)
  }

  function ItemJson(r: Redactor, c: Command, i: nat, depth: nat): Json.Value
    requires i < |c.payload|
    decreases c, i, 0
  {
    var v := c.payload[i];
    if v.Null? then Json.Null
    else if depth + 1 >= MAX_DEPTH then Str(CUT_NAME)
    else if Shown(r, c, i).Some? then StringJson(Shown(r, c, i).value)
    else
      match v
      case Nested(nested) => CommandJson(r, nested, depth + 1)
      case Flag(flag) => Json.Bool(flag)
      case Number(digits) => Json.Number(digits)
      case Bytes(n) => Str("[bytes:" + Decimal(n) + "]")
  }

  function ItemsJson(r: Redactor, c: Command, i: nat, depth: nat): (items: seq<Json.Value>)
    requires i <= |c.payload|
    ensures |items| == i
    decreases c, i
  {
    if i == 0 then [] else ItemsJson(r, c, i - 1, depth) + [ItemJson(r, c, i - 1, depth)]
  }

  /** The body when nothing is cut. */
  function CommandJson(r: Redactor, c: Command, depth: nat): Json.Value
    decreases c, |c.payload| + 1
  {
    Body(c, ItemsJson(r, c, |c.payload|, depth))
  }

  /** The body when it is cut at a position: the items before it, what was begun there, the marker. */
  function CutJson(r: Redactor, c: Command, depth: nat, p: Position): Json.Value
    requires At(r, c, depth, p)
    decreases c
  {
    var before := ItemsJson(r, c, p.i, depth);
    match p
    case Before(_) => Body(c, before + [Str(CUT_NAME)])
    case InString(i, k) => Body(c, before + [Str(Shown(r, c, i).value.value[..k]), Str(CUT_NAME)])
    case Inside(i, inner) => Body(c, before + [CutJson(r, c.payload[i].command, depth + 1, inner), Str(CUT_NAME)])
  }

  // ----- their texts -----

  lemma {:induction false} AppendItem(items: seq<Json.Value>, item: Json.Value)
    ensures Json.ItemsText(items + [item]) == Json.ItemsText(items) + Comma(|items|) + Json.Text(item)
  {
    assert (items + [item])[..|items|] == items;
  }

  lemma {:induction false} ThreeMembers(a: Json.Member, b: Json.Member, d: Json.Member)
    ensures Json.MembersText([a, b, d]) == Json.MemberText(a) + "," + Json.MemberText(b) + "," + Json.MemberText(d)
  {
    hide Json.MemberText;
    assert [a, b, d][..2] == [a, b];
    assert [a, b][..1] == [a];
    assert [a][..0] == [];
    assert Json.MembersText([a]) == Json.MemberText(a) by {
      assert "" + "" + Json.MemberText(a) == Json.MemberText(a);
    }
  }

  lemma Named(name: string, value: Json.Value)
    requires PlainText(name)
    ensures Json.MemberText(Json.Member(EscapedAll(name), value)) == "\"" + name + "\"" + ":" + Json.Text(value)
    ensures Json.ValidString(EscapedAll(name))
  {
    hide EscapedAll, Json.Text, Json.ValidString;
    PlainStr(name);
    EscapedText(name);
  }

  lemma {:induction false} BodyText(c: Command, items: seq<Json.Value>)
    requires PlainText(c.runtime) && PlainText(c.kind)
    ensures Json.Text(Body(c, items)) == Header(c) + Json.ItemsText(items) + "]}"
  {
    hide EscapedAll, PlainText, Json.ItemsText, Json.MembersText, Json.MemberText, Str;
    PlainNames();
    Named("runtime", Str(c.runtime));
    Named("type", Str(c.kind));
    Named("payload", Json.Array(items));
    PlainStr(c.runtime);
    PlainStr(c.kind);
    ThreeMembers(Json.Member(EscapedAll("runtime"), Str(c.runtime)), Json.Member(EscapedAll("type"), Str(c.kind)),
                 Json.Member(EscapedAll("payload"), Json.Array(items)));
    HeaderText(c.runtime, c.kind, Json.ItemsText(items));
  }

  lemma PlainNames()
    ensures PlainText("runtime") && PlainText("type") && PlainText("payload")
  {
  }

  lemma HeaderText(runtime: string, kind: string, items: string)
    ensures "{" + ("\"" + "runtime" + "\"" + ":" + ("\"" + runtime + "\"") + "," + ("\"" + "type" + "\"" + ":" + ("\"" + kind + "\"")) + "," +
                   ("\"" + "payload" + "\"" + ":" + ("[" + items + "]"))) + "}" ==
            "{\"runtime\":\"" + runtime + "\",\"type\":\"" + kind + "\",\"payload\":[" + items + "]}"
  {
    assert "{" + ("\"" + "runtime" + "\"" + ":") + "\"" == "{\"runtime\":\"";
    assert "\"" + "," + ("\"" + "type" + "\"" + ":") + "\"" == "\",\"type\":\"";
    assert "\"" + "," + ("\"" + "payload" + "\"" + ":") + "[" == "\",\"payload\":[";
    assert "]" + "}" == "]}";
    Flatten("{", "\"" + "runtime" + "\"" + ":", "\"", runtime, "\"" + "type" + "\"" + ":", kind, "\"" + "payload" + "\"" + ":",
            "[", items, "]", "}", ",");
  }

  lemma Flatten(brace: string, a: string, quote: string, runtime: string, b: string, kind: string, d: string,
                bracket: string, items: string, bracket': string, brace': string, comma: string)
    ensures brace + (a + (quote + runtime + quote) + comma + (b + (quote + kind + quote)) + comma +
                     (d + (bracket + items + bracket'))) + brace' ==
            (brace + a + quote) + runtime + (quote + comma + b + quote) + kind + (quote + comma + d + bracket) + items + (bracket' + brace')
  {
  }

  predicate AllValid(items: seq<Json.Value>) {
    forall i :: 0 <= i < |items| ==> Json.Valid(items[i])
  }

  lemma {:induction false} BodyValid(c: Command, items: seq<Json.Value>)
    requires PlainText(c.runtime) && PlainText(c.kind) && AllValid(items)
    ensures Json.Valid(Body(c, items))
  {
    hide EscapedAll, PlainText, Json.ValidString;
    PlainNames();
    Named("runtime", Json.Null);
    Named("type", Json.Null);
    Named("payload", Json.Null);
    PlainStr(c.runtime);
    PlainStr(c.kind);
    assert Json.Valid(Json.Array(items));
  }

  lemma {:induction false} MarkerText()
    ensures Json.Text(Str(CUT_NAME)) == MARKER && Json.Valid(Str(CUT_NAME))
  {
    hide EscapedAll, Json.Text, Json.Valid;
    PlainStr(CUT_NAME);
  }

  lemma {:induction false} StringJsonText(value: Option<string>)
    ensures Json.Text(StringJson(value)) == WholeString(value) && Json.Valid(StringJson(value))
  {
    hide EscapedAll, Json.CharactersText;
    if value.Some? {
      EscapedText(value.value);
    } else {
      EscapedText("");
      assert "\"" + "" + "\"" == "\"\"";
    }
  }

  lemma {:induction false} BytesText(n: ArrayLength)
    ensures Json.Text(Str("[bytes:" + Decimal(n) + "]")) == "\"[bytes:" + Decimal(n) + "]\""
    ensures Json.Valid(Str("[bytes:" + Decimal(n) + "]"))
  {
    hide EscapedAll, Json.Text, Json.Valid, Decimal;
    DecimalIsPlain(n);
    PlainStr("[bytes:" + Decimal(n) + "]");
  }

  lemma {:induction false} ItemJsonText(r: Redactor, c: Command, i: nat, depth: nat)
    requires i < |c.payload| && Renderable(c)
    ensures Json.Text(ItemJson(r, c, i, depth)) == WholeValue(r, c, i, depth, true)
    ensures Json.Valid(ItemJson(r, c, i, depth))
    decreases c, i, 0
  {
    hide Str, StringJson, WholeString, Body, Header, Redacted, FollowsSensitiveKey, Json.ValidNumber, WholeItems, PlainText;
    var v := c.payload[i];
    assert RenderableValue(v);
    MarkerText();
    if !v.Null? && depth + 1 < MAX_DEPTH {
      if Shown(r, c, i).Some? {
        StringJsonText(Shown(r, c, i).value);
      } else if v.Nested? {
        CommandJsonText(r, v.command, depth + 1);
      } else if v.Bytes? {
        BytesText(v.length);
      }
    }
  }

  lemma {:induction false} ItemsJsonText(r: Redactor, c: Command, i: nat, depth: nat)
    requires i <= |c.payload| && Renderable(c)
    ensures Json.ItemsText(ItemsJson(r, c, i, depth)) == WholeItems(r, c, i, depth, true)
    ensures AllValid(ItemsJson(r, c, i, depth))
    decreases c, i
  {
    hide Json.Text, Json.Valid, ItemJson, WholeValue, Renderable;
    if i > 0 {
      ItemsJsonText(r, c, i - 1, depth);
      ItemJsonText(r, c, i - 1, depth);
      AppendItem(ItemsJson(r, c, i - 1, depth), ItemJson(r, c, i - 1, depth));
    }
  }

  lemma {:induction false} CommandJsonText(r: Redactor, c: Command, depth: nat)
    requires Renderable(c)
    ensures Json.Text(CommandJson(r, c, depth)) == WholeCommand(r, c, depth, true)
    ensures Json.Valid(CommandJson(r, c, depth))
    decreases c, |c.payload| + 1
  {
    hide Json.Text, Json.Valid, ItemsJson, WholeItems, Body, Header;
    var items := ItemsJson(r, c, |c.payload|, depth);
    ItemsJsonText(r, c, |c.payload|, depth);
    BodyText(c, items);
    BodyValid(c, items);
  }

  /** A cut body: the items before, what was begun (if anything), and the marker. */
  lemma {:induction false} CutBodyText(c: Command, before: seq<Json.Value>, begun: Option<Json.Value>)
    requires PlainText(c.runtime) && PlainText(c.kind) && AllValid(before) && (begun.Some? ==> Json.Valid(begun.value))
    ensures var items := before + (if begun.Some? then [begun.value, Str(CUT_NAME)] else [Str(CUT_NAME)]);
            && Json.Valid(Body(c, items))
            && Json.Text(Body(c, items)) ==
               Header(c) + (Json.ItemsText(before) + Comma(|before|) +
                            (if begun.Some? then Json.Text(begun.value) + "," + MARKER else MARKER)) + "]}"
  {
    hide Json.Text, Json.Valid, Body, Header, Json.ItemsText, Str, PlainText;
    MarkerText();
    var marker := Str(CUT_NAME);
    if begun.Some? {
      var items := before + [begun.value];
      assert items + [marker] == before + [begun.value, marker];
      AppendItem(before, begun.value);
      AppendItem(items, marker);
      Regroup(Json.ItemsText(before) + Comma(|before|), Json.Text(begun.value) + ",", MARKER);
      Regroup(Json.ItemsText(before) + Comma(|before|), Json.Text(begun.value), ",");
      BodyText(c, items + [marker]);
      BodyValid(c, items + [marker]);
    } else {
      AppendItem(before, marker);
      BodyText(c, before + [marker]);
      BodyValid(c, before + [marker]);
    }
  }

  lemma {:induction false} CutJsonText(r: Redactor, c: Command, depth: nat, p: Position)
    requires Renderable(c) && At(r, c, depth, p)
    ensures Json.Text(CutJson(r, c, depth, p)) == UpTo(r, c, depth, p) + Closing(p)
    ensures Json.Valid(CutJson(r, c, depth, p))
    decreases c
  {
    hide Json.Text, Json.Valid, ItemsJson, WholeItems, Body, Header, Closing, Json.ItemsText, Comma, Shown, PlainText, EscapedAll;
    var before := ItemsJson(r, c, p.i, depth);
    var items := WholeItems(r, c, p.i, depth, true);
    ItemsJsonText(r, c, p.i, depth);
    match p
    case Before(i) =>
      CutBodyText(c, before, None);
      ClosingHere(i, 0);
      BeforeText(Header(c), items, Comma(i));
    case InString(i, k) =>
      var s := Shown(r, c, i).value.value[..k];
      EscapedText(s);
      StringJsonText(Some(s));
      CutBodyText(c, before, Some(Str(s)));
      ClosingHere(i, k);
      InStringText(Header(c), items, Comma(i), EscapeAll(s));
    case Inside(i, inner) =>
      assert RenderableValue(c.payload[i]);
      CutJsonText(r, c.payload[i].command, depth + 1, inner);
      var begun := CutJson(r, c.payload[i].command, depth + 1, inner);
      CutBodyText(c, before, Some(begun));
      ClosingInside(i, inner);
      InsideText(Header(c), items, Comma(i), UpTo(r, c.payload[i].command, depth + 1, inner), Closing(inner));
  }

  lemma BeforeText(header: string, items: string, comma: string)
    ensures header + (items + comma + MARKER) + "]}" == header + items + "" + (comma + MARKER + "]}")
  {
  }

  lemma InStringText(header: string, items: string, comma: string, s: string)
    ensures header + (items + comma + ("\"" + s + "\"" + "," + MARKER)) + "]}" ==
            header + items + (comma + "\"" + s) + ("\"" + "," + MARKER + "]}")
  {
  }

  lemma InsideText(header: string, items: string, comma: string, inner: string, closing: string)
    ensures header + (items + comma + (inner + closing + "," + MARKER)) + "]}" ==
            header + items + (comma + inner) + (closing + "," + MARKER + "]}")
  {
  }

  /** The body is a JSON text for every tree, every limit and every cut. */
  lemma RenderedIsJson(r: Redactor, c: Command, max: int)
    requires Renderable(c)
    ensures var body := Rendered(r, c, max);
            if body.ok then
              body.text == Json.Text(CommandJson(r, c, 0)) && Json.Valid(CommandJson(r, c, 0))
            else exists p ::
              FirstOver(r, 0, c, 0, max, p) && body.text == Json.Text(CutJson(r, c, 0, p)) && Json.Valid(CutJson(r, c, 0, p))
  {
    hide Json.Text, Json.Valid, CommandJson, CutJson, CommandPiece, Renderable;
    var cutAt := CommandText(r, 0, c, 0, max);
    match cutAt
    case None => CommandJsonText(r, c, 0);
    case Some(p) => CutJsonText(r, c, 0, p);
  }
}
