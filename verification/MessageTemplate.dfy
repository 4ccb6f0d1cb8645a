/**
Message templates of the log appenders: '{name}' stands for the next argument, doubled braces for one brace.
*/
module MessageTemplate {
  import opened Strings
  import opened Wrappers

  const NULL_VALUE := "(null)"

  /** An argument by what String.valueOf makes of it; None is a null argument. */
  function Format(value: Option<string>): string {
    if value.None? then NULL_VALUE else value.value
  }

  predicate IsBrace(c: char) {
    c == '{' || c == '}'
  }

  // ----- property names -----

  /** Where the alignment or the format of a placeholder begins. */
  function NameEnd(placeholder: string): (end: nat)
    ensures end <= |placeholder|
  {
    if placeholder == "" || placeholder[0] == ',' || placeholder[0] == ':' then 0 else 1 + NameEnd(placeholder[1..])
  }

  function PropertyName(placeholder: string): string {
    var name := Trim(placeholder[..NameEnd(placeholder)]);
    if name != "" && (name[0] == '@' || name[0] == '$') then name[1..] else name
  }

  /** A name ends at the first comma or colon; white space around it and one sign before it do not count. */
  lemma PropertyNameExactly(placeholder: string)
    ensures forall end: nat | end <= |placeholder| && (end < |placeholder| ==> placeholder[end] in ",:")
              && (forall i :: 0 <= i < end ==> placeholder[i] !in ",:") ::
              var trimmed := Trim(placeholder[..end]);
              PropertyName(placeholder) == if trimmed != "" && trimmed[0] in "@$" then trimmed[1..] else trimmed
  {
    hide Trim;
    FirstEnd(placeholder);
  }

  lemma {:induction false} FirstEnd(placeholder: string)
    ensures var end := NameEnd(placeholder);
            && (end < |placeholder| ==> placeholder[end] in ",:") && forall i :: 0 <= i < end ==> placeholder[i] !in ",:"
  {
    if placeholder != "" && placeholder[0] !in ",:" {
      FirstEnd(placeholder[1..]);
      assert forall i :: 0 < i < |placeholder| ==> placeholder[i] == placeholder[1..][i - 1];
    }
  }

  method FindPropertyName(placeholder: string) returns (name: string)
    ensures name == PropertyName(placeholder)
    ensures forall end: nat | end <= |placeholder| && (end < |placeholder| ==> placeholder[end] in ",:")
              && (forall i :: 0 <= i < end ==> placeholder[i] !in ",:") ::
              var trimmed := Trim(placeholder[..end]);
              name == if trimmed != "" && trimmed[0] in "@$" then trimmed[1..] else trimmed
  {
    PropertyNameExactly(placeholder);
    var end := |placeholder|;
    for i := 0 to |placeholder|
      invariant end == |placeholder| && NameEnd(placeholder) == i + NameEnd(placeholder[i..])
    {
      if placeholder[i] == ',' || placeholder[i] == ':' {
        end := i;
        break;
      }
      assert placeholder[i..][1..] == placeholder[i + 1..];
    }
    name := Trim(placeholder[..end]);
    if name != "" && (name[0] == '@' || name[0] == '$') {
      name := name[1..];
    }
  }

  // ----- rendering -----

  function IndexOf(c: char, s: string): (index: Option<nat>)
    ensures index.Some? ==> index.value < |s| && s[index.value] == c
  {
    if s == "" then None
    else if s[0] == c then Some(0)
    else
      var rest := IndexOf(c, s[1..]);
      if rest.Some? then Some(1 + rest.value) else None
  }

  /** The text, and the properties as they were with the recorded ones put into them. */
  datatype Rendering = Rendering(text: string, properties: map<string, string>)

  function Record(properties: map<string, string>, placeholder: string, value: string): map<string, string> {
    var name := PropertyName(placeholder);
    if name != "" then properties[name := value] else properties
  }

  function Then(prefix: string, rest: Rendering): Rendering {
    rest.(text := prefix + rest.text)
  }

  function Rendered(template: string, args: seq<Option<string>>, properties: map<string, string>): Rendering
    decreases |template|
  {
    if template == "" then Rendering("", properties)
    else
      var c := template[0];
      var closing := if c == '{' then IndexOf('}', template[1..]) else None;
      if IsBrace(c) && |template| > 1 && template[1] == c then Then([c], Rendered(template[2..], args, properties))
      else if closing.None? || args == [] then Then([c], Rendered(template[1..], args, properties))
      else
        var value := Format(args[0]);
        Then(value, Rendered(template[closing.value + 2..], args[1..], Record(properties, template[1..closing.value + 1], value)))
  }

  class Properties {
    var entries: map<string, string>

    constructor ()
      ensures entries == map[]
    {
      entries := map[];
    }
  }

  method Render(template: Option<string>, args: Option<seq<Option<string>>>, properties: Properties) returns (text: string)
    modifies properties
    ensures template.None? ==> text == "" && properties.entries == old(properties.entries)
    ensures template.Some? ==>
              Rendering(text, properties.entries) ==
              Rendered(template.value, if args.None? then [] else args.value, old(properties.entries))
  {
    hide Rendered, Then, PropertyName;
    text := "";
    if template.None? {
      return;
    }
    var t := template.value;
    var values := if args.None? then [] else args.value;
    ghost var whole := Rendered(t, values, properties.entries);
    var i, argIndex := 0, 0;
    assert t[0..] == t && values[0..] == values;
    ThenNothing(whole);
    while i < |t|
      invariant 0 <= i <= |t| && 0 <= argIndex <= |values|
      invariant whole == Then(text, Rendered(t[i..], values[argIndex..], properties.entries))
    {
      var c := t[i];
      RenderedStep(t, i, values, argIndex, properties.entries);
      if (c == '{' || c == '}') && i + 1 < |t| && t[i + 1] == c {
        ThenThen(text, [c], Rendered(t[i + 2..], values[argIndex..], properties.entries));
        text := text + [c];
        i := i + 2;
        continue;
      }
      var closing := if c == '{' then IndexOf('}', t[i + 1..]) else None;
      if closing.None? || argIndex >= |values| {
        ThenThen(text, [c], Rendered(t[i + 1..], values[argIndex..], properties.entries));
        text := text + [c];
        i := i + 1;
        continue;
      }
      var value := Format(values[argIndex]);
      argIndex := argIndex + 1;
      var end := i + 1 + closing.value;
      var name := FindPropertyName(t[i + 1..end]);
      ghost var before := text;
      text := text + value;
      if name != "" {
        properties.entries := properties.entries[name := value];
      }
      i := end + 1;
      ThenThen(before, value, Rendered(t[i..], values[argIndex..], properties.entries));
    }
    assert t[|t|..] == "";
    NothingLeft(values[argIndex..], properties.entries, text);
  }

  lemma ThenNothing(r: Rendering)
    ensures Then("", r) == r
  {
    assert "" + r.text == r.text;
  }

  lemma ThenThen(a: string, b: string, r: Rendering)
    ensures Then(a, Then(b, r)) == Then(a + b, r)
  {
    assert a + (b + r.text) == a + b + r.text;
  }

  lemma NothingLeft(args: seq<Option<string>>, properties: map<string, string>, text: string)
    ensures Then(text, Rendered("", args, properties)) == Rendering(text, properties)
  {
    assert text + "" == text;
  }

  lemma {:induction false} RenderedHead(t: string, args: seq<Option<string>>, properties: map<string, string>)
    requires t != ""
    ensures var whole := Rendered(t, args, properties);
            var closing := if t[0] == '{' then IndexOf('}', t[1..]) else None;
            if IsBrace(t[0]) && |t| > 1 && t[1] == t[0] then whole == Then([t[0]], Rendered(t[2..], args, properties))
            else if closing.None? || args == [] then whole == Then([t[0]], Rendered(t[1..], args, properties))
            else
              var (value, end) := (Format(args[0]), 1 + closing.value);
              whole == Then(value, Rendered(t[end + 1..], args[1..], Record(properties, t[1..end], value)))
  {
    hide PropertyName, Then, IndexOf, Record, Format;
  }

  /** One round of the loop, at place i of the template. */
  lemma {:induction false} RenderedStep(t: string, i: nat, values: seq<Option<string>>, k: nat, properties: map<string, string>)
    requires i < |t| && k <= |values|
    ensures var whole := Rendered(t[i..], values[k..], properties);
            var closing := if t[i] == '{' then IndexOf('}', t[i + 1..]) else None;
            if IsBrace(t[i]) && i + 1 < |t| && t[i + 1] == t[i] then whole == Then([t[i]], Rendered(t[i + 2..], values[k..], properties))
            else if closing.None? || k == |values| then whole == Then([t[i]], Rendered(t[i + 1..], values[k..], properties))
            else
              var value, end := Format(values[k]), i + 1 + closing.value;
              whole == Then(value, Rendered(t[end + 1..], values[k + 1..], Record(properties, t[i + 1..end], value)))
  {
    hide Rendered, PropertyName, Then, IndexOf, Record, Format;
    var rest := t[i..];
    RenderedHead(rest, values[k..], properties);
    assert rest[1..] == t[i + 1..];
    if |rest| > 1 {
      assert rest[2..] == t[i + 2..];
    }
    var closing := IndexOf('}', t[i + 1..]);
    if closing.Some? {
      assert rest[closing.value + 2..] == t[i + closing.value + 2..];
      assert rest[1..closing.value + 1] == t[i + 1..i + 1 + closing.value];
    }
  }

  // ----- rendering undoes escaping -----

  /** Doubles every brace. */
  function Escaped(text: string): string {
    if text == "" then "" else (if text[0] == '{' || text[0] == '}' then [text[0], text[0]] else [text[0]]) + Escaped(text[1..])
  }

  /** Escaped texts with placeholders between them. */
  function Compose(texts: seq<string>, names: seq<string>): string
    requires |texts| == |names| + 1
    decreases |names|
  {
    if names == [] then Escaped(texts[0])
    else Escaped(texts[0]) + ("{" + names[0] + "}" + Compose(texts[1..], names[1..]))
  }

  /** The texts with the arguments between them. */
  function Filled(texts: seq<string>, args: seq<Option<string>>): string
    requires 0 < |texts| <= |args| + 1
    decreases |texts|
  {
    if |texts| == 1 then texts[0]
    else texts[0] + ((if args[0].Some? then args[0].value else "(null)") + Filled(texts[1..], args[1..]))
  }

  function Recorded(names: seq<string>, args: seq<Option<string>>, properties: map<string, string>): map<string, string>
    requires |names| <= |args|
    decreases |names|
  {
    if names == [] then properties
    else Recorded(names[1..], args[1..], Record(properties, names[0], Format(args[0])))
  }

  predicate BraceFree(s: string) {
    forall i :: 0 <= i < |s| ==> !IsBrace(s[i])
  }

  lemma {:induction false} EscapedHead(text: string)
    ensures Escaped(text) ==
            if text == "" then "" else (if IsBrace(text[0]) then [text[0], text[0]] else [text[0]]) + Escaped(text[1..])
  {
  }

  lemma {:induction false} EscapedText(text: string, rest: string, args: seq<Option<string>>, properties: map<string, string>)
    ensures Rendered(Escaped(text) + rest, args, properties) == Then(text, Rendered(rest, args, properties))
    decreases |text|
  {
    hide Rendered, Then, IndexOf, Record, Format, Escaped;
    EscapedHead(text);
    if text == "" {
      assert Escaped(text) + rest == rest;
      ThenNothing(Rendered(rest, args, properties));
    } else {
      var c, t := text[0], Escaped(text) + rest;
      RenderedStep(t, 0, args, 0, properties);
      assert t[0..] == t && args[0..] == args;
      if IsBrace(c) {
        assert t[2..] == Escaped(text[1..]) + rest;
      } else {
        assert t[1..] == Escaped(text[1..]) + rest;
      }
      EscapedText(text[1..], rest, args, properties);
      ThenThen([c], text[1..], Rendered(rest, args, properties));
      assert text == [c] + text[1..];
    }
  }

  lemma {:induction false} FirstBrace(name: string, rest: string)
    requires BraceFree(name)
    ensures IndexOf('}', name + "}" + rest) == Some(|name|)
    decreases |name|
  {
    if name != "" {
      assert (name + "}" + rest)[1..] == name[1..] + "}" + rest;
      FirstBrace(name[1..], rest);
    }
  }

  lemma {:induction false} Placeholder(name: string, rest: string, args: seq<Option<string>>, properties: map<string, string>)
    requires BraceFree(name) && args != []
    ensures Rendered("{" + name + "}" + rest, args, properties) ==
            Then(Format(args[0]), Rendered(rest, args[1..], Record(properties, name, Format(args[0]))))
  {
    hide Rendered, Then, PropertyName;
    var t := "{" + name + "}" + rest;
    FirstBrace(name, rest);
    assert t[0..] == t && args[0..] == args && t[1..] == name + "}" + rest;
    RenderedStep(t, 0, args, 0, properties);
    assert t[1..1 + |name|] == name && t[|name| + 2..] == rest;
    assert t[1] != '{';
  }

  /** For all texts, all brace-free names and enough arguments: braces come back, values go in, properties are recorded. */
  lemma {:induction false} RenderingUndoesEscaping(texts: seq<string>, names: seq<string>, args: seq<Option<string>>,
                                                   properties: map<string, string>)
    requires |texts| == |names| + 1 && |names| <= |args| && forall i :: 0 <= i < |names| ==> BraceFree(names[i])
    ensures Rendered(Compose(texts, names), args, properties) ==
            Rendering(Filled(texts, args), Recorded(names, args, properties))
    decreases |names|
  {
    hide Rendered, Then, Record;
    if names == [] {
      EscapedText(texts[0], "", args, properties);
      assert Escaped(texts[0]) + "" == Escaped(texts[0]);
      NothingLeft(args, properties, texts[0]);
    } else {
      var rest := Compose(texts[1..], names[1..]);
      var value, after := Format(args[0]), Record(properties, names[0], Format(args[0]));
      EscapedText(texts[0], "{" + names[0] + "}" + rest, args, properties);
      Placeholder(names[0], rest, args, properties);
      RenderingUndoesEscaping(texts[1..], names[1..], args[1..], after);
      TwoTexts(texts[0], value, Filled(texts[1..], args[1..]), Recorded(names[1..], args[1..], after));
    }
  }

  lemma TwoTexts(a: string, b: string, text: string, properties: map<string, string>)
    ensures Then(a, Then(b, Rendering(text, properties))) == Rendering(a + (b + text), properties)
  {
  }

  ghost predicate LastNamed(names: seq<string>, key: string, i: nat) {
    i < |names| && PropertyName(names[i]) == key && forall j :: i < j < |names| ==> PropertyName(names[j]) != key
  }

  ghost predicate NeverNamed(names: seq<string>, key: string) {
    forall i :: 0 <= i < |names| ==> PropertyName(names[i]) != key
  }

  /** A property has the value given to the last placeholder of its name. */
  lemma {:induction false} LastValueIsRecorded(names: seq<string>, args: seq<Option<string>>, properties: map<string, string>,
                                               key: string, i: nat)
    requires |names| <= |args| && key != "" && LastNamed(names, key, i)
    ensures key in Recorded(names, args, properties)
    ensures Recorded(names, args, properties)[key] == if args[i].Some? then args[i].value else "(null)"
    decreases |names|
  {
    hide PropertyName;
    var next := Record(properties, names[0], Format(args[0]));
    assert forall j :: 0 < j < |names| ==> names[j] == names[1..][j - 1];
    if i == 0 {
      OthersAreKept(names[1..], args[1..], next, key);
    } else {
      LastValueIsRecorded(names[1..], args[1..], next, key, i - 1);
    }
  }

  /** Every other property is left alone, and nothing is recorded under an empty name. */
  lemma {:induction false} OthersAreKept(names: seq<string>, args: seq<Option<string>>, properties: map<string, string>, key: string)
    requires |names| <= |args| && (NeverNamed(names, key) || key == "")
    ensures var after := Recorded(names, args, properties);
            (key in after <==> key in properties) && (key in after ==> after[key] == properties[key])
    decreases |names|
  {
    hide PropertyName;
    if names != [] {
      assert forall j :: 0 <= j < |names[1..]| ==> names[1..][j] == names[j + 1];
      OthersAreKept(names[1..], args[1..], Record(properties, names[0], Format(args[0])), key);
    }
  }

  // ----- what is not replaced -----

  /** Without arguments, or without a closing brace, braces that are not doubled stay and nothing is recorded. */
  lemma {:induction false} StaysAsItIs(template: string, args: seq<Option<string>>, properties: map<string, string>)
    requires args == [] || '}' !in template
    requires forall i :: 0 < i < |template| && template[i] in "{}" ==> template[i - 1] != template[i]
    ensures Rendered(template, args, properties) == Rendering(template, properties)
    decreases |template|
  {
    hide Record, Format, IndexOf;
    if template != "" {
      RenderedHead(template, args, properties);
      NoClosing(template[1..]);
      assert |template| > 1 && IsBrace(template[1]) ==> template[1] in "{}";
      assert forall i :: 0 <= i < |template[1..]| ==> template[1..][i] == template[i + 1];
      StaysAsItIs(template[1..], args, properties);
      assert template == [template[0]] + template[1..];
    }
  }

  lemma {:induction false} NoClosing(s: string)
    ensures '}' !in s ==> IndexOf('}', s).None?
  {
  }
}
