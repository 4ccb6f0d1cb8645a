/**
What stands directly after a sensitive key has no influence on the rendered body: not on its text and not on
the truncation flag, under any limit. At the end, what is written for one item of a payload.
*/
module BodyCaptureRedaction {
  import opened BodyCapture
  import opened BodyCaptureText
  import opened Wrappers

  predicate IsKey(r: Redactor, v: Value) {
    v.Text? && r.isSensitiveKey(v.text)
  }

  /** Two commands that are the same but for what follows a sensitive key: there any two strings, equally keys or not, will do. */
  predicate Alike(r: Redactor, a: Command, b: Command)
    decreases a, 1
  {
    && a.runtime == b.runtime && a.kind == b.kind && |a.payload| == |b.payload|
    && forall i :: 0 <= i < |a.payload| ==> AlikeItem(r, a, b, i)
  }

  predicate AlikeItem(r: Redactor, a: Command, b: Command, i: nat)
    requires i < |a.payload| == |b.payload|
    decreases a, 0
  {
    var v, w := a.payload[i], b.payload[i];
    || v == w
    || (v.Nested? && w.Nested? && Alike(r, v.command, w.command))
    || (&& i > 0 && IsKey(r, a.payload[i - 1])
        && (v.Text? || v.Other?) && (w.Text? || w.Other?) && IsKey(r, v) == IsKey(r, w))
  }

  lemma {:induction false} SameKeys(r: Redactor, a: Command, b: Command, i: nat)
    requires Alike(r, a, b) && i < |a.payload|
    ensures FollowsSensitiveKey(r, a.payload, i) == FollowsSensitiveKey(r, b.payload, i)
  {
    if i > 0 {
      assert AlikeItem(r, a, b, i - 1);
    }
  }

  lemma {:induction false} SameItems(r: Redactor, length: nat, a: Command, b: Command, i: nat, depth: nat, budget: int)
    requires Alike(r, a, b) && i <= |a.payload|
    ensures ItemsPiece(r, length, a, i, depth, budget) == ItemsPiece(r, length, b, i, depth, budget)
    decreases a, |a.payload| - i, 1
  {
    hide *;
    SameSize(r, a, b);
    var local := LocalBudget(budget, depth);
    if i == |a.payload| || length >= local {
      NoItem(r, length, a, i, depth, budget);
      NoItem(r, length, b, i, depth, budget);
    } else {
      var at := length + if i > 0 then 1 else 0;
      SameKeys(r, a, b, i);
      SameItem(r, at, a, b, i, depth, budget);
      var value := ValuePiece(r, at, a.payload[i], depth + 1, budget, local, FollowsSensitiveKey(r, a.payload, i));
      OneItem(r, length, a, i, depth, budget, value);
      OneItem(r, length, b, i, depth, budget, value);
      if value.ok {
        SameItems(r, at + |value.text|, a, b, i + 1, depth, budget);
      }
    }
  }

  lemma {:induction false} NoItem(r: Redactor, length: nat, c: Command, i: nat, depth: nat, budget: int)
    requires i <= |c.payload| && (i < |c.payload| ==> length >= LocalBudget(budget, depth))
    ensures ItemsPiece(r, length, c, i, depth, budget) ==
            if i == |c.payload| then Piece("", false, true) else Piece((if i > 0 then "," else "") + MARKER, true, false)
  {
  }

  lemma {:induction false} OneItem(r: Redactor, length: nat, c: Command, i: nat, depth: nat, budget: int, value: Piece)
    requires i < |c.payload| && length < LocalBudget(budget, depth)
    requires value == ValuePiece(r, length + if i > 0 then 1 else 0, c.payload[i], depth + 1, budget, LocalBudget(budget, depth),
                                 FollowsSensitiveKey(r, c.payload, i))
    ensures var comma, after := if i > 0 then "," else "", length + (if i > 0 then 1 else 0) + |value.text|;
            ItemsPiece(r, length, c, i, depth, budget) ==
            if !value.ok then value.(text := comma + value.text + "," + MARKER)
            else
              var rest := ItemsPiece(r, after, c, i + 1, depth, budget);
              Piece(comma + value.text + rest.text, value.cut || rest.cut, rest.ok)
  {
    hide ValuePiece, LocalBudget, FollowsSensitiveKey;
  }

  lemma {:induction false} SameSize(r: Redactor, a: Command, b: Command)
    requires Alike(r, a, b)
    ensures |a.payload| == |b.payload| && Header(a) == Header(b)
  {
  }

  lemma {:induction false} SameItem(r: Redactor, length: nat, a: Command, b: Command, i: nat, depth: nat, budget: int)
    requires Alike(r, a, b) && i < |a.payload|
    ensures var local, force := LocalBudget(budget, depth), FollowsSensitiveKey(r, a.payload, i);
            ValuePiece(r, length, a.payload[i], depth + 1, budget, local, force) ==
            ValuePiece(r, length, b.payload[i], depth + 1, budget, local, force)
    decreases a, |a.payload| - i, 0
  {
    var v, w := a.payload[i], b.payload[i];
    assert AlikeItem(r, a, b, i);
    if v != w && v.Nested? {
      SameCommand(r, length, v.command, w.command, depth + 1, budget);
    }
  }

  lemma {:induction false} SameCommand(r: Redactor, length: nat, a: Command, b: Command, depth: nat, budget: int)
    requires Alike(r, a, b)
    ensures CommandPiece(r, length, a, depth, budget) == CommandPiece(r, length, b, depth, budget)
    decreases a, |a.payload| + 1
  {
    hide Alike, ItemsPiece, Header;
    SameSize(r, a, b);
    SameItems(r, length + |Header(a)|, a, b, 0, depth, budget);
  }

  lemma SecretsDoNotShow(r: Redactor, a: Command, b: Command, max: int)
    requires Alike(r, a, b)
    ensures Rendered(r, a, max) == Rendered(r, b, max)
  {
    SameCommand(r, 0, a, b, 0, max);
  }

  // ----- what is written for one item -----

  /**
  The string writer is given the placeholder for a text or a formatted value directly after a sensitive key, and what
  the redactor makes of its own text for any other; the remaining kinds of values never reach it.
  */
  lemma GivenToTheStringWriter(r: Redactor, c: Command, i: nat)
    requires i < |c.payload|
    ensures var v := c.payload[i];
            if !v.Text? && !v.Other? then Shown(r, c, i) == None
            else if i > 0 && c.payload[i - 1].Text? && r.isSensitiveKey(c.payload[i - 1].text) then
              Shown(r, c, i) == Some(Some(r.placeholder))
            else Shown(r, c, i) == Some(r.redactValue(if v.Text? then Some(v.text) else v.formatted))
  {
  }

  /** While the budget lasts, the payload goes on with a comma and this text; at depth 24 and below it is a marker. */
  lemma {:induction false} NextItem(r: Redactor, length: nat, c: Command, i: nat, depth: nat, budget: int)
    requires i < |c.payload| && length < LocalBudget(budget, depth)
    ensures var (v, items) := (c.payload[i], ItemsPiece(r, length, c, i, depth, budget));
            var comma := if i > 0 then "," else "";
            if v.Null? then comma + "null" <= items.text
            else if depth >= 23 then comma + "\"__truncated__\"" <= items.text && items.cut
            else if v.Nested? then comma + CommandPiece(r, length + |comma|, v.command, depth + 1, budget).text <= items.text
            else if v.Flag? then comma + (if v.flag then "true" else "false") <= items.text
            else if v.Number? then comma + v.digits <= items.text
            else if v.Bytes? then comma + ("\"[bytes:" + Decimal(v.length) + "]\"") <= items.text
            else
              var own := if v.Text? then Some(v.text) else v.formatted;
              var afterKey := i > 0 && c.payload[i - 1].Text? && r.isSensitiveKey(c.payload[i - 1].text);
              var given := if afterKey then Some(r.placeholder) else r.redactValue(own);
              comma + StringPiece(length + |comma|, given, LocalBudget(budget, depth)).text <= items.text
  {
    hide LocalBudget, Decimal, CommandPiece, StringPiece;
    var at := length + if i > 0 then 1 else 0;
    OneItem(r, length, c, i, depth, budget,
            ValuePiece(r, at, c.payload[i], depth + 1, budget, LocalBudget(budget, depth), FollowsSensitiveKey(r, c.payload, i)));
  }

  /** A number read digit by digit. */
  function ReadNumber(s: string): int {
    if s == "" then 0 else 10 * ReadNumber(s[..|s| - 1]) + (s[|s| - 1] as int - '0' as int)
  }

  /** The length of a byte array is written in decimal digits without leading zeros. */
  lemma {:induction false} DecimalIsRead(n: nat)
    ensures ReadNumber(Decimal(n)) == n && (forall i :: 0 <= i < |Decimal(n)| ==> '0' <= Decimal(n)[i] <= '9')
    ensures Decimal(n)[0] == '0' ==> n == 0
  {
    if n >= 10 {
      DecimalIsRead(n / 10);
      assert Decimal(n)[..|Decimal(n)| - 1] == Decimal(n / 10);
    }
  }
}
