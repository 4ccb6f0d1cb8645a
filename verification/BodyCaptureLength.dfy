/**
How long a rendered body can get. The closing cost of 18 characters a level is the length of the comma, the
marker and the two brackets that a cut command still writes, so every level pays for its own closing; what is
not paid for is the header of the last command entered.
*/
module BodyCaptureLength {
  import opened BodyCapture
  import opened Wrappers

  const NUMBER_LIMIT := 31

  /** The buffer length at which a command of this depth may still be entered. */
  function EntryLimit(budget: int, depth: nat): int {
    budget - depth * CLOSING_COST_PER_LEVEL - SCALAR_RESERVE
  }

  /** Every command header has at most this many characters, every number text at most 31. */
  predicate Within(c: Command, header: nat)
    decreases c, 1
  {
    |Header(c)| <= header && PayloadWithin(c, header)
  }

  predicate PayloadWithin(c: Command, header: nat)
    decreases c, 0
  {
    forall i :: 0 <= i < |c.payload| ==> ValueWithin(c.payload[i], header)
  }

  predicate ValueWithin(v: Value, header: nat)
    decreases v
  {
    match v
    case Nested(c) => Within(c, header)
    case Number(digits) => |digits| <= NUMBER_LIMIT
    case _ => true
  }

  lemma {:induction false} DecimalLength(n: nat, digits: nat, power: nat)
    requires digits > 0 && power == TenTo(digits) && n < power
    ensures |Decimal(n)| <= digits
    decreases digits
  {
    if n >= 10 {
      DecimalLength(n / 10, digits - 1, TenTo(digits - 1));
    }
  }

  function TenTo(k: nat): nat {
    if k == 0 then 1 else 10 * TenTo(k - 1)
  }

  lemma BytesLength(n: ArrayLength)
    ensures |Decimal(n)| <= 10
  {
    assert TenTo(4) == 10_000;
    assert TenTo(7) == 10_000_000;
    assert TenTo(10) == 10_000_000_000;
    DecimalLength(n, 10, TenTo(10));
  }

  lemma {:induction false} TailLength(length: nat, s: string, budget: nat)
    ensures length <= budget + 5 ==> length + |StringTail(length, s, budget).text| <= budget + 6
    decreases |s|
  {
    if s != "" && length < budget {
      TailLength(length + |Escape(s[0])|, s[1..], budget);
    }
  }

  lemma {:induction false} StringLength(length: nat, value: Option<string>, budget: nat)
    requires length <= budget
    ensures length + |StringPiece(length, value, budget).text| <= budget + 6
  {
    if value.Some? {
      TailLength(length + 1, value.value, budget);
    }
  }

  /** How many characters the payload from item i on takes. */
  lemma {:induction false} ItemsUnfold(r: Redactor, length: nat, c: Command, i: nat, depth: nat, budget: int)
    requires i <= |c.payload|
    ensures var items, local := |ItemsPiece(r, length, c, i, depth, budget).text|, LocalBudget(budget, depth);
            var at := if i > 0 then length + 1 else length;
            if i == |c.payload| then items == 0
            else if length >= local then length + items == at + 15
            else
              var value := ValuePiece(r, at, c.payload[i], depth + 1, budget, local, FollowsSensitiveKey(r, c.payload, i));
              var after := at + |value.text|;
              length + items == if value.ok then after + |ItemsPiece(r, after, c, i + 1, depth, budget).text| else after + 16
  {
    hide ValuePiece, LocalBudget, FollowsSensitiveKey;
    var at := if i > 0 then length + 1 else length;
    assert at == length + |if i > 0 then "," else ""|;
  }

  lemma {:induction false} CommandUnfold(r: Redactor, length: nat, c: Command, depth: nat, budget: int)
    ensures |Header(c)| >= 35
    ensures |CommandPiece(r, length, c, depth, budget).text| ==
            |Header(c)| + |ItemsPiece(r, length + |Header(c)|, c, 0, depth, budget).text| + 2
  {
  }

  /** A value that is not a command writes at most 31 characters past the limit it was entered under. */
  lemma {:induction false} LeafLength(r: Redactor, length: nat, v: Value, depth: nat, budget: int, local: nat, force: bool)
    requires length <= local && !v.Nested? && ValueWithin(v, 0)
    ensures length + |ValuePiece(r, length, v, depth, budget, local, force).text| <= local + NUMBER_LIMIT
  {
    match v
    case Text(text) => StringLength(length, Redacted(r, Some(text), force), local);
    case Other(formatted) => StringLength(length, Redacted(r, formatted, force), local);
    case Bytes(n) => BytesLength(n);
    case _ =>
  }

  /** The invariant of the recursion: what is entered within the limit leaves at most a header and 17 above it. */
  lemma {:induction false} CommandLength(r: Redactor, length: nat, c: Command, depth: nat, budget: int, header: nat)
    requires Within(c, header) && length <= EntryLimit(budget, depth)
    ensures length + |CommandPiece(r, length, c, depth, budget).text| <= EntryLimit(budget, depth) + header + 17
    decreases c, |c.payload| + 1
  {
    CommandUnfold(r, length, c, depth, budget);
    ItemsLength(r, length + |Header(c)|, c, 0, depth, budget, header);
  }

  lemma {:induction false} ItemsLength(r: Redactor, length: nat, c: Command, i: nat, depth: nat, budget: int, header: nat)
    requires PayloadWithin(c, header) && i <= |c.payload| && header >= 14
    requires if i == 0 then length <= EntryLimit(budget, depth) + header
             else length <= EntryLimit(budget, depth + 1) + header + 17
    ensures length + |ItemsPiece(r, length, c, i, depth, budget).text| + 2 <= EntryLimit(budget, depth) + header + 17
    decreases c, |c.payload| - i
  {
    hide ItemsPiece, ValuePiece;
    var local := LocalBudget(budget, depth);
    ItemsUnfold(r, length, c, i, depth, budget);
    if i < |c.payload| && length < local {
      var at := if i > 0 then length + 1 else length;
      var v, force := c.payload[i], FollowsSensitiveKey(r, c.payload, i);
      ValueLength(r, at, v, depth + 1, budget, local, force, header);
      var value := ValuePiece(r, at, v, depth + 1, budget, local, force);
      if value.ok {
        ItemsLength(r, at + |value.text|, c, i + 1, depth, budget, header);
      }
    }
  }

  lemma {:induction false} ValueLength(r: Redactor, length: nat, v: Value, depth: nat, budget: int, local: nat, force: bool, header: nat)
    requires ValueWithin(v, header) && length <= local == EntryLimit(budget, depth) && header >= 14
    ensures length + |ValuePiece(r, length, v, depth, budget, local, force).text| <= local + header + 17
    decreases v
  {
    if v.Nested? && depth < MAX_DEPTH {
      CommandLength(r, length, v.command, depth, budget, header);
    } else {
      CutLeaf(r, length, v, depth, budget, local, force, header);
    }
  }

  lemma {:induction false} CutLeaf(r: Redactor, length: nat, v: Value, depth: nat, budget: int, local: nat, force: bool, header: nat)
    requires length <= local && ValueWithin(v, header) && (v.Nested? ==> depth >= MAX_DEPTH)
    ensures length + |ValuePiece(r, length, v, depth, budget, local, force).text| <= local + NUMBER_LIMIT
  {
    if !v.Nested? {
      LeafLength(r, length, v, depth, budget, local, force);
    }
  }

  /** The text given to the redactor exceeds the limit by at most the longest header less 15. */
  lemma RenderedLength(r: Redactor, c: Command, max: int, header: nat)
    requires max >= 32 && Within(c, header)
    ensures |Rendered(r, c, max).text| <= max + header - 15
  {
    CommandLength(r, 0, c, 0, max, header);
  }

  predicate Flat(c: Command) {
    forall i :: 0 <= i < |c.payload| ==> !c.payload[i].Nested?
  }

  lemma FirstWithin(c: Command, header: nat)
    requires PayloadWithin(c, header) && c.payload != []
    ensures ValueWithin(c.payload[0], header)
  {
  }

  lemma FlatWithin(c: Command, header: nat, other: nat)
    requires PayloadWithin(c, header) && Flat(c)
    ensures PayloadWithin(c, other)
  {
    assert forall i :: 0 <= i < |c.payload| ==> ValueWithin(c.payload[i], header) && !c.payload[i].Nested?;
  }

  /** Without nested commands the limit is kept exactly when the header and its closing text fit. */
  lemma {:induction false} FlatLength(r: Redactor, c: Command, max: int, header: nat)
    requires PayloadWithin(c, header) && Flat(c)
    ensures |Rendered(r, c, max).text| <= max <==> |Header(c)| + (if c.payload == [] then 2 else 17) <= max
  {
    hide ItemsPiece, ValuePiece, CommandPiece, Header, Within, PayloadWithin, ValueWithin;
    var length, local := |Header(c)|, LocalBudget(max, 0);
    CommandUnfold(r, 0, c, 0, max);
    ItemsUnfold(r, length, c, 0, 0, max);
    if c.payload != [] && length < local {
      FirstWithin(c, header);
      CutLeaf(r, length, c.payload[0], 1, max, local, false, header);
      FlatWithin(c, header, 14);
      var after := length + |ValuePiece(r, length, c.payload[0], 1, max, local, false).text|;
      ItemsLength(r, after, c, 1, 0, max, 14);
    }
  }

  // ----- the bound is the best one -----

  function Filler(n: nat): (s: string)
    ensures |s| == n
  {
    if n == 0 then "" else ['x'] + Filler(n - 1)
  }

  const PLAIN_REDACTOR := Redactor(value => value, key => false, body => body, "***")

  /** A string that ends one character before the local budget, then a command with a long header. */
  function Worst(max: nat, header: nat): Command
    requires max >= 88 && header >= 35
  {
    Command("", "", [Text(Filler(max - 88)), Nested(Inner(header))])
  }

  function Inner(header: nat): Command
    requires header >= 35
  {
    Command(Filler(header - 35), "", [Null])
  }

  lemma {:induction false} FillerTail(length: nat, n: nat, budget: nat)
    requires length + n <= budget
    ensures StringTail(length, Filler(n), budget) == Piece(Filler(n) + "\"", false, true)
    decreases n
  {
    if n > 0 {
      var s := Filler(n);
      assert s[1..] == Filler(n - 1);
      assert Escape(s[0]) == ['x'];
      FillerTail(length + 1, n - 1, budget);
    }
  }

  lemma {:induction false} InnerPiece(header: nat, length: nat, max: int)
    requires header >= 35 && length + header >= LocalBudget(max, 1)
    ensures |CommandPiece(PLAIN_REDACTOR, length, Inner(header), 1, max).text| == header + 17
    ensures !CommandPiece(PLAIN_REDACTOR, length, Inner(header), 1, max).ok
  {
    CommandUnfold(PLAIN_REDACTOR, length, Inner(header), 1, max);
    ItemsUnfold(PLAIN_REDACTOR, length + header, Inner(header), 0, 1, max);
  }

  /** The bound of RenderedLength is reached, so a nested command can push the body over its limit. */
  lemma {:induction false} BoundIsAttained(max: nat, header: nat)
    requires max >= 88 && header >= 35
    ensures Within(Worst(max, header), header)
    ensures |Rendered(PLAIN_REDACTOR, Worst(max, header), max).text| == max + header - 15 > max
  {
    hide ItemsPiece, CommandPiece;
    var r, c := PLAIN_REDACTOR, Worst(max, header);
    var local := LocalBudget(max, 0);
    FillerTail(36, max - 88, local);
    TextItem(r, c, max, local);
    InnerPiece(header, max - 50, max);
    ItemsUnfold(r, max - 51, c, 1, 0, max);
    assert ValuePiece(r, max - 50, c.payload[1], 1, max, local, FollowsSensitiveKey(r, c.payload, 1)) ==
           CommandPiece(r, max - 50, Inner(header), 1, max);
    CommandUnfold(r, 0, c, 0, max);
    assert |Header(c)| == 35 && |Header(Inner(header))| == header;
    assert Within(c, header) by {
      assert PayloadWithin(Inner(header), header);
      assert ValueWithin(c.payload[0], header) && ValueWithin(c.payload[1], header);
    }
  }

  lemma {:induction false} TextItem(r: Redactor, c: Command, max: nat, local: nat)
    requires max >= 88 && r == PLAIN_REDACTOR && local == max - 50 && |c.payload| == 2
    requires c.payload[0] == Text(Filler(max - 88)) && StringTail(36, Filler(max - 88), local) == Piece(Filler(max - 88) + "\"", false, true)
    ensures |ItemsPiece(r, 35, c, 0, 0, max).text| == max - 86 + |ItemsPiece(r, max - 51, c, 1, 0, max).text|
  {
    ItemsUnfold(r, 35, c, 0, 0, max);
    var value := ValuePiece(r, 35, c.payload[0], 1, max, local, false);
    assert value == StringPiece(35, Some(Filler(max - 88)), local);
  }
}
