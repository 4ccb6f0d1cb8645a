/**
What the budgeted renderer writes, told by the renderer without budgets: the same text when no limit is reached,
and otherwise the unbudgeted text up to the first position at which it has reached the budget of its level,
followed by closing text only.
*/
module BodyCaptureText {
  import opened BodyCapture
  import opened Wrappers

  // ----- the renderer without budgets -----

  function EscapeAll(s: string): string {
    if s == "" then "" else EscapeAll(s[..|s| - 1]) + Escape(s[|s| - 1])
  }

  function WholeString(value: Option<string>): string {
    match value
    case None => "\"\""
    case Some(s) => "\"" + EscapeAll(s) + "\""
  }

  /** What the string writer is given for item i, if it is given one. */
  function Shown(r: Redactor, c: Command, i: nat): Option<Option<string>>
    requires i < |c.payload|
  {
    var force := FollowsSensitiveKey(r, c.payload, i);
    match c.payload[i]
    case Text(text) => Some(Redacted(r, Some(text), force))
    case Other(formatted) => Some(Redacted(r, formatted, force))
    case _ => None
  }

  /** Item i of a command at this depth; deep says whether the depth limit is obeyed. */
  function WholeValue(r: Redactor, c: Command, i: nat, depth: nat, limited: bool): string
    requires i < |c.payload|
    decreases c, i, 0
  {
    var v := c.payload[i];
    if v.Null? then "null"
    else if limited && depth + 1 >= MAX_DEPTH then MARKER
    else if Shown(r, c, i).Some? then WholeString(Shown(r, c, i).value)
    else
      match v
      case Nested(nested) => WholeCommand(r, nested, depth + 1, limited)
      case Flag(flag) => if flag then "true" else "false"
      case Number(digits) => digits
      case Bytes(n) => "\"[bytes:" + Decimal(n) + "]\""
  }

  function Comma(i: nat): string {
    if i > 0 then "," else ""
  }

  /** The first i items, each but the first after a comma. */
  function WholeItems(r: Redactor, c: Command, i: nat, depth: nat, limited: bool): string
    requires i <= |c.payload|
    decreases c, i
  {
    if i == 0 then "" else WholeItems(r, c, i - 1, depth, limited) + Comma(i - 1) + WholeValue(r, c, i - 1, depth, limited)
  }

  function WholeCommand(r: Redactor, c: Command, depth: nat, limited: bool): string
    decreases c, |c.payload| + 1
  {
    Header(c) + WholeItems(r, c, |c.payload|, depth, limited) + "]}"
  }

  // ----- positions in that text -----

  /** Before an item, before a character of the string that is item i, or somewhere inside the command that is item i. */
  datatype Position =
    | Before(i: nat)
    | InString(i: nat, k: nat)
    | Inside(i: nat, inner: Position)

  predicate At(r: Redactor, c: Command, depth: nat, p: Position)
    decreases c
  {
    && p.i < |c.payload|
    && match p {
         case Before(_) => true
         case InString(i, k) =>
           depth + 1 < MAX_DEPTH && Shown(r, c, i).Some? && Shown(r, c, i).value.Some? && k < |Shown(r, c, i).value.value|
         case Inside(i, inner) =>
           depth + 1 < MAX_DEPTH && c.payload[i].Nested? && At(r, c.payload[i].command, depth + 1, inner)
       }
  }

  /** The text before a position. */
  function UpTo(r: Redactor, c: Command, depth: nat, p: Position): string
    requires At(r, c, depth, p)
    decreases c
  {
    Header(c) + WholeItems(r, c, p.i, depth, true) +
    match p
    case Before(_) => ""
    case InString(i, k) => Comma(i) + "\"" + EscapeAll(Shown(r, c, i).value.value[..k])
    case Inside(i, inner) => Comma(i) + UpTo(r, c.payload[i].command, depth + 1, inner)
  }

  /** The budget that is looked at there. */
  function Limit(budget: int, depth: nat, p: Position): nat
    decreases p
  {
    if p.Inside? then Limit(budget, depth + 1, p.inner) else LocalBudget(budget, depth)
  }

  /** Document order. */
  predicate Precedes(q: Position, p: Position)
    decreases p
  {
    || q.i < p.i
    || (q.i == p.i && ((q.Before? && !p.Before?)
                       || (q.InString? && p.InString? && q.k < p.k)
                       || (q.Inside? && p.Inside? && Precedes(q.inner, p.inner))))
  }

  function Open(p: Position): nat {
    if p.Inside? then 1 + Open(p.inner) else 1
  }

  function Innermost(p: Position): Position {
    if p.Inside? then Innermost(p.inner) else p
  }

  /** The text after a cut: what was being written is ended, and every open command gets the marker and its brackets. */
  function Closing(p: Position): string {
    var at := Innermost(p);
    (if at.InString? then "\"" else "") + (if at == Before(0) then "" else ",") + MARKER + "]}" + Outer(Open(p) - 1)
  }

  function Outer(commands: nat): string {
    if commands == 0 then "" else Outer(commands - 1) + "," + MARKER + "]}"
  }

  /** The text before this position, written from a given length on, has not reached the budget. */
  predicate Fits(r: Redactor, length: nat, c: Command, depth: nat, budget: int, p: Position)
    requires At(r, c, depth, p)
  {
    length + |UpTo(r, c, depth, p)| < Limit(budget, depth, p)
  }

  ghost predicate AllFit(r: Redactor, length: nat, c: Command, depth: nat, budget: int, items: nat) {
    forall p :: At(r, c, depth, p) && p.i < items ==> Fits(r, length, c, depth, budget, p)
  }

  /** The first position at which the budget is reached. */
  ghost predicate FirstOver(r: Redactor, length: nat, c: Command, depth: nat, budget: int, p: Position) {
    && At(r, c, depth, p) && !Fits(r, length, c, depth, budget, p)
    && forall q :: At(r, c, depth, q) && Precedes(q, p) ==> Fits(r, length, c, depth, budget, q)
  }

  /** Some value below lies at the depth limit. */
  predicate Deep(c: Command, depth: nat)
    decreases c
  {
    exists i :: 0 <= i < |c.payload| && DeepItem(c, i, depth)
  }

  predicate DeepItem(c: Command, i: nat, depth: nat)
    requires i < |c.payload|
    decreases c, 0
  {
    var v := c.payload[i];
    !v.Null? && (depth + 1 >= MAX_DEPTH || (v.Nested? && Deep(v.command, depth + 1)))
  }

  // ----- strings -----

  lemma {:induction false} EscapeOne(s: string, k: nat)
    requires k < |s|
    ensures EscapeAll(s[..k + 1]) == EscapeAll(s[..k]) + Escape(s[k])
  {
    assert s[..k + 1][..k] == s[..k];
  }

  lemma {:induction false} TailUnfold(length: nat, s: string, k: nat, budget: nat)
    requires k <= |s|
    ensures var tail := StringTail(length, s[k..], budget);
            if k == |s| || length >= budget then tail == Piece("\"", k < |s|, k == |s|)
            else tail == var rest := StringTail(length + |Escape(s[k])|, s[k + 1..], budget); rest.(text := Escape(s[k]) + rest.text)
  {
    if k < |s| {
      assert s[k..][1..] == s[k + 1..];
    }
  }

  /** A string is written up to the first character that would start at or after the budget. */
  lemma {:induction false} TailText(length: nat, s: string, k: nat, budget: nat) returns (j: nat)
    requires k <= |s|
    requires forall i :: 0 <= i < k ==> length + |EscapeAll(s[..i])| < budget
    ensures var tail := StringTail(length + |EscapeAll(s[..k])|, s[k..], budget);
            && k <= j <= |s| && tail.ok == (j == |s|) && tail.cut == !tail.ok
            && EscapeAll(s[..k]) + tail.text == EscapeAll(s[..j]) + "\""
    ensures forall i :: 0 <= i < j ==> length + |EscapeAll(s[..i])| < budget
    ensures j < |s| ==> length + |EscapeAll(s[..j])| >= budget
    decreases |s| - k
  {
    hide StringTail, EscapeAll, Escape;
    var at := length + |EscapeAll(s[..k])|;
    TailUnfold(at, s, k, budget);
    if k == |s| || at >= budget {
      j := k;
    } else {
      EscapeOne(s, k);
      j := TailText(length, s, k + 1, budget);
      Regroup(EscapeAll(s[..k]), Escape(s[k]), StringTail(at + |Escape(s[k])|, s[k + 1..], budget).text);
    }
  }

  // ----- closing text -----

  lemma {:induction false} ClosingInside(i: nat, inner: Position)
    ensures Closing(Inside(i, inner)) == Closing(inner) + "," + MARKER + "]}"
  {
    var at := Innermost(inner);
    var first := (if at.InString? then "\"" else "") + (if at == Before(0) then "" else ",") + MARKER + "]}";
    var level := "," + MARKER + "]}";
    Regroup(first, Outer(Open(inner) - 1), level);
    assert Outer(Open(inner)) == Outer(Open(inner) - 1) + level by {
      Regroup(Outer(Open(inner) - 1) + ",", MARKER, "]}");
      Regroup(Outer(Open(inner) - 1), ",", MARKER + "]}");
      Regroup(",", MARKER, "]}");
    }
    Regroup(Closing(inner) + ",", MARKER, "]}");
    Regroup(Closing(inner), ",", MARKER + "]}");
    Regroup(",", MARKER, "]}");
  }

  lemma ClosingHere(i: nat, k: nat)
    ensures Closing(Before(i)) == Comma(i) + MARKER + "]}"
    ensures Closing(InString(i, k)) == "\"" + "," + MARKER + "]}"
  {
    Nothing(Comma(i) + MARKER + "]}");
    Nothing("\"" + "," + MARKER + "]}");
    assert "" + Comma(i) == Comma(i);
  }

  // ----- the refinement -----

  function Lead(r: Redactor, c: Command, i: nat, depth: nat): string
    requires i <= |c.payload|
  {
    Header(c) + WholeItems(r, c, i, depth, true)
  }

  /** A piece that is the whole text without a cut, or that ends with the closing text after the first position over budget. */
  ghost predicate CommandTold(r: Redactor, length: nat, c: Command, depth: nat, budget: int, piece: Piece, cutAt: Option<Position>) {
    && piece.ok == cutAt.None? && piece.cut == (!piece.ok || Deep(c, depth))
    && match cutAt
       case None => piece.text == WholeCommand(r, c, depth, true) && AllFit(r, length, c, depth, budget, |c.payload|)
       case Some(p) => FirstOver(r, length, c, depth, budget, p) && piece.text == UpTo(r, c, depth, p) + Closing(p)
  }

  /** The same for the text of item i, which is written after its lead and a comma. */
  ghost predicate ItemTold(r: Redactor, length: nat, c: Command, i: nat, depth: nat, budget: int, piece: Piece, cutAt: Option<Position>)
    requires i < |c.payload|
  {
    && piece.ok == cutAt.None? && piece.cut == (!piece.ok || DeepItem(c, i, depth))
    && match cutAt
       case None =>
         && piece.text == WholeValue(r, c, i, depth, true)
         && forall p :: At(r, c, depth, p) && p.i == i && !p.Before? ==> Fits(r, length, c, depth, budget, p)
       case Some(p) =>
         && At(r, c, depth, p) && p.i == i && !p.Before? && !Fits(r, length, c, depth, budget, p)
         && Lead(r, c, i, depth) + Comma(i) + piece.text + "," + MARKER + "]}" == UpTo(r, c, depth, p) + Closing(p)
         && forall q :: At(r, c, depth, q) && q.i == i && !q.Before? && Precedes(q, p) ==> Fits(r, length, c, depth, budget, q)
  }

  lemma {:induction false} InTheString(r: Redactor, length: nat, c: Command, i: nat, k: nat, depth: nat, budget: int)
    requires At(r, c, depth, InString(i, k))
    ensures UpTo(r, c, depth, InString(i, k)) == Lead(r, c, i, depth) + (Comma(i) + "\"" + EscapeAll(Shown(r, c, i).value.value[..k]))
    ensures var e := EscapeAll(Shown(r, c, i).value.value[..k]);
            Fits(r, length, c, depth, budget, InString(i, k)) <==>
            length + |Lead(r, c, i, depth)| + |Comma(i)| + 1 + |e| < LocalBudget(budget, depth)
  {
  }

  lemma {:induction false} ShownItem(r: Redactor, c: Command, i: nat, depth: nat)
    requires i < |c.payload| && depth + 1 < MAX_DEPTH && Shown(r, c, i).Some?
    ensures !c.payload[i].Nested? && !DeepItem(c, i, depth)
    ensures WholeValue(r, c, i, depth, true) == WholeString(Shown(r, c, i).value)
  {
  }

  lemma CutInString(lead: string, comma: string, e: string, closing: string)
    ensures lead + comma + ("\"" + (e + "\"")) + "," + closing == lead + (comma + "\"" + e) + ("\"" + "," + closing)
  {
  }

  lemma {:induction false} StringItem(r: Redactor, length: nat, c: Command, i: nat, depth: nat, budget: int) returns (cutAt: Option<Position>)
    requires i < |c.payload| && depth + 1 < MAX_DEPTH && Shown(r, c, i).Some?
    ensures var at := length + |Lead(r, c, i, depth)| + |Comma(i)|;
            ItemTold(r, length, c, i, depth, budget, StringPiece(at, Shown(r, c, i).value, LocalBudget(budget, depth)), cutAt)
  {
    hide Lead, Comma, LocalBudget, WholeItems, Header, UpTo, WholeValue, Fits;
    ShownItem(r, c, i, depth);
    match Shown(r, c, i).value
    case None => cutAt := None;
    case Some(s) =>
      cutAt := SomeStringItem(r, length, c, i, depth, budget, s);
  }

  lemma {:induction false} SomeStringItem(r: Redactor, length: nat, c: Command, i: nat, depth: nat, budget: int, s: string)
    returns (cutAt: Option<Position>)
    requires i < |c.payload| && depth + 1 < MAX_DEPTH && Shown(r, c, i) == Some(Some(s))
    ensures var at := length + |Lead(r, c, i, depth)| + |Comma(i)|;
            ItemTold(r, length, c, i, depth, budget, StringPiece(at, Some(s), LocalBudget(budget, depth)), cutAt)
  {
    hide Lead, Comma, LocalBudget, StringTail, EscapeAll, Closing, Shown, WholeItems, Header, UpTo, WholeValue, Fits, At;
    var lead, comma, local := Lead(r, c, i, depth), Comma(i), LocalBudget(budget, depth);
    var at := length + |lead| + |comma| + 1;
    ShownItem(r, c, i, depth);
    StringPositions(r, c, i, depth, s);
    var j := WholeTail(at, s, local);
    forall k | 0 <= k < |s|
      ensures Fits(r, length, c, depth, budget, InString(i, k)) <==> at + |EscapeAll(s[..k])| < local
    {
      InTheString(r, length, c, i, k, depth, budget);
    }
    if j == |s| {
      cutAt := None;
      Regroup("\"", EscapeAll(s), "\"");
    } else {
      cutAt := Some(InString(i, j));
      InTheString(r, length, c, i, j, depth, budget);
      CutInString(lead, comma, EscapeAll(s[..j]), MARKER + "]}");
      ClosingHere(i, j);
    }
  }

  lemma {:induction false} StringPositions(r: Redactor, c: Command, i: nat, depth: nat, s: string)
    requires i < |c.payload| && depth + 1 < MAX_DEPTH && Shown(r, c, i) == Some(Some(s))
    ensures forall k: nat :: At(r, c, depth, InString(i, k)) <==> k < |s|
    ensures forall p :: At(r, c, depth, p) && p.i == i && !p.Before? ==> p.InString?
  {
  }

  lemma {:induction false} WholeTail(length: nat, s: string, budget: nat) returns (j: nat)
    ensures var tail := StringTail(length, s, budget);
            && j <= |s| && tail.ok == (j == |s|) && tail.cut == !tail.ok
            && tail.text == EscapeAll(s[..j]) + "\"" && (j == |s| ==> tail.text == EscapeAll(s) + "\"")
    ensures forall i :: 0 <= i < j ==> length + |EscapeAll(s[..i])| < budget
    ensures j < |s| ==> length + |EscapeAll(s[..j])| >= budget
  {
    hide StringTail;
    assert s[..0] == "" && s[0..] == s && s[..|s|] == s;
    j := TailText(length, s, 0, budget);
    var tail := StringTail(length, s, budget);
    assert "" + tail.text == tail.text;
  }

  lemma {:induction false} InTheCommand(r: Redactor, length: nat, c: Command, i: nat, inner: Position, depth: nat, budget: int)
    requires At(r, c, depth, Inside(i, inner))
    ensures UpTo(r, c, depth, Inside(i, inner)) ==
            Lead(r, c, i, depth) + (Comma(i) + UpTo(r, c.payload[i].command, depth + 1, inner))
    ensures Fits(r, length, c, depth, budget, Inside(i, inner)) <==>
            Fits(r, length + |Lead(r, c, i, depth)| + |Comma(i)|, c.payload[i].command, depth + 1, budget, inner)
  {
  }

  lemma CutInCommand(lead: string, comma: string, upTo: string, closing: string)
    ensures lead + comma + (upTo + closing) + "," + MARKER + "]}" == lead + (comma + upTo) + (closing + "," + MARKER + "]}")
  {
  }

  /** Item i is a command; what is told about that command tells about the item. */
  lemma {:induction false} CommandItem(r: Redactor, length: nat, c: Command, i: nat, depth: nat, budget: int, piece: Piece,
                                       cutAt: Option<Position>)
    requires i < |c.payload| && depth + 1 < MAX_DEPTH && c.payload[i].Nested?
    requires CommandTold(r, length + |Lead(r, c, i, depth)| + |Comma(i)|, c.payload[i].command, depth + 1, budget, piece, cutAt)
    ensures ItemTold(r, length, c, i, depth, budget, piece, if cutAt.None? then None else Some(Inside(i, cutAt.value)))
  {
    hide Lead, Comma, LocalBudget, Closing, WholeItems, Header, UpTo, Fits, WholeCommand;
    var nested := c.payload[i].command;
    forall inner | At(r, nested, depth + 1, inner)
      ensures Fits(r, length, c, depth, budget, Inside(i, inner)) <==>
              Fits(r, length + |Lead(r, c, i, depth)| + |Comma(i)|, nested, depth + 1, budget, inner)
    {
      InTheCommand(r, length, c, i, inner, depth, budget);
    }
    if cutAt.Some? {
      InTheCommand(r, length, c, i, cutAt.value, depth, budget);
      CutInCommand(Lead(r, c, i, depth), Comma(i), UpTo(r, nested, depth + 1, cutAt.value), Closing(cutAt.value));
      ClosingInside(i, cutAt.value);
    }
  }

  lemma {:induction false} LeafItem(r: Redactor, length: nat, c: Command, i: nat, depth: nat, budget: int, at: nat)
    requires i < |c.payload| && (depth + 1 < MAX_DEPTH ==> !c.payload[i].Nested? && Shown(r, c, i).None?)
    ensures var force := FollowsSensitiveKey(r, c.payload, i);
            ItemTold(r, length, c, i, depth, budget,
                     ValuePiece(r, at, c.payload[i], depth + 1, budget, LocalBudget(budget, depth), force), None)
  {
    hide UpTo, Fits;
  }

  lemma {:induction false} ItemText(r: Redactor, length: nat, c: Command, i: nat, depth: nat, budget: int) returns (cutAt: Option<Position>)
    requires i < |c.payload|
    ensures var at := length + |Lead(r, c, i, depth)| + |Comma(i)|;
            var force := FollowsSensitiveKey(r, c.payload, i);
            ItemTold(r, length, c, i, depth, budget,
                     ValuePiece(r, at, c.payload[i], depth + 1, budget, LocalBudget(budget, depth), force), cutAt)
    decreases c, |c.payload| - i, 0
  {
    hide Lead, Comma, LocalBudget, ItemTold, CommandTold, StringPiece, Redacted, FollowsSensitiveKey;
    var at := length + |Lead(r, c, i, depth)| + |Comma(i)|;
    if depth + 1 < MAX_DEPTH && c.payload[i].Nested? {
      var inner := CommandText(r, at, c.payload[i].command, depth + 1, budget);
      CommandItem(r, length, c, i, depth, budget, CommandPiece(r, at, c.payload[i].command, depth + 1, budget), inner);
      cutAt := if inner.None? then None else Some(Inside(i, inner.value));
    } else if depth + 1 < MAX_DEPTH && Shown(r, c, i).Some? {
      cutAt := StringItem(r, length, c, i, depth, budget);
    } else {
      LeafItem(r, length, c, i, depth, budget, at);
      cutAt := None;
    }
  }

  ghost predicate ItemsTold(r: Redactor, length: nat, c: Command, i: nat, depth: nat, budget: int, piece: Piece, cutAt: Option<Position>)
    requires i <= |c.payload|
  {
    && piece.ok == cutAt.None? && piece.cut == (!piece.ok || exists j :: i <= j < |c.payload| && DeepItem(c, j, depth))
    && match cutAt
       case None =>
         && Lead(r, c, i, depth) + piece.text == Lead(r, c, |c.payload|, depth)
         && AllFit(r, length, c, depth, budget, |c.payload|)
       case Some(p) =>
         && FirstOver(r, length, c, depth, budget, p)
         && Lead(r, c, i, depth) + piece.text + "]}" == UpTo(r, c, depth, p) + Closing(p)
  }

  lemma {:induction false} BeforeTheItem(r: Redactor, length: nat, c: Command, i: nat, depth: nat, budget: int)
    requires i < |c.payload|
    ensures At(r, c, depth, Before(i)) && UpTo(r, c, depth, Before(i)) == Lead(r, c, i, depth)
    ensures Fits(r, length, c, depth, budget, Before(i)) <==> length + |Lead(r, c, i, depth)| < LocalBudget(budget, depth)
  {
    Nothing(Lead(r, c, i, depth));
  }

  lemma {:induction false} NoItems(r: Redactor, length: nat, c: Command, depth: nat, budget: int)
    requires AllFit(r, length, c, depth, budget, |c.payload|)
    ensures var n := |c.payload|;
            ItemsTold(r, length, c, n, depth, budget, ItemsPiece(r, length + |Lead(r, c, n, depth)|, c, n, depth, budget), None)
  {
    hide AllFit, Lead;
    Nothing(Lead(r, c, |c.payload|, depth));
  }

  lemma {:induction false} CutBefore(r: Redactor, length: nat, c: Command, i: nat, depth: nat, budget: int)
    requires i < |c.payload| && AllFit(r, length, c, depth, budget, i)
    requires length + |Lead(r, c, i, depth)| >= LocalBudget(budget, depth)
    ensures ItemsTold(r, length, c, i, depth, budget, ItemsPiece(r, length + |Lead(r, c, i, depth)|, c, i, depth, budget),
                      Some(Before(i)))
  {
    hide Lead, LocalBudget, UpTo, Fits, Closing;
    BeforeTheItem(r, length, c, i, depth, budget);
    ClosingHere(i, 0);
    Regroup(Lead(r, c, i, depth), Comma(i) + MARKER, "]}");
  }

  lemma {:induction false} CutIn(r: Redactor, length: nat, c: Command, i: nat, depth: nat, budget: int, value: Piece, p: Position)
    requires i < |c.payload| && AllFit(r, length, c, depth, budget, i) && ItemTold(r, length, c, i, depth, budget, value, Some(p))
    requires length + |Lead(r, c, i, depth)| < LocalBudget(budget, depth)
    requires value == ValuePiece(r, length + |Lead(r, c, i, depth)| + |Comma(i)|, c.payload[i], depth + 1, budget,
                                 LocalBudget(budget, depth), FollowsSensitiveKey(r, c.payload, i))
    ensures ItemsTold(r, length, c, i, depth, budget, ItemsPiece(r, length + |Lead(r, c, i, depth)|, c, i, depth, budget), Some(p))
  {
    hide Lead, LocalBudget, UpTo, Fits, Closing, At, ValuePiece;
    BeforeTheItem(r, length, c, i, depth, budget);
    OnlyBefore(r, length, c, i, depth, budget, p);
    CutItemText(Lead(r, c, i, depth), Comma(i), value.text);
  }

  lemma {:induction false} OnlyBefore(r: Redactor, length: nat, c: Command, i: nat, depth: nat, budget: int, p: Position)
    requires i < |c.payload| && p.i == i && AllFit(r, length, c, depth, budget, i)
    requires Fits(r, length, c, depth, budget, Before(i))
    requires forall q :: At(r, c, depth, q) && q.i == i && !q.Before? && Precedes(q, p) ==> Fits(r, length, c, depth, budget, q)
    ensures forall q :: At(r, c, depth, q) && Precedes(q, p) ==> Fits(r, length, c, depth, budget, q)
  {
    hide At, Fits;
    forall q | At(r, c, depth, q) && Precedes(q, p)
      ensures Fits(r, length, c, depth, budget, q)
    {
      if q.i == i && q.Before? {
        assert q == Before(i);
      }
    }
  }

  lemma CutItemText(lead: string, comma: string, value: string)
    ensures lead + (comma + value + "," + MARKER) + "]}" == lead + comma + value + "," + MARKER + "]}"
  {
  }

  lemma {:induction false} OneMore(r: Redactor, length: nat, c: Command, i: nat, depth: nat, budget: int, value: Piece)
    requires i < |c.payload| && AllFit(r, length, c, depth, budget, i) && ItemTold(r, length, c, i, depth, budget, value, None)
    requires length + |Lead(r, c, i, depth)| < LocalBudget(budget, depth)
    ensures AllFit(r, length, c, depth, budget, i + 1)
    ensures Lead(r, c, i + 1, depth) == Lead(r, c, i, depth) + Comma(i) + value.text
  {
    hide LocalBudget, UpTo, Fits, At, Header, WholeValue;
    BeforeTheItem(r, length, c, i, depth, budget);
    forall p | At(r, c, depth, p) && p.i < i + 1
      ensures Fits(r, length, c, depth, budget, p)
    {
      if p.i == i && p.Before? {
        assert p == Before(i);
      }
    }
    Regroup(Header(c), WholeItems(r, c, i, depth, true) + Comma(i), value.text);
    Regroup(Header(c), WholeItems(r, c, i, depth, true), Comma(i));
  }

  lemma {:induction false} Prepend(r: Redactor, length: nat, c: Command, i: nat, depth: nat, budget: int, value: Piece,
                                   cutAt: Option<Position>)
    requires i < |c.payload| && ItemTold(r, length, c, i, depth, budget, value, None)
    requires length + |Lead(r, c, i, depth)| < LocalBudget(budget, depth)
    requires value == ValuePiece(r, length + |Lead(r, c, i, depth)| + |Comma(i)|, c.payload[i], depth + 1, budget,
                                 LocalBudget(budget, depth), FollowsSensitiveKey(r, c.payload, i))
    requires Lead(r, c, i + 1, depth) == Lead(r, c, i, depth) + Comma(i) + value.text
    requires ItemsTold(r, length, c, i + 1, depth, budget,
                       ItemsPiece(r, length + |Lead(r, c, i + 1, depth)|, c, i + 1, depth, budget), cutAt)
    ensures ItemsTold(r, length, c, i, depth, budget, ItemsPiece(r, length + |Lead(r, c, i, depth)|, c, i, depth, budget), cutAt)
  {
    hide Lead, LocalBudget, UpTo, Fits, Closing, At, ValuePiece, AllFit, FirstOver, DeepItem, WholeValue;
    var rest := ItemsPiece(r, length + |Lead(r, c, i + 1, depth)|, c, i + 1, depth, budget);
    var whole := ItemsPiece(r, length + |Lead(r, c, i, depth)|, c, i, depth, budget);
    assert whole == Piece(Comma(i) + value.text + rest.text, value.cut || rest.cut, rest.ok);
    Regroup(Lead(r, c, i, depth), Comma(i) + value.text, rest.text);
    Regroup(Lead(r, c, i, depth), Comma(i), value.text);
    assert value.cut == DeepItem(c, i, depth);
  }

  lemma {:induction false} NothingBefore(r: Redactor, length: nat, c: Command, depth: nat, budget: int)
    ensures AllFit(r, length, c, depth, budget, 0) && Lead(r, c, 0, depth) == Header(c)
  {
    Nothing(Header(c));
  }

  lemma {:induction false} FromItems(r: Redactor, length: nat, c: Command, depth: nat, budget: int, cutAt: Option<Position>)
    requires Lead(r, c, 0, depth) == Header(c)
    requires ItemsTold(r, length, c, 0, depth, budget, ItemsPiece(r, length + |Lead(r, c, 0, depth)|, c, 0, depth, budget), cutAt)
    ensures CommandTold(r, length, c, depth, budget, CommandPiece(r, length, c, depth, budget), cutAt)
  {
    hide ItemsPiece, Fits, AllFit, UpTo, Closing, DeepItem, Header, WholeItems;
    var items, piece := ItemsPiece(r, length + |Header(c)|, c, 0, depth, budget), CommandPiece(r, length, c, depth, budget);
    assert piece == items.(text := Header(c) + items.text + "]}");
    assert piece.cut == (!piece.ok || Deep(c, depth));
    assert cutAt.None? ==> piece.text == WholeCommand(r, c, depth, true);
  }

  lemma {:induction false} ItemsText(r: Redactor, length: nat, c: Command, i: nat, depth: nat, budget: int) returns (cutAt: Option<Position>)
    requires i <= |c.payload| && AllFit(r, length, c, depth, budget, i)
    ensures ItemsTold(r, length, c, i, depth, budget, ItemsPiece(r, length + |Lead(r, c, i, depth)|, c, i, depth, budget), cutAt)
    decreases c, |c.payload| - i, 1
  {
    hide *;
    var lead, local := Lead(r, c, i, depth), LocalBudget(budget, depth);
    var before := length + |lead|;
    if i == |c.payload| {
      cutAt := None;
      NoItems(r, length, c, depth, budget);
    } else if before >= local {
      cutAt := Some(Before(i));
      CutBefore(r, length, c, i, depth, budget);
    } else {
      var force := FollowsSensitiveKey(r, c.payload, i);
      var value := ValuePiece(r, before + |Comma(i)|, c.payload[i], depth + 1, budget, local, force);
      var inItem := ItemText(r, length, c, i, depth, budget);
      if inItem.Some? {
        cutAt := inItem;
        CutIn(r, length, c, i, depth, budget, value, inItem.value);
      } else {
        OneMore(r, length, c, i, depth, budget, value);
        cutAt := ItemsText(r, length, c, i + 1, depth, budget);
        Prepend(r, length, c, i, depth, budget, value, cutAt);
      }
    }
  }

  lemma {:induction false} CommandText(r: Redactor, length: nat, c: Command, depth: nat, budget: int) returns (cutAt: Option<Position>)
    ensures CommandTold(r, length, c, depth, budget, CommandPiece(r, length, c, depth, budget), cutAt)
    decreases c, |c.payload| + 1
  {
    hide *;
    NothingBefore(r, length, c, depth, budget);
    cutAt := ItemsText(r, length, c, 0, depth, budget);
    FromItems(r, length, c, depth, budget, cutAt);
  }

  // ----- what the refinement says of a whole body -----

  lemma {:induction false} ItemsGrow(r: Redactor, c: Command, i: nat, j: nat, depth: nat)
    requires i <= j <= |c.payload|
    ensures WholeItems(r, c, i, depth, true) <= WholeItems(r, c, j, depth, true)
    decreases j
  {
    hide WholeValue;
    if i < j {
      ItemsGrow(r, c, i, j - 1, depth);
    }
  }

  /** The text before a position is the beginning of the unbudgeted text. */
  lemma {:induction false} UpToBegins(r: Redactor, c: Command, depth: nat, p: Position)
    requires At(r, c, depth, p)
    ensures UpTo(r, c, depth, p) <= WholeCommand(r, c, depth, true)
    decreases c
  {
    hide WholeValue, Header, EscapeAll, Comma, Shown;
    var i, n := p.i, |c.payload|;
    ItemsGrow(r, c, i, n, depth);
    ItemsGrow(r, c, i + 1, n, depth);
    var before, items := WholeItems(r, c, i, depth, true), WholeItems(r, c, n, depth, true);
    var value := WholeValue(r, c, i, depth, true);
    match p
    case Before(_) =>
      Extends(Header(c), before, "", items, "]}");
    case InString(_, k) =>
      var s := Shown(r, c, i).value.value;
      InTheString(r, 0, c, i, k, depth, 0);
      ShownItem(r, c, i, depth);
      EscapeGrows(s, k, |s|);
      assert s[..|s|] == s;
      var start := "\"" + EscapeAll(s[..k]);
      Extends("", "\"", EscapeAll(s[..k]), "\"" + EscapeAll(s), "\"");
      assert "" + "\"" + EscapeAll(s[..k]) == start;
      Item(Header(c), before, Comma(i), start, value, items);
      Regroup(Comma(i), "\"", EscapeAll(s[..k]));
    case Inside(_, inner) =>
      UpToBegins(r, c.payload[i].command, depth + 1, inner);
      NestedItem(r, c, i, depth);
      Item(Header(c), before, Comma(i), UpTo(r, c.payload[i].command, depth + 1, inner), value, items);
  }

  lemma {:induction false} NestedItem(r: Redactor, c: Command, i: nat, depth: nat)
    requires i < |c.payload| && depth + 1 < MAX_DEPTH && c.payload[i].Nested?
    ensures WholeValue(r, c, i, depth, true) == WholeCommand(r, c.payload[i].command, depth + 1, true)
  {
  }

  lemma Extends(header: string, before: string, start: string, items: string, end: string)
    requires before + start <= items
    ensures header + before + start <= header + items + end
  {
    var rest := items[|before + start|..];
    assert items == before + start + rest;
    assert header + items + end == header + before + start + (rest + end);
  }

  lemma Item(header: string, before: string, comma: string, start: string, value: string, items: string)
    requires start <= value && before + comma + value <= items
    ensures header + before + (comma + start) <= header + items + "]}"
  {
    var rest := value[|start|..];
    assert value == start + rest;
    assert before + comma + value == before + (comma + start) + rest;
    Extends(header, before, comma + start, items, "]}");
  }

  lemma {:induction false} EscapeGrows(s: string, k: nat, m: nat)
    requires k <= m <= |s|
    ensures EscapeAll(s[..k]) <= EscapeAll(s[..m])
    decreases m
  {
    hide EscapeAll, Escape;
    if k < m {
      EscapeOne(s, m - 1);
      EscapeGrows(s, k, m - 1);
    }
  }

  /** Without a value at the depth limit, obeying that limit changes nothing. */
  lemma {:induction false} ShallowItems(r: Redactor, c: Command, i: nat, depth: nat)
    requires i <= |c.payload| && !Deep(c, depth)
    ensures WholeItems(r, c, i, depth, true) == WholeItems(r, c, i, depth, false)
    decreases c, i
  {
    if i > 0 {
      ShallowItems(r, c, i - 1, depth);
      assert !DeepItem(c, i - 1, depth);
      ShallowValue(r, c, i - 1, depth);
    }
  }

  lemma {:induction false} ShallowValue(r: Redactor, c: Command, i: nat, depth: nat)
    requires i < |c.payload| && !DeepItem(c, i, depth)
    ensures WholeValue(r, c, i, depth, true) == WholeValue(r, c, i, depth, false)
    decreases c, i, 0
  {
    var v := c.payload[i];
    if v.Nested? {
      ShallowItems(r, v.command, |v.command.payload|, depth + 1);
      assert WholeCommand(r, v.command, depth + 1, true) == WholeCommand(r, v.command, depth + 1, false);
    }
  }

  /** The budgeted renderer against the unbudgeted one, for every body and every limit. */
  lemma {:induction false} RenderedRefines(r: Redactor, c: Command, max: int)
    ensures var body := Rendered(r, c, max);
            && (body.ok <==> AllFit(r, 0, c, 0, max, |c.payload|))
            && (body.ok ==> body.text == WholeCommand(r, c, 0, true))
            && (!body.ok ==> exists p ::
                  && FirstOver(r, 0, c, 0, max, p) && UpTo(r, c, 0, p) <= WholeCommand(r, c, 0, true)
                  && body.text == UpTo(r, c, 0, p) + Closing(p))
            && (body.cut <==> !body.ok || Deep(c, 0))
            && (!body.cut ==> body.text == WholeCommand(r, c, 0, false))
  {
    hide CommandPiece, WholeItems, UpTo, Closing, Fits, Deep;
    var cutAt := CommandText(r, 0, c, 0, max);
    if cutAt.Some? {
      UpToBegins(r, c, 0, cutAt.value);
      assert At(r, c, 0, cutAt.value) && !Fits(r, 0, c, 0, max, cutAt.value);
    }
    if !Deep(c, 0) {
      ShallowItems(r, c, |c.payload|, 0);
    }
  }
}
