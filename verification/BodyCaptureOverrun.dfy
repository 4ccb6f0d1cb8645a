/**
Where a body that exceeds its limit comes from. Only nested commands do that: their headers are written without
looking at a budget, so the text is over the limit directly after such a header, or directly after a nested command
that was written whole, and nowhere else.
*/
module BodyCaptureOverrun {
  import opened Wrappers
  import opened BodyCapture
  import opened BodyCaptureText
  import opened BodyCaptureLength

  /** Item i is a command that is written, not a marker in its place. */
  predicate Entered(c: Command, i: nat, depth: nat) {
    i < |c.payload| && c.payload[i].Nested? && depth + 1 < MAX_DEPTH
  }

  /** The position is right after a nested header or right after a nested command. */
  predicate AfterNested(c: Command, depth: nat, p: Position)
    decreases c
  {
    match p
    case Before(i) => i > 0 && Entered(c, i - 1, depth)
    case InString(_, _) => false
    case Inside(i, inner) =>
      Entered(c, i, depth) && (inner == Before(0) || AfterNested(c.payload[i].command, depth + 1, inner))
  }

  // ----- lengths of what closes a body -----

  lemma {:induction false} OuterLength(commands: nat)
    ensures |Outer(commands)| == CLOSING_COST_PER_LEVEL * commands
  {
    if commands > 0 {
      OuterLength(commands - 1);
    }
  }

  lemma ClosingLength(p: Position)
    ensures |Closing(p)| <= (if Innermost(p).InString? then 19 else 18) + CLOSING_COST_PER_LEVEL * (Open(p) - 1)
    ensures p == Before(0) ==> |Closing(p)| == 17
  {
    OuterLength(Open(p) - 1);
  }

  lemma {:induction false} LimitValue(budget: int, depth: nat, p: Position)
    ensures Limit(budget, depth, p) == LocalBudget(budget, depth + Open(p) - 1)
    decreases p
  {
    hide LocalBudget;
    if p.Inside? {
      LimitValue(budget, depth + 1, p.inner);
    }
  }

  // ----- how far the text is when a position is reached -----

  /** After an item that is no command the text is at most 31 characters past its level's budget. */
  lemma {:induction false} LeafEnds(r: Redactor, length: nat, c: Command, i: nat, depth: nat, budget: int, header: nat)
    requires i < |c.payload| && PayloadWithin(c, header) && !Entered(c, i, depth)
    requires forall p :: At(r, c, depth, p) && p.i == i ==> Fits(r, length, c, depth, budget, p)
    ensures length + |Lead(r, c, i, depth)| < LocalBudget(budget, depth)
    ensures length + |Lead(r, c, i + 1, depth)| <= LocalBudget(budget, depth) + NUMBER_LIMIT
  {
    hide ValuePiece, LocalBudget, Fits, UpTo, FollowsSensitiveKey, DeepItem;
    var local, force := LocalBudget(budget, depth), FollowsSensitiveKey(r, c.payload, i);
    var at := length + |Lead(r, c, i, depth)| + |Comma(i)|;
    BeforeTheItem(r, length, c, i, depth, budget);
    var cutAt := ItemText(r, length, c, i, depth, budget);
    CutLeaf(r, at, c.payload[i], depth + 1, budget, local, force, header);
    LeadLength(r, c, i, depth);
  }

  lemma {:induction false} LeadLength(r: Redactor, c: Command, i: nat, depth: nat)
    requires i < |c.payload|
    ensures |Lead(r, c, i + 1, depth)| == |Lead(r, c, i, depth)| + |Comma(i)| + |WholeValue(r, c, i, depth, true)|
  {
    hide WholeValue, Header;
  }

  /** A string is cut at most five characters past its budget. */
  lemma {:induction false} StringEnds(r: Redactor, length: nat, c: Command, i: nat, k: nat, depth: nat, budget: int)
    requires FirstOver(r, length, c, depth, budget, InString(i, k))
    ensures 0 < LocalBudget(budget, depth) && length + |UpTo(r, c, depth, InString(i, k))| <= LocalBudget(budget, depth) + 5
  {
    hide UpTo, LocalBudget, Lead, EscapeAll, Fits, Shown;
    BeforeTheItem(r, length, c, i, depth, budget);
    InTheString(r, length, c, i, k, depth, budget);
    assert Precedes(Before(i), InString(i, k));
    var s := Shown(r, c, i).value.value;
    if k == 0 {
      EscapeNothing(s);
    } else {
      InTheString(r, length, c, i, k - 1, depth, budget);
      assert Precedes(InString(i, k - 1), InString(i, k));
      EscapeOne(s, k - 1);
    }
  }

  lemma EscapeNothing(s: string)
    ensures EscapeAll(s[..0]) == ""
  {
  }

  lemma {:induction false} FirstInside(r: Redactor, length: nat, c: Command, i: nat, inner: Position, depth: nat, budget: int)
    requires FirstOver(r, length, c, depth, budget, Inside(i, inner))
    ensures FirstOver(r, length + |Lead(r, c, i, depth)| + |Comma(i)|, c.payload[i].command, depth + 1, budget, inner)
    ensures |UpTo(r, c, depth, Inside(i, inner))| ==
            |Lead(r, c, i, depth)| + |Comma(i)| + |UpTo(r, c.payload[i].command, depth + 1, inner)|
  {
    hide UpTo, Lead, Comma, Fits;
    var nested := c.payload[i].command;
    InTheCommand(r, length, c, i, inner, depth, budget);
    forall q | At(r, nested, depth + 1, q) && Precedes(q, inner)
      ensures Fits(r, length + |Lead(r, c, i, depth)| + |Comma(i)|, nested, depth + 1, budget, q)
    {
      assert At(r, c, depth, Inside(i, q)) && Precedes(Inside(i, q), Inside(i, inner));
      InTheCommand(r, length, c, i, q, depth, budget);
    }
  }

  /** A cut anywhere else comes so early that its closing text fits. */
  lemma {:induction false} ReachedEarly(r: Redactor, length: nat, c: Command, depth: nat, budget: int, p: Position, header: nat)
    requires FirstOver(r, length, c, depth, budget, p) && PayloadWithin(c, header)
    requires p != Before(0) && !AfterNested(c, depth, p)
    ensures var limit := Limit(budget, depth, p);
            0 < limit && length + |UpTo(r, c, depth, p)| <= limit + if Innermost(p).InString? then 5 else NUMBER_LIMIT
    decreases c
  {
    match p
    case Before(i) =>
      hide UpTo, LocalBudget, Lead, Fits;
      forall q | At(r, c, depth, q) && q.i == i - 1
        ensures Fits(r, length, c, depth, budget, q)
      {
        assert Precedes(q, p);
      }
      LeafEnds(r, length, c, i - 1, depth, budget, header);
      BeforeTheItem(r, length, c, i, depth, budget);
    case InString(i, k) =>
      StringEnds(r, length, c, i, k, depth, budget);
    case Inside(i, inner) =>
      hide UpTo, LocalBudget, Lead, Fits, FirstOver;
      FirstIsAt(r, length, c, depth, budget, p);
      FirstInside(r, length, c, i, inner, depth, budget);
      assert ValueWithin(c.payload[i], header);
      ReachedEarly(r, length + |Lead(r, c, i, depth)| + |Comma(i)|, c.payload[i].command, depth + 1, budget, inner, header);
  }

  lemma FirstIsAt(r: Redactor, length: nat, c: Command, depth: nat, budget: int, p: Position)
    requires FirstOver(r, length, c, depth, budget, p)
    ensures At(r, c, depth, p)
  {
  }

  /**
  A body is over its limit only because its own header is too long, or because the text before the closing ends with
  a nested header or with a nested command written whole.
  */
  lemma {:induction false} OverrunNeedsNesting(r: Redactor, c: Command, max: int, header: nat)
    requires PayloadWithin(c, header) && |Rendered(r, c, max).text| > max
    requires |Header(c)| + (if c.payload == [] then 2 else 17) <= max
    ensures var body := Rendered(r, c, max);
            if body.ok then c.payload != [] && Entered(c, |c.payload| - 1, 0)
            else exists p :: FirstOver(r, 0, c, 0, max, p) && body.text == UpTo(r, c, 0, p) + Closing(p) && AfterNested(c, 0, p)
  {
    hide CommandPiece, UpTo, Closing, FirstOver, AllFit, Lead, WholeItems, Header, PayloadWithin;
    var n := |c.payload|;
    var cutAt := CommandText(r, 0, c, 0, max);
    match cutAt
    case None =>
      WholeLength(r, c, 0);
      if n == 0 {
        LeadOfNone(r, c, 0);
      } else if !Entered(c, n - 1, 0) {
        LastFits(r, c, max, n - 1);
        LeafEnds(r, 0, c, n - 1, 0, max, header);
      }
    case Some(p) =>
      FirstIsAt(r, 0, c, 0, max, p);
      ClosingLength(p);
      LimitValue(max, 0, p);
      if p == Before(0) {
        BeforeTheItem(r, 0, c, 0, 0, max);
        LeadOfNone(r, c, 0);
      } else if !AfterNested(c, 0, p) {
        ReachedEarly(r, 0, c, 0, max, p, header);
      }
  }

  lemma {:induction false} WholeLength(r: Redactor, c: Command, depth: nat)
    ensures |WholeCommand(r, c, depth, true)| == |Lead(r, c, |c.payload|, depth)| + 2
  {
    hide WholeItems, Header;
  }

  lemma {:induction false} LeadOfNone(r: Redactor, c: Command, depth: nat)
    ensures |Lead(r, c, 0, depth)| == |Header(c)|
  {
    hide Header;
  }

  lemma {:induction false} LastFits(r: Redactor, c: Command, max: int, i: nat)
    requires AllFit(r, 0, c, 0, max, |c.payload|) && i < |c.payload|
    ensures forall p :: At(r, c, 0, p) && p.i == i ==> Fits(r, 0, c, 0, max, p)
  {
    hide Fits, At;
  }
}
