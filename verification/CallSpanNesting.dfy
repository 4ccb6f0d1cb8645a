/**
Runs of starts and completions that are properly nested, some of the completions throwing. A completion that throws
leaves the headers of its span in place; whether they are taken out later depends on what encloses it.
*/
module CallSpanNesting {
  import opened CallSpan
  import opened Wrappers

  // ----- runs -----

  /** Throw is a completion that throws before it has put the headers back. */
  datatype Op = Begin(start: Start) | End | Throw

  function Depth(ops: seq<Op>): int {
    if ops == [] then 0 else Depth(ops[..|ops| - 1]) + if ops[|ops| - 1].Begin? then 1 else -1
  }

  function Step(p: Propagator, s: State, op: Op): State
    requires !op.Begin? ==> s.open != []
  {
    match op
    case Begin(start) => AfterStart(p, s, start)
    case End => AfterComplete(s)
    case Throw => AfterThrow(s)
  }

  /** Each start reads headers of its moment, and what is completed was started after the beginning. */
  ghost predicate Nested(p: Propagator, s: State, ops: seq<Op>)
    decreases |ops|, 0
  {
    ops != [] ==>
      var (before, last) := (ops[..|ops| - 1], ops[|ops| - 1]);
      && Nested(p, s, before) && Depth(ops) >= 0
      && (last.Begin? ==> MayStart(Run(p, s, before), last.start))
  }

  ghost function Run(p: Propagator, s: State, ops: seq<Op>): (r: State)
    requires Nested(p, s, ops)
    ensures |r.open| == |s.open| + Depth(ops) && Depth(ops) >= 0
    decreases |ops|, 1
  {
    if ops == [] then s else Step(p, Run(p, s, ops[..|ops| - 1]), ops[|ops| - 1])
  }

  /** The last open span was injected. */
  predicate TopInjected(s: State) {
    s.open != [] && s.open[|s.open| - 1].previous.Some?
  }

  /** How many injected spans are open beyond the first ones. */
  function Injections(open: seq<Open>, first: nat): nat
    requires first <= |open|
    decreases |open|
  {
    if |open| == first then 0
    else Injections(open[..|open| - 1], first) + if open[|open| - 1].previous.Some? then 1 else 0
  }

  // ----- where a throw leaves headers behind -----

  /**
  One flag for the beginning of the run and one for each injected span that is open: whether an injected span failed
  to complete while that span was the innermost injected one.
  */
  ghost function Faults(p: Propagator, s: State, ops: seq<Op>): (faults: seq<bool>)
    requires Nested(p, s, ops)
    ensures |faults| == 1 + Injections(Run(p, s, ops).open, |s.open|)
    decreases |ops|
  {
    if ops == [] then [false]
    else
      var (before, last) := (ops[..|ops| - 1], ops[|ops| - 1]);
      InjectionsStep(p, Run(p, s, before), |s.open|, last);
      NextFaults(p, Run(p, s, before), last, Faults(p, s, before))
  }

  function NextFaults(p: Propagator, t: State, op: Op, faults: seq<bool>): seq<bool>
    requires !op.Begin? && TopInjected(t) ==> |faults| >= 2
  {
    match op
    case Begin(start) => if OpenOf(p, t, start).previous.Some? then faults + [false] else faults
    case End => if TopInjected(t) then faults[..|faults| - 1] else faults
    case Throw => if TopInjected(t) then faults[..|faults| - 2] + [true] else faults
  }

  lemma InjectionsStep(p: Propagator, t: State, first: nat, op: Op)
    requires first <= |t.open| && (!op.Begin? ==> first < |t.open|)
    ensures !op.Begin? && TopInjected(t) ==> Injections(t.open, first) >= 1
    ensures Injections(Step(p, t, op).open, first) == Injections(t.open, first) +
            match op {
              case Begin(start) => if OpenOf(p, t, start).previous.Some? then 1 else 0
              case _ => if TopInjected(t) then -1 else 0
            }
  {
    if op.Begin? {
      OpenAppended(t, OpenOf(p, t, op.start));
    }
  }

  lemma OpenAppended(s: State, open: Open)
    ensures (s.open + [open])[..|s.open|] == s.open
  {
  }

  /** Step k is an injected span that fails to complete, and no other injected span of the run encloses it. */
  ghost predicate FailsOutermost(p: Propagator, s: State, ops: seq<Op>, k: nat) {
    && k < |ops| && ops[k].Throw? && Nested(p, s, ops[..k]) && TopInjected(Run(p, s, ops[..k]))
    && Injections(Run(p, s, ops[..k]).open, |s.open|) == 1
  }

  ghost predicate NoneFailsOutermost(p: Propagator, s: State, ops: seq<Op>) {
    forall k: nat :: !FailsOutermost(p, s, ops, k)
  }

  lemma {:induction false} FaultAtTheBeginning(p: Propagator, s: State, ops: seq<Op>)
    requires Nested(p, s, ops)
    ensures !Faults(p, s, ops)[0] <==> NoneFailsOutermost(p, s, ops)
    decreases |ops|
  {
    if ops != [] {
      var n := |ops| - 1;
      var before := ops[..n];
      FaultAtTheBeginning(p, s, before);
      FaultsStep(p, s, ops);
      hide Faults, Run, Nested, Injections;
      forall k: nat | k < n
        ensures FailsOutermost(p, s, ops, k) == FailsOutermost(p, s, before, k)
      {
        assert ops[..k] == before[..k];
      }
      assert FailsOutermost(p, s, ops, n) ==
             (ops[n].Throw? && TopInjected(Run(p, s, before)) && Injections(Run(p, s, before).open, |s.open|) == 1);
    }
  }

  /** What one step does to the first flag. */
  lemma {:induction false} FaultsStep(p: Propagator, s: State, ops: seq<Op>)
    requires Nested(p, s, ops) && ops != []
    ensures var (before, last) := (ops[..|ops| - 1], ops[|ops| - 1]);
            && Nested(p, s, before)
            && var t := Run(p, s, before);
               Faults(p, s, ops)[0] ==
               (Faults(p, s, before)[0] || (last.Throw? && TopInjected(t) && Injections(t.open, |s.open|) == 1))
  {
    hide Step, Injections;
    InjectionsStep(p, Run(p, s, ops[..|ops| - 1]), |s.open|, ops[|ops| - 1]);
  }

  // ----- what the headers are, level by level -----

  /** From the innermost level down: without a fault the headers are what its span injected, or those of the beginning. */
  predicate Levels(p: Propagator, base: Headers, ground: Headers, first: nat, local: Headers, open: seq<Open>, faults: seq<bool>)
    requires first <= |open| && |faults| == 1 + Injections(open, first)
    decreases |open|
  {
    if |open| == first then !faults[0] ==> local == ground
    else
      var (last, below) := (open[|open| - 1], open[..|open| - 1]);
      if last.previous.None? then Levels(p, base, ground, first, local, below, faults)
      else
        && Injected(p, base, last.previous.value, last.context).Some?
        && (!faults[|faults| - 1] ==> local == Injected(p, base, last.previous.value, last.context).value)
        && Levels(p, base, ground, first, last.previous.value, below, faults[..|faults| - 1])
  }

  /** Other headers at the innermost level, if that level is marked. */
  lemma {:induction false} LevelsMarked(p: Propagator, base: Headers, ground: Headers, first: nat, local: Headers, other: Headers,
                                        open: seq<Open>, faults: seq<bool>)
    requires first <= |open| && |faults| == 1 + Injections(open, first) && Levels(p, base, ground, first, local, open, faults)
    ensures Levels(p, base, ground, first, other, open, faults[..|faults| - 1] + [true])
    decreases |open|
  {
    hide Injected;
    var marked := faults[..|faults| - 1] + [true];
    if |open| > first && open[|open| - 1].previous.None? {
      LevelsMarked(p, base, ground, first, local, other, open[..|open| - 1], faults);
    } else {
      assert marked[..|marked| - 1] == faults[..|faults| - 1];
    }
  }

  lemma {:induction false} LevelsStep(p: Propagator, ground: Headers, first: nat, t: State, op: Op, faults: seq<bool>)
    requires first <= |t.open| && (!op.Begin? ==> first < |t.open|) && |faults| == 1 + Injections(t.open, first)
    requires Levels(p, t.base, ground, first, t.local, t.open, faults)
    requires !op.Begin? && TopInjected(t) ==> |faults| >= 2
    requires |NextFaults(p, t, op, faults)| == 1 + Injections(Step(p, t, op).open, first)
    ensures var next := Step(p, t, op);
            Levels(p, t.base, ground, first, next.local, next.open, NextFaults(p, t, op, faults))
  {
    hide Injected;
    match op
    case Begin(start) =>
      OpenAppended(t, OpenOf(p, t, start));
      assert (faults + [false])[..|faults|] == faults;
    case End =>
    case Throw =>
      if TopInjected(t) {
        var below := faults[..|faults| - 1];
        var last := t.open[|t.open| - 1];
        assert below[..|below| - 1] == faults[..|faults| - 2];
        LevelsMarked(p, t.base, ground, first, last.previous.value, t.local, t.open[..|t.open| - 1], below);
      }
  }

  lemma {:induction false} AlwaysLevels(p: Propagator, s: State, ops: seq<Op>)
    requires Nested(p, s, ops)
    ensures var t := Run(p, s, ops);
            t.base == s.base && Levels(p, s.base, s.local, |s.open|, t.local, t.open, Faults(p, s, ops))
    decreases |ops|
  {
    if ops != [] {
      var (before, op) := (ops[..|ops| - 1], ops[|ops| - 1]);
      AlwaysLevels(p, s, before);
      OneStep(p, s, ops);
      StepBase(p, Run(p, s, before), op);
      hide Run, Faults, Nested, Step, NextFaults, Levels, Injections;
      LevelsStep(p, s.local, |s.open|, Run(p, s, before), op, Faults(p, s, before));
    }
  }

  lemma StepBase(p: Propagator, s: State, op: Op)
    requires !op.Begin? ==> s.open != []
    ensures Step(p, s, op).base == s.base
  {
  }

  lemma {:induction false} OneStep(p: Propagator, s: State, ops: seq<Op>)
    requires Nested(p, s, ops) && ops != []
    ensures var (before, op) := (ops[..|ops| - 1], ops[|ops| - 1]);
            && Nested(p, s, before) && |Run(p, s, before).open| >= |s.open| && (!op.Begin? ==> |Run(p, s, before).open| > |s.open|)
            && var (t, faults) := (Run(p, s, before), Faults(p, s, before));
               && Run(p, s, ops) == Step(p, t, op) && (TopInjected(t) && !op.Begin? ==> |faults| >= 2)
               && Faults(p, s, ops) == NextFaults(p, t, op, faults)
  {
    hide Step, NextFaults, Injections;
    var (before, op) := (ops[..|ops| - 1], ops[|ops| - 1]);
    InjectionsStep(p, Run(p, s, before), |s.open|, op);
  }

  // ----- a trace of the caller's own -----

  /** A traceparent that the caller has put into the base headers, and nobody into the local ones, is what every callee sees. */
  lemma {:induction false} CallersTraceStays(p: Propagator, s: State, ops: seq<Op>)
    requires Nested(p, s, ops) && "traceparent" in s.base && "traceparent" !in s.local
    ensures var t := Run(p, s, ops);
            && t.base == s.base && t.local == s.local && (t.base + t.local)["traceparent"] == s.base["traceparent"]
            && |t.open| >= |s.open| && forall i :: |s.open| <= i < |t.open| ==> t.open[i].previous == None
    decreases |ops|
  {
    if ops != [] {
      var (before, op) := (ops[..|ops| - 1], ops[|ops| - 1]);
      CallersTraceStays(p, s, before);
      OneStep(p, s, ops);
      var t := Run(p, s, before);
      hide Run, Nested, Faults, NextFaults, AfterStart;
      if op.Begin? {
        StartInjects(p, t, op.start);
        assert forall i :: 0 <= i < |t.open| ==> AfterStart(p, t, op.start).open[..|t.open|][i] == t.open[i];
      }
    }
  }

  // ----- unwinding -----

  /** Completing everything without a throw brings back the beginning if the first flag is not set. */
  lemma {:induction false} LevelsUnwound(p: Propagator, base: Headers, ground: Headers, s: State, first: nat, faults: seq<bool>)
    requires first <= |s.open| && |faults| == 1 + Injections(s.open, first)
    requires Levels(p, base, ground, first, s.local, s.open, faults)
    ensures !faults[0] ==> Unwound(s, |s.open| - first).local == ground
    decreases |s.open|
  {
    hide Injected;
    if |s.open| > first {
      LevelsUnwound(p, base, ground, AfterComplete(s), first, if TopInjected(s) then faults[..|faults| - 1] else faults);
    }
  }

  /** The headers apart, a throw is a completion. */
  lemma {:induction false} RestIsRestored(p: Propagator, s: State, ops: seq<Op>)
    requires Nested(p, s, ops)
    ensures var back := Unwound(Run(p, s, ops), Depth(ops));
            back.base == s.base && back.current == s.current && back.open == s.open
    decreases |ops|
  {
    hide AfterStart, MayStart;
    if ops != [] {
      var (before, op) := (ops[..|ops| - 1], ops[|ops| - 1]);
      RestIsRestored(p, s, before);
      var t := Run(p, s, before);
      match op
      case Begin(start) => CompleteUndoesStart(p, t, start);
      case End =>
      case Throw => SameRest(AfterThrow(t), AfterComplete(t), Depth(ops));
    }
  }

  lemma {:induction false} SameRest(s: State, t: State, spans: nat)
    requires spans <= |s.open| && s == t.(local := s.local)
    ensures Unwound(s, spans) == Unwound(t, spans).(local := Unwound(s, spans).local)
    decreases spans
  {
    if spans > 0 {
      SameRest(AfterComplete(s), AfterComplete(t), spans - 1);
    }
  }

  lemma CompleteUndoesStart(p: Propagator, s: State, start: Start)
    ensures AfterStart(p, s, start).open != [] && AfterComplete(AfterStart(p, s, start)) == s
  {
    OpenAppended(s, OpenOf(p, s, start));
  }

  /**
  At any point of a nested run, completing what is open brings back everything of its beginning, but the headers only
  if no outermost injected span has failed to complete.
  */
  lemma {:induction false} UnwindingRestores(p: Propagator, s: State, ops: seq<Op>)
    requires Nested(p, s, ops)
    ensures var back := Unwound(Run(p, s, ops), Depth(ops));
            && back == s.(local := back.local)
            && (NoneFailsOutermost(p, s, ops) ==> back == s)
  {
    hide *;
    RestIsRestored(p, s, ops);
    AlwaysLevels(p, s, ops);
    FaultAtTheBeginning(p, s, ops);
    var t := Run(p, s, ops);
    assert |t.open| - |s.open| == Depth(ops);
    LevelsUnwound(p, s.base, s.local, t, |s.open|, Faults(p, s, ops));
  }

  // ----- when the headers do not come back -----

  /** Whose trace the headers show. */
  function Sign(headers: Headers): Option<string> {
    if TRACE_PARENT in headers then Some(headers[TRACE_PARENT]) else None
  }

  /** The traceparents there were before: that of the beginning and those of the injected spans. */
  ghost function Used(p: Propagator, s: State, ops: seq<Op>): set<Option<string>>
    requires Nested(p, s, ops)
    decreases |ops|
  {
    if ops == [] then {Sign(s.local)}
    else
      var (before, op) := (ops[..|ops| - 1], ops[|ops| - 1]);
      var t := Run(p, s, before);
      Used(p, s, before) +
      if op.Begin? && OpenOf(p, t, op.start).previous.Some? then {Some(p.write(OpenOf(p, t, op.start).context))} else {}
  }

  /** Every injected span has a traceparent of its own. */
  ghost predicate NewIds(p: Propagator, s: State, ops: seq<Op>)
    requires Nested(p, s, ops)
    decreases |ops|
  {
    ops != [] ==>
      var (before, op) := (ops[..|ops| - 1], ops[|ops| - 1]);
      && NewIds(p, s, before)
      && (op.Begin? ==>
            var open := OpenOf(p, Run(p, s, before), op.start);
            open.previous.Some? ==> Some(p.write(open.context)) !in Used(p, s, before))
  }

  /** The traceparents of the beginning and of the injected spans that are open. */
  function Below(p: Propagator, ground: Headers, first: nat, open: seq<Open>): set<Option<string>>
    requires first <= |open|
    decreases |open|
  {
    if |open| == first then {Sign(ground)}
    else
      var last := open[|open| - 1];
      Below(p, ground, first, open[..|open| - 1]) + if last.previous.Some? then {Some(p.write(last.context))} else {}
  }

  /** At a level with a fault the headers show another trace than the level's own, and never one from below. */
  predicate Apart(p: Propagator, ground: Headers, first: nat, local: Headers, open: seq<Open>, faults: seq<bool>)
    requires first <= |open| && |faults| == 1 + Injections(open, first)
    decreases |open|
  {
    if |open| == first then faults[0] ==> Sign(local) != Sign(ground)
    else
      var (last, below) := (open[|open| - 1], open[..|open| - 1]);
      if last.previous.None? then Apart(p, ground, first, local, below, faults)
      else
        && (faults[|faults| - 1] ==> Sign(local) != Some(p.write(last.context)))
        && Sign(local) !in Below(p, ground, first, below)
        && Apart(p, ground, first, last.previous.value, below, faults[..|faults| - 1])
  }

  lemma {:induction false} ApartMarked(p: Propagator, ground: Headers, first: nat, local: Headers, other: Headers, open: seq<Open>,
                                       faults: seq<bool>)
    requires first <= |open| && |faults| == 1 + Injections(open, first) && Apart(p, ground, first, local, open, faults)
    requires Sign(other) !in Below(p, ground, first, open)
    ensures Apart(p, ground, first, other, open, faults[..|faults| - 1] + [true])
    decreases |open|
  {
    hide Sign;
    var marked := faults[..|faults| - 1] + [true];
    if |open| > first && open[|open| - 1].previous.None? {
      ApartMarked(p, ground, first, local, other, open[..|open| - 1], faults);
    } else {
      assert marked[..|marked| - 1] == faults[..|faults| - 1];
    }
  }

  lemma {:induction false} BelowStep(p: Propagator, ground: Headers, first: nat, t: State, op: Op)
    requires first <= |t.open| && (!op.Begin? ==> first < |t.open|)
    ensures Below(p, ground, first, Step(p, t, op).open) <= Below(p, ground, first, t.open) +
            if op.Begin? && OpenOf(p, t, op.start).previous.Some? then {Some(p.write(OpenOf(p, t, op.start).context))} else {}
  {
    hide Sign, OpenOf;
    if op.Begin? {
      OpenAppended(t, OpenOf(p, t, op.start));
    }
  }

  lemma {:induction false} BelowIsUsed(p: Propagator, s: State, ops: seq<Op>)
    requires Nested(p, s, ops)
    ensures Below(p, s.local, |s.open|, Run(p, s, ops).open) <= Used(p, s, ops)
    decreases |ops|
  {
    if ops != [] {
      var (before, op) := (ops[..|ops| - 1], ops[|ops| - 1]);
      BelowIsUsed(p, s, before);
      OneStep(p, s, ops);
      hide Run, Nested, Step, Below, OpenOf;
      BelowStep(p, s.local, |s.open|, Run(p, s, before), op);
    }
  }

  lemma {:induction false} ApartStep(p: Propagator, ground: Headers, first: nat, t: State, op: Op, faults: seq<bool>)
    requires first <= |t.open| && (!op.Begin? ==> first < |t.open|) && |faults| == 1 + Injections(t.open, first)
    requires Apart(p, ground, first, t.local, t.open, faults)
    requires !op.Begin? && TopInjected(t) ==> |faults| >= 2
    requires |NextFaults(p, t, op, faults)| == 1 + Injections(Step(p, t, op).open, first)
    requires op.Begin? && OpenOf(p, t, op.start).previous.Some? ==>
               Some(p.write(OpenOf(p, t, op.start).context)) !in Below(p, ground, first, t.open)
    ensures var next := Step(p, t, op);
            Apart(p, ground, first, next.local, next.open, NextFaults(p, t, op, faults))
  {
    hide Below;
    match op
    case Begin(start) =>
      OpenAppended(t, OpenOf(p, t, start));
      assert (faults + [false])[..|faults|] == faults;
    case End =>
    case Throw =>
      if TopInjected(t) {
        var below := faults[..|faults| - 1];
        var last := t.open[|t.open| - 1];
        assert below[..|below| - 1] == faults[..|faults| - 2];
        ApartMarked(p, ground, first, last.previous.value, t.local, t.open[..|t.open| - 1], below);
      }
  }

  lemma {:induction false} AlwaysApart(p: Propagator, s: State, ops: seq<Op>)
    requires Nested(p, s, ops) && NewIds(p, s, ops)
    ensures var t := Run(p, s, ops); Apart(p, s.local, |s.open|, t.local, t.open, Faults(p, s, ops))
    decreases |ops|
  {
    if ops != [] {
      var (before, op) := (ops[..|ops| - 1], ops[|ops| - 1]);
      AlwaysApart(p, s, before);
      BelowIsUsed(p, s, before);
      OneStep(p, s, ops);
      hide Run, Faults, Nested, Step, NextFaults, Apart, Injections, Used, Below, OpenOf;
      ApartStep(p, s.local, |s.open|, Run(p, s, before), op, Faults(p, s, before));
    }
  }

  lemma {:induction false} ApartUnwound(p: Propagator, ground: Headers, s: State, first: nat, faults: seq<bool>)
    requires first <= |s.open| && |faults| == 1 + Injections(s.open, first) && Apart(p, ground, first, s.local, s.open, faults)
    ensures faults[0] ==> Unwound(s, |s.open| - first).local != ground
    decreases |s.open|
  {
    hide Below;
    if |s.open| > first {
      ApartUnwound(p, ground, AfterComplete(s), first, if TopInjected(s) then faults[..|faults| - 1] else faults);
    }
  }

  /**
  If every injected span has a traceparent of its own, the headers come back exactly when no outermost injected span
  fails to complete: at any point, by completing what is open, and so at the end of a run that completes everything.
  */
  lemma {:induction false} HeadersComeBackExactly(p: Propagator, s: State, ops: seq<Op>)
    requires Nested(p, s, ops) && NewIds(p, s, ops)
    ensures Unwound(Run(p, s, ops), Depth(ops)) == s <==> NoneFailsOutermost(p, s, ops)
  {
    hide *;
    UnwindingRestores(p, s, ops);
    AlwaysApart(p, s, ops);
    FaultAtTheBeginning(p, s, ops);
    var t := Run(p, s, ops);
    assert |t.open| - |s.open| == Depth(ops);
    ApartUnwound(p, s.local, t, |s.open|, Faults(p, s, ops));
  }

  /** A properly nested sequence of starts and completions leaves no trace, with the same exception. */
  lemma {:induction false} NestedCallsLeaveNoTrace(p: Propagator, s: State, ops: seq<Op>)
    requires Nested(p, s, ops) && Depth(ops) == 0
    ensures Run(p, s, ops) == s.(local := Run(p, s, ops).local)
    ensures NoneFailsOutermost(p, s, ops) ==> Run(p, s, ops) == s
    ensures NewIds(p, s, ops) ==> (Run(p, s, ops) == s <==> NoneFailsOutermost(p, s, ops))
  {
    hide Nested, Run, NewIds, NoneFailsOutermost;
    UnwindingRestores(p, s, ops);
    if NewIds(p, s, ops) {
      HeadersComeBackExactly(p, s, ops);
    }
  }

  // ----- the innermost span -----

  /** The innermost span that is injected. */
  function Innermost(open: seq<Open>): Option<SpanContext> {
    if open == [] then None
    else if open[|open| - 1].previous.Some? then Some(open[|open| - 1].context)
    else Innermost(open[..|open| - 1])
  }

  lemma {:induction false} LevelsShow(p: Propagator, base: Headers, ground: Headers, local: Headers, open: seq<Open>, faults: seq<bool>)
    requires |faults| == 1 + Injections(open, 0) && Levels(p, base, ground, 0, local, open, faults)
    requires Innermost(open).Some? && !faults[|faults| - 1]
    ensures var c := Innermost(open).value;
            && ValidContext(c) && Sign(local) == Some(p.write(c)) && TRACE_ID in local && local[TRACE_ID] == c.traceId
    decreases |open|
  {
    hide ValidContext;
    var last := open[|open| - 1];
    if last.previous.None? {
      LevelsShow(p, base, ground, local, open[..|open| - 1], faults);
    }
  }

  lemma {:induction false} ApartShow(p: Propagator, ground: Headers, local: Headers, open: seq<Open>, faults: seq<bool>)
    requires |faults| == 1 + Injections(open, 0) && Apart(p, ground, 0, local, open, faults)
    requires Innermost(open).Some? && faults[|faults| - 1]
    ensures Sign(local) != Some(p.write(Innermost(open).value))
    decreases |open|
  {
    hide Below, Sign;
    var last := open[|open| - 1];
    if last.previous.None? {
      ApartShow(p, ground, local, open[..|open| - 1], faults);
    }
  }

  /**
  While an injected span is open and none directly inside it has failed to complete, a callee sees its traceparent,
  and a span that is started there is its child in the same trace. After such a failure, which the last flag tells,
  the traceparent is another one.
  */
  lemma {:induction false} InnerSpansAreChildren(p: Propagator, s: State, ops: seq<Op>, start: Start)
    requires ReadsBack(p) && s.open == [] && Nested(p, s, ops)
    requires var t := Run(p, s, ops); MayStart(t, start) && Innermost(t.open).Some?
    ensures var (t, faults) := (Run(p, s, ops), Faults(p, s, ops));
            var (enclosing, inner) := (Innermost(t.open).value, OpenOf(p, t, start));
            && (!faults[|faults| - 1] ==>
                  && TRACE_PARENT in t.base + t.local && (t.base + t.local)[TRACE_PARENT] == p.write(enclosing)
                  && inner.parent == Some(AsParent(enclosing)) && inner.context.traceId == enclosing.traceId)
            && (NewIds(p, s, ops) ==> (Sign(t.local) == Some(p.write(enclosing)) <==> !faults[|faults| - 1]))
  {
    AlwaysLevels(p, s, ops);
    var (t, faults) := (Run(p, s, ops), Faults(p, s, ops));
    if NewIds(p, s, ops) {
      AlwaysApart(p, s, ops);
    }
    hide Nested, Run, Faults, NewIds, Levels, Apart, ValidContext, ReadTraceId;
    if !faults[|faults| - 1] {
      LevelsShow(p, s.base, s.local, t.local, t.open, faults);
    } else if NewIds(p, s, ops) {
      ApartShow(p, s.local, t.local, t.open, faults);
    }
  }

  /** All open spans are on top of the current one, throws or not, so completeSpans may be called with them. */
  lemma {:induction false} AlwaysOnTop(p: Propagator, s: State, ops: seq<Op>)
    requires s.open == [] && Nested(p, s, ops)
    ensures CurrentOnTop(Run(p, s, ops).current, Run(p, s, ops).open, |Run(p, s, ops).open|)
    decreases |ops|
  {
    if ops != [] {
      var (before, op) := (ops[..|ops| - 1], ops[|ops| - 1]);
      AlwaysOnTop(p, s, before);
      OneStep(p, s, ops);
      var t := Run(p, s, before);
      hide Run, Nested, Faults;
      if op.Begin? {
        OpenAppended(t, OpenOf(p, t, op.start));
      }
    }
  }

  // ----- a failing input -----

  const SPAN_ID: string := seq(16, _ => 'b')
  const TRACE: string := seq(32, _ => 'a')
  const ONLY_SPAN := Start(SPAN_ID, TRACE, SPAN_ID, true, "", true, None, None)
  const UNTOUCHED := State(map[], map[], None, [])
  const FAILING := [Begin(ONLY_SPAN), Throw]

  /** One call whose completion throws leaves its traceparent in headers that were empty. */
  lemma {:induction false} ThrowLeavesHeaders(p: Propagator)
    ensures Nested(p, UNTOUCHED, FAILING) && Depth(FAILING) == 0
    ensures TRACE_PARENT !in UNTOUCHED.local && TRACE_PARENT in Run(p, UNTOUCHED, FAILING).local
  {
    hide AfterStart, OpenOf, MayStart;
    OnlySpanStarts(p);
    assert FAILING[..1] == [Begin(ONLY_SPAN)] && FAILING[..1][..0] == [];
    assert Depth([]) == 0 && Depth(FAILING[..1]) == 1;
    assert Nested(p, UNTOUCHED, []) && Run(p, UNTOUCHED, []) == UNTOUCHED;
    assert Nested(p, UNTOUCHED, FAILING[..1]);
    assert Run(p, UNTOUCHED, FAILING[..1]) == AfterStart(p, UNTOUCHED, ONLY_SPAN);
  }

  lemma OnlySpanStarts(p: Propagator)
    ensures MayStart(UNTOUCHED, ONLY_SPAN)
    ensures TRACE_PARENT in AfterStart(p, UNTOUCHED, ONLY_SPAN).local
  {
    hide ReadTraceId;
    assert ReadTraceId(None) == None by { NoTraceId(); }
    var open := OpenOf(p, UNTOUCHED, ONLY_SPAN);
    assert open.parent == None && open.context == SpanContext(TRACE, SPAN_ID, true, "");
    assert TRACE[0] == 'a' && SPAN_ID[0] == 'b';
  }

  lemma NoTraceId()
    ensures ReadTraceId(None) == None
  {
  }
}
