/**
The spans around outgoing calls, which put their trace context into the thread-local headers of a connection and
take it out again. The propagator, the tracer and the connection are other libraries: the propagator is any pair of
functions where reading undoes writing, ids come from outside, and thread-local headers override the base ones.
*/
module CallSpan {
  import opened Strings
  import opened Wrappers

  type Headers = map<string, string>

  const TRACE_PARENT := "traceparent"
  const TRACE_STATE := "tracestate"
  const TRACE_ID := "traceid"

  datatype SpanContext = SpanContext(traceId: string, spanId: string, sampled: bool, state: string)

  /** What a traceparent header tells of a span. */
  datatype Parent = Parent(traceId: string, spanId: string, sampled: bool)

  function AsParent(c: SpanContext): Parent {
    Parent(c.traceId, c.spanId, c.sampled)
  }

  predicate LowerHex(s: string) {
    forall i :: 0 <= i < |s| ==> '0' <= s[i] <= '9' || 'a' <= s[i] <= 'f'
  }

  predicate AllZero(s: string) {
    forall i :: 0 <= i < |s| ==> s[i] == '0'
  }

  predicate ValidContext(c: SpanContext) {
    |c.traceId| == 32 && LowerHex(c.traceId) && !AllZero(c.traceId) && |c.spanId| == 16 && LowerHex(c.spanId) && !AllZero(c.spanId)
  }

  datatype Propagator = Propagator(write: SpanContext -> string, read: string -> Option<Parent>)

  /** Section 3.2 of W3C Trace Context: a traceparent is read as it was written. */
  ghost predicate ReadsBack(p: Propagator) {
    forall c :: ValidContext(c) ==> p.read(p.write(c)) == Some(AsParent(c))
  }

  // ----- header and readTraceId -----

  /** The entry with this key, else any whose key differs only in case, if there is one. */
  ghost predicate IsHeader(headers: Headers, key: string, value: Option<string>) {
    if key in headers then value == Some(headers[key])
    else
      match value
      case Some(v) => exists k :: k in headers && LowerCase(k) == LowerCase(key) && headers[k] == v
      case None => forall k :: k in headers ==> LowerCase(k) != LowerCase(key)
  }

  /** The entries are looked through in the map's own order. */
  method Header(headers: Headers, key: string) returns (value: Option<string>)
    ensures IsHeader(headers, key, value)
    ensures key in headers ==> value == Some(headers[key])
    ensures key !in headers && value.Some? ==> exists k :: k in headers && LowerCase(k) == LowerCase(key) && headers[k] == value.value
    ensures value.None? ==> forall k :: k in headers ==> LowerCase(k) != LowerCase(key)
  {
    if key in headers {
      return Some(headers[key]);
    }
    var rest := headers.Keys;
    while rest != {}
      invariant rest <= headers.Keys
      invariant forall k :: k in headers && k !in rest ==> LowerCase(k) != LowerCase(key)
      decreases |rest|
    {
      var k :| k in rest;
      if LowerCase(k) == LowerCase(key) {
        return Some(headers[k]);
      }
      rest := rest - {k};
    }
    return None;
  }

  function WithoutDashes(s: string): string {
    if s == "" then "" else (if s[0] == '-' then "" else [s[0]]) + WithoutDashes(s[1..])
  }

  function ReadTraceId(raw: Option<string>): (id: Option<string>)
    ensures id.Some? ==> |id.value| == 32 && LowerHex(id.value) && !AllZero(id.value)
  {
    if raw.None? then None
    else
      var hex := LowerCase(WithoutDashes(Trim(raw.value)));
      if |hex| != 32 || AllZero(hex) || !LowerHex(hex) then None else Some(hex)
  }

  /** White space around the id, dashes in it and capital letters do not matter; anything else is refused. */
  lemma ReadTraceIdExactly(raw: string, id: string)
    ensures ReadTraceId(Some(raw)) == Some(id) <==>
            && id == LowerCase(WithoutDashes(Trim(raw))) && |id| == 32
            && (forall i :: 0 <= i < 32 ==> '0' <= id[i] <= '9' || 'a' <= id[i] <= 'f') && exists i :: 0 <= i < 32 && id[i] != '0'
  {
    hide LowerCase, WithoutDashes, Trim;
  }

  lemma {:induction false} DashesGo(a: string, b: string)
    ensures WithoutDashes(a + "-" + b) == WithoutDashes(a) + WithoutDashes(b)
    ensures '-' !in a ==> WithoutDashes(a) == a
  {
    if a == "" {
      assert a + "-" + b == "-" + b && ("-" + b)[1..] == b;
    } else {
      assert (a + "-" + b)[1..] == a[1..] + "-" + b;
      DashesGo(a[1..], b);
    }
  }

  // ----- starting, injecting and completing -----

  /** What is decided outside when a span starts: its ids, whether it is sampled, and which of equal headers is met first. */
  datatype Start = Start(
    spanId: string, newTraceId: string, randomParent: string, sampled: bool, state: string, autoInject: bool,
    traceParent: Option<string>, traceId: Option<string>)

  /** The parent a span is started with: the remote one of the headers, one made of the trace id header, or the current span. */
  function ParentOf(p: Propagator, start: Start, current: Option<SpanContext>): Option<Parent> {
    var remote := if start.traceParent.Some? then p.read(start.traceParent.value) else None;
    var traceId := ReadTraceId(start.traceId);
    if remote.Some? then remote
    else if traceId.Some? && (current.Some? ==> traceId.value != current.value.traceId) then
      Some(Parent(traceId.value, start.randomParent, true))
    else if current.Some? then Some(AsParent(current.value))
    else None
  }

  function ContextOf(start: Start, parent: Option<Parent>): SpanContext {
    SpanContext(if parent.Some? then parent.value.traceId else start.newTraceId, start.spanId, start.sampled, start.state)
  }

  /** The thread-local headers with the span written into them, unless the caller set a trace of its own. */
  function Injected(p: Propagator, base: Headers, local: Headers, c: SpanContext): Option<Headers> {
    if !ValidContext(c) || (TRACE_PARENT in base + local && TRACE_PARENT !in local) then None
    else
      var cleared := local - {TRACE_STATE};
      var written := cleared[TRACE_PARENT := p.write(c)];
      var stated := if c.state != "" then written[TRACE_STATE := c.state] else written;
      Some(stated[TRACE_ID := c.traceId])
  }

  /** An open span: its own context, its parent, the headers to restore if it was injected, and the span current before. */
  datatype Open = Open(context: SpanContext, parent: Option<Parent>, previous: Option<Headers>, before: Option<SpanContext>)

  /** A connection as one thread sees it. */
  datatype State = State(base: Headers, local: Headers, current: Option<SpanContext>, open: seq<Open>)

  ghost predicate MayStart(s: State, start: Start) {
    IsHeader(s.base + s.local, TRACE_PARENT, start.traceParent) && IsHeader(s.base + s.local, TRACE_ID, start.traceId)
  }

  function OpenOf(p: Propagator, s: State, start: Start): Open {
    var parent := ParentOf(p, start, s.current);
    var context := ContextOf(start, parent);
    var injected := start.autoInject && Injected(p, s.base, s.local, context).Some?;
    Open(context, parent, if injected then Some(s.local) else None, s.current)
  }

  function AfterStart(p: Propagator, s: State, start: Start): State {
    var open := OpenOf(p, s, start);
    s.(local := if open.previous.Some? then Injected(p, s.base, s.local, open.context).value else s.local,
       current := Some(open.context), open := s.open + [open])
  }

  function AfterComplete(s: State): State
    requires s.open != []
  {
    var last := s.open[|s.open| - 1];
    s.(local := if last.previous.Some? then last.previous.value else s.local,
       current := last.before, open := s.open[..|s.open| - 1])
  }

  /** The trace a new span belongs to, and its parent there. */
  lemma JoinsTrace(p: Propagator, s: State, start: Start)
    ensures var (span, id) := (OpenOf(p, s, start), ReadTraceId(start.traceId));
            && span.context.spanId == start.spanId
            && if start.traceParent.Some? && p.read(start.traceParent.value).Some? then
                 span.parent == p.read(start.traceParent.value) && span.context.traceId == span.parent.value.traceId
               else if id.Some? && (s.current.None? || s.current.value.traceId != id.value) then
                 span.parent == Some(Parent(id.value, start.randomParent, true)) && span.context.traceId == id.value
               else if s.current.Some? then
                 span.parent == Some(AsParent(s.current.value)) && span.context.traceId == s.current.value.traceId
               else span.parent == None && span.context.traceId == start.newTraceId
  {
    hide Injected, ReadTraceId;
  }

  /**
  A span that is injected, which it is unless it is switched off, invalid, or the caller has a trace of its own: the
  trace headers are the span's, every other header is as before.
  */
  lemma StartInjects(p: Propagator, s: State, start: Start)
    ensures var t := AfterStart(p, s, start);
            && |t.open| == |s.open| + 1 && t.open[..|s.open|] == s.open && t.base == s.base
            && var span := t.open[|s.open|];
               && t.current == Some(span.context) && span.before == s.current
               && if start.autoInject && ValidContext(span.context) && ("traceparent" in s.base ==> "traceparent" in s.local) then
                    && span.previous == Some(s.local)
                    && "traceparent" in t.local && t.local["traceparent"] == p.write(span.context)
                    && "traceid" in t.local && t.local["traceid"] == span.context.traceId
                    && (if span.context.state == "" then "tracestate" !in t.local
                        else "tracestate" in t.local && t.local["tracestate"] == span.context.state)
                    && forall key | key != "traceparent" && key != "traceid" && key != "tracestate" ::
                         if key in s.local then key in t.local && t.local[key] == s.local[key] else key !in t.local
                  else span.previous == None && t.local == s.local
  {
    hide ParentOf, ContextOf, ValidContext;
    assert (s.open + [OpenOf(p, s, start)])[..|s.open|] == s.open;
  }

  /**
  A completion that throws: what puts the headers back comes after what may throw, while the scope is closed in any
  case. The headers stay as they are.
  */
  function AfterThrow(s: State): State
    requires s.open != []
  {
    s.(current := s.open[|s.open| - 1].before, open := s.open[..|s.open| - 1])
  }

  /** The state after the innermost spans are completed one after the other. */
  function Unwound(s: State, spans: nat): (t: State)
    requires spans <= |s.open|
    ensures |t.open| == |s.open| - spans
    decreases spans
  {
    if spans == 0 then s else Unwound(AfterComplete(s), spans - 1)
  }

  // ----- the objects -----

  class Connection {
    const base: Headers
    var local: Headers

    constructor (base: Headers, local: Headers)
      ensures this.base == base && this.local == local
    {
      this.base := base;
      this.local := local;
    }

    function Merged(): Headers
      reads this
    {
      base + local
    }
  }

  /** The thread's current context; closing a scope puts back what was current when it was opened. */
  class Thread {
    var current: Option<SpanContext>

    constructor ()
      ensures current == None
    {
      current := None;
    }
  }

  function Abs(connection: Connection, thread: Thread, open: seq<Open>): State
    reads connection, thread
  {
    State(connection.base, connection.local, thread.current, open)
  }

  class Span {
    const context: SpanContext
    const parent: Option<Parent>
    const thread: Thread
    const before: Option<SpanContext>
    var injectedInto: Connection?
    var previousHeaders: Headers
    var completed: bool

    /** Also makes the span current. */
    constructor (context: SpanContext, parent: Option<Parent>, thread: Thread)
      modifies thread
      ensures this.context == context && this.parent == parent && this.thread == thread && before == old(thread.current)
      ensures injectedInto == null && !completed && thread.current == Some(context)
    {
      this.context := context;
      this.parent := parent;
      this.thread := thread;
      this.before := thread.current;
      injectedInto := null;
      previousHeaders := map[];
      completed := false;
      new;
      thread.current := Some(context);
    }

    function AsOpen(): Open
      reads this
    {
      Open(context, parent, if injectedInto != null then Some(previousHeaders) else None, before)
    }

    method InjectInto(p: Propagator, connection: Connection)
      requires injectedInto == null
      modifies this`injectedInto, this`previousHeaders, connection
      ensures match Injected(p, connection.base, old(connection.local), context)
              case None => injectedInto == null && connection.local == old(connection.local)
              case Some(headers) =>
                injectedInto == connection && previousHeaders == old(connection.local) && connection.local == headers
      ensures var (local, headers) := (old(connection.local), connection.local);
              if ValidContext(context) && ("traceparent" in connection.base ==> "traceparent" in local) then
                && injectedInto == connection && previousHeaders == local
                && "traceparent" in headers && headers["traceparent"] == p.write(context)
                && "traceid" in headers && headers["traceid"] == context.traceId
                && (if context.state == "" then "tracestate" !in headers
                    else "tracestate" in headers && headers["tracestate"] == context.state)
                && forall key | key != "traceparent" && key != "traceid" && key != "tracestate" ::
                     if key in local then key in headers && headers[key] == local[key] else key !in headers
              else injectedInto == null && headers == local
    {
      var local := connection.local;
      if !ValidContext(context) || (TRACE_PARENT in connection.Merged() && TRACE_PARENT !in local) {
        return;
      }
      var headers := local;
      headers := headers - {TRACE_STATE};
      headers := headers[TRACE_PARENT := p.write(context)];
      if context.state != "" {
        headers := headers[TRACE_STATE := context.state];
      }
      headers := headers[TRACE_ID := context.traceId];
      connection.local := headers;
      injectedInto := connection;
      previousHeaders := local;
    }

    /**
    throws says whether writing the response or the exception into the span throws. A second call does nothing. A
    scope that is not the current one leaves the current span alone.
    */
    method Complete(throws: bool) returns (threw: bool)
      modifies this`completed, injectedInto, thread
      ensures completed && threw == (throws && !old(completed))
      ensures injectedInto != null ==>
                injectedInto.local == if old(completed) || throws then old(injectedInto.local) else previousHeaders
      ensures thread.current ==
                if !old(completed) && old(thread.current) == Some(context) then before else old(thread.current)
    {
      if completed {
        return false;
      }
      completed := true;
      threw := throws;
      if !threw && injectedInto != null {
        injectedInto.local := previousHeaders;
      }
      if thread.current == Some(context) {
        thread.current := before;
      }
    }
  }

  /**
  A command without an operation opens no span. Otherwise starting a span on a connection is one step; the headers
  met first are reported in used.
  */
  method StartInvoke(p: Propagator, operation: Option<string>, start: Start, connection: Connection, thread: Thread,
                     ghost open: seq<Open>)
    returns (span: Span?, ghost used: Start)
    modifies connection, thread
    ensures (operation.None? <==> span == null) && (span != null ==> fresh(span))
    ensures span == null ==> Abs(connection, thread, open) == old(Abs(connection, thread, open))
    ensures span != null ==> Started(p, start, used, span, connection, thread, open, old(Abs(connection, thread, open)))
  {
    if operation.None? {
      return null, start;
    }
    span, used := StartSpan(p, start, connection, thread, open);
  }

  ghost predicate Started(p: Propagator, start: Start, used: Start, span: Span, connection: Connection, thread: Thread,
                          open: seq<Open>, before: State)
    reads span, connection, thread
  {
    && used == start.(traceParent := used.traceParent, traceId := used.traceId) && MayStart(before, used)
    && span.thread == thread && !span.completed && (span.injectedInto != null ==> span.injectedInto == connection)
    && span.AsOpen() == OpenOf(p, before, used)
    && Abs(connection, thread, open + [span.AsOpen()]) == AfterStart(p, before, used)
  }

  method StartSpan(p: Propagator, start: Start, connection: Connection, thread: Thread, ghost open: seq<Open>)
    returns (span: Span, ghost used: Start)
    modifies connection, thread
    ensures fresh(span) && Started(p, start, used, span, connection, thread, open, old(Abs(connection, thread, open)))
  {
    var traceParent := Header(connection.Merged(), TRACE_PARENT);
    var traceId := Header(connection.Merged(), TRACE_ID);
    var met := start.(traceParent := traceParent, traceId := traceId);
    used := met;
    var parent := ParentOf(p, met, thread.current);
    span := new Span(ContextOf(met, parent), parent, thread);
    if start.autoInject {
      span.InjectInto(p, connection);
    }
  }

  /** Completing the innermost span is the other step, with or without a throw. */
  method CompleteInnermost(span: Span, throws: bool, connection: Connection, thread: Thread, ghost open: seq<Open>)
    returns (threw: bool)
    requires span.thread == thread && !span.completed && (span.injectedInto != null ==> span.injectedInto == connection)
    requires open != [] && open[|open| - 1] == span.AsOpen() && thread.current == Some(span.context)
    modifies span, connection, thread
    ensures threw == throws
    ensures Abs(connection, thread, open[..|open| - 1]) ==
            if throws then AfterThrow(old(Abs(connection, thread, open))) else AfterComplete(old(Abs(connection, thread, open)))
  {
    threw := span.Complete(throws);
  }

  // ----- completeSpans -----

  /** An item of a call context: a span, or something of another component. */
  datatype Item = SpanItem(span: Span) | Other(tag: int)

  class CallContext {
    var items: seq<Item>

    constructor ()
      ensures items == []
    {
      items := [];
    }
  }

  function OtherItems(items: seq<Item>): seq<Item> {
    if items == [] then []
    else (if items[0].SpanItem? then [] else [items[0]]) + OtherItems(items[1..])
  }

  function Spans(items: seq<Item>): seq<Span> {
    if items == [] then []
    else (if items[0].SpanItem? then [items[0].span] else []) + Spans(items[1..])
  }

  lemma {:induction false} SpansOfBoth(a: seq<Item>, b: seq<Item>)
    ensures Spans(a + b) == Spans(a) + Spans(b)
    decreases |a|
  {
    if a == [] {
      assert a + b == b;
    } else {
      assert (a + b)[1..] == a[1..] + b;
      SpansOfBoth(a[1..], b);
    }
  }

  lemma {:induction false} OthersOfBoth(a: seq<Item>, b: seq<Item>)
    ensures OtherItems(a + b) == OtherItems(a) + OtherItems(b)
    decreases |a|
  {
    if a == [] {
      assert a + b == b;
    } else {
      assert (a + b)[1..] == a[1..] + b;
      OthersOfBoth(a[1..], b);
    }
  }

  lemma OneItem(item: Item)
    ensures Spans([item]) == (if item.SpanItem? then [item.span] else [])
    ensures OtherItems([item]) == (if item.SpanItem? then [] else [item])
  {
    assert [item][1..] == [];
  }

  /** The spans are open on this connection and thread, and they are the innermost ones in this order. */
  ghost predicate OnTop(spans: seq<Span>, connection: Connection, thread: Thread, open: seq<Open>)
    reads thread, spans
  {
    && |spans| <= |open| && CurrentOnTop(thread.current, open, |spans|)
    && (forall i, j :: 0 <= i < j < |spans| ==> spans[i] != spans[j])
    && forall i :: 0 <= i < |spans| ==>
         && spans[i].thread == thread && !spans[i].completed
         && (spans[i].injectedInto != null ==> spans[i].injectedInto == connection)
         && open[|open| - |spans| + i] == spans[i].AsOpen()
  }

  /** The current span is the innermost open one, now and after each of so many completions. */
  predicate CurrentOnTop(current: Option<SpanContext>, open: seq<Open>, spans: nat)
    requires spans <= |open|
    decreases spans
  {
    spans > 0 ==>
      && current == Some(open[|open| - 1].context)
      && CurrentOnTop(open[|open| - 1].before, open[..|open| - 1], spans - 1)
  }

  /** Completes the innermost of the spans. */
  method CompleteLast(span: Span, throws: bool, ghost spans: seq<Span>, ghost done: seq<Span>, connection: Connection, thread: Thread,
                      ghost open: seq<Open>)
    returns (threw: bool)
    requires spans != [] && spans[|spans| - 1] == span && OnTop(spans, connection, thread, open)
    requires forall other :: other in done ==> other.completed
    modifies span`completed, connection, thread
    ensures threw == throws && span.completed && forall other :: other in done ==> other.completed
    ensures OnTop(spans[..|spans| - 1], connection, thread, open[..|open| - 1])
    ensures Abs(connection, thread, open[..|open| - 1]) ==
            if throws then AfterThrow(old(Abs(connection, thread, open))) else AfterComplete(old(Abs(connection, thread, open)))
  {
    threw := span.Complete(throws);
  }

  /** The place of the last span whose completion throws, or -1: the items are walked backwards. */
  function LastThrowing(items: seq<Item>, throws: seq<bool>): (i: int)
    requires |throws| == |items|
    ensures -1 <= i < |items| && (i >= 0 ==> items[i].SpanItem? && throws[i])
    ensures forall j :: i < j < |items| && items[j].SpanItem? ==> !throws[j]
  {
    if items == [] then -1
    else
      var n := |items| - 1;
      if items[n].SpanItem? && throws[n] then n else LastThrowing(items[..n], throws[..n])
  }

  /** Items from i on are done with: the other ones are kept, the spans completed, and the ones before are still open. */
  ghost predicate Walked(context: CallContext, all: seq<Item>, i: nat, open: seq<Open>, connection: Connection, thread: Thread, start: State)
    requires i <= |all|
    reads context, connection, thread, Spans(all[..i]), Spans(all[i..])
  {
    var n := |Spans(all[i..])|;
    && n <= |open| && start.open == open
    && context.items == all[..i] + OtherItems(all[i..])
    && OnTop(Spans(all[..i]), connection, thread, open[..|open| - n])
    && Abs(connection, thread, open[..|open| - n]) == Unwound(start, n)
    && forall span :: span in Spans(all[i..]) ==> span.completed
  }

  /** A completion threw at item i: it is not removed, and those before it are still open. */
  ghost predicate Stopped(context: CallContext, all: seq<Item>, i: nat, open: seq<Open>, connection: Connection, thread: Thread, start: State)
    requires i < |all| && all[i].SpanItem?
    reads context, connection, thread, all[i].span, Spans(all[..i]), Spans(all[i + 1..])
  {
    var n := |Spans(all[i + 1..])|;
    && n < |open| && start.open == open
    && context.items == all[..i + 1] + OtherItems(all[i + 1..])
    && OnTop(Spans(all[..i]), connection, thread, open[..|open| - n - 1])
    && Abs(connection, thread, open[..|open| - n - 1]) == AfterThrow(Unwound(start, n))
    && all[i].span.completed && forall span :: span in Spans(all[i + 1..]) ==> span.completed
  }

  /**
  Walks the items backwards: each span is completed once, the last first, and removed; the other items stay in their
  order. The first completion that throws ends the walk.
  */
  method CompleteSpans(context: CallContext, throws: seq<bool>, connection: Connection, thread: Thread, ghost open: seq<Open>)
    returns (threw: bool)
    requires |throws| == |context.items| && OnTop(Spans(context.items), connection, thread, open)
    modifies context, connection, thread, Spans(context.items)
    ensures var all, start := old(context.items), old(Abs(connection, thread, open));
            var i := LastThrowing(all, throws);
            && threw == (i >= 0)
            && if threw then Stopped(context, all, i, open, connection, thread, start)
               else
                 && context.items == OtherItems(all) && (forall span :: span in Spans(all) ==> span.completed)
                 && |Spans(all)| <= |open|
                 && Abs(connection, thread, open[..|open| - |Spans(all)|]) == Unwound(start, |Spans(all)|)
  {
    ghost var all, start := context.items, Abs(connection, thread, open);
    WalkedAtFirst(context, all, open, connection, thread, start);
    hide Walked, Stopped, OnTop, Spans, OtherItems, LastThrowing, Unwound;
    var i := |context.items|;
    while i > 0
      invariant 0 <= i <= |all| && Walked(context, all, i, open, connection, thread, start)
      invariant LastThrowing(all, throws) < i
    {
      i := i - 1;
      threw := WalkItem(context, all, i, throws[i], open, connection, thread, start);
      if threw {
        return;
      }
    }
    WalkedAtLast(context, all, open, connection, thread, start);
    return false;
  }

  /** One round of the loop. */
  method WalkItem(context: CallContext, ghost all: seq<Item>, i: nat, throws: bool, ghost open: seq<Open>, connection: Connection,
                  thread: Thread, ghost start: State) returns (threw: bool)
    requires i < |all| && Walked(context, all, i + 1, open, connection, thread, start)
    modifies context, connection, thread, Spans(all)
    ensures threw == (all[i].SpanItem? && throws)
    ensures if threw then Stopped(context, all, i, open, connection, thread, start)
            else Walked(context, all, i, open, connection, thread, start)
  {
    hide Unwound, Spans, OtherItems, OnTop;
    ghost var done := Spans(all[i + 1..]);
    ghost var left := open[..|open| - |done|];
    var item := context.items[i];
    ItemHere(all, i, OtherItems(all[i + 1..]));
    if item.SpanItem? {
      TopOpen(Spans(all[..i + 1]), connection, thread, left);
      UnwoundNext(start, |done|);
      threw := CompleteLast(item.span, throws, Spans(all[..i + 1]), done, connection, thread, left);
      assert left[..|left| - 1] == open[..|open| - |done| - 1];
      if threw {
        return;
      }
      context.items := context.items[..i] + context.items[i + 1..];
    } else {
      threw := false;
    }
  }

  lemma WalkedAtFirst(context: CallContext, all: seq<Item>, open: seq<Open>, connection: Connection, thread: Thread, start: State)
    requires all == context.items && start == Abs(connection, thread, open) && OnTop(Spans(all), connection, thread, open)
    ensures Walked(context, all, |all|, open, connection, thread, start)
  {
    hide OnTop;
    assert all[..|all|] == all && all[|all|..] == [] && all + [] == all && open[..|open|] == open;
  }

  lemma WalkedAtLast(context: CallContext, all: seq<Item>, open: seq<Open>, connection: Connection, thread: Thread, start: State)
    requires Walked(context, all, 0, open, connection, thread, start)
    ensures context.items == OtherItems(all) && |Spans(all)| <= |open| && forall span :: span in Spans(all) ==> span.completed
    ensures Abs(connection, thread, open[..|open| - |Spans(all)|]) == Unwound(start, |Spans(all)|)
  {
    hide OnTop;
    assert all[..0] == [] && all[0..] == all && [] + OtherItems(all) == OtherItems(all);
  }

  /** What the lists around item i are made of. */
  lemma ItemHere(all: seq<Item>, i: nat, rest: seq<Item>)
    requires i < |all| && rest == OtherItems(all[i + 1..])
    ensures var items := all[..i + 1] + rest;
            && items[i] == all[i] && items[..i] + items[i + 1..] == all[..i] + rest && items == all[..i] + ([all[i]] + rest)
    ensures if all[i].SpanItem? then
              && Spans(all[..i + 1]) == Spans(all[..i]) + [all[i].span] && Spans(all[i..]) == [all[i].span] + Spans(all[i + 1..])
              && OtherItems(all[i..]) == rest && Spans(all[..i + 1])[..|Spans(all[..i])|] == Spans(all[..i])
              && all[i].span in Spans(all)
            else
              && Spans(all[..i + 1]) == Spans(all[..i]) && Spans(all[i..]) == Spans(all[i + 1..])
              && OtherItems(all[i..]) == [all[i]] + rest
  {
    hide Spans, OtherItems;
    var (before, item, after) := (all[..i], all[i], all[i + 1..]);
    assert all[..i + 1] == before + [item] && all[i..] == [item] + after && all == before + all[i..];
    OneItem(item);
    SpansOfBoth(before, [item]);
    SpansOfBoth([item], after);
    SpansOfBoth(before, all[i..]);
    OthersOfBoth([item], after);
    if item.SpanItem? {
      assert Spans(all)[|Spans(before)|] == item.span;
    }
  }

  lemma TopOpen(spans: seq<Span>, connection: Connection, thread: Thread, open: seq<Open>)
    requires spans != [] && OnTop(spans, connection, thread, open)
    ensures open != []
  {
  }

  lemma {:induction false} UnwoundNext(s: State, spans: nat)
    requires spans < |s.open|
    ensures Unwound(s, spans + 1) == AfterComplete(Unwound(s, spans))
    decreases spans
  {
    hide AfterComplete;
    UnwoundOnce(s, spans);
    if spans > 0 {
      CompletedOpen(s);
      UnwoundOnce(s, spans - 1);
      UnwoundNext(AfterComplete(s), spans - 1);
    }
  }

  lemma CompletedOpen(s: State)
    requires s.open != []
    ensures |AfterComplete(s).open| == |s.open| - 1
  {
  }

  lemma UnwoundOnce(s: State, spans: nat)
    requires spans < |s.open|
    ensures |AfterComplete(s).open| == |s.open| - 1 && Unwound(s, spans + 1) == Unwound(AfterComplete(s), spans)
  {
  }
}
