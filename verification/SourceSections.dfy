/** Sections of generated source: opened when something is first written inside them, closed when popped. */
module SourceSections {
  import opened Wrappers

  datatype Section = Section(indent: bool, opening: string, closing: string)

  datatype Entry = Entry(section: Section, isActive: bool)

  /** What reaches the output, with its indentation; base is the indentation asked for outside of sections. */
  datatype Event =
    | Opened(section: Section, base: int, indent: int)
    | Wrote(text: string, base: int, indent: int)
    | Closed(section: Section, base: int, indent: int)

  datatype Writer = Writer(stack: seq<Entry>, base: int, indent: int, lineNumber: nat, events: seq<Event>)

  function Tab(s: Section): int { if s.indent then 1 else 0 }

  // ---- Operations ----

  function Activate(w: Writer, i: nat): Writer
    requires i < |w.stack|
  {
    var e := w.stack[i];
    if e.isActive then w
    else w.(stack := w.stack[i := Entry(e.section, true)], indent := w.indent + Tab(e.section),
            lineNumber := w.lineNumber + 1,
            events := w.events + [Opened(e.section, w.base, w.indent)])
  }

  function ActivateUpTo(w: Writer, n: nat): (r: Writer)
    requires n <= |w.stack|
    ensures |r.stack| == |w.stack|
  {
    if n == 0 then w else Activate(ActivateUpTo(w, n - 1), n - 1)
  }

  function Write(w: Writer, text: string): Writer {
    var v := ActivateUpTo(w, |w.stack|);
    v.(lineNumber := v.lineNumber + 1, events := v.events + [Wrote(text, v.base, v.indent)])
  }

  function Push(w: Writer, s: Section): Writer { w.(stack := w.stack + [Entry(s, false)]) }

  function Shift(w: Writer, d: int): Writer { w.(base := w.base + d, indent := w.indent + d) }

  function PopOne(w: Writer): Writer
    requires w.stack != []
  {
    var e := w.stack[|w.stack| - 1];
    var v := w.(stack := w.stack[..|w.stack| - 1]);
    if !e.isActive then v
    else v.(indent := w.indent - Tab(e.section), lineNumber := w.lineNumber + if e.section.closing == "" then 0 else 1,
            events := w.events + [Closed(e.section, w.base, w.indent - Tab(e.section))])
  }

  predicate HasClosing(stack: seq<Entry>) {
    exists i :: 0 <= i < |stack| && stack[i].section.closing != ""
  }

  function Top(w: Writer): Section
    requires w.stack != []
  {
    w.stack[|w.stack| - 1].section
  }

  /** Pops until a section with a closing string is gone. */
  function Pop(w: Writer): Writer
    requires HasClosing(w.stack)
    decreases |w.stack|
  {
    if Top(w).closing == "" then Pop(PopOne(w)) else PopOne(w)
  }

  /** Pops until a section with a closing string is on top. */
  function PopUntilNonEmptyClose(w: Writer): (r: Writer)
    requires HasClosing(w.stack)
    ensures r.stack != [] && Top(r).closing != ""
    decreases |w.stack|
  {
    if Top(w).closing == "" then PopUntilNonEmptyClose(PopOne(w)) else w
  }

  function TopNonEmpty(stack: seq<Entry>): Section
    requires HasClosing(stack)
  {
    if stack[|stack| - 1].section.closing != "" then stack[|stack| - 1].section else TopNonEmpty(stack[..|stack| - 1])
  }

  // ---- What the output should look like ----

  /** The sections open after these events, if every closing belongs to the section opened last. */
  ghost function Open(events: seq<Event>): Option<seq<Section>> {
    if events == [] then Some([])
    else
      match Open(events[..|events| - 1])
      case None => None
      case Some(open) =>
        match events[|events| - 1]
        case Opened(s, _, _) => Some(open + [s])
        case Wrote(_, _, _) => Some(open)
        case Closed(s, _, _) => if open != [] && open[|open| - 1] == s then Some(open[..|open| - 1]) else None
  }

  /** How many of the sections are indented. */
  ghost function Depth(open: seq<Section>): int {
    if open == [] then 0 else Depth(open[..|open| - 1]) + if open[|open| - 1].indent then 1 else 0
  }

  ghost function ActiveSections(stack: seq<Entry>): seq<Section> {
    if stack == [] then []
    else ActiveSections(stack[..|stack| - 1]) + if stack[|stack| - 1].isActive then [stack[|stack| - 1].section] else []
  }

  ghost predicate ActivePrefix(stack: seq<Entry>) {
    forall i, j :: 0 <= i < j < |stack| && stack[j].isActive ==> stack[i].isActive
  }

  /** An opening or a text is indented by the sections around it; so is a closing, whose own section no longer
      counts. */
  ghost predicate IndentedAt(events: seq<Event>, k: nat)
    requires k < |events|
  {
    var around := if events[k].Closed? then Open(events[..k + 1]) else Open(events[..k]);
    around.Some? && events[k].indent == events[k].base + Depth(around.value)
  }

  ghost predicate AllIndented(events: seq<Event>) {
    forall k :: 0 <= k < |events| ==> IndentedAt(events, k)
  }

  /** How many lines these events print: an empty closing prints none. */
  ghost function Lines(events: seq<Event>): nat {
    if events == [] then 0
    else
      var e := events[|events| - 1];
      Lines(events[..|events| - 1]) + if e.Closed? && e.section.closing == "" then 0 else 1
  }

  lemma OneMoreLine(events: seq<Event>, e: Event)
    ensures Lines(events + [e]) == Lines(events) + if e.Closed? && e.section.closing == "" then 0 else 1
  {
    assert (events + [e])[..|events|] == events;
  }

  ghost predicate Valid(w: Writer) {
    && ActivePrefix(w.stack)
    && Open(w.events) == Some(ActiveSections(w.stack))
    && w.indent == w.base + Depth(ActiveSections(w.stack))
    && w.lineNumber == 2 + Lines(w.events)
    && AllIndented(w.events)
  }

  // ---- Every operation keeps this ----

  lemma OneMoreEvent(events: seq<Event>, e: Event, open: seq<Section>)
    requires Open(events) == Some(open) && AllIndented(events)
    requires e.indent == e.base + Depth(if e.Closed? && open != [] then open[..|open| - 1] else open)
    requires e.Closed? ==> open != [] && open[|open| - 1] == e.section
    ensures Open(events + [e]) ==
            Some(if e.Opened? then open + [e.section] else if e.Closed? then open[..|open| - 1] else open)
    ensures AllIndented(events + [e])
  {
    var more := events + [e];
    assert more[..|events|] == events;
    forall k | 0 <= k < |more|
      ensures IndentedAt(more, k)
    {
      if k < |events| {
        assert IndentedAt(events, k);
        assert more[..k] == events[..k] && more[..k + 1] == events[..k + 1];
      } else {
        assert more[..k + 1] == more;
      }
    }
  }

  lemma {:induction false} ActivatedSections(stack: seq<Entry>, i: nat)
    requires ActivePrefix(stack) && i < |stack| && !stack[i].isActive && forall j :: 0 <= j < i ==> stack[j].isActive
    ensures ActiveSections(stack[i := Entry(stack[i].section, true)]) == ActiveSections(stack) + [stack[i].section]
    decreases |stack|
  {
    var n := |stack| - 1;
    var next := stack[i := Entry(stack[i].section, true)];
    if i == n {
      assert next[..n] == stack[..n];
    } else {
      assert next[..n] == stack[..n][i := Entry(stack[i].section, true)];
      ActivatedSections(stack[..n], i);
      assert !stack[n].isActive;
    }
  }

  lemma ActivateKeepsValid(w: Writer, i: nat)
    requires Valid(w) && i < |w.stack| && forall j :: 0 <= j < i ==> w.stack[j].isActive
    ensures Valid(Activate(w, i)) && Activate(w, i).stack[i].isActive && |Activate(w, i).stack| == |w.stack|
    ensures forall j :: 0 <= j < i ==> Activate(w, i).stack[j].isActive
  {
    if !w.stack[i].isActive {
      var s := w.stack[i].section;
      ActivatedSections(w.stack, i);
      OneMoreLine(w.events, Opened(s, w.base, w.indent));
      OneMoreEvent(w.events, Opened(s, w.base, w.indent), ActiveSections(w.stack));
      DepthOneMore(ActiveSections(w.stack), s);
    }
  }

  lemma DepthOneMore(open: seq<Section>, s: Section)
    ensures Depth(open + [s]) == Depth(open) + Tab(s)
  {
    assert (open + [s])[..|open|] == open;
  }

  lemma {:induction false} ActivateUpToKeepsValid(w: Writer, n: nat)
    requires Valid(w) && n <= |w.stack|
    ensures Valid(ActivateUpTo(w, n)) && forall j :: 0 <= j < n ==> ActivateUpTo(w, n).stack[j].isActive
  {
    if n > 0 {
      ActivateUpToKeepsValid(w, n - 1);
      ActivateKeepsValid(ActivateUpTo(w, n - 1), n - 1);
    }
  }

  lemma WriteKeepsValid(w: Writer, text: string)
    requires Valid(w)
    ensures Valid(Write(w, text)) && forall j :: 0 <= j < |Write(w, text).stack| ==> Write(w, text).stack[j].isActive
  {
    ActivateUpToKeepsValid(w, |w.stack|);
    var v := ActivateUpTo(w, |w.stack|);
    OneMoreLine(v.events, Wrote(text, v.base, v.indent));
    OneMoreEvent(v.events, Wrote(text, v.base, v.indent), ActiveSections(v.stack));
  }

  lemma PushKeepsValid(w: Writer, s: Section)
    requires Valid(w)
    ensures Valid(Push(w, s))
  {
    assert Push(w, s).stack[..|w.stack|] == w.stack;
    assert ActiveSections(w.stack) + [] == ActiveSections(w.stack);
  }

  lemma PopOneKeepsValid(w: Writer)
    requires Valid(w) && w.stack != []
    ensures Valid(PopOne(w))
  {
    if w.stack[|w.stack| - 1].isActive {
      PopActiveKeepsValid(w, PopOne(w));
    } else {
      PopInactiveKeepsValid(w, PopOne(w));
    }
  }

  lemma PopInactiveKeepsValid(w: Writer, v: Writer)
    requires Valid(w) && w.stack != [] && !w.stack[|w.stack| - 1].isActive && v == w.(stack := w.stack[..|w.stack| - 1])
    ensures Valid(v)
  {
    assert ActiveSections(w.stack) == ActiveSections(v.stack) + [];
    assert ActiveSections(v.stack) + [] == ActiveSections(v.stack);
  }

  lemma TopIsLast(stack: seq<Entry>)
    requires ActivePrefix(stack) && stack != [] && stack[|stack| - 1].isActive
    ensures ActiveSections(stack) == ActiveSections(stack[..|stack| - 1]) + [stack[|stack| - 1].section]
    ensures ActivePrefix(stack[..|stack| - 1])
  {
  }

  lemma ClosingKeepsValid(w: Writer, v: Writer, rest: seq<Section>, s: Section)
    requires Valid(w) && ActiveSections(w.stack) == rest + [s]
    requires ActivePrefix(v.stack) && ActiveSections(v.stack) == rest && v.base == w.base
    requires v.indent == w.indent - Tab(s)
    requires v.lineNumber == w.lineNumber + (if s.closing == "" then 0 else 1)
    requires v.events == w.events + [Closed(s, w.base, v.indent)]
    ensures Valid(v)
  {
    OneMoreLine(w.events, Closed(s, w.base, v.indent));
    CloseKeepsOrder(w.events, rest, s, w.base, v.indent, w.indent);
  }

  lemma PopActiveKeepsValid(w: Writer, v: Writer)
    requires Valid(w) && w.stack != [] && w.stack[|w.stack| - 1].isActive && v == PopOne(w)
    ensures Valid(v)
  {
    TopIsLast(w.stack);
    ClosingKeepsValid(w, v, ActiveSections(w.stack[..|w.stack| - 1]), w.stack[|w.stack| - 1].section);
  }

  lemma CloseKeepsOrder(events: seq<Event>, rest: seq<Section>, s: Section, base: int, indent: int, before: int)
    requires Open(events) == Some(rest + [s]) && before == base + Depth(rest + [s]) && indent == before - Tab(s)
    requires AllIndented(events)
    ensures Open(events + [Closed(s, base, indent)]) == Some(rest) && indent == base + Depth(rest)
    ensures AllIndented(events + [Closed(s, base, indent)])
  {
    DepthOneMore(rest, s);
    assert (rest + [s])[..|rest + [s]| - 1] == rest;
    OneMoreEvent(events, Closed(s, base, indent), rest + [s]);
  }

  lemma {:induction false} PopKeepsValid(w: Writer)
    requires Valid(w) && HasClosing(w.stack)
    ensures Valid(Pop(w)) && Valid(PopUntilNonEmptyClose(w))
    decreases |w.stack|
  {
    PopOneKeepsValid(w);
    if Top(w).closing == "" {
      assert HasClosing(PopOne(w).stack);
      PopKeepsValid(PopOne(w));
    }
  }

  // ---- Runs ----

  datatype Command =
    | WriteLine(text: string) | PushSection(section: Section) | PopSection | PopUntilClosing | Indent | Unindent

  predicate Enabled(w: Writer, c: Command) {
    c.PopSection? || c.PopUntilClosing? ==> HasClosing(w.stack)
  }

  function Do(w: Writer, c: Command): Writer
    requires Enabled(w, c)
  {
    match c
    case WriteLine(text) => Write(w, text)
    case PushSection(s) => Push(w, s)
    case PopSection => Pop(w)
    case PopUntilClosing => PopUntilNonEmptyClose(w)
    case Indent => Shift(w, 1)
    case Unindent => Shift(w, -1)
  }

  ghost predicate Runs(w: Writer, cs: seq<Command>, end: Writer)
    decreases |cs|
  {
    if cs == [] then w == end else Enabled(w, cs[0]) && Runs(Do(w, cs[0]), cs[1..], end)
  }

  const START := Writer([], 0, 0, 2, [])

  lemma DoKeepsValid(w: Writer, c: Command)
    requires Valid(w) && Enabled(w, c)
    ensures Valid(Do(w, c))
  {
    match c {
      case WriteLine(text) => WriteKeepsValid(w, text);
      case PushSection(s) => PushKeepsValid(w, s);
      case PopSection => PopKeepsValid(w);
      case PopUntilClosing => PopKeepsValid(w);
      case _ =>
    }
  }

  /** After every run the open sections are the active ones, in order, and all of the output is nested and
      indented rightly. */
  lemma {:induction false} RunsStayValid(w: Writer, cs: seq<Command>, end: Writer)
    requires Valid(w) && Runs(w, cs, end)
    ensures Valid(end)
    decreases |cs|
  {
    if cs != [] {
      DoKeepsValid(w, cs[0]);
      RunsStayValid(Do(w, cs[0]), cs[1..], end);
    }
  }

  // ---- Printed brackets ----

  ghost function WithClosing(open: seq<Section>): seq<Section> {
    if open == [] then []
    else WithClosing(open[..|open| - 1]) + if open[|open| - 1].closing == "" then [] else [open[|open| - 1]]
  }

  /** The sections with a closing string that are open, judging by what is printed: empty closings are not. */
  ghost function OpenPrinted(events: seq<Event>): Option<seq<Section>> {
    if events == [] then Some([])
    else
      match OpenPrinted(events[..|events| - 1])
      case None => None
      case Some(open) =>
        match events[|events| - 1]
        case Opened(s, _, _) => Some(if s.closing == "" then open else open + [s])
        case Wrote(_, _, _) => Some(open)
        case Closed(s, _, _) =>
          if s.closing == "" then Some(open)
          else if open != [] && open[|open| - 1] == s then Some(open[..|open| - 1]) else None
  }

  lemma WithClosingOneMore(open: seq<Section>, s: Section)
    ensures s.closing == "" ==> WithClosing(open + [s]) == WithClosing(open)
    ensures s.closing != "" ==> WithClosing(open + [s]) == WithClosing(open) + [s]
  {
    assert (open + [s])[..|open|] == open;
  }

  /** Printed opening and closing strings of sections that have a closing string nest as well. */
  lemma {:induction false} PrintedNests(events: seq<Event>)
    requires Open(events).Some?
    ensures OpenPrinted(events) == Some(WithClosing(Open(events).value))
    decreases |events|
  {
    if events != [] {
      var init := events[..|events| - 1];
      PrintedNests(init);
      var open := Open(init).value;
      match events[|events| - 1] {
        case Opened(s, _, _) => WithClosingOneMore(open, s);
        case Wrote(_, _, _) =>
        case Closed(s, _, _) =>
          WithClosingOneMore(open[..|open| - 1], s);
          assert open == open[..|open| - 1] + [s];
      }
    }
  }

  // ---- Sections nobody writes in ----

  /** A section that is popped before anything is written leaves no trace. */
  lemma PushPopIsSilent(w: Writer, s: Section)
    requires s.closing != ""
    ensures HasClosing(Push(w, s).stack) && Pop(Push(w, s)) == w
  {
    var v := Push(w, s);
    assert v.stack[|w.stack|].section == s;
    assert v.stack[..|w.stack|] == w.stack;
  }

  /** Everything from height h on is inactive. */
  ghost predicate QuietAbove(w: Writer, h: nat) {
    h <= |w.stack| && forall i :: h <= i < |w.stack| ==> !w.stack[i].isActive
  }

  lemma {:induction false} PopQuietly(w: Writer, h: nat)
    requires QuietAbove(w, h) && HasClosing(w.stack)
    ensures |Pop(w).stack| >= h ==> QuietAbove(Pop(w), h) && Pop(w).events == w.events
    ensures |PopUntilNonEmptyClose(w).stack| >= h ==>
            QuietAbove(PopUntilNonEmptyClose(w), h) && PopUntilNonEmptyClose(w).events == w.events
    decreases |w.stack|
  {
    if |w.stack| > h {
      if Top(w).closing == "" { PopQuietly(PopOne(w), h); }
    } else {
      PopShrinks(w);
    }
  }

  lemma {:induction false} PopShrinks(w: Writer)
    requires HasClosing(w.stack)
    ensures |Pop(w).stack| < |w.stack| && |PopUntilNonEmptyClose(w).stack| <= |w.stack|
    ensures Top(w).closing == "" ==> |PopUntilNonEmptyClose(w).stack| < |w.stack|
    decreases |w.stack|
  {
    if Top(w).closing == "" { PopShrinks(PopOne(w)); }
  }

  /** The commands write nothing and never pop below height h. */
  ghost predicate QuietRun(w: Writer, cs: seq<Command>, h: nat)
    decreases |cs|
  {
    |w.stack| >= h && (cs == [] || (!cs[0].WriteLine? && Enabled(w, cs[0]) && QuietRun(Do(w, cs[0]), cs[1..], h)))
  }

  /** However many sections are pushed and popped above some height, without a write nothing reaches the output. */
  lemma {:induction false} NoWriteNoOutput(w: Writer, cs: seq<Command>, end: Writer, h: nat)
    requires QuietAbove(w, h) && QuietRun(w, cs, h) && Runs(w, cs, end)
    ensures end.events == w.events && QuietAbove(end, h)
    decreases |cs|
  {
    if cs != [] {
      if cs[0].PopSection? || cs[0].PopUntilClosing? { PopQuietly(w, h); }
      NoWriteNoOutput(Do(w, cs[0]), cs[1..], end, h);
    }
  }

  // ---- Closing the top section and restarting it ----

  /** The index of the top section with a closing string. */
  ghost function ClosingIndex(stack: seq<Entry>): (k: nat)
    requires HasClosing(stack)
    ensures k < |stack| && stack[k].section.closing != "" && TopNonEmpty(stack) == stack[k].section
  {
    if stack[|stack| - 1].section.closing != "" then |stack| - 1 else ClosingIndex(stack[..|stack| - 1])
  }

  lemma {:induction false} PopCuts(w: Writer)
    requires HasClosing(w.stack)
    ensures Pop(w).stack == w.stack[..ClosingIndex(w.stack)] && Pop(w).base == w.base
    decreases |w.stack|
  {
    if Top(w).closing == "" { PopCuts(PopOne(w)); }
  }

  /** The section is closed where it was opened, and is back on the stack, to be opened again by the next write. */
  lemma CloseAndRestart(w: Writer)
    requires Valid(w) && HasClosing(w.stack)
    ensures var k := ClosingIndex(w.stack);
            var v := Push(Pop(w), TopNonEmpty(w.stack));
            Valid(v) && v.stack == w.stack[..k] + [Entry(w.stack[k].section, false)]
  {
    PopKeepsValid(w);
    PushKeepsValid(Pop(w), TopNonEmpty(w.stack));
    PopCuts(w);
  }

  // ---- What each command does ----

  /** The first `active` entries are active, the others are not. */
  ghost predicate ActiveBelow(stack: seq<Entry>, active: nat) {
    active <= |stack| && forall i :: 0 <= i < |stack| ==> (stack[i].isActive <==> i < active)
  }

  /** Number k is the top one with a closing string. */
  ghost predicate IsTopClosing(stack: seq<Entry>, k: nat) {
    k < |stack| && stack[k].section.closing != "" && forall i :: k < i < |stack| ==> stack[i].section.closing == ""
  }

  ghost predicate IsOpening(e: Event, s: Section, base: int) { e.Opened? && e.section == s && e.base == base }

  ghost predicate IsClosing(e: Event, s: Section, base: int) { e.Closed? && e.section == s && e.base == base }

  /** The entries from number n on, of which those below `active` are active, are closed from the top. */
  ghost predicate AreClosings(events: seq<Event>, stack: seq<Entry>, active: nat, n: nat, base: int)
    requires active <= |stack|
  {
    && |events| == (if n < active then active - n else 0)
    && forall i :: 0 <= i < |events| ==> IsClosing(events[i], stack[active - 1 - i].section, base)
  }

  /** The entries from number n on, up to number m, are opened from the bottom. */
  ghost predicate AreOpenings(events: seq<Event>, stack: seq<Entry>, n: nat, m: nat, base: int)
    requires m <= |stack|
  {
    n <= m && |events| == m - n && forall i :: 0 <= i < |events| ==> IsOpening(events[i], stack[n + i].section, base)
  }

  /** From number n on, what is active is closed, and everything is gone. */
  ghost predicate CutTo(w: Writer, n: nat, v: Writer) {
    && n <= |w.stack| && v.stack == w.stack[..n] && v.base == w.base
    && exists active, more ::
         ActiveBelow(w.stack, active) && AreClosings(more, w.stack, active, n, w.base) && v.events == w.events + more
  }

  /** What is not active is opened, and then the text is written. */
  ghost predicate IsWritten(w: Writer, text: string, v: Writer) {
    && v.base == w.base && |v.stack| == |w.stack|
    && (forall i :: 0 <= i < |w.stack| ==> v.stack[i] == Entry(w.stack[i].section, true))
    && exists active, more ::
         && ActiveBelow(w.stack, active) && AreOpenings(more, w.stack, active, |w.stack|, w.base)
         && v.events == w.events + more + [Wrote(text, w.base, v.indent)]
  }

  /** What the command makes of a valid writer. Indentation and line numbers follow, as the writer stays valid. */
  ghost predicate Does(w: Writer, c: Command, v: Writer) {
    match c
    case WriteLine(text) => IsWritten(w, text, v)
    case PushSection(s) => v == w.(stack := w.stack + [Entry(s, false)])
    case PopSection => exists k: nat :: IsTopClosing(w.stack, k) && CutTo(w, k, v)
    case PopUntilClosing => exists k: nat :: IsTopClosing(w.stack, k) && CutTo(w, k + 1, v)
    case Indent => v == w.(base := w.base + 1, indent := w.indent + 1)
    case Unindent => v == w.(base := w.base - 1, indent := w.indent - 1)
  }

  lemma {:induction false} ActiveCount(stack: seq<Entry>) returns (active: nat)
    requires ActivePrefix(stack)
    ensures ActiveBelow(stack, active)
  {
    if stack == [] {
      active := 0;
    } else {
      var n := |stack| - 1;
      active := ActiveCount(stack[..n]);
      if stack[n].isActive {
        assert forall i :: 0 <= i < n ==> stack[i].isActive;
        active := |stack|;
      }
    }
  }

  lemma {:induction false} NothingToOpen(w: Writer, n: nat)
    requires n <= |w.stack| && forall i :: 0 <= i < n ==> w.stack[i].isActive
    ensures ActivateUpTo(w, n) == w
  {
    if n > 0 { NothingToOpen(w, n - 1); }
  }

  /** The first n entries are open, and nothing else has changed. */
  ghost predicate OpenedUpTo(w: Writer, n: nat, v: Writer) {
    && v.base == w.base && |v.stack| == |w.stack|
    && forall i :: 0 <= i < |w.stack| ==> v.stack[i] == if i < n then Entry(w.stack[i].section, true) else w.stack[i]
  }

  lemma {:induction false} OpensUpTo(w: Writer, n: nat, active: nat) returns (more: seq<Event>)
    requires active <= n <= |w.stack| && ActiveBelow(w.stack, active)
    ensures OpenedUpTo(w, n, ActivateUpTo(w, n)) && AreOpenings(more, w.stack, active, n, w.base)
    ensures ActivateUpTo(w, n).events == w.events + more
    decreases n
  {
    if n == active {
      NothingToOpen(w, n);
      more := [];
    } else {
      more := OpensUpTo(w, n - 1, active);
      var v := ActivateUpTo(w, n - 1);
      more := more + [Opened(w.stack[n - 1].section, v.base, v.indent)];
    }
  }

  lemma {:induction false} WriteDoes(w: Writer, text: string)
    requires Valid(w)
    ensures IsWritten(w, text, Write(w, text))
  {
    var active := ActiveCount(w.stack);
    var more := OpensUpTo(w, |w.stack|, active);
  }

  /** What popping the top entry closes, and what popping further closes after it. */
  lemma {:induction false} PopsOne(w: Writer, active: nat) returns (more: seq<Event>)
    requires w.stack != [] && ActiveBelow(w.stack, active)
    ensures PopOne(w).events == w.events + more && AreClosings(more, w.stack, active, |w.stack| - 1, w.base)
    ensures ActiveBelow(PopOne(w).stack, if active < |w.stack| then active else active - 1)
  {
    more := if active == |w.stack| then [Closed(w.stack[active - 1].section, w.base, PopOne(w).indent)] else [];
  }

  lemma ClosingsConcat(a: seq<Event>, b: seq<Event>, stack: seq<Entry>, active: nat, n: nat, base: int)
    requires stack != [] && active <= |stack| && n < |stack| && AreClosings(a, stack, active, |stack| - 1, base)
    requires AreClosings(b, stack[..|stack| - 1], if active < |stack| then active else active - 1, n, base)
    ensures AreClosings(a + b, stack, active, n, base)
  {
  }

  lemma Associates(a: seq<Event>, b: seq<Event>, c: seq<Event>)
    ensures (a + b) + c == a + (b + c)
  {
  }

  lemma {:induction false} ClosingIsBelow(w: Writer, k: nat)
    requires HasClosing(w.stack) && IsTopClosing(w.stack, k) && Top(w).closing == ""
    ensures var v := PopOne(w);
      && HasClosing(v.stack) && IsTopClosing(v.stack, k) && v.base == w.base && k + 1 < |w.stack|
      && v.stack[..k] == w.stack[..k] && v.stack[..k + 1] == w.stack[..k + 1]
  {
    assert PopOne(w).stack[k] == w.stack[k];
  }

  lemma {:induction false} PopDoes(w: Writer, k: nat, active: nat) returns (more: seq<Event>)
    requires HasClosing(w.stack) && IsTopClosing(w.stack, k) && ActiveBelow(w.stack, active)
    ensures Pop(w).stack == w.stack[..k] && Pop(w).base == w.base
    ensures Pop(w).events == w.events + more && AreClosings(more, w.stack, active, k, w.base)
    decreases |w.stack|
  {
    more := PopsOne(w, active);
    if Top(w).closing == "" {
      ClosingIsBelow(w, k);
      var rest := PopDoes(PopOne(w), k, if active < |w.stack| then active else active - 1);
      ClosingsConcat(more, rest, w.stack, active, k, w.base);
      Associates(w.events, more, rest);
      more := more + rest;
    } else {
      assert k == |w.stack| - 1;
    }
  }

  lemma {:induction false} PopUntilDoes(w: Writer, k: nat, active: nat) returns (more: seq<Event>)
    requires HasClosing(w.stack) && IsTopClosing(w.stack, k) && ActiveBelow(w.stack, active)
    ensures PopUntilNonEmptyClose(w).stack == w.stack[..k + 1] && PopUntilNonEmptyClose(w).base == w.base
    ensures PopUntilNonEmptyClose(w).events == w.events + more && AreClosings(more, w.stack, active, k + 1, w.base)
    decreases |w.stack|
  {
    if Top(w).closing == "" {
      more := PopsOne(w, active);
      ClosingIsBelow(w, k);
      var rest := PopUntilDoes(PopOne(w), k, if active < |w.stack| then active else active - 1);
      ClosingsConcat(more, rest, w.stack, active, k + 1, w.base);
      Associates(w.events, more, rest);
      more := more + rest;
    } else {
      assert w.stack[..|w.stack|] == w.stack;
      more := [];
    }
  }

  lemma {:induction false} TopClosingIs(stack: seq<Entry>)
    requires HasClosing(stack)
    ensures IsTopClosing(stack, ClosingIndex(stack))
    decreases |stack|
  {
    if stack[|stack| - 1].section.closing == "" { TopClosingIs(stack[..|stack| - 1]); }
  }

  lemma {:induction false} PopSectionDoes(w: Writer)
    requires Valid(w) && HasClosing(w.stack)
    ensures IsTopClosing(w.stack, ClosingIndex(w.stack)) && CutTo(w, ClosingIndex(w.stack), Pop(w))
  {
    TopClosingIs(w.stack);
    var active := ActiveCount(w.stack);
    var more := PopDoes(w, ClosingIndex(w.stack), active);
  }

  lemma {:induction false} PopUntilClosingDoes(w: Writer)
    requires Valid(w) && HasClosing(w.stack)
    ensures IsTopClosing(w.stack, ClosingIndex(w.stack))
    ensures CutTo(w, ClosingIndex(w.stack) + 1, PopUntilNonEmptyClose(w))
  {
    TopClosingIs(w.stack);
    var active := ActiveCount(w.stack);
    var more := PopUntilDoes(w, ClosingIndex(w.stack), active);
  }

  /** Every command does what it should. */
  lemma {:induction false} CommandsDo(w: Writer, c: Command)
    requires Valid(w) && Enabled(w, c)
    ensures Does(w, c, Do(w, c))
  {
    match c {
      case WriteLine(text) => WriteDoes(w, text);
      case PopSection => PopSectionDoes(w);
      case PopUntilClosing => PopUntilClosingDoes(w);
      case _ =>
    }
  }
}
