/** The writer of generated source, which keeps a stack of sections. */
module SourceWriters {
  import opened SourceSections

  class SourceWriter {
    var stack: seq<Entry>
    var base: int
    var indent: int
    var lineNumber: nat
    var output: seq<Event>

    constructor ()
      ensures State() == START && Valid(State())
    {
      stack, base, indent, lineNumber, output := [], 0, 0, 2, [];
    }

    function State(): Writer
      reads this
    {
      Writer(stack, base, indent, lineNumber, output)
    }

    method Str(text: string)
      modifies this
      ensures State() == Write(old(State()), text)
      ensures Valid(old(State())) ==> Does(old(State()), WriteLine(text), State())
    {
      var i := 0;
      while i < |stack|
        invariant 0 <= i <= |stack| == |old(stack)| && State() == ActivateUpTo(old(State()), i)
      {
        var e := stack[i];
        if !e.isActive {
          stack := stack[i := Entry(e.section, true)];
          output := output + [Opened(e.section, base, indent)];
          lineNumber := lineNumber + 1;
          if e.section.indent { indent := indent + 1; }
        }
        i := i + 1;
      }
      output := output + [Wrote(text, base, indent)];
      lineNumber := lineNumber + 1;
      if Valid(old(State())) { CommandsDo(old(State()), WriteLine(text)); }
    }

    method PushAutoSection(s: Section)
      modifies this
      ensures State() == Push(old(State()), s)
      ensures Valid(old(State())) ==> Does(old(State()), PushSection(s), State())
    {
      stack := stack + [Entry(s, false)];
    }

    method DestroyTop()
      requires stack != []
      modifies this
      ensures State() == PopOne(old(State()))
    {
      var e := stack[|stack| - 1];
      if e.isActive {
        if e.section.indent { indent := indent - 1; }
        output := output + [Closed(e.section, base, indent)];
        if e.section.closing != "" { lineNumber := lineNumber + 1; }
      }
      stack := stack[..|stack| - 1];
    }

    method PopAutoSection()
      requires HasClosing(stack)
      modifies this
      ensures State() == Pop(old(State()))
      ensures Valid(old(State())) ==> Does(old(State()), PopSection, State())
    {
      var done := false;
      while !done
        invariant !done ==> HasClosing(stack) && Pop(State()) == Pop(old(State()))
        invariant done ==> State() == Pop(old(State()))
        decreases !done, |stack|
      {
        if stack[|stack| - 1].section.closing != "" { done := true; }
        DestroyTop();
      }
      if Valid(old(State())) { CommandsDo(old(State()), PopSection); }
    }

    method PopAutoSectionUntilNonEmptyClose()
      requires HasClosing(stack)
      modifies this
      ensures State() == PopUntilNonEmptyClose(old(State()))
      ensures Valid(old(State())) ==> Does(old(State()), PopUntilClosing, State())
    {
      var done := false;
      while !done
        invariant HasClosing(stack) && PopUntilNonEmptyClose(State()) == PopUntilNonEmptyClose(old(State()))
        invariant done ==> State() == PopUntilNonEmptyClose(State())
        decreases !done, |stack|
      {
        if stack[|stack| - 1].section.closing != "" { done := true; } else { DestroyTop(); }
      }
      if Valid(old(State())) { CommandsDo(old(State()), PopUntilClosing); }
    }

    method GetTopNonEmptySection() returns (s: Section)
      requires HasClosing(stack)
      ensures s == TopNonEmpty(stack) && exists k: nat :: IsTopClosing(stack, k) && s == stack[k].section
    {
      TopClosingIs(stack);
      var i := |stack|;
      assert stack[..i] == stack;
      while stack[i - 1].section.closing == ""
        invariant 0 < i <= |stack| && HasClosing(stack[..i]) && TopNonEmpty(stack[..i]) == TopNonEmpty(stack)
        decreases i
      {
        assert stack[..i][..i - 1] == stack[..i - 1] && stack[..i][i - 1] == stack[i - 1];
        i := i - 1;
      }
      assert stack[..i][i - 1] == stack[i - 1];
      s := stack[i - 1].section;
    }

    method IndentMore()
      modifies this
      ensures State() == Shift(old(State()), 1)
      ensures Valid(old(State())) ==> Does(old(State()), Indent, State())
    {
      base, indent := base + 1, indent + 1;
    }

    method IndentLess()
      modifies this
      ensures State() == Shift(old(State()), -1)
      ensures Valid(old(State())) ==> Does(old(State()), Unindent, State())
    {
      base, indent := base - 1, indent - 1;
    }
  }
}
