/**
  The serial line framer inside `monitor_live`: a pending buffer that is
  extended and cut in place, and a flag that drops the rest of an over-long
  line. Its reference is a plain split of the whole stream at newlines.
*/
module StreamFraming {
  import opened Bytes

  const NEWLINE: Byte := 10
  const CARRIAGE_RETURN: Byte := 13
  const MAXIMUM_LINE := 4096

  /** One entry of the capture: the bytes handed to the decoder, or the marker. */
  datatype Entry = Text(line: seq<Byte>) | Redacted

  // ---------------------------------------------------------------- reference

  /** `bytes.find(b"\n", from)`: the first newline at or after `from`, or -1. */
  function FindFrom(s: seq<Byte>, from: nat): (i: int)
    requires from <= |s|
    ensures i == -1 || from <= i < |s|
    decreases |s| - from
  {
    if from == |s| then -1 else if s[from] == NEWLINE then from else FindFrom(s, from + 1)
  }

  function Find(s: seq<Byte>): (i: int)
    ensures -1 <= i < |s|
  {
    FindFrom(s, 0)
  }

  predicate OneLine(s: seq<Byte>) {
    Find(s) == -1
  }

  /** A position is what `find` returns exactly when it is the first newline. */
  lemma {:induction false} FindFirst(s: seq<Byte>, from: nat, i: nat)
    requires from <= |s|
    ensures FindFrom(s, from) == i <==>
            from <= i < |s| && s[i] == NEWLINE && forall k :: from <= k < i ==> s[k] != NEWLINE
    decreases |s| - from
  {
    if from < |s| {
      FindFirst(s, from + 1, i);
    }
  }

  lemma {:induction false} FindNone(s: seq<Byte>, from: nat)
    requires from <= |s|
    ensures FindFrom(s, from) == -1 <==> forall k :: from <= k < |s| ==> s[k] != NEWLINE
    decreases |s| - from
  {
    if from < |s| {
      FindNone(s, from + 1);
    }
  }

  /** The newline-terminated lines of a stream, without their newlines. */
  function Lines(s: seq<Byte>): seq<seq<Byte>> {
    var i := Find(s);
    if i < 0 then [] else [s[..i]] + Lines(s[i + 1..])
  }

  /** What follows the last newline. */
  function Tail(s: seq<Byte>): seq<Byte> {
    var i := Find(s);
    if i < 0 then s else Tail(s[i + 1..])
  }

  function Join(lines: seq<seq<Byte>>): seq<Byte> {
    if lines == [] then [] else lines[0] + [NEWLINE] + Join(lines[1..])
  }

  /** `rstrip(b"\r")`. */
  function StripReturns(line: seq<Byte>): (t: seq<Byte>)
    ensures t <= line && forall k :: |t| <= k < |line| ==> line[k] == 13
    ensures t == [] || t[|t| - 1] != 13
  {
    if line != [] && line[|line| - 1] == CARRIAGE_RETURN
    then StripReturns(line[..|line| - 1]) else line
  }

  function EntryOf(line: seq<Byte>): Entry {
    if |line| > MAXIMUM_LINE then Redacted else Text(StripReturns(line))
  }

  function Entries(lines: seq<seq<Byte>>): seq<Entry> {
    if lines == [] then [] else [EntryOf(lines[0])] + Entries(lines[1..])
  }

  /** The capture of a whole stream, defined without any buffer. */
  function Capture(stream: seq<Byte>): seq<Entry> {
    Entries(Lines(stream)) + (if Tail(stream) == [] then [] else [Redacted])
  }

  function Concat(fragments: seq<seq<Byte>>): seq<Byte> {
    if fragments == [] then [] else Concat(fragments[..|fragments| - 1]) + fragments[|fragments| - 1]
  }

  // ------------------------------------------------- the reference is a split

  lemma FirstNewline(line: seq<Byte>, rest: seq<Byte>)
    requires OneLine(line)
    ensures var s := line + [NEWLINE] + rest;
            Find(s) == |line| && s[..|line|] == line && s[|line| + 1..] == rest
  {
    FindNone(line, 0);
    FindFirst(line + [NEWLINE] + rest, 0, |line|);
  }

  lemma CutAtNewline(s: seq<Byte>)
    requires Find(s) >= 0
    ensures OneLine(s[..Find(s)]) && s == s[..Find(s)] + [NEWLINE] + s[Find(s) + 1..]
  {
    FindFirst(s, 0, Find(s));
    FindNone(s[..Find(s)], 0);
  }

  lemma OneLineConcat(a: seq<Byte>, b: seq<Byte>)
    requires OneLine(a) && OneLine(b)
    ensures OneLine(a + b)
  {
    FindNone(a, 0);
    FindNone(b, 0);
    FindNone(a + b, 0);
  }

  lemma LinesFirst(line: seq<Byte>, rest: seq<Byte>)
    requires OneLine(line)
    ensures Lines(line + [NEWLINE] + rest) == [line] + Lines(rest)
    ensures Tail(line + [NEWLINE] + rest) == Tail(rest)
  {
    FirstNewline(line, rest);
  }

  lemma JoinFirst(line: seq<Byte>, lines: seq<seq<Byte>>, tail: seq<Byte>)
    ensures Join([line] + lines) + tail == line + [NEWLINE] + (Join(lines) + tail)
  {
    assert ([line] + lines)[1..] == lines;
    assert Join([line] + lines) == line + [NEWLINE] + Join(lines);
  }

  /** Cutting at newlines loses nothing and leaves no newline inside a piece. */
  lemma {:induction false} SplitIsExact(s: seq<Byte>)
    ensures Join(Lines(s)) + Tail(s) == s
    ensures OneLine(Tail(s))
    ensures forall j :: 0 <= j < |Lines(s)| ==> OneLine(Lines(s)[j])
  {
    var i := Find(s);
    if i >= 0 {
      var line, rest := s[..i], s[i + 1..];
      SplitIsExact(rest);
      CutAtNewline(s);
      JoinFirst(line, Lines(rest), Tail(rest));
    }
  }

  /** There is only one way to cut a stream at its newlines. */
  lemma {:induction false} SplitIsUnique(lines: seq<seq<Byte>>, tail: seq<Byte>)
    requires OneLine(tail)
    requires forall j :: 0 <= j < |lines| ==> OneLine(lines[j])
    ensures Lines(Join(lines) + tail) == lines && Tail(Join(lines) + tail) == tail
  {
    if lines == [] {
      assert Join(lines) + tail == tail;
    } else {
      SplitIsUnique(lines[1..], tail);
      assert lines == [lines[0]] + lines[1..];
      JoinFirst(lines[0], lines[1..], tail);
      LinesFirst(lines[0], Join(lines[1..]) + tail);
    }
  }

  /** Splitting a longer stream resumes from the tail of the shorter one. */
  lemma {:induction false} SplitResumes(s: seq<Byte>, more: seq<Byte>)
    ensures Lines(s + more) == Lines(s) + Lines(Tail(s) + more)
    ensures Tail(s + more) == Tail(Tail(s) + more)
  {
    hide FindFrom, OneLine;
    var i := Find(s);
    if i >= 0 {
      var line, rest := s[..i], s[i + 1..];
      SplitResumes(rest, more);
      CutAtNewline(s);
      assert s + more == line + [NEWLINE] + (rest + more);
      LinesFirst(line, rest + more);
    } else {
      assert Lines(s) == [];
    }
  }

  /** Splitting after a newline inside `fragment` completes the tail's line. */
  lemma LineEnds(tail: seq<Byte>, fragment: seq<Byte>, newline: nat)
    requires OneLine(tail) && newline == Find(fragment)
    ensures Lines(tail + fragment) == [tail + fragment[..newline]] + Lines(fragment[newline + 1..])
    ensures Tail(tail + fragment) == Tail(fragment[newline + 1..])
  {
    var line, rest := tail + fragment[..newline], fragment[newline + 1..];
    CutAtNewline(fragment);
    OneLineConcat(tail, fragment[..newline]);
    assert tail + fragment == line + [NEWLINE] + rest;
    LinesFirst(line, rest);
  }

  lemma EntriesFirst(line: seq<Byte>, lines: seq<seq<Byte>>)
    ensures Entries([line] + lines) == [EntryOf(line)] + Entries(lines)
  {
    assert ([line] + lines)[1..] == lines;
  }

  lemma {:induction false} EntriesAppend(a: seq<seq<Byte>>, b: seq<seq<Byte>>)
    ensures Entries(a + b) == Entries(a) + Entries(b)
  {
    if a == [] {
      assert a + b == b;
    } else {
      EntriesAppend(a[1..], b);
      assert a + b == [a[0]] + (a[1..] + b);
      EntriesFirst(a[0], a[1..] + b);
    }
  }

  lemma {:induction false} EntriesAt(lines: seq<seq<Byte>>)
    ensures |Entries(lines)| == |lines|
    ensures forall i :: 0 <= i < |lines| ==> Entries(lines)[i] == EntryOf(lines[i])
  {
    if lines != [] {
      EntriesAt(lines[1..]);
    }
  }

  // --------------------------------------------------------------- the framer

  /**
    What reading `input` leaves: the buffer is its tail unless that is too long,
    and an over-long tail has already been reported.
  */
  ghost predicate Read(input: seq<Byte>, pending: seq<Byte>, discarding: bool, entries: seq<Entry>) {
    && discarding == (|Tail(input)| > MAXIMUM_LINE)
    && pending == (if discarding then [] else Tail(input))
    && entries == Entries(Lines(input)) + (if discarding then [Redacted] else [])
  }

  lemma ReadResumes(stream: seq<Byte>, tail: seq<Byte>, before: seq<Entry>,
                    fragment: seq<Byte>, pending: seq<Byte>, discarding: bool, added: seq<Entry>)
    requires Read(stream, tail, false, before)
    requires Read(tail + fragment, pending, discarding, added)
    ensures Read(stream + fragment, pending, discarding, before + added)
  {
    hide Lines, Tail, Entries;
    SplitResumes(stream, fragment);
    EntriesAppend(Lines(stream), Lines(tail + fragment));
  }

  lemma ReadStaysLost(stream: seq<Byte>, before: seq<Entry>, fragment: seq<Byte>)
    requires Read(stream, [], true, before) && OneLine(fragment)
    ensures Read(stream + fragment, [], true, before)
  {
    SplitResumes(stream, fragment);
    SplitIsExact(stream);
    OneLineConcat(Tail(stream), fragment);
    assert Lines(stream) + [] == Lines(stream);
  }

  lemma ReadAfterLoss(stream: seq<Byte>, before: seq<Entry>, fragment: seq<Byte>, newline: nat,
                      pending: seq<Byte>, discarding: bool, added: seq<Entry>)
    requires Read(stream, [], true, before) && newline == Find(fragment)
    requires Read(fragment[newline + 1..], pending, discarding, added)
    ensures Read(stream + fragment, pending, discarding, before + added)
  {
    var line, rest := Tail(stream) + fragment[..newline], fragment[newline + 1..];
    SplitResumes(stream, fragment);
    SplitIsExact(stream);
    LineEnds(Tail(stream), fragment, newline);
    EntriesAppend(Lines(stream), [line] + Lines(rest));
    EntriesFirst(line, Lines(rest));
    assert |line| > MAXIMUM_LINE;
    Regroup(Entries(Lines(stream)), [Redacted], Entries(Lines(rest)), if discarding then [Redacted] else []);
  }

  /** The loop of `Drain` after reporting `added`, with `pending` still to cut. */
  ghost predicate Draining(input: seq<Byte>, pending: seq<Byte>, added: seq<Entry>) {
    && Tail(input) == Tail(pending)
    && added + Entries(Lines(pending)) == Entries(Lines(input))
  }

  lemma NextLine(input: seq<Byte>, pending: seq<Byte>, added: seq<Entry>)
    requires Find(pending) >= 0 && Draining(input, pending, added)
    ensures var newline := Find(pending);
            Draining(input, pending[newline + 1..], added + [EntryOf(pending[..newline])])
  {
    var line, rest := pending[..Find(pending)], pending[Find(pending) + 1..];
    EntriesFirst(line, Lines(rest));
    Regroup(added, [EntryOf(line)], Entries(Lines(rest)), []);
  }

  lemma Drained(input: seq<Byte>, pending: seq<Byte>, added: seq<Entry>)
    requires OneLine(pending) && Draining(input, pending, added)
    ensures if |pending| > MAXIMUM_LINE then Read(input, [], true, added + [Redacted])
            else Read(input, pending, false, added)
  {
    assert Lines(pending) == [] && Tail(pending) == pending;
    assert added + [] == added;
  }

  lemma Regroup<T>(a: seq<T>, b: seq<T>, c: seq<T>, d: seq<T>)
    ensures (a + b) + (c + d) == (a + (b + c)) + d
  {
  }

  class Framer {
    var pending: seq<Byte>
    var discarding: bool
    var capture: seq<Entry>
    ghost var stream: seq<Byte>  // everything read so far

    ghost predicate Valid()
      reads this
    {
      Read(stream, pending, discarding, capture)
    }

    constructor ()
      ensures Valid() && stream == [] && capture == []
    {
      pending, discarding, capture, stream := [], false, [], [];
    }

    /** One `readline` result and the inner loop that drains the buffer. */
    method Feed(fragment: seq<Byte>)
      requires Valid()
      modifies this
      ensures Valid() && stream == old(stream) + fragment
    {
      ghost var before, tail, entries := stream, pending, capture;
      stream := stream + fragment;
      if fragment == [] {
        assert before + fragment == before;
        return;
      }
      if discarding {
        var newline := Find(fragment);
        if newline < 0 {
          ReadStaysLost(before, capture, fragment);
          return;
        }
        var rest := fragment[newline + 1..];
        discarding := false;
        if rest == [] {
          ReadAfterLoss(before, entries, fragment, newline, [], false, []);
          return;
        }
        pending := rest;
        var added := Drain();
        ReadAfterLoss(before, entries, fragment, newline, pending, discarding, added);
      } else {
        pending := pending + fragment;
        var added := Drain();
        ReadResumes(before, tail, entries, fragment, pending, discarding, added);
      }
    }

    method Drain() returns (ghost added: seq<Entry>)
      requires !discarding
      modifies `pending, `discarding, `capture
      ensures Read(old(pending), pending, discarding, added)
      ensures capture == old(capture) + added
    {
      hide Lines, Tail, Entries, FindFrom;
      ghost var input := pending;
      added := [];
      while pending != []
        invariant !discarding
        invariant Draining(input, pending, added)
        invariant capture == old(capture) + added
        decreases |pending|
      {
        var newline := Find(pending);
        if newline < 0 {
          break;
        }
        NextLine(input, pending, added);
        var line := pending[..newline];
        pending := pending[newline + 1..];
        var entry := if newline > MAXIMUM_LINE then Redacted else Text(StripReturns(line));
        capture, added := capture + [entry], added + [entry];
      }
      Drained(input, pending, added);
      if |pending| > MAXIMUM_LINE {
        pending := [];
        discarding := true;
        capture, added := capture + [Redacted], added + [Redacted];
      }
    }

    /** The check of the buffer after the deadline. */
    method Finish()
      requires Valid()
      modifies `capture
      ensures capture == Capture(stream)
    {
      if pending != [] {
        capture := capture + [Redacted];
      }
    }
  }

  /** However the stream is cut, the capture is the one of the whole stream. */
  method Monitor(fragments: seq<seq<Byte>>) returns (capture: seq<Entry>)
    ensures capture == Capture(Concat(fragments))
  {
    var framer := new Framer();
    for i := 0 to |fragments|
      invariant framer.Valid() && framer.stream == Concat(fragments[..i])
    {
      assert fragments[..i + 1][..i] == fragments[..i];
      framer.Feed(fragments[i]);
    }
    assert fragments[..|fragments|] == fragments;
    framer.Finish();
    capture := framer.capture;
  }

  /** The entry is the line without the carriage returns at its end. */
  predicate Shows(entry: Entry, line: seq<Byte>) {
    && entry.Text? && entry.line <= line
    && (forall k :: |entry.line| <= k < |line| ==> line[k] == 13)
    && (entry.line == [] || entry.line[|entry.line| - 1] != 13)
  }

  /**
    One entry a line, in order: the line itself without the carriage returns at its
    end, or a marker if it is too long; one marker for a lost tail; nothing else.
  */
  lemma CaptureShape(lines: seq<seq<Byte>>, tail: seq<Byte>)
    requires OneLine(tail)
    requires forall i :: 0 <= i < |lines| ==> OneLine(lines[i])
    ensures var capture := Capture(Join(lines) + tail);
            && |capture| == |lines| + (if tail == [] then 0 else 1)
            && (forall i :: 0 <= i < |lines| ==>
                  if |lines[i]| > 4096 then capture[i] == Redacted else Shows(capture[i], lines[i]))
            && (tail != [] ==> capture[|lines|] == Redacted)
  {
    SplitIsUnique(lines, tail);
    EntriesAt(lines);
  }
}
