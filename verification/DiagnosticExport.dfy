/** The export window of the diagnostic log: `snapshot` in `diagnostics/service.go`. */
module DiagnosticExport {
  import opened Wrappers

  /** A persisted line: `size` counts its newline, `valid` is the outcome of decoding. */
  datatype Line = Line(timestamp: int, size: nat, valid: bool)

  function Total(lines: seq<Line>): nat {
    if lines == [] then 0 else lines[0].size + Total(lines[1..])
  }

  /** The lines young enough. */
  function Recent(lines: seq<Line>, since: int): seq<Line> {
    if lines == [] then []
    else
      var front, last := Recent(lines[..|lines| - 1], since), lines[|lines| - 1];
      if last.timestamp < since then front else front + [last]
  }

  /** The lines young enough and not too long on their own. */
  function Eligible(lines: seq<Line>, since: int, maximum: nat): seq<Line> {
    if lines == [] then []
    else
      var front, last := Eligible(lines[..|lines| - 1], since, maximum), lines[|lines| - 1];
      if last.timestamp < since || last.size > maximum then front else front + [last]
  }

  /** What a filter that goes by age and length leaves: those lines and no others, in their order. */
  ghost predicate Filtered(some: seq<Line>, lines: seq<Line>, since: int, maximum: nat) {
    exists at: seq<nat> ::
      && |at| == |some| && (forall i :: 0 <= i < |at| ==> at[i] < |lines| && some[i] == lines[at[i]])
      && (forall i, j :: 0 <= i < j < |at| ==> at[i] < at[j])
      && (forall k :: 0 <= k < |lines| ==> (k in at <==> lines[k].timestamp >= since && lines[k].size <= maximum))
  }

  lemma {:induction false} EligibleMeans(lines: seq<Line>, since: int, maximum: nat) returns (at: seq<nat>)
    ensures |at| == |Eligible(lines, since, maximum)|
    ensures forall i :: 0 <= i < |at| ==> at[i] < |lines| && Eligible(lines, since, maximum)[i] == lines[at[i]]
    ensures forall i, j :: 0 <= i < j < |at| ==> at[i] < at[j]
    ensures forall k :: 0 <= k < |lines| ==> (k in at <==> lines[k].timestamp >= since && lines[k].size <= maximum)
  {
    if lines == [] {
      at := [];
    } else {
      var n := |lines| - 1;
      at := EligibleMeans(lines[..n], since, maximum);
      assert n !in at;
      if lines[n].timestamp >= since && lines[n].size <= maximum {
        at := at + [n];
      }
    }
  }

  /** How many lines are young enough. */
  function Young(lines: seq<Line>, since: int): set<nat> {
    set i | 0 <= i < |lines| && lines[i].timestamp >= since
  }

  lemma {:induction false} RecentMeans(lines: seq<Line>, since: int)
    ensures |Recent(lines, since)| == |Young(lines, since)|
  {
    if lines == [] {
      assert Young(lines, since) == {};
    } else {
      var n := |lines| - 1;
      RecentMeans(lines[..n], since);
      var front := Young(lines[..n], since);
      assert Young(lines, since) == front + (if lines[n].timestamp >= since then {n} else {});
    }
  }

  lemma EligibleIsFiltered(lines: seq<Line>, since: int, maximum: nat)
    ensures Filtered(Eligible(lines, since, maximum), lines, since, maximum)
  {
    var at := EligibleMeans(lines, since, maximum);
  }

  lemma {:induction false} EligibleCount(lines: seq<Line>, since: int, maximum: nat)
    ensures |Eligible(lines, since, maximum)| <= |Recent(lines, since)|
  {
    if lines != [] {
      EligibleCount(lines[..|lines| - 1], since, maximum);
    }
  }

  lemma {:induction false} TotalAppend(a: seq<Line>, b: seq<Line>)
    ensures Total(a + b) == Total(a) + Total(b)
  {
    if a == [] {
      assert a + b == b;
    } else {
      TotalAppend(a[1..], b);
      assert a + b == [a[0]] + (a[1..] + b);
    }
  }

  lemma TotalOfOne(line: Line)
    ensures Total([line]) == line.size
  {
    assert [line][1..] == [];
  }

  /** `all[k..]` fits, and no longer suffix of `all` does. */
  ghost predicate LongestSuffix(all: seq<Line>, k: nat, maximum: nat) {
    && k <= |all| && Total(all[k..]) <= maximum
    && forall j :: 0 <= j < k ==> Total(all[j..]) > maximum
  }

  lemma SuffixGrows(all: seq<Line>, line: Line, j: nat)
    requires j <= |all|
    ensures Total((all + [line])[j..]) == Total(all[j..]) + line.size
  {
    assert (all + [line])[j..] == all[j..] + [line];
    TotalAppend(all[j..], [line]);
    TotalOfOne(line);
  }

  /** What is already too long stays too long when a line is added. */
  lemma LongerStaysTooLong(all: seq<Line>, line: Line, k: nat, maximum: nat)
    requires k <= |all| && forall j :: 0 <= j < k ==> Total(all[j..]) > maximum
    ensures forall j :: 0 <= j < k ==> Total((all + [line])[j..]) > maximum
  {
    forall j | 0 <= j < k
      ensures Total((all + [line])[j..]) > maximum
    {
      SuffixGrows(all, line, j);
    }
  }

  lemma DropFirst(all: seq<Line>, k: nat)
    requires k < |all|
    ensures Total(all[k..]) == all[k].size + Total(all[k + 1..])
  {
    assert all[k..][1..] == all[k + 1..];
  }

  /**
    The loop of `snapshot`: it appends each line and pops from the front while
    the window is too long. The window is the longest suffix that fits, and
    `truncated` tells exactly whether a line that is young enough was left out.
  */
  method Window(lines: seq<Line>, since: int, maximum: nat) returns (r: Option<(seq<Line>, bool)>)
    requires maximum > 0
    ensures r.None? <==> exists i :: 0 <= i < |lines| && !lines[i].valid
    ensures r.Some? ==> exists k: nat ::
              && LongestSuffix(Eligible(lines, since, maximum), k, maximum)
              && r.value.0 == Eligible(lines, since, maximum)[k..]
    ensures r.Some? ==> (r.value.1 <==> |r.value.0| < |Young(lines, since)|)
    ensures r.Some? ==> Filtered(Eligible(lines, since, maximum), lines, since, maximum)
  {
    hide Total, Filtered, Young;
    RecentMeans(lines, since);
    EligibleIsFiltered(lines, since, maximum);
    var window: seq<Line> := [];
    var selected, truncated := 0, false;
    ghost var k := 0;
    ghost var all: seq<Line> := [];
    EmptyTotal();
    for i := 0 to |lines|
      invariant forall j :: 0 <= j < i ==> lines[j].valid
      invariant all == Eligible(lines[..i], since, maximum)
      invariant k <= |all| && window == all[k..] && selected == Total(window) <= maximum
      invariant LongestSuffix(all, k, maximum)
      invariant |all| <= |Recent(lines[..i], since)|
      invariant truncated <==> k > 0 || |all| < |Recent(lines[..i], since)|
    {
      var line := lines[i];
      assert lines[..i + 1][..i] == lines[..i];
      EligibleCount(lines[..i + 1], since, maximum);
      if !line.valid {
        return None;
      }
      if line.timestamp < since {
        continue;
      }
      if line.size > maximum {
        truncated := true;
        continue;
      }
      LongerStaysTooLong(all, line, k, maximum);
      SuffixGrows(all, line, k);
      assert (all + [line])[k..] == all[k..] + [line];
      all := all + [line];
      window := window + [line];
      selected := selected + line.size;
      while selected > maximum
        invariant k <= |all| && window == all[k..] && selected == Total(window)
        invariant forall j :: 0 <= j < k ==> Total(all[j..]) > maximum
        invariant k > 0 ==> truncated
        invariant truncated <==> k > 0 || |all| < |Recent(lines[..i + 1], since)|
        decreases |window|
      {
        if window == [] {
          EmptyTotal();
          assert false;
        }
        DropFirst(all, k);
        assert all[k..][1..] == all[k + 1..];
        selected := selected - window[0].size;
        window := window[1..];
        truncated := true;
        k := k + 1;
      }
    }
    assert lines[..|lines|] == lines;
    r := Some((window, truncated));
  }

  lemma EmptyTotal()
    ensures Total([]) == 0
  {
  }

  /** There is only one longest suffix that fits, so the window is determined. */
  lemma LongestSuffixUnique(all: seq<Line>, j: nat, k: nat, maximum: nat)
    requires LongestSuffix(all, j, maximum) && LongestSuffix(all, k, maximum)
    ensures j == k
  {
  }
}
