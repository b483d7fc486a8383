/**
  The diagnostic directory of `diagnostics/service.go`: segments in name order,
  replacing a file, and the retention loop that deletes the oldest ones.
*/
module DiagnosticLog {
  import opened Decimal
  import opened Wrappers

  const SEGMENT_AGE := 3_600_000_000_000  // one hour, in nanoseconds
  const MAXIMUM_ENTRIES := 4096
  const TIME_LIMIT := 0x8000_0000_0000_0000  // times are 64-bit integers

  datatype Event = Report(text: string) | Overflow(count: nat)

  /**
    A line of a segment. `size` is the length of its encoding, with the newline;
    `serial` numbers the events in the order of appending and is not encoded.
  */
  datatype Stored = Stored(timestamp: int, event: Event, size: nat, serial: nat)

  /** `segment-<ns>-<seq>.jsonl`. */
  datatype Name = Name(ns: int, sequence: nat)

  datatype Segment = Segment(name: Name, events: seq<Stored>)

  /** The order of the names; `NamesSortLikeNumbers` says when strings agree. */
  predicate Before(a: Name, b: Name) {
    a.ns < b.ns || (a.ns == b.ns && a.sequence < b.sequence)
  }

  /** The listing takes only names of 19 and 8 digits, and a time that parses; see `DiagnosticNames`. */
  predicate Listable(name: Name) {
    0 <= name.ns < TIME_LIMIT && name.sequence < Pow10(8)
  }

  predicate AllListable(dir: seq<Segment>) {
    forall s :: s in dir ==> Listable(s.name)
  }

  function Bytes(events: seq<Stored>): nat {
    if events == [] then 0 else Bytes(events[..|events| - 1]) + events[|events| - 1].size
  }

  function Size(s: Segment): nat { Bytes(s.events) }

  function Total(dir: seq<Segment>): nat {
    if dir == [] then 0 else Size(dir[0]) + Total(dir[1..])
  }

  /** All events of a directory, in name order. */
  function Flat(dir: seq<Segment>): seq<Stored> {
    if dir == [] then [] else dir[0].events + Flat(dir[1..])
  }

  predicate SortedDir(dir: seq<Segment>) {
    forall i, j :: 0 <= i < j < |dir| ==> Before(dir[i].name, dir[j].name)
  }

  predicate Has(dir: seq<Segment>, name: Name) {
    exists i :: 0 <= i < |dir| && dir[i].name == name
  }

  /** Writing a file: its contents are replaced, or it appears in its place. */
  function Put(dir: seq<Segment>, s: Segment): seq<Segment> {
    if dir == [] then [s]
    else if dir[0].name == s.name then [s] + dir[1..]
    else if Before(s.name, dir[0].name) then [s] + dir
    else [dir[0]] + Put(dir[1..], s)
  }

  /** What a file holds; a missing file is empty. */
  function Contents(dir: seq<Segment>, name: Name): seq<Stored> {
    if dir == [] then [] else if dir[0].name == name then dir[0].events else Contents(dir[1..], name)
  }

  lemma SortedTail(dir: seq<Segment>, k: nat)
    requires SortedDir(dir) && k <= |dir|
    ensures SortedDir(dir[k..])
  {
  }

  lemma {:induction false} PutSorted(dir: seq<Segment>, s: Segment)
    requires SortedDir(dir)
    ensures SortedDir(Put(dir, s))
    ensures forall i :: 0 <= i < |Put(dir, s)| ==> Put(dir, s)[i] == s || Put(dir, s)[i] in dir
  {
    if dir != [] && dir[0].name != s.name && !Before(s.name, dir[0].name) {
      var rest := dir[1..];
      PutSorted(rest, s);
      var put := Put(rest, s);
      forall j | 0 <= j < |put|
        ensures Before(dir[0].name, put[j].name)
      {
        if put[j] != s {
          assert put[j] in rest;
          var m :| 0 <= m < |rest| && rest[m] == put[j];
          assert Before(dir[0].name, dir[m + 1].name);
        }
      }
    }
  }

  lemma {:induction false} PutTotal(dir: seq<Segment>, s: Segment)
    requires SortedDir(dir)
    ensures Total(Put(dir, s)) + Bytes(Contents(dir, s.name)) == Total(dir) + Size(s)
    ensures Contents(Put(dir, s), s.name) == s.events
  {
    if dir == [] {
      assert [s][1..] == [];
    } else {
      var rest := dir[1..];
      SortedTail(dir, 1);
      if dir[0].name == s.name {
        assert ([s] + rest)[1..] == rest;
      } else if Before(s.name, dir[0].name) {
        assert ([s] + dir)[1..] == dir;
        ContentsMissing(rest, s.name, dir);
      } else {
        PutTotal(rest, s);
        assert ([dir[0]] + Put(rest, s))[1..] == Put(rest, s);
      }
    }
  }

  lemma {:induction false} ContentsMissing(rest: seq<Segment>, name: Name, dir: seq<Segment>)
    requires SortedDir(dir) && dir != [] && Before(name, dir[0].name)
    requires |rest| <= |dir| && rest == dir[|dir| - |rest|..]
    ensures Contents(rest, name) == []
  {
    if rest != [] {
      ContentsMissing(rest[1..], name, dir);
    }
  }

  lemma {:induction false} FlatAppend(a: seq<Segment>, b: seq<Segment>)
    ensures Flat(a + b) == Flat(a) + Flat(b)
  {
    if a == [] {
      assert a + b == b;
      assert [] + Flat(b) == Flat(b);
    } else {
      FlatAppend(a[1..], b);
      assert (a + b)[1..] == a[1..] + b;
      assert (a + b)[0] == a[0];
      assert a[0].events + (Flat(a[1..]) + Flat(b)) == (a[0].events + Flat(a[1..])) + Flat(b);
    }
  }

  lemma {:induction false} TotalAppend(a: seq<Segment>, b: seq<Segment>)
    ensures Total(a + b) == Total(a) + Total(b)
  {
    if a == [] {
      assert a + b == b;
    } else {
      TotalAppend(a[1..], b);
      assert (a + b)[1..] == a[1..] + b;
    }
  }

  lemma FlatOfOne(s: Segment)
    ensures Flat([s]) == s.events && Total([s]) == Size(s)
  {
    assert [s][1..] == [];
  }

  /** A name after all others puts the file last. */
  lemma {:induction false} PutLast(dir: seq<Segment>, s: Segment)
    requires forall i :: 0 <= i < |dir| ==> Before(dir[i].name, s.name)
    ensures Put(dir, s) == dir + [s]
  {
    if dir != [] {
      PutLast(dir[1..], s);
    }
  }

  /** Writing the last file again replaces its events and nothing else. */
  lemma {:induction false} PutAgain(dir: seq<Segment>, s: Segment)
    requires SortedDir(dir) && dir != [] && dir[|dir| - 1].name == s.name
    ensures Put(dir, s) == dir[..|dir| - 1] + [s]
  {
    if |dir| > 1 {
      SortedTail(dir, 1);
      PutAgain(dir[1..], s);
      assert Before(dir[0].name, dir[|dir| - 1].name);
    }
  }

  lemma {:induction false} ContentsLast(dir: seq<Segment>, s: Segment)
    requires SortedDir(dir) && dir != [] && dir[|dir| - 1] == s
    ensures Contents(dir, s.name) == s.events
  {
    if |dir| > 1 {
      SortedTail(dir, 1);
      ContentsLast(dir[1..], s);
      assert Before(dir[0].name, dir[|dir| - 1].name);
    }
  }

  lemma {:induction false} ContentsAbsent(dir: seq<Segment>, name: Name)
    requires forall i :: 0 <= i < |dir| ==> dir[i].name != name
    ensures Contents(dir, name) == []
  {
    if dir != [] {
      ContentsAbsent(dir[1..], name);
    }
  }

  // ---------------------------------------------------------------- retention

  /** What a call of the retention loop is told. */
  datatype Limits = Limits(cutoff: int, reserve: nat, preserve: Option<Name>, maximum: nat)

  /** A segment may hold events up to an hour younger than its name. */
  predicate Expired(s: Segment, cutoff: int) {
    s.name.ns + SEGMENT_AGE <= cutoff
  }

  predicate IsLast(dir: seq<Segment>, name: Name) {
    dir != [] && dir[|dir| - 1].name == name
  }

  /** How many files the loop may delete: all but a preserved last one. */
  function Removable(dir: seq<Segment>, preserve: Option<Name>): nat {
    if preserve.Some? && IsLast(dir, preserve.value) then |dir| - 1 else |dir|
  }

  /**
    The newest files `dir[k..]` that are unexpired and, with the reserve, fit:
    no file is missing that could have stayed. A preserved last file does not count.
  */
  ghost predicate Retained(dir: seq<Segment>, l: Limits, k: nat) {
    var n := Removable(dir, l.preserve);
    && k <= n
    && (forall i :: k <= i < n ==> !Expired(dir[i], l.cutoff))
    && (k < n ==> Total(dir[k..]) + l.reserve <= l.maximum)
    && (forall j :: 0 <= j < k ==> Expired(dir[j], l.cutoff) || Total(dir[j..]) + l.reserve > l.maximum)
  }

  lemma RetainedUnique(dir: seq<Segment>, l: Limits, j: nat, k: nat)
    requires SortedDir(dir) && Retained(dir, l, j) && Retained(dir, l, k)
    ensures j == k
  {
    TotalShrinks(dir, j);
    TotalShrinks(dir, k);
  }

  lemma {:induction false} TotalShrinks(dir: seq<Segment>, j: nat)
    requires j <= |dir|
    ensures forall k :: j <= k <= |dir| ==> Total(dir[j..]) >= Total(dir[k..])
    decreases |dir| - j
  {
    if j < |dir| {
      TotalShrinks(dir, j + 1);
      assert dir[j..][1..] == dir[j + 1..];
    }
  }

  /** Nothing but the preserved file stays, or all of it fits. */
  ghost predicate Fits(dir: seq<Segment>, l: Limits) {
    (exists i :: 0 <= i < |dir| && l.preserve != Some(dir[i].name)) ==> Total(dir) + l.reserve <= l.maximum
  }

  /** Less than the retention and an hour old, but for the preserved file. */
  ghost predicate AllYoung(dir: seq<Segment>, l: Limits) {
    forall s :: s in dir && l.preserve != Some(s.name) ==> s.name.ns + 3_600_000_000_000 > l.cutoff
  }

  /** A file that is gone was older than that, or the files with the reserve were too large. */
  ghost predicate Justified(before: seq<Segment>, after: seq<Segment>, l: Limits) {
    forall s :: s in before && s !in after ==>
                  && l.preserve != Some(s.name)
                  && (s.name.ns + 3_600_000_000_000 <= l.cutoff || Total(before) + l.reserve > l.maximum)
  }

  /** The oldest files are gone; after success, each of them was too old or had too much from it on. */
  ghost predicate OldestGone(before: seq<Segment>, after: seq<Segment>, ok: bool, l: Limits) {
    && |after| <= |before| && after == before[|before| - |after|..]
    && (ok ==> forall j :: 0 <= j < |before| - |after| ==>
                 || before[j].name.ns + 3_600_000_000_000 <= l.cutoff
                 || Total(before[j..]) + l.reserve > l.maximum)
  }

  /** No file is newer than the preserved one. */
  ghost predicate PreservesNewest(dir: seq<Segment>, preserve: Option<Name>) {
    preserve.Some? ==> IsLast(dir, preserve.value) || forall i :: 0 <= i < |dir| ==> dir[i].name != preserve.value
  }

  /** A suffix stays; after success, exactly the one that `Retained` describes. */
  ghost predicate NewestSuffix(before: seq<Segment>, after: seq<Segment>, ok: bool, l: Limits) {
    exists k: nat ::
      k <= Removable(before, l.preserve) && after == before[k..] && (ok ==> Retained(before, l, k))
  }

  ghost predicate SameContents(before: seq<Segment>, after: seq<Segment>, preserve: Option<Name>) {
    preserve.Some? ==> Contents(after, preserve.value) == Contents(before, preserve.value)
  }

  /**
    The result of `enforceRetentionLocked`. In any case the preserved file is
    untouched, no file is new, and whatever is gone was too old or in the way. It
    succeeds only for a directory that can be listed, and then what stays is young
    enough and fits. When no file is newer than the preserved one, exactly the
    longest unexpired newest suffix that fits stays; after an error it may be a
    longer suffix.
  */
  ghost predicate Enforced(before: seq<Segment>, after: seq<Segment>, ok: bool, l: Limits) {
    && SortedDir(after) && Total(after) <= Total(before)
    && (forall s :: s in after ==> s in before)
    && SameContents(before, after, l.preserve)
    && Justified(before, after, l)
    && (ok ==> Fits(after, l) && AllYoung(after, l) && AllListable(before))
    && (PreservesNewest(before, l.preserve) ==> NewestSuffix(before, after, ok, l))
  }

  function Without(dir: seq<Segment>, name: Name): seq<Segment> {
    if dir == [] then []
    else if dir[0].name == name then Without(dir[1..], name)
    else [dir[0]] + Without(dir[1..], name)
  }

  /** Deleting the first file of a sorted directory leaves the others. */
  lemma {:induction false} WithoutAbsent(dir: seq<Segment>, name: Name)
    requires forall i :: 0 <= i < |dir| ==> dir[i].name != name
    ensures Without(dir, name) == dir
  {
    if dir != [] {
      WithoutAbsent(dir[1..], name);
    }
  }

  lemma WithoutAt(kept: seq<Segment>, s: Segment, rest: seq<Segment>)
    requires SortedDir(kept + [s] + rest)
    ensures Without(kept + [s] + rest, s.name) == kept + rest
    ensures SortedDir(kept + rest)
  {
    NameIsUnique(kept, s, rest);
    DropMiddle(kept, s, rest);
    hide SortedDir;
    assert kept + [s] + rest == kept + ([s] + rest);
    WithoutConcat(kept, [s] + rest, s.name);
    WithoutAbsent(kept, s.name);
    WithoutFirst(s, rest);
  }

  lemma WithoutFirst(s: Segment, rest: seq<Segment>)
    requires forall i :: 0 <= i < |rest| ==> rest[i].name != s.name
    ensures Without([s] + rest, s.name) == rest
  {
    WithoutAbsent(rest, s.name);
    assert ([s] + rest)[1..] == rest;
  }

  lemma NameIsUnique(kept: seq<Segment>, s: Segment, rest: seq<Segment>)
    requires SortedDir(kept + [s] + rest)
    ensures forall i :: 0 <= i < |kept| ==> kept[i].name != s.name
    ensures forall i :: 0 <= i < |rest| ==> rest[i].name != s.name
  {
    var all := kept + [s] + rest;
    assert all[|kept|] == s;
    forall i | 0 <= i < |kept|
      ensures kept[i].name != s.name
    {
      assert Before(all[i].name, all[|kept|].name);
    }
    forall i | 0 <= i < |rest|
      ensures rest[i].name != s.name
    {
      assert Before(all[|kept|].name, all[|kept| + 1 + i].name);
    }
  }

  lemma DropMiddle(kept: seq<Segment>, s: Segment, rest: seq<Segment>)
    requires SortedDir(kept + [s] + rest)
    ensures SortedDir(kept + rest)
  {
    var all, less := kept + [s] + rest, kept + rest;
    forall i, j | 0 <= i < j < |less|
      ensures Before(less[i].name, less[j].name)
    {
      var a := if i < |kept| then i else i + 1;
      var b := if j < |kept| then j else j + 1;
      assert less[i] == all[a] && less[j] == all[b];
    }
  }

  lemma {:induction false} WithoutConcat(a: seq<Segment>, b: seq<Segment>, name: Name)
    ensures Without(a + b, name) == Without(a, name) + Without(b, name)
  {
    if a == [] {
      assert a + b == b;
    } else {
      WithoutConcat(a[1..], b, name);
      assert (a + b)[1..] == a[1..] + b;
    }
  }

  class Directory {
    var files: seq<Segment>
    ghost var faults: nat  // failures of the storage, or for want of room or names

    constructor (found: seq<Segment>)
      ensures files == found
    {
      files, faults := found, 0;
    }

    /** `os.Remove`: it may fail, with or without effect. */
    method Remove(name: Name) returns (ok: bool)
      modifies this
      ensures files == Without(old(files), name) || (!ok && files == old(files))
      ensures faults == old(faults) + if ok then 0 else 1
    {
      ok := *;
      var effect := *;
      faults := faults + if ok then 0 else 1;
      if ok || effect {
        files := Without(files, name);
      }
    }

    /** `protectedfile.Replace`: an error may still come after the replacement. */
    method Replace(name: Name, events: seq<Stored>) returns (ok: bool)
      modifies this
      ensures files == Put(old(files), Segment(name, events)) || (!ok && files == old(files))
      ensures faults == old(faults) + if ok then 0 else 1
    {
      ok := *;
      var effect := *;
      faults := faults + if ok then 0 else 1;
      if ok || effect {
        files := Put(files, Segment(name, events));
      }
    }

    /** `enforceRetentionLocked`; listing the directory may fail, and so may each deletion. */
    method EnforceRetention(l: Limits) returns (ok: bool)
      requires SortedDir(files)
      modifies this
      ensures Enforced(old(files), files, ok, l)
      ensures ok ==> AllYoung(files, l)
      ensures PreservesNewest(old(files), l.preserve) ==> OldestGone(old(files), files, ok, l)
      ensures faults >= old(faults) && (!ok ==> faults > old(faults))
    {
      hide *;
      ok := *;
      KeepAll(files, l);
      EnforcedMeans(files, files, false, l);
      if !ok || |files| > MAXIMUM_ENTRIES || !AllListable(files) {
        faults := faults + 1;
        return false;
      }
      var segments := files;
      var total := SumOfSizes(segments);
      var remaining := |segments|;
      ghost var kept: seq<Segment> := [];
      SweepStart(segments, l);
      for i := 0 to |segments|
        invariant Sweeping(segments, i, kept, files, l)
        invariant total == Total(files) && remaining == |files| && faults == old(faults)
      {
        var segment := segments[i];
        if l.preserve == Some(segment.name) {
          SweepPreserved(segments, i, kept, files, l);
          kept := kept + [segment];
          continue;
        }
        if segment.name.ns + SEGMENT_AGE > l.cutoff && total + l.reserve <= l.maximum {
          Young(segment, l.cutoff);
          SweepKept(segments, i, kept, files, l);
          kept := kept + [segment];
          continue;
        }
        Young(segment, l.cutoff);
        SweepDeleted(segments, i, kept, files, l);
        SweepStops(segments, i, kept, files, l);
        SweepStops(segments, i + 1, kept, Without(files, segment.name), l);
        EnforcedMeans(segments, files, false, l);
        EnforcedMeans(segments, Without(files, segment.name), false, l);
        var removed := Remove(segment.name);
        if !removed {
          return false;
        }
        total := total - Size(segment);
        remaining := remaining - 1;
      }
      SweepEnds(segments, kept, files, l);
      SweepStops(segments, |segments|, kept, files, l);
      EnforcedMeans(segments, files, true, l);
      EnforcedMeans(segments, files, false, l);
      ok := remaining < MAXIMUM_ENTRIES;
      faults := faults + if ok then 0 else 1;
    }
  }

  lemma Young(s: Segment, cutoff: int)
    ensures Expired(s, cutoff) <==> s.name.ns + SEGMENT_AGE <= cutoff
  {
  }

  method SumOfSizes(segments: seq<Segment>) returns (total: nat)
    ensures total == Total(segments)
  {
    total := 0;
    for i := 0 to |segments|
      invariant total + Total(segments[i..]) == Total(segments)
    {
      assert segments[i..][1..] == segments[i + 1..];
      total := total + Size(segments[i]);
    }
  }

  /** The loop after `i` files, with `kept` of them left and `files` in the directory. */
  ghost predicate Sweeping(dir: seq<Segment>, i: nat, kept: seq<Segment>, files: seq<Segment>, l: Limits) {
    && i <= |dir| && files == kept + dir[i..]
    && SortedDir(files) && Total(files) <= Total(dir)
    && (forall s :: s in kept ==> s in dir)
    && SameContents(dir, files, l.preserve) && AllYoung(kept, l) && Justified(dir, files, l)
    && Fits(kept, l.(reserve := l.reserve + Total(dir[i..])))
    && (PreservesNewest(dir, l.preserve) ==> |kept| <= i && Swept(dir, i, i - |kept|, kept, l))
  }

  /** The first `k` are gone, for good reason, and the others of the `i` are still there. */
  ghost predicate Swept(dir: seq<Segment>, i: nat, k: nat, kept: seq<Segment>, l: Limits) {
    var n := Removable(dir, l.preserve);
    && k <= n && k <= i <= |dir| && kept == dir[k..i]
    && (forall j :: k <= j < i && j < n ==> !Expired(dir[j], l.cutoff))
    && (k < i && k < n ==> Total(dir[k..]) + l.reserve <= l.maximum)
    && (forall j :: 0 <= j < k ==> Expired(dir[j], l.cutoff) || Total(dir[j..]) + l.reserve > l.maximum)
  }

  lemma KeepAll(dir: seq<Segment>, l: Limits)
    requires SortedDir(dir)
    ensures Enforced(dir, dir, false, l)
  {
    assert dir == dir[0..];
  }

  lemma SweepStart(dir: seq<Segment>, l: Limits)
    requires SortedDir(dir)
    ensures Sweeping(dir, 0, [], dir, l)
  {
    assert [] + dir[0..] == dir;
  }

  /** Passing over a file: what is in the directory stays the same. */
  lemma Pass(dir: seq<Segment>, i: nat, kept: seq<Segment>)
    requires i < |dir|
    ensures kept + [dir[i]] + dir[i + 1..] == kept + dir[i..]
    ensures Total(dir[i..]) == Total(dir[i + 1..]) + Size(dir[i])
    ensures Total(kept + [dir[i]]) == Total(kept) + Size(dir[i])
    ensures Total(kept + dir[i..]) == Total(kept) + Total(dir[i..])
    ensures forall s :: s in kept + [dir[i]] ==> s in kept || s == dir[i]
  {
    assert dir[i..][1..] == dir[i + 1..];
    FlatOfOne(dir[i]);
    TotalAppend(kept, [dir[i]]);
    TotalAppend(kept, dir[i..]);
  }

  lemma SweepPreserved(dir: seq<Segment>, i: nat, kept: seq<Segment>, files: seq<Segment>, l: Limits)
    requires SortedDir(dir) && i < |dir| && l.preserve == Some(dir[i].name)
    requires Sweeping(dir, i, kept, files, l)
    ensures Sweeping(dir, i + 1, kept + [dir[i]], files, l)
  {
    hide Total, Contents, SortedDir, Expired, Swept, Size;
    Pass(dir, i, kept);
    var more := kept + [dir[i]];
    forall j | 0 <= j < |more| && l.preserve != Some(more[j].name)
      ensures j < |kept| && kept[j] == more[j]
    {
    }
    if PreservesNewest(dir, l.preserve) {
      PreservedIsLast(dir, i);
      SweptMore(dir, i, i - |kept|, kept, l);
    }
  }

  lemma PreservedIsLast(dir: seq<Segment>, i: nat)
    requires SortedDir(dir) && i < |dir| && PreservesNewest(dir, Some(dir[i].name))
    ensures i == |dir| - 1 && Removable(dir, Some(dir[i].name)) == i
  {
    assert dir[i].name == dir[|dir| - 1].name;
  }

  lemma SweptMore(dir: seq<Segment>, i: nat, k: nat, kept: seq<Segment>, l: Limits)
    requires Swept(dir, i, k, kept, l) && i < |dir|
    requires i < Removable(dir, l.preserve) ==>
               !Expired(dir[i], l.cutoff) && Total(dir[k..]) + l.reserve <= l.maximum
    ensures Swept(dir, i + 1, k, kept + [dir[i]], l)
  {
    hide Total, Expired, Removable;
  }

  lemma SweepKept(dir: seq<Segment>, i: nat, kept: seq<Segment>, files: seq<Segment>, l: Limits)
    requires i < |dir| && l.preserve != Some(dir[i].name)
    requires !Expired(dir[i], l.cutoff) && Total(files) + l.reserve <= l.maximum
    requires Sweeping(dir, i, kept, files, l)
    ensures Sweeping(dir, i + 1, kept + [dir[i]], files, l)
  {
    hide Total, Contents, SortedDir, Expired, Swept, Size;
    Pass(dir, i, kept);
    Young(dir[i], l.cutoff);
    if PreservesNewest(dir, l.preserve) {
      SweptFiles(dir, i, i - |kept|, kept, l);
      SweptMore(dir, i, i - |kept|, kept, l);
    }
  }

  lemma SweptFiles(dir: seq<Segment>, i: nat, k: nat, kept: seq<Segment>, l: Limits)
    requires Swept(dir, i, k, kept, l)
    ensures kept + dir[i..] == dir[k..]
  {
    hide Total, Expired, Removable;
  }

  lemma SweepDeleted(dir: seq<Segment>, i: nat, kept: seq<Segment>, files: seq<Segment>, l: Limits)
    requires SortedDir(dir) && i < |dir| && l.preserve != Some(dir[i].name)
    requires Expired(dir[i], l.cutoff) || Total(files) + l.reserve > l.maximum
    requires Sweeping(dir, i, kept, files, l)
    ensures var after := Without(files, dir[i].name);
            && Sweeping(dir, i + 1, kept, after, l)
            && Total(files) == Total(after) + Size(dir[i]) && |files| == |after| + 1
  {
    hide Total, Contents, SortedDir, Expired, Swept, Size, Without;
    Pass(dir, i, kept);
    Deletion(kept, dir[i], dir[i + 1..], l.preserve);
    Young(dir[i], l.cutoff);
    JustifiedMore(dir, kept, dir[i], dir[i + 1..], l);
    if PreservesNewest(dir, l.preserve) {
      SweptLess(dir, i, i - |kept|, kept, l);
    }
  }

  lemma JustifiedMore(dir: seq<Segment>, kept: seq<Segment>, s: Segment, rest: seq<Segment>, l: Limits)
    requires Justified(dir, kept + [s] + rest, l) && l.preserve != Some(s.name)
    requires s.name.ns + 3_600_000_000_000 <= l.cutoff || Total(dir) + l.reserve > l.maximum
    ensures Justified(dir, kept + rest, l)
  {
    hide Total;
    forall x | x in dir && x !in kept + rest
      ensures x in kept + [s] + rest ==> x == s
    {
    }
  }

  /** With no newer file preserved, a deletion comes before all files that stay. */
  lemma SweptLess(dir: seq<Segment>, i: nat, k: nat, kept: seq<Segment>, l: Limits)
    requires SortedDir(dir) && i < |dir| && l.preserve != Some(dir[i].name)
    requires PreservesNewest(dir, l.preserve)
    requires Expired(dir[i], l.cutoff) || Total(kept + dir[i..]) + l.reserve > l.maximum
    requires Swept(dir, i, k, kept, l)
    ensures kept == [] && k == i && Swept(dir, i + 1, i + 1, [], l)
  {
    hide Total, Expired, SortedDir;
    SweptFiles(dir, i, k, kept, l);
    OlderExpires(dir, k, i, l.cutoff);
    assert i < Removable(dir, l.preserve);
    assert dir[i + 1..i + 1] == [];
  }

  lemma OlderExpires(dir: seq<Segment>, k: nat, i: nat, cutoff: int)
    requires SortedDir(dir) && k <= i < |dir|
    ensures Expired(dir[i], cutoff) ==> Expired(dir[k], cutoff)
  {
  }

  lemma TotalWithout(kept: seq<Segment>, s: Segment, rest: seq<Segment>)
    ensures Total(kept + [s] + rest) == Total(kept + rest) + Size(s)
  {
    hide Total;
    TotalAppend(kept, rest);
    TotalAppend(kept + [s], rest);
    TotalAppend(kept, [s]);
    FlatOfOne(s);
  }

  /** What deleting one file does to the directory. */
  lemma Deletion(kept: seq<Segment>, s: Segment, rest: seq<Segment>, preserve: Option<Name>)
    requires SortedDir(kept + [s] + rest) && preserve != Some(s.name)
    ensures Without(kept + [s] + rest, s.name) == kept + rest && SortedDir(kept + rest)
    ensures Total(kept + [s] + rest) == Total(kept + rest) + Size(s)
    ensures SameContents(kept + [s] + rest, kept + rest, preserve)
  {
    hide SortedDir, Total, Without, Contents;
    WithoutAt(kept, s, rest);
    TotalWithout(kept, s, rest);
    if preserve.Some? {
      ContentsSkip(kept, s, rest, preserve.value);
    }
  }

  lemma {:induction false} ContentsSkip(kept: seq<Segment>, s: Segment, rest: seq<Segment>, name: Name)
    requires name != s.name
    ensures Contents(kept + rest, name) == Contents(kept + [s] + rest, name)
  {
    if kept == [] {
      assert kept + rest == rest;
      assert kept + [s] + rest == [s] + rest;
      assert ([s] + rest)[1..] == rest;
    } else {
      ContentsSkip(kept[1..], s, rest, name);
      assert (kept + rest)[1..] == kept[1..] + rest;
      assert (kept + [s] + rest)[1..] == kept[1..] + [s] + rest;
    }
  }

  lemma SweepStops(dir: seq<Segment>, i: nat, kept: seq<Segment>, files: seq<Segment>, l: Limits)
    requires Sweeping(dir, i, kept, files, l)
    ensures Enforced(dir, files, false, l)
  {
    hide Total, Expired, SortedDir, Contents, Fits;
    if PreservesNewest(dir, l.preserve) {
      SweptFiles(dir, i, i - |kept|, kept, l);
    }
  }

  lemma SweepEnds(dir: seq<Segment>, kept: seq<Segment>, files: seq<Segment>, l: Limits)
    requires Sweeping(dir, |dir|, kept, files, l) && AllListable(dir)
    ensures Enforced(dir, files, true, l)
  {
    hide Total, Expired, SortedDir, Contents, AllListable;
    assert files == kept;
    TotalOfNone(dir);
    if PreservesNewest(dir, l.preserve) {
      SweptFiles(dir, |dir|, |dir| - |kept|, kept, l);
      assert Retained(dir, l, |dir| - |kept|);
    }
  }

  /** Retention in terms of the times in the names. */
  lemma EnforcedMeans(before: seq<Segment>, after: seq<Segment>, ok: bool, l: Limits)
    requires Enforced(before, after, ok, l)
    ensures ok ==> AllYoung(after, l)
    ensures PreservesNewest(before, l.preserve) ==> OldestGone(before, after, ok, l)
  {
    hide Total, SortedDir, Contents, Fits, AllListable;
  }

  lemma TotalOfNone(dir: seq<Segment>)
    ensures Total(dir[|dir|..]) == 0
  {
  }
}
