/**
  File names of diagnostic segments, `segment-%019d-%08d.jsonl`: why the order of
  the strings is the numeric order `Before`, and where that ends.
*/
module DiagnosticNames {
  import opened Decimal
  import opened DiagnosticLog
  import opened Ordering

  function Digit(n: nat): char
    requires n < 10
  {
    n as char + '0'
  }

  /** `%0*d`: at least `width` digits. */
  function Padded(n: nat, width: nat): string
    decreases n + width
  {
    if n < 10 && width <= 1 then [Digit(n)]
    else Padded(n / 10, if width > 0 then width - 1 else 0) + [Digit(n % 10)]
  }

  function FileName(name: Name): string
    requires name.ns >= 0
  {
    "segment-" + Padded(name.ns, 19) + "-" + Padded(name.sequence, 8) + ".jsonl"
  }

  /** Of strings that begin with equally long parts, the parts decide first. */
  lemma {:induction false} LessConcat(a: string, b: string, c: string, d: string)
    requires |a| == |b|
    ensures Less(a + c, b + d) <==> Less(a, b) || (a == b && Less(c, d))
  {
    if a == [] {
      assert a + c == c && b + d == d;
    } else {
      LessConcat(a[1..], b[1..], c, d);
      assert (a + c)[1..] == a[1..] + c && (b + d)[1..] == b[1..] + d;
      assert a == [a[0]] + a[1..] && b == [b[0]] + b[1..];
    }
  }

  /** The width is kept exactly by the numbers that fit it; others are longer. */
  lemma {:induction false} PaddedLength(n: nat, width: nat)
    requires 0 < width
    ensures |Padded(n, width)| >= width
    ensures |Padded(n, width)| == width <==> n < Pow10(width)
  {
    if width == 1 {
      assert Pow10(1) == 10 * Pow10(0);
      assert n >= 10 ==> |Padded(n / 10, 0)| > 0;
    } else {
      PaddedLength(n / 10, width - 1);
    }
  }

  /** Numbers that fit the width sort as strings as they do as numbers. */
  lemma {:induction false} PaddedSorts(m: nat, n: nat, width: nat)
    requires 0 < width && m < Pow10(width) && n < Pow10(width)
    ensures |Padded(m, width)| == |Padded(n, width)| == width
    ensures Less(Padded(m, width), Padded(n, width)) <==> m < n
    ensures Padded(m, width) == Padded(n, width) <==> m == n
  {
    hide Less;
    PaddedLength(m, width);
    PaddedLength(n, width);
    OneDigit(m % 10, n % 10);
    if width == 1 {
      assert Pow10(1) == 10 * Pow10(0);
    } else {
      PaddedSorts(m / 10, n / 10, width - 1);
      var a, b := Padded(m / 10, width - 1), Padded(n / 10, width - 1);
      LessConcat(a, b, [Digit(m % 10)], [Digit(n % 10)]);
      SameConcat(a, b, [Digit(m % 10)], [Digit(n % 10)]);
    }
  }

  lemma OneDigit(x: nat, y: nat)
    requires x < 10 && y < 10
    ensures Less([Digit(x)], [Digit(y)]) <==> x < y
    ensures [Digit(x)] == [Digit(y)] <==> x == y
  {
    assert [Digit(x)][0] == Digit(x) && [Digit(y)][0] == Digit(y);
  }

  lemma SameConcat(a: string, b: string, c: string, d: string)
    requires |a| == |b|
    ensures a + c == b + d <==> a == b && c == d
  {
    assert (a + c)[..|a|] == a && (b + d)[..|b|] == b;
    assert (a + c)[|a|..] == c && (b + d)[|b|..] == d;
  }

  /** The directory listing sorts segments by time, then by sequence, while 8 digits suffice. */
  lemma NamesSortLikeNumbers(a: Name, b: Name)
    requires 0 <= a.ns < Pow10(19) && 0 <= b.ns < Pow10(19) && a.sequence < Pow10(8) && b.sequence < Pow10(8)
    ensures Less(FileName(a), FileName(b)) <==> Before(a, b)
  {
    hide Less, Padded, Pow10;
    PaddedSorts(a.ns, b.ns, 19);
    PaddedSorts(a.sequence, b.sequence, 8);
    var pa, pb := Padded(a.ns, 19), Padded(b.ns, 19);
    var qa, qb := Padded(a.sequence, 8), Padded(b.sequence, 8);
    LessTotal("segment-", "segment-");
    LessTotal("-", "-");
    LessTotal(".jsonl", ".jsonl");
    LessConcat(qa, qb, ".jsonl", ".jsonl");
    LessConcat("-", "-", qa + ".jsonl", qb + ".jsonl");
    LessConcat(pa, pb, "-" + (qa + ".jsonl"), "-" + (qb + ".jsonl"));
    LessConcat("segment-", "segment-", pa + ("-" + (qa + ".jsonl")), pb + ("-" + (qb + ".jsonl")));
    Grouped("segment-", pa, "-", qa, ".jsonl");
    Grouped("segment-", pb, "-", qb, ".jsonl");
  }

  lemma Grouped(a: string, b: string, c: string, d: string, e: string)
    ensures a + b + c + d + e == a + (b + (c + (d + e)))
  {
  }

  /** A directory in the order of the names' strings. */
  predicate ListedInOrder(dir: seq<Segment>)
    requires AllListable(dir)
  {
    forall i, j :: 0 <= i < j < |dir| ==> Less(FileName(dir[i].name), FileName(dir[j].name))
  }

  /** What the listing sorts by string, the model sorts by number. */
  lemma ListingOrder(dir: seq<Segment>)
    requires AllListable(dir)
    ensures ListedInOrder(dir) <==> SortedDir(dir)
  {
    hide Less, FileName, Pow10;
    TimesFit();
    forall i, j | 0 <= i < j < |dir|
      ensures Less(FileName(dir[i].name), FileName(dir[j].name)) <==> Before(dir[i].name, dir[j].name)
    {
      assert dir[i] in dir && dir[j] in dir;
      NamesSortLikeNumbers(dir[i].name, dir[j].name);
    }
  }

  lemma TimesFit()
    ensures TIME_LIMIT <= Pow10(19)
  {
    assert Pow10(5) == 100_000;
    assert Pow10(10) == 10_000_000_000;
    assert Pow10(15) == 1_000_000_000_000_000;
  }

  /** The listing checks the lengths of the two numbers; for a time that parses that is `Listable`. */
  lemma ListableExactly(name: Name)
    requires 0 <= name.ns < TIME_LIMIT
    ensures Listable(name) <==> |Padded(name.ns, 19)| == 19 && |Padded(name.sequence, 8)| == 8
  {
    hide Padded, Pow10;
    TimesFit();
    PaddedLength(name.ns, 19);
    PaddedLength(name.sequence, 8);
  }

  /**
    The ninth digit would sort its segment before the eight-digit ones, but it makes
    the name too long: no listing, and so no retention, succeeds any more.
  */
  lemma NinthDigitIsRefused(dir: seq<Segment>, s: Segment, after: seq<Segment>, l: Limits)
    requires s in dir && s.name.sequence == Pow10(8)
    ensures |Padded(s.name.sequence, 8)| > 8 && !AllListable(dir) && !Enforced(dir, after, true, l)
    ensures Less(Padded(Pow10(8), 8), Padded(Pow10(8) - 1, 8))
  {
    hide Less, Pow10, Padded;
    PaddedLength(s.name.sequence, 8);
    Leading(8);
  }

  lemma {:induction false} Leading(k: nat)
    requires 0 < k
    ensures Padded(Pow10(k), k)[0] == '1' && Padded(Pow10(k) - 1, k)[0] == '9'
    ensures Less(Padded(Pow10(k), k), Padded(Pow10(k) - 1, k))
  {
    if k == 1 {
      assert Pow10(1) == 10 * Pow10(0);
      assert Padded(10, 1) == Padded(1, 0) + [Digit(0)];
    } else {
      Leading(k - 1);
      assert Pow10(k) / 10 == Pow10(k - 1) && (Pow10(k) - 1) / 10 == Pow10(k - 1) - 1;
    }
  }
}
