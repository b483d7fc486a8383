/**
  Quota windows: the Codex adapter (`adapter_v1.go`) and the Cursor client
  produce them, and the snapshot validator (`snapshot.go`) has to accept them.
*/
module QuotaWindows {
  import opened Decimal
  import opened Wrappers

  const MAXIMUM_NAME := 24
  const MAXIMUM_WINDOWS := 4
  const FULL := 10_000
  const MAXIMUM_MINUTES := 525_600
  const MAXIMUM_SAFE_INTEGER := 9_007_199_254_740_991
  const LAST_SECOND := 253_402_300_799  // 9999-12-31T23:59:59Z

  datatype Error = Unavailable | SchemaChanged

  /** A published window; `resetsAt` is the instant its timestamp denotes, in seconds. */
  datatype Window = Window(name: string, used: nat, remaining: int,
                           minutes: Option<nat>, resetsAt: Option<int>)

  // ------------------------------------------------------------- the consumer

  predicate Lower(c: char) { 'a' <= c <= 'z' }

  predicate Alphanumeric(c: char) { Lower(c) || '0' <= c <= '9' }

  predicate SafeIdentifier(value: string, maximum: nat) {
    && 0 < |value| <= maximum && Lower(value[0])
    && forall i :: 1 <= i < |value| ==> Alphanumeric(value[i]) || value[i] == '_' || value[i] == '-'
  }

  /** `validateWindow`, on decoded fields. */
  predicate Accepts(w: Window) {
    && SafeIdentifier(w.name, MAXIMUM_NAME)
    && w.used <= FULL && 0 <= w.remaining <= FULL && w.used + w.remaining == FULL
    && (w.minutes.Some? ==> 0 < w.minutes.value <= MAXIMUM_MINUTES)
    && (w.resetsAt.Some? ==> 0 <= w.resetsAt.value <= LAST_SECOND)
  }

  predicate Distinct(ws: seq<Window>) {
    forall i, j :: 0 <= i < j < |ws| ==> ws[i].name != ws[j].name
  }

  // ------------------------------------------------------- identifiers

  function ToLower(c: char): char {
    if 'A' <= c <= 'Z' then c - 'A' + 'a' else c
  }

  /** The maximal runs of letters and digits, lower-cased. */
  function Words(s: string): (words: seq<string>)
    ensures s != [] && Alphanumeric(ToLower(s[|s| - 1])) ==> words != []
  {
    if s == [] then []
    else
      var front, c := s[..|s| - 1], ToLower(s[|s| - 1]);
      var words := Words(front);
      if !Alphanumeric(c) then words
      else if front != [] && Alphanumeric(ToLower(front[|front| - 1]))
      then words[..|words| - 1] + [words[|words| - 1] + [c]]
      else words + [[c]]
  }

  predicate Word(w: string) {
    w != [] && forall i :: 0 <= i < |w| ==> Alphanumeric(w[i])
  }

  lemma {:induction false} WordsAreWords(s: string)
    ensures forall w :: w in Words(s) ==> Word(w)
  {
    if s != [] {
      var words := Words(s[..|s| - 1]);
      WordsAreWords(s[..|s| - 1]);
      assert words != [] ==> words[|words| - 1] in words;
    }
  }

  /** The words with single underscores between them. */
  function Joined(words: seq<string>): string {
    if words == [] then []
    else if |words| == 1 then words[0]
    else Joined(words[..|words| - 1]) + ['_'] + words[|words| - 1]
  }

  function IdentifierOf(s: string): string {
    var body := Joined(Words(s));
    if body != [] && '0' <= body[0] <= '9' then "w_" + body else body
  }

  /** What a base may look like: a letter first, no underscore last. */
  predicate BaseShape(s: string) {
    && s != [] && Lower(s[0]) && s[|s| - 1] != '_'
    && forall i :: 0 <= i < |s| ==> Alphanumeric(s[i]) || s[i] == '_'
  }

  lemma {:induction false} JoinedShape(words: seq<string>)
    requires forall w :: w in words ==> Word(w)
    ensures words == [] <==> Joined(words) == []
    ensures words != [] ==> Alphanumeric(Joined(words)[0]) && Alphanumeric(Joined(words)[|Joined(words)| - 1])
    ensures forall i :: 0 <= i < |Joined(words)| ==> Alphanumeric(Joined(words)[i]) || Joined(words)[i] == '_'
  {
    if words != [] {
      var last := words[|words| - 1];
      assert last in words && Alphanumeric(last[0]) && Alphanumeric(last[|last| - 1]);
      if |words| > 1 {
        var front := words[..|words| - 1];
        assert forall w :: w in front ==> w in words;
        JoinedShape(front);
        assert front != [];
      }
    }
  }

  lemma IdentifierShape(s: string)
    ensures IdentifierOf(s) == [] || BaseShape(IdentifierOf(s))
    ensures |s| <= 32 ==> |IdentifierOf(s)| <= 34
    ensures IdentifierOf(s) == [] <==> forall i :: 0 <= i < |s| ==> !Alphanumeric(ToLower(s[i]))
  {
    hide Joined;
    WordsAreWords(s);
    JoinedShape(Words(s));
    JoinedLength(s);
    var body := Joined(Words(s));
    if body != [] && '0' <= body[0] <= '9' {
      assert ("w_" + body)[|body| + 1] == body[|body| - 1];
    }
  }

  lemma {:induction false} JoinedLength(s: string)
    ensures |Joined(Words(s))| <= |s|
    ensures Words(s) != [] && !Alphanumeric(ToLower(s[|s| - 1])) ==> |Joined(Words(s))| < |s|
    ensures Words(s) == [] <==> forall i :: 0 <= i < |s| ==> !Alphanumeric(ToLower(s[i]))
  {
    if s != [] {
      var front, c := s[..|s| - 1], ToLower(s[|s| - 1]);
      var words := Words(front);
      JoinedLength(front);
      assert forall i :: 0 <= i < |front| ==> s[i] == front[i];
      if Alphanumeric(c) {
        if front != [] && Alphanumeric(ToLower(front[|front| - 1])) {
          JoinedExtend(words, c);
        } else {
          JoinedAppend(words, [c]);
        }
      }
    }
  }

  lemma JoinedExtend(words: seq<string>, c: char)
    requires words != []
    ensures Joined(words[..|words| - 1] + [words[|words| - 1] + [c]]) == Joined(words) + [c]
  {
    var longer := words[..|words| - 1] + [words[|words| - 1] + [c]];
    var front, last := words[..|words| - 1], words[|words| - 1];
    assert longer[..|longer| - 1] == front;
    if |words| > 1 {
      var before := Joined(front) + ['_'];
      assert Joined(words) == before + last && Joined(longer) == before + (last + [c]);
      hide Joined;
      assert before + (last + [c]) == before + last + [c];
    }
  }

  lemma JoinedAppend(words: seq<string>, word: string)
    ensures Joined(words + [word]) == if words == [] then word else Joined(words) + ['_'] + word
  {
    assert (words + [word])[..|words|] == words;
  }

  /** The letters and digits of `s` in lower case, in their order. */
  function Letters(s: string): string {
    if s == [] then []
    else
      var c := ToLower(s[|s| - 1]);
      Letters(s[..|s| - 1]) + if Alphanumeric(c) then [c] else []
  }

  lemma LettersSnoc(s: string, c: char)
    ensures Letters(s + [c]) == Letters(s) + if Alphanumeric(ToLower(c)) then [ToLower(c)] else []
  {
    assert (s + [c])[..|s|] == s;
  }

  /** An identifier keeps every letter and digit of its label; only a leading "w" may be new. */
  lemma IdentifierKeepsLetters(s: string)
    ensures Letters(IdentifierOf(s)) == Letters(s) || Letters(IdentifierOf(s)) == ['w'] + Letters(s)
  {
    hide Words, Joined, Letters;
    JoinedLetters(s);
    LettersOfMark();
    LettersAppend("w_", Joined(Words(s)));
  }

  lemma LettersOfMark()
    ensures Letters("w_") == ['w']
  {
    LettersSnoc("", 'w');
    LettersSnoc("w", '_');
    assert "w" == "" + ['w'] && "w_" == "w" + ['_'];
  }

  lemma Regroup(x: string, y: string, z: string)
    ensures (x + y) + z == x + (y + z)
  {
  }

  lemma {:induction false} LettersAppend(a: string, b: string)
    ensures Letters(a + b) == Letters(a) + Letters(b)
  {
    if b == [] {
      assert a + b == a;
    } else {
      hide Letters, ToLower, Alphanumeric;
      var front, c := b[..|b| - 1], b[|b| - 1];
      var last := if Alphanumeric(ToLower(c)) then [ToLower(c)] else [];
      assert Letters(b) == Letters(front) + last by {
        LettersSnoc(front, c);
        assert b == front + [c];
      }
      assert Letters(a + b) == Letters(a + front) + last by {
        LettersSnoc(a + front, c);
        assert a + b == (a + front) + [c];
      }
      LettersAppend(a, front);
      Regroup(Letters(a), Letters(front), last);
    }
  }

  lemma {:induction false} JoinedLetters(s: string)
    ensures Letters(Joined(Words(s))) == Letters(s)
  {
    if s != [] {
      var front, c := s[..|s| - 1], ToLower(s[|s| - 1]);
      var words := Words(front);
      JoinedLetters(front);
      WordsUnfold(s);
      JoinedWords(front);
      if Alphanumeric(c) {
        if front != [] && Alphanumeric(ToLower(front[|front| - 1])) {
          JoinedExtend(words, c);
          LettersSnoc(Joined(words), c);
        } else {
          JoinedAppend(words, [c]);
          LettersSnoc(Joined(words), '_');
          LettersSnoc(if words == [] then [] else Joined(words) + ['_'], c);
          assert words == [] ==> [] + [c] == [c];
        }
      }
    }
  }

  /** What the loop of `identifier` has written after reading `s`. */
  ghost predicate Scanned(s: string, output: string, lastUnderscore: bool) {
    && output == Joined(Words(s)) + (if lastUnderscore then ['_'] else [])
    && (lastUnderscore ==> Words(s) != [])
    && (Words(s) != [] ==> s != [] && (lastUnderscore <==> !Alphanumeric(ToLower(s[|s| - 1]))))
  }

  lemma WordsStep(s: string, next: char)
    ensures var c, words := ToLower(next), Words(s);
            if !Alphanumeric(c) then Words(s + [next]) == words
            else if s != [] && Alphanumeric(ToLower(s[|s| - 1]))
            then words != [] && Words(s + [next]) == words[..|words| - 1] + [words[|words| - 1] + [c]]
            else Words(s + [next]) == words + [[c]]
  {
    var longer := s + [next];
    WordsUnfold(longer);
    hide ToLower, Alphanumeric, Words;
    assert longer[..|longer| - 1] == s && longer[|longer| - 1] == next;
  }

  lemma WordsUnfold(s: string)
    requires s != []
    ensures var front, c := s[..|s| - 1], ToLower(s[|s| - 1]);
            var words := Words(front);
            Words(s) ==
              if !Alphanumeric(c) then words
              else if front != [] && Alphanumeric(ToLower(front[|front| - 1]))
              then words[..|words| - 1] + [words[|words| - 1] + [c]]
              else words + [[c]]
  {
    hide ToLower, Alphanumeric;
  }

  lemma ScanLetter(s: string, next: char, output: string, lastUnderscore: bool)
    requires Scanned(s, output, lastUnderscore) && Alphanumeric(ToLower(next))
    ensures Scanned(s + [next], output + [ToLower(next)], false)
  {
    hide Joined, Words, ToLower, Alphanumeric;
    var c, words := ToLower(next), Words(s);
    WordsStep(s, next);
    JoinedWords(s);
    if s != [] && Alphanumeric(ToLower(s[|s| - 1])) {
      JoinedExtend(words, c);
      assert !lastUnderscore && output == Joined(words);
    } else {
      JoinedAppend(words, [c]);
    }
  }

  lemma ScanOther(s: string, next: char, output: string, lastUnderscore: bool)
    requires Scanned(s, output, lastUnderscore) && !Alphanumeric(ToLower(next))
    ensures if output != [] && !lastUnderscore then Scanned(s + [next], output + ['_'], true)
            else Scanned(s + [next], output, lastUnderscore)
  {
    hide Joined, Words, ToLower, Alphanumeric;
    WordsStep(s, next);
    JoinedWords(s);
  }

  lemma ScanEnd(s: string, output: string, lastUnderscore: bool)
    requires Scanned(s, output, lastUnderscore)
    ensures TrimRight(output) == Joined(Words(s))
  {
    hide Joined, Words;
    JoinedWords(s);
    var body := Joined(Words(s));
    if lastUnderscore {
      assert output[..|output| - 1] == body;
    }
  }

  lemma JoinedWords(s: string)
    ensures Joined(Words(s)) != [] ==> Joined(Words(s))[|Joined(Words(s))| - 1] != '_'
    ensures Joined(Words(s)) == [] <==> Words(s) == []
  {
    WordsAreWords(s);
    JoinedShape(Words(s));
  }

  /** `identifier`: one pass with a pending-underscore flag. */
  method Identifier(value: string) returns (normalized: string)
    ensures normalized == IdentifierOf(value)
  {
    hide Joined, Words, TrimRight;
    var output: string := [];
    var lastUnderscore := false;
    ScanStart();
    for i := 0 to |value|
      invariant Scanned(value[..i], output, lastUnderscore)
    {
      var c := ToLower(value[i]);
      assert value[..i + 1] == value[..i] + [value[i]];
      if Alphanumeric(c) {
        ScanLetter(value[..i], value[i], output, lastUnderscore);
        output := output + [c];
        lastUnderscore := false;
      } else {
        ScanOther(value[..i], value[i], output, lastUnderscore);
        if output != [] && !lastUnderscore {
          output := output + ['_'];
          lastUnderscore := true;
        }
      }
    }
    assert value[..|value|] == value;
    ScanEnd(value, output, lastUnderscore);
    normalized := TrimRight(output);
    if normalized != [] && '0' <= normalized[0] <= '9' {
      normalized := "w_" + normalized;
    }
  }

  lemma ScanStart()
    ensures Scanned([], [], false)
  {
  }

  /** `strings.Trim(s, "_")` on a string that does not start with an underscore. */
  function TrimRight(s: string): (t: string)
    ensures t <= s
    ensures t != [] ==> t[|t| - 1] != '_'
    ensures s != [] && s[0] != '_' ==> t != []
    ensures s != [] && s[|s| - 1] != '_' ==> t == s
    ensures |s| > 1 && s[|s| - 1] == '_' && s[|s| - 2] != '_' ==> t == s[..|s| - 1]
  {
    if s != [] && s[|s| - 1] == '_' then TrimRight(s[..|s| - 1]) else s
  }

  predicate SafeUpstreamLabel(value: string) {
    && 0 < |value| <= 32
    && forall i :: 0 <= i < |value| ==>
         Alphanumeric(value[i]) || 'A' <= value[i] <= 'Z' || value[i] in "_-."
  }

  datatype RawWindow = RawWindow(resetsAt: Option<int>, usedPercent: Option<int>, durationMinutes: Option<int>)

  datatype RawSnapshot = RawSnapshot(limitName: Option<string>, limitId: Option<string>,
                                     primary: Option<RawWindow>, secondary: Option<RawWindow>)

  datatype NamedSnapshot = NamedSnapshot(name: string, value: RawSnapshot)

  predicate Usable(candidate: Option<string>) {
    candidate.Some? && SafeUpstreamLabel(candidate.value) && IdentifierOf(candidate.value) != []
  }

  /** A label that is safe and has a letter or a digit. */
  ghost predicate Named(given: Option<string>) {
    given.Some? && SafeUpstreamLabel(given.value) && exists i :: 0 <= i < |given.value| && Alphanumeric(ToLower(given.value[i]))
  }

  lemma NamedIsUsable(given: Option<string>)
    ensures Named(given) <==> Usable(given)
  {
    if given.Some? {
      IdentifierShape(given.value);
    }
  }

  function WindowBase(snapshot: RawSnapshot, fallback: string): (base: string)
    ensures BaseShape(base)
  {
    if Usable(snapshot.limitName) then IdentifierShape(snapshot.limitName.value); IdentifierOf(snapshot.limitName.value)
    else if Usable(snapshot.limitId) then IdentifierShape(snapshot.limitId.value); IdentifierOf(snapshot.limitId.value)
    else if Usable(Some(fallback)) then IdentifierShape(fallback); IdentifierOf(fallback)
    else "codex"
  }

  /** `safeWindowBase`: the first safe label with a non-empty identifier. */
  method SafeWindowBase(snapshot: RawSnapshot, fallback: string) returns (base: string)
    ensures base == WindowBase(snapshot, fallback)
    ensures var labels := [snapshot.limitName, snapshot.limitId, Some(fallback)];
            if exists i :: 0 <= i < 3 && Named(labels[i])
            then exists i :: 0 <= i < 3 && Named(labels[i]) && base == IdentifierOf(labels[i].value)
                             && forall j :: 0 <= j < i ==> !Named(labels[j])
            else base == "codex"
  {
    hide IdentifierOf, SafeUpstreamLabel, BaseShape, Named;
    var candidates := [snapshot.limitName, snapshot.limitId, Some(fallback)];
    NamedIsUsable(candidates[0]);
    NamedIsUsable(candidates[1]);
    NamedIsUsable(candidates[2]);
    for i := 0 to 3
      invariant forall j :: 0 <= j < i ==> !Usable(candidates[j])
    {
      assert candidates[0] == snapshot.limitName && candidates[1] == snapshot.limitId;
      if candidates[i].Some? && SafeUpstreamLabel(candidates[i].value) {
        var normalized := Identifier(candidates[i].value);
        if normalized != [] {
          assert Usable(candidates[i]);
          assert i >= 1 ==> !Usable(candidates[0]);
          assert i >= 2 ==> !Usable(candidates[1]);
          return normalized;
        }
      }
    }
    assert !Usable(candidates[0]) && !Usable(candidates[1]) && !Usable(candidates[2]);
    base := "codex";
  }

  // --------------------------------------------------------- unique names

  function Digits(n: nat): (d: string)
    ensures d != [] && forall i :: 0 <= i < |d| ==> '0' <= d[i] <= '9'
  {
    if n < 10 then [n as char + '0'] else Digits(n / 10) + [(n % 10) as char + '0']
  }

  lemma {:induction false} DigitsInjective(m: nat, n: nat)
    requires Digits(m) == Digits(n)
    ensures m == n
  {
    var d := Digits(m);
    if m < 10 || n < 10 {
      assert |d| == 1;
      DigitsOne(m);
      DigitsOne(n);
    } else {
      assert d[..|d| - 1] == Digits(m / 10) == Digits(n / 10);
      assert d[|d| - 1] == (m % 10) as char + '0' == (n % 10) as char + '0';
      DigitsInjective(m / 10, n / 10);
    }
  }

  lemma DigitsOne(n: nat)
    requires |Digits(n)| == 1
    ensures n < 10 && Digits(n) == [n as char + '0']
  {
  }

  lemma {:induction false} DigitsWidth(n: nat, k: nat)
    requires k > 0 && n < Pow10(k)
    ensures |Digits(n)| <= k
  {
    if n >= 10 {
      assert k > 1 by { assert Pow10(0) == 1 && Pow10(1) == 10; }
      DigitsWidth(n / 10, k - 1);
    }
  }

  /** The n-th name tried: the plain name, then the name cut to carry a number. */
  function Candidate(name: string, n: nat): string
    requires n > 0 && |Digits(n)| < MAXIMUM_NAME
  {
    if n == 1 then name
    else
      var extra := "_" + Digits(n);
      var kept := if |name| + |extra| > MAXIMUM_NAME && MAXIMUM_NAME - |extra| <= |name|
                  then name[..MAXIMUM_NAME - |extra|] else name;
      kept + extra
  }

  /** Numbered candidates never coincide: digits follow the last underscore. */
  lemma CandidatesDiffer(name: string, m: nat, n: nat)
    requires 1 < m && 1 < n && |Digits(m)| < MAXIMUM_NAME && |Digits(n)| < MAXIMUM_NAME
    requires Candidate(name, m) == Candidate(name, n)
    ensures m == n
  {
    var c, d, e := Candidate(name, m), Digits(m), Digits(n);
    assert c[|c| - |d|..] == d && c[|c| - |e|..] == e;
    EndsInDigits(c, d, e);
    EndsInDigits(c, e, d);
    DigitsInjective(m, n);
  }

  lemma EndsInDigits(c: string, short: string, long: string)
    requires |long| < |c| && c[|c| - |long|..] == long
    requires |short| < |c| && c[|c| - |short| - 1] == '_'
    requires forall i :: 0 <= i < |long| ==> long[i] != '_'
    ensures |short| >= |long|
  {
    forall k | |c| - |long| <= k < |c|
      ensures c[k] != '_'
    {
      assert c[k] == c[|c| - |long|..][k - (|c| - |long|)];
    }
  }

  lemma CandidateIsSafe(base: string, suffix: string, n: nat)
    requires BaseShape(base) && suffix in ["primary", "secondary"]
    requires |base| <= MAXIMUM_NAME - |suffix| - 1
    requires n > 0 && |Digits(n)| <= MAXIMUM_NAME - 2
    ensures SafeIdentifier(Candidate(base + "_" + suffix, n), MAXIMUM_NAME)
  {
    var name := base + "_" + suffix;
    assert forall i :: 0 <= i < |suffix| ==> Alphanumeric(suffix[i]);
    assert SafeIdentifier(name, MAXIMUM_NAME);
  }

  lemma TriedStart(plain: string, used: set<string>)
    ensures TriedBefore(plain, used, 1)
  {
  }

  lemma TriedNext(plain: string, used: set<string>, n: nat)
    requires 0 < n && TriedBefore(plain, used, n)
    requires |Digits(n)| < MAXIMUM_NAME && Candidate(plain, n) in used
    ensures TriedBefore(plain, used, n + 1)
  {
  }

  /** A finite used set cannot hold every candidate: the loop has to stop. */
  lemma SomeCandidateIsFree(name: string, seen: set<string>, used: set<string>, k: nat)
    requires 2 <= k && forall i :: 2 <= i < k ==> |Digits(i)| < MAXIMUM_NAME
    requires seen == set i | 2 <= i < k :: Candidate(name, i)
    requires seen <= used
    ensures |seen| == k - 2 && k - 2 <= |used|
  {
    CandidateCount(name, k);
    Subset(seen, used);
  }

  lemma Subset<T>(a: set<T>, b: set<T>)
    requires a <= b
    ensures |a| <= |b|
  {
    assert b == a + (b - a);
  }

  lemma {:induction false} CandidateCount(name: string, k: nat)
    requires 2 <= k && forall i :: 2 <= i < k ==> |Digits(i)| < MAXIMUM_NAME
    ensures |set i | 2 <= i < k :: Candidate(name, i)| == k - 2
  {
    var all := set i | 2 <= i < k :: Candidate(name, i);
    if k == 2 {
      assert all == {};
    } else {
      var front, last := set i | 2 <= i < k - 1 :: Candidate(name, i), Candidate(name, k - 1);
      CandidateCount(name, k - 1);
      if last in front {
        var i :| 2 <= i < k - 1 && Candidate(name, i) == last;
        CandidatesDiffer(name, i, k - 1);
      }
      assert all == front + {last};
    }
  }

  /** `name` is the first candidate outside `used`. */
  ghost predicate FirstFree(plain: string, used: set<string>, name: string) {
    exists n: nat :: 0 < n && |Digits(n)| < MAXIMUM_NAME && name == Candidate(plain, n) && name !in used
                     && TriedBefore(plain, used, n)
  }

  ghost predicate TriedBefore(plain: string, used: set<string>, n: nat) {
    forall m :: 0 < m < n ==> |Digits(m)| < MAXIMUM_NAME && Candidate(plain, m) in used
  }

  lemma TriedBound(plain: string, used: set<string>, n: nat)
    requires 2 <= n && TriedBefore(plain, used, n)
    ensures n - 2 <= |used|
  {
    var seen := set i | 2 <= i < n :: Candidate(plain, i);
    SomeCandidateIsFree(plain, seen, used, n);
  }

  /**
    `uniqueWindowName`: the first candidate that is not in use. The bound on
    `used` is what keeps the number short enough to leave one character.
  */
  method UniqueWindowName(base: string, suffix: string, used: set<string>)
    returns (name: string, used': set<string>)
    requires BaseShape(base) && suffix in ["primary", "secondary"]
    requires |used| + 2 < Pow10(22)
    ensures name !in used && used' == used + {name}
    ensures SafeIdentifier(name, MAXIMUM_NAME)
    ensures FirstFree(CutBase(base, suffix) + "_" + suffix, used, name)
  {
    hide Digits, Pow10, SafeIdentifier, BaseShape, TriedBefore, TrimRight, CutBase;
    var cut := CutBase(base, suffix);
    name := cut + "_" + suffix;
    SmallNumbers();
    CandidateIsSafe(cut, suffix, 1);
    TriedStart(name, used);
    if name !in used {
      return name, used + {name};
    }
    var plain := name;
    TriedNext(plain, used, 1);
    var sequence: nat := 2;
    while true
      invariant 2 <= sequence && TriedBefore(plain, used, sequence)
      decreases |used| + 2 - sequence
    {
      TriedBound(plain, used, sequence);
      DigitsWidth(sequence, 22);
      var extra := "_" + Digits(sequence);
      var candidate := plain;
      if |candidate| + |extra| > MAXIMUM_NAME {
        candidate := candidate[..MAXIMUM_NAME - |extra|];
      }
      candidate := candidate + extra;
      CandidateIsSafe(cut, suffix, sequence);
      if candidate !in used {
        return candidate, used + {candidate};
      }
      TriedNext(plain, used, sequence);
      sequence := sequence + 1;
      TriedBound(plain, used, sequence);
    }
  }

  /** A base that fits is kept; a longer one is cut to the room there is, and then loses its underscores at the end. */
  lemma CutBaseMeans(base: string, suffix: string)
    requires BaseShape(base) && suffix in ["primary", "secondary"]
    ensures var cut, room := CutBase(base, suffix), 23 - |suffix|;
            && (|base| <= room ==> cut == base)
            && (|base| > room ==> cut <= base[..room] && cut[|cut| - 1] != '_' && forall k :: |cut| <= k < room ==> base[k] == '_')
  {
    var room := 23 - |suffix|;
    if |base| > room {
      TrimMeans(base[..room]);
    }
  }

  lemma {:induction false} TrimMeans(s: string)
    ensures var t := TrimRight(s); t <= s && forall k :: |t| <= k < |s| ==> s[k] == '_'
  {
    if s != [] && s[|s| - 1] == '_' {
      TrimMeans(s[..|s| - 1]);
    }
  }

  /** Number `n` of the names tried: the plain name first, then its longest possible beginning with a number. */
  lemma CandidateMeans(name: string, n: nat)
    requires n > 0 && |Digits(n)| < 24 && |name| <= 24
    ensures n == 1 ==> Candidate(name, n) == name
    ensures n > 1 ==> var c, d := Candidate(name, n), Digits(n);
            var kept := |c| - |d| - 1;
            && 0 <= kept <= |name| && c == name[..kept] + "_" + d && (kept == |name| || |c| == 24) && |c| <= 24
    ensures Number(Digits(n)) == n
  {
    hide Number, Digits;
    DigitsNumber(n);
    if n > 1 && |name| + 1 + |Digits(n)| <= 24 {
      assert name[..|name|] == name;
    }
  }

  /** What a string of digits stands for. */
  function Number(d: string): int {
    if d == [] then 0 else 10 * Number(d[..|d| - 1]) + (d[|d| - 1] as int - '0' as int)
  }

  lemma {:induction false} DigitsNumber(n: nat)
    ensures Number(Digits(n)) == n
  {
    if n >= 10 {
      DigitsNumber(n / 10);
      var d := Digits(n);
      assert d[..|d| - 1] == Digits(n / 10);
    } else {
      assert Digits(n)[..0] == [];
    }
  }

  /** The base cut to leave room for the suffix; it keeps its first letter. */
  function CutBase(base: string, suffix: string): (cut: string)
    requires BaseShape(base) && suffix in ["primary", "secondary"]
    ensures BaseShape(cut) && |cut| <= MAXIMUM_NAME - |suffix| - 1
  {
    var maximum := MAXIMUM_NAME - |suffix| - 1;
    if |base| > maximum then TrimRight(base[..maximum]) else base
  }

  // ------------------------------------------------------------ the adapter

  predicate ValidRaw(raw: RawWindow) {
    && raw.usedPercent.Some? && 0 <= raw.usedPercent.value <= 100
    && (raw.durationMinutes.Some? ==> 1 <= raw.durationMinutes.value <= MAXIMUM_MINUTES)
    && (raw.resetsAt.Some? ==> 0 <= raw.resetsAt.value <= MAXIMUM_SAFE_INTEGER
                               && raw.resetsAt.value <= LAST_SECOND)
  }

  /** A published window that reports `raw`. */
  predicate Reports(w: Window, raw: RawWindow) {
    && raw.usedPercent.Some? && w.used == raw.usedPercent.value * 100
    && w.remaining == FULL - w.used
    && w.minutes == (if raw.durationMinutes.Some? && raw.durationMinutes.value >= 0
                     then Some(raw.durationMinutes.value) else None)
    && w.resetsAt == raw.resetsAt
  }

  /** `normalizeWindow`. */
  function NormalizeWindow(name: string, raw: RawWindow): (r: Result<Window, Error>)
    ensures r.Success? <==> ValidRaw(raw)
    ensures r.Success? ==> r.value.name == name && Reports(r.value, raw)
    ensures r.Success? && SafeIdentifier(name, MAXIMUM_NAME) ==> Accepts(r.value)
  {
    if raw.usedPercent.None? || raw.usedPercent.value < 0 || raw.usedPercent.value > 100
    then Failure(SchemaChanged)
    else
      var used := raw.usedPercent.value * 100;
      if raw.durationMinutes.Some? && !(1 <= raw.durationMinutes.value <= MAXIMUM_MINUTES)
      then Failure(SchemaChanged)
      else if raw.resetsAt.Some? && (raw.resetsAt.value < 0 || raw.resetsAt.value > MAXIMUM_SAFE_INTEGER)
      then Failure(SchemaChanged)
      else if raw.resetsAt.Some? && raw.resetsAt.value > LAST_SECOND
      then Failure(SchemaChanged)
      else
        var minutes := if raw.durationMinutes.Some? then Some(raw.durationMinutes.value as nat) else None;
        Success(Window(name, used, FULL - used, minutes, raw.resetsAt))
  }

  function PresentIn(snapshot: RawSnapshot): seq<RawWindow> {
    (if snapshot.primary.Some? then [snapshot.primary.value] else [])
    + (if snapshot.secondary.Some? then [snapshot.secondary.value] else [])
  }

  /** The raw windows of all snapshots, primary before secondary. */
  function Present(snapshots: seq<NamedSnapshot>): seq<RawWindow> {
    if snapshots == [] then []
    else Present(snapshots[..|snapshots| - 1]) + PresentIn(snapshots[|snapshots| - 1].value)
  }

  function Names(ws: seq<Window>): set<string> {
    set w | w in ws :: w.name
  }

  ghost predicate Faithful(ws: seq<Window>, raws: seq<RawWindow>) {
    && |ws| == |raws| <= MAXIMUM_WINDOWS && Distinct(ws)
    && forall i :: 0 <= i < |ws| ==> Accepts(ws[i]) && ValidRaw(raws[i]) && Reports(ws[i], raws[i])
  }

  lemma {:induction false} NamesBound(ws: seq<Window>)
    ensures |Names(ws)| <= |ws|
  {
    if ws == [] {
      assert Names(ws) == {};
    } else {
      var front := ws[..|ws| - 1];
      NamesBound(front);
      assert ws == front + [ws[|ws| - 1]];
      assert Names(ws) == Names(front) + {ws[|ws| - 1].name};
    }
  }

  method AddWindow(base: string, suffix: string, raw: RawWindow, ws: seq<Window>, used: set<string>,
                   ghost raws: seq<RawWindow>)
    returns (r: Result<seq<Window>, Error>, used': set<string>)
    requires BaseShape(base) && suffix in ["primary", "secondary"]
    requires Faithful(ws, raws) && used == Names(ws)
    ensures r.Success? <==> ValidRaw(raw) && |ws| < MAXIMUM_WINDOWS
    ensures r.Success? ==> Faithful(r.value, raws + [raw]) && used' == Names(r.value)
  {
    hide SafeIdentifier, BaseShape, Pow10, FirstFree, Faithful, Names, ValidRaw, Accepts, Reports;
    FaithfulLength(ws, raws);
    NamesBound(ws);
    SmallNumbers();
    var name: string;
    name, used' := UniqueWindowName(base, suffix, used);
    var window := NormalizeWindow(name, raw);
    if window.Failure? {
      return Failure(window.error), used';
    }
    var windows := ws + [window.value];
    if |windows| > MAXIMUM_WINDOWS {
      return Failure(SchemaChanged), used';
    }
    FaithfulAppend(ws, raws, window.value, raw);
    r := Success(windows);
  }

  lemma FaithfulStart()
    ensures Faithful([], []) && Names([]) == {} && Present([]) == []
  {
  }

  lemma FaithfulWhole(ws: seq<Window>, raws: seq<RawWindow>)
    requires Faithful(ws, raws)
    ensures |raws| <= MAXIMUM_WINDOWS && AllValid(raws)
  {
  }

  lemma PresentStep(snapshots: seq<NamedSnapshot>, i: nat)
    requires i < |snapshots|
    ensures Present(snapshots[..i + 1]) == Present(snapshots[..i]) + PresentIn(snapshots[i].value)
  {
    assert snapshots[..i + 1][..i] == snapshots[..i];
  }

  lemma FaithfulLength(ws: seq<Window>, raws: seq<RawWindow>)
    requires Faithful(ws, raws)
    ensures |ws| == |raws| <= MAXIMUM_WINDOWS
  {
  }

  lemma FaithfulAppend(ws: seq<Window>, raws: seq<RawWindow>, w: Window, raw: RawWindow)
    requires Faithful(ws, raws) && |ws| < MAXIMUM_WINDOWS
    requires w.name !in Names(ws) && Accepts(w) && ValidRaw(raw) && Reports(w, raw)
    ensures Faithful(ws + [w], raws + [raw]) && Names(ws + [w]) == Names(ws) + {w.name}
  {
    hide Accepts, ValidRaw, Reports;
    forall i | 0 <= i < |ws|
      ensures ws[i].name != w.name
    {
      assert ws[i] in ws && ws[i].name in Names(ws);
    }
    var longer := ws + [w];
    forall x | x in Names(longer)
      ensures x in Names(ws) + {w.name}
    {
      var v :| v in longer && v.name == x;
      assert v in ws || v == w;
    }
    assert w in longer && forall v :: v in ws ==> v in longer;
  }

  lemma SmallNumbers()
    ensures |Digits(1)| == 1 && Pow10(22) >= 10
  {
    assert Pow10(1) == 10 by { assert Pow10(0) == 1; }
    Pow10Grows(1, 22);
  }

  lemma {:induction false} Pow10Grows(a: nat, b: nat)
    requires a <= b
    ensures Pow10(a) <= Pow10(b)
  {
    if a < b {
      Pow10Grows(a, b - 1);
    }
  }

  ghost predicate AllValid(raws: seq<RawWindow>) {
    forall raw :: raw in raws ==> ValidRaw(raw)
  }

  lemma {:induction false} PresentPrefix(snapshots: seq<NamedSnapshot>, k: nat)
    requires k <= |snapshots|
    ensures Present(snapshots[..k]) <= Present(snapshots)
  {
    if k < |snapshots| {
      var front := snapshots[..|snapshots| - 1];
      PresentPrefix(front, k);
      assert front[..k] == snapshots[..k];
    } else {
      assert snapshots[..k] == snapshots;
    }
  }

  /**
    `normalizeSnapshots`: at most four windows with different names, each
    acceptable to the consumer and each reporting its own raw window.
  */
  method NormalizeSnapshots(snapshots: seq<NamedSnapshot>) returns (r: Result<seq<Window>, Error>)
    ensures r.Success? <==> |Present(snapshots)| <= MAXIMUM_WINDOWS && AllValid(Present(snapshots))
    ensures r.Success? ==> Faithful(r.value, Present(snapshots))
    ensures r.Failure? ==> r.error == SchemaChanged
  {
    hide Faithful, Names, Present, ValidRaw, Accepts, Reports, BaseShape, WindowBase;
    FaithfulStart();
    var windows: seq<Window> := [];
    var used: set<string> := {};
    for i := 0 to |snapshots|
      invariant Faithful(windows, Present(snapshots[..i])) && used == Names(windows)
    {
      var snapshot := snapshots[i];
      ghost var before, whole := Present(snapshots[..i]), Present(snapshots[..i + 1]);
      PresentStep(snapshots, i);
      PresentPrefix(snapshots, i + 1);
      var base := SafeWindowBase(snapshot.value, snapshot.name);
      ghost var raws := before;
      if snapshot.value.primary.Some? {
        var added;
        FaithfulLength(windows, raws);
        added, used := AddWindow(base, "primary", snapshot.value.primary.value, windows, used, raws);
        raws := raws + [snapshot.value.primary.value];
        Rejected(snapshots, raws, added.Failure?);
        if added.Failure? {
          return Failure(SchemaChanged);
        }
        windows := added.value;
      }
      if snapshot.value.secondary.Some? {
        var added;
        FaithfulLength(windows, raws);
        added, used := AddWindow(base, "secondary", snapshot.value.secondary.value, windows, used, raws);
        raws := raws + [snapshot.value.secondary.value];
        Rejected(snapshots, raws, added.Failure?);
        if added.Failure? {
          return Failure(SchemaChanged);
        }
        windows := added.value;
      }
      assert raws == whole;
    }
    assert snapshots[..|snapshots|] == snapshots;
    FaithfulWhole(windows, Present(snapshots));
    r := Success(windows);
  }

  /** A prefix that is too long or has a bad last window spoils the whole. */
  lemma Rejected(snapshots: seq<NamedSnapshot>, raws: seq<RawWindow>, failed: bool)
    requires raws != [] && raws <= Present(snapshots)
    requires failed ==> !ValidRaw(raws[|raws| - 1]) || |raws| > MAXIMUM_WINDOWS
    ensures failed ==> |Present(snapshots)| > MAXIMUM_WINDOWS || !AllValid(Present(snapshots))
  {
    assert raws[|raws| - 1] == Present(snapshots)[|raws| - 1];
    assert raws[|raws| - 1] in Present(snapshots);
  }

  // ------------------------------------------------------------- Cursor

  /** `basisPoints`: used/limit in ten-thousandths, rounded half up and clamped. */
  function BasisPoints(used: int, limit: int): (bp: nat)
    requires -0x8000_0000 <= used < 0x8000_0000 && -0x8000_0000 <= limit < 0x8000_0000
    ensures bp <= FULL
  {
    if used <= 0 || limit <= 0 then 0
    else if used >= limit then FULL
    else
      RoundingBound(used, limit);
      (used * FULL + limit / 2) / limit
  }

  lemma RoundingBound(used: int, limit: int)
    requires 0 < used < limit
    ensures 0 <= (used * FULL + limit / 2) / limit <= FULL
  {
    var n := used * FULL + limit / 2;
    var q := n / limit;
    assert n == q * limit + n % limit;
    CancelLess(q, FULL + 1, limit);
    CancelLess(-1, q, limit);
  }

  /** Within half a basis point of the true ratio, on every sensible input. */
  lemma BasisPointsAccuracy(used: int, limit: int)
    requires 0 <= used <= limit && 0 < limit < 0x8000_0000
    ensures -limit <= 2 * (BasisPoints(used, limit) * limit - used * FULL) <= limit
  {
    if 0 < used < limit {
      var n := used * FULL + limit / 2;
      assert n == (n / limit) * limit + n % limit;
    } else if used == 0 {
      assert BasisPoints(used, limit) == 0;
    } else {
      assert BasisPoints(used, limit) == FULL;
    }
  }

  /** More spending never shows as less. */
  lemma BasisPointsMonotone(a: int, b: int, limit: int)
    requires -0x8000_0000 <= a <= b < 0x8000_0000 && -0x8000_0000 <= limit < 0x8000_0000
    ensures BasisPoints(a, limit) <= BasisPoints(b, limit)
  {
    if 0 < a && b < limit {
      QuotientMonotone(a * FULL + limit / 2, b * FULL + limit / 2, limit);
    }
  }

  lemma QuotientMonotone(m: int, n: int, d: int)
    requires m <= n && d > 0
    ensures m / d <= n / d
  {
    var p, q := m / d, n / d;
    assert m == p * d + m % d && n == q * d + n % d;
    CancelLess(p, q + 1, d);
  }

  lemma CancelLess(a: int, b: int, d: int)
    requires d > 0 && a * d < b * d
    ensures a < b
  {
  }

  datatype Usage = Usage(enabled: bool, cycleStart: int, cycleEnd: int,
                         plan: Option<(int, int)>, individual: Option<(int, Option<int>)>)

  predicate Int32(n: int) { -0x8000_0000 <= n < 0x8000_0000 }

  /** What `validPrivateUsageResponse` has already checked, in milliseconds. */
  predicate Validated(u: Usage) {
    && 0 < u.cycleStart < u.cycleEnd <= LAST_SECOND * 1000 + 999
    && (u.plan.Some? ==> Int32(u.plan.value.0) && Int32(u.plan.value.1))
    && (u.individual.Some? ==> Int32(u.individual.value.0))
    && (u.individual.Some? && u.individual.value.1.Some? ==> Int32(u.individual.value.1.value))
  }

  /** The window part of `normalizeProvider`. */
  function CursorWindows(u: Usage): (r: Result<seq<Window>, Error>)
    requires Validated(u)
  {
    if !u.enabled || u.plan.None? || u.plan.value.1 <= 0 then Failure(Unavailable)
    else
      var duration := u.cycleEnd - u.cycleStart;
      var minutes := duration / 60_000;
      if duration % 60_000 != 0 || minutes <= 0 || minutes > MAXIMUM_MINUTES then Failure(SchemaChanged)
      else
        var used := BasisPoints(u.plan.value.0, u.plan.value.1);
        var billing := Window("billing", used, FULL - used, Some(minutes), Some(u.cycleEnd / 1000));
        if u.individual.Some? && u.individual.value.1.Some? && u.individual.value.1.value > 0 then
          var limitUsed := BasisPoints(u.individual.value.0, u.individual.value.1.value);
          Success([billing, Window("spend_limit", limitUsed, FULL - limitUsed, None, None)])
        else Success([billing])
  }

  /** The share of a limit that is used: none, all, or within half a ten-thousandth. */
  predicate IsShare(w: Window, used: int, limit: int) {
    && w.used + w.remaining == 10_000
    && (used <= 0 ==> w.used == 0) && (used >= limit ==> w.used == 10_000)
    && (0 < used < limit ==> -limit <= 2 * (w.used * limit - used * 10_000) <= limit)
  }

  /** When there are windows, and what each reports. */
  lemma CursorWindowsMean(u: Usage)
    requires Validated(u)
    ensures CursorWindows(u) == Failure(Unavailable) <==> !u.enabled || u.plan.None? || u.plan.value.1 <= 0
    ensures CursorWindows(u).Success? <==>
              && u.enabled && u.plan.Some? && u.plan.value.1 > 0
              && (u.cycleEnd - u.cycleStart) % 60_000 == 0 && (u.cycleEnd - u.cycleStart) / 60_000 <= 525_600
    ensures CursorWindows(u).Success? ==>
              var ws := CursorWindows(u).value;
              && ws != [] && ws[0].name == "billing" && IsShare(ws[0], u.plan.value.0, u.plan.value.1)
              && ws[0].minutes == Some((u.cycleEnd - u.cycleStart) / 60_000) && ws[0].resetsAt == Some(u.cycleEnd / 1000)
              && (if u.individual.Some? && u.individual.value.1.Some? && u.individual.value.1.value > 0
                  then |ws| == 2 && ws[1].name == "spend_limit" && ws[1].minutes.None? && ws[1].resetsAt.None?
                       && IsShare(ws[1], u.individual.value.0, u.individual.value.1.value)
                  else |ws| == 1)
  {
    hide IsShare, BasisPoints;
    if CursorWindows(u).Success? {
      var ws := CursorWindows(u).value;
      ShareOf(ws[0], u.plan.value.0, u.plan.value.1);
      if |ws| == 2 {
        ShareOf(ws[1], u.individual.value.0, u.individual.value.1.value);
      }
    }
  }

  lemma ShareOf(w: Window, used: int, limit: int)
    requires Int32(used) && Int32(limit) && limit > 0
    requires w.used == BasisPoints(used, limit) && w.remaining == FULL - w.used
    ensures IsShare(w, used, limit)
  {
    if 0 < used < limit {
      BasisPointsAccuracy(used, limit);
    }
  }

  lemma CursorWindowsAccepted(u: Usage)
    requires Validated(u) && CursorWindows(u).Success?
    ensures var ws := CursorWindows(u).value;
            1 <= |ws| <= MAXIMUM_WINDOWS && Distinct(ws) && forall i :: 0 <= i < |ws| ==> Accepts(ws[i])
  {
    assert SafeIdentifier("billing", MAXIMUM_NAME) && SafeIdentifier("spend_limit", MAXIMUM_NAME);
    var ws := CursorWindows(u).value;
    if |ws| == 2 {
      assert |ws[0].name| != |ws[1].name|;
    }
  }
}
