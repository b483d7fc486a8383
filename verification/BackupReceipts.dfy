/**
  Preview receipts (`issuePreview` and `consumePreview` of `backup/service.go`).
  The log of issues and presentations shows what each receipt was good for.
*/
module BackupReceipts {
  import opened Wrappers
  import opened BackupModel
  import opened BackupChoices

  const LIFETIME := 600_000_000_000  // ten minutes, in nanoseconds
  const MAXIMUM_LIVE := 64
  const TRIES := 8

  type Token = nat
  type Archive = string

  /** Digests are injective here: a receipt holds what the source keeps digests of. */
  datatype Receipt = Receipt(archive: Archive, configuration: Configuration, mode: Mode, expiresAt: int)

  datatype Event =
    | Issued(token: Token, receipt: Receipt)
    | Presented(token: Token, archive: Archive, configuration: Configuration, mode: Mode, now: int, accepted: bool)

  predicate Matches(r: Receipt, archive: Archive, configuration: Configuration, mode: Mode, now: int) {
    now < r.expiresAt && r.mode == mode && r.archive == archive && r.configuration == configuration
  }

  /** No event of the token is in `log[from..to]`. */
  predicate Untouched(log: seq<Event>, token: Token, from: int, to: int) {
    forall i :: from <= i < to && 0 <= i < |log| ==> log[i].token != token
  }

  /** The presentation `c` was accepted on the strength of the issue `i`. */
  predicate Authorises(log: seq<Event>, i: nat, c: nat) {
    && i < c < |log| && log[c].Presented? && log[c].accepted
    && log[i].Issued? && log[i].token == log[c].token
    && Matches(log[i].receipt, log[c].archive, log[c].configuration, log[c].mode, log[c].now)
    && Untouched(log, log[c].token, i + 1, c)
  }

  ghost predicate LogOk(log: seq<Event>) {
    forall c :: 0 <= c < |log| && log[c].Presented? && log[c].accepted ==> exists i: nat :: Authorises(log, i, c)
  }

  /** Issued and not presented since. */
  ghost predicate Live(log: seq<Event>, token: Token, r: Receipt) {
    exists i :: 0 <= i < |log| && log[i] == Issued(token, r) && Untouched(log, token, i + 1, |log|)
  }

  /** Each issue authorises at most one import, of the same archive, mode and configuration, before it expires. */
  lemma IssueAuthorisesOnce(log: seq<Event>, b: nat, c: nat, i: nat)
    requires Authorises(log, i, b) && Authorises(log, i, c)
    ensures b == c
    ensures log[i].receipt.archive == log[c].archive && log[i].receipt.mode == log[c].mode
    ensures log[i].receipt.configuration == log[c].configuration && log[c].now < log[i].receipt.expiresAt
  {
  }

  function Count(log: seq<Event>, token: Token, issued: bool): nat {
    if log == [] then 0
    else
      var e := log[|log| - 1];
      Count(log[..|log| - 1], token, issued)
      + if e.token == token && (if issued then e.Issued? else e.Presented? && e.accepted) then 1 else 0
  }

  /** The token's last event is an issue. */
  predicate Open(log: seq<Event>, token: Token) {
    log != [] && if log[|log| - 1].token == token then log[|log| - 1].Issued? else Open(log[..|log| - 1], token)
  }

  lemma {:induction false} LastIssueIsOpen(log: seq<Event>, token: Token, i: nat)
    requires i < |log| && log[i].token == token && log[i].Issued? && Untouched(log, token, i + 1, |log|)
    ensures Open(log, token)
  {
    if i < |log| - 1 {
      assert log[..|log| - 1][i] == log[i] && log[|log| - 1].token != token;
      LastIssueIsOpen(log[..|log| - 1], token, i);
    }
  }

  /** With any token, no more imports are let through than receipts were issued. */
  lemma {:induction false} NoMoreImportsThanIssues(log: seq<Event>, token: Token)
    requires LogOk(log)
    ensures Count(log, token, false) + (if Open(log, token) then 1 else 0) <= Count(log, token, true)
  {
    if log != [] {
      var n := |log| - 1;
      var front, e := log[..n], log[n];
      forall c | 0 <= c < n && front[c].Presented? && front[c].accepted
        ensures exists i: nat :: Authorises(front, i, c)
      {
        assert log[c].accepted;
        var i: nat :| Authorises(log, i, c);
        assert Authorises(front, i, c);
      }
      NoMoreImportsThanIssues(front, token);
      if e.token == token && e.Presented? && e.accepted {
        var i: nat :| Authorises(log, i, n);
        LastIssueIsOpen(front, token, i);
      }
    }
  }

  lemma LogGrows(log: seq<Event>, e: Event)
    requires LogOk(log)
    requires e.Presented? && e.accepted ==>
               exists r :: Live(log, e.token, r) && Matches(r, e.archive, e.configuration, e.mode, e.now)
    ensures LogOk(log + [e])
  {
    var more := log + [e];
    forall c | 0 <= c < |more| && more[c].Presented? && more[c].accepted
      ensures exists i: nat :: Authorises(more, i, c)
    {
      if c < |log| {
        var i: nat :| Authorises(log, i, c);
        assert Authorises(more, i, c);
      } else {
        var r :| Live(log, e.token, r) && Matches(r, e.archive, e.configuration, e.mode, e.now);
        var i :| 0 <= i < |log| && log[i] == Issued(e.token, r) && Untouched(log, e.token, i + 1, |log|);
        assert Authorises(more, i, c);
      }
    }
  }

  lemma StaysLive(log: seq<Event>, e: Event, token: Token, r: Receipt)
    requires Live(log, token, r) && e.token != token
    ensures Live(log + [e], token, r)
  {
    var i :| 0 <= i < |log| && log[i] == Issued(token, r) && Untouched(log, token, i + 1, |log|);
    assert (log + [e])[i] == Issued(token, r) && Untouched(log + [e], token, i + 1, |log| + 1);
  }

  lemma NewIsLive(log: seq<Event>, token: Token, r: Receipt)
    ensures Live(log + [Issued(token, r)], token, r)
  {
    assert (log + [Issued(token, r)])[|log|] == Issued(token, r);
  }

  predicate IsPresentation(e: Event, token: Token, archive: Archive, configuration: Configuration, mode: Mode, accepted: bool) {
    && e.Presented? && e.token == token && e.archive == archive && e.configuration == configuration && e.mode == mode
    && e.accepted == accepted
  }

  /** The receipts that the purging loop leaves. */
  function Unexpired(previews: map<Token, Receipt>, now: int): map<Token, Receipt> {
    map t | t in previews && now < previews[t].expiresAt :: previews[t]
  }

  /** The token has been issued at some time. */
  ghost predicate WasIssued(log: seq<Event>, token: Token) {
    exists i :: 0 <= i < |log| && log[i].Issued? && log[i].token == token
  }

  class Previews {
    var previews: map<Token, Receipt>
    ghost var log: seq<Event>
    ghost var faults: nat  // failures of the random source or of a digest in the calls of this service

    ghost predicate Valid()
      reads this
    {
      |previews| <= MAXIMUM_LIVE && LogOk(log) && forall t :: t in previews ==> Live(log, t, previews[t])
    }

    constructor ()
      ensures Valid() && previews == map[] && log == []
    {
      previews, log, faults := map[], [], 0;
    }

    /** The loop that deletes expired receipts. */
    method Purge(now: int)
      requires Valid()
      modifies `previews
      ensures Valid()
      ensures previews == Unexpired(old(previews), now)
    {
      hide LogOk, Live;
      ghost var before := previews;
      var left := previews.Keys;
      while left != {}
        invariant left <= before.Keys && previews.Keys <= before.Keys
        invariant forall t :: t in previews <==> t in before && (t in left || now < before[t].expiresAt)
        invariant forall t :: t in previews ==> previews[t] == before[t]
        decreases left
      {
        var t :| t in left;
        left := left - {t};
        if !(now < previews[t].expiresAt) {
          previews := previews - {t};
        }
      }
      Fewer(previews.Keys, before.Keys);
    }

    /** One locked try of `issuePreview`: full, a collision, or issued. */
    method TryIssue(token: Token, now: int, archive: Archive, configuration: Configuration, mode: Mode)
      returns (full: bool, issued: bool)
      requires Valid()
      modifies `previews, `log
      ensures Valid()
      ensures full <==> |Unexpired(old(previews), now)| >= 64
      ensures forall t :: t in previews <==> (issued && t == token) || (t in old(previews) && now < old(previews)[t].expiresAt)
      ensures issued ==> previews[token] == Receipt(archive, configuration, mode, now + 600_000_000_000)
      ensures forall t :: t in previews && !(issued && t == token) ==> previews[t] == old(previews)[t]
      ensures issued <==> !full && token !in Unexpired(old(previews), now)
      ensures var receipt := Receipt(archive, configuration, mode, now + LIFETIME);
              && log == old(log) + (if issued then [Issued(token, receipt)] else [])
              && previews == (if issued then Unexpired(old(previews), now)[token := receipt] else Unexpired(old(previews), now))
    {
      hide LogOk, Live;
      Purge(now);
      if |previews| >= MAXIMUM_LIVE {
        return true, false;
      }
      if token in previews {
        return false, false;
      }
      var receipt := Receipt(archive, configuration, mode, now + LIFETIME);
      LogGrows(log, Issued(token, receipt));
      NewIsLive(log, token, receipt);
      forall t | t in previews
        ensures Live(log + [Issued(token, receipt)], t, previews[t])
      {
        StaysLive(log, Issued(token, receipt), t, previews[t]);
      }
      log := log + [Issued(token, receipt)];
      previews := previews[token := receipt];
      return false, true;
    }

    /** `issuePreview`; other requests may come between its tries, and the random source may fail. */
    method Issue(archive: Archive, configuration: Configuration, mode: Mode)
      returns (token: Option<Token>, ghost now: int, ghost full: bool, ghost collided: seq<Token>)
      requires Valid()
      modifies this
      ensures Valid() && old(log) <= log && faults >= old(faults)
      ensures token.None? ==> faults > old(faults) || full || |collided| == TRIES
      ensures full ==> |previews| == MAXIMUM_LIVE && forall t :: t in previews ==> now < previews[t].expiresAt
      ensures forall t :: t in collided ==> WasIssued(log, t)
      ensures token.Some? ==> token.value in previews && log != [] && log[|log| - 1].Issued?
                              && log[|log| - 1].token == token.value && log[|log| - 1].receipt == previews[token.value]
                              && previews[token.value] == Receipt(archive, configuration, mode, now + LIFETIME)
    {
      hide LogOk, Live, WasIssued;
      now, full, collided := 0, false, [];
      var digested := *;
      if !digested {
        faults := faults + 1;
        return None, now, full, collided;
      }
      var at: int := *;
      now := at;
      for i := 0 to TRIES
        invariant Valid() && old(log) <= log && faults == old(faults)
        invariant |collided| == i && !full && forall t :: t in collided ==> WasIssued(log, t)
      {
        var read := *;
        if !read {
          faults := faults + 1;
          return None, now, full, collided;
        }
        var random: Token :| true;
        ghost var before := log;
        Others();
        StillIssued(before, log, collided);
        LiveIsIssued();
        before := log;
        var filled, issued := TryIssue(random, at, archive, configuration, mode);
        StillIssued(before, log, collided);
        if filled {
          full := true;
          return None, now, full, collided;
        }
        if issued {
          return Some(random), now, full, collided;
        }
        LiveIsIssued();
        collided := collided + [random];
      }
      token := None;
    }

    lemma LiveIsIssued()
      requires Valid()
      ensures forall t :: t in previews ==> WasIssued(log, t)
    {
      forall t | t in previews
        ensures WasIssued(log, t)
      {
        assert Live(log, t, previews[t]);
      }
    }

    /**
      `consumePreview`: a receipt that is presented is used up, whether it matches
      or not. An ID that does not decode, or a failing digest, changes nothing.
    */
    method Consume(token: Option<Token>, archive: Archive, configuration: Configuration, mode: Mode) returns (ok: bool)
      requires Valid()
      modifies this
      ensures Valid() && old(log) <= log && old(faults) <= faults
      ensures ok ==> token.Some? && token.value in old(previews)
      ensures token.None? || faults > old(faults) ==> !ok && previews == old(previews) && log == old(log)
      ensures token.Some? && faults == old(faults) ==>
                && previews == old(previews) - {token.value}
                && |log| == |old(log)| + 1
                && IsPresentation(log[|old(log)|], token.value, archive, configuration, mode, ok)
                && (ok <==> token.value in old(previews)
                            && Matches(old(previews)[token.value], archive, configuration, mode, log[|old(log)|].now))
                && (ok <==> token.value in old(previews) && var receipt := old(previews)[token.value];
                            && receipt.archive == archive && receipt.configuration == configuration
                            && receipt.mode == mode && log[|old(log)|].now < receipt.expiresAt)
    {
      hide LogOk, Live;
      var digested := *;
      if token.None? {
        return false;
      }
      if !digested {
        faults := faults + 1;
        return false;
      }
      var now: int := *;
      var t := token.value;
      ok := t in previews && now < previews[t].expiresAt && previews[t].mode == mode
            && previews[t].archive == archive && previews[t].configuration == configuration;
      ghost var e := Presented(t, archive, configuration, mode, now, ok);
      LogGrows(log, e);
      forall u | u in previews && u != t
        ensures Live(log + [e], u, previews[u])
      {
        StaysLive(log, e, u, previews[u]);
      }
      log := log + [e];
      Fewer((previews - {t}).Keys, previews.Keys);
      previews := previews - {t};
    }

    /** Any other requests. */
    method Others()
      requires Valid()
      modifies this
      ensures Valid() && old(log) <= log && faults == old(faults)
    {
      hide LogOk, Live;
      var calls :| 0 <= calls;
      for i := 0 to calls
        invariant Valid() && old(log) <= log
      {
        var issue := *;
        var token: Token, now: int, archive: Archive, configuration: Configuration, mode: Mode := *, *, *, *, *;
        if issue {
          var _, _ := TryIssue(token, now, archive, configuration, mode);
        } else {
          var _ := Consume(Some(token), archive, configuration, mode);
        }
      }
      faults := old(faults);  // only the failures of the call under way are counted
    }
  }

  lemma StillIssued(before: seq<Event>, after: seq<Event>, tokens: seq<Token>)
    requires before <= after && forall t :: t in tokens ==> WasIssued(before, t)
    ensures forall t :: t in tokens ==> WasIssued(after, t)
  {
    forall t | t in tokens
      ensures WasIssued(after, t)
    {
      var i :| 0 <= i < |before| && before[i].Issued? && before[i].token == t;
      assert after[i] == before[i];
    }
  }

  lemma Fewer<T>(a: set<T>, b: set<T>)
    requires a <= b
    ensures |a| <= |b|
  {
    if a != b {
      assert |b - a| == |b| - |a|;
    }
  }
}
