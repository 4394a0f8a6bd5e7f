/** When a password reset token is honoured, told from the history of calls alone. */
module TokenHistory {
  import opened Prelude
  import opened Identity
  import opened IdentityEffects

  predicate Issues(e: Event, raw: string) {
    e.op.RequestReset? && e.outcome.TokenSent? && e.op.raw == raw
  }

  /** The event that issued the token, among the first `n`, or -1. */
  function Issue(h: seq<Event>, n: nat, raw: string): (i: int)
    requires n <= |h|
    ensures -1 <= i < n && (i >= 0 ==> Issues(h[i], raw))
    ensures forall m :: i < m < n ==> !Issues(h[m], raw)
  {
    if n == 0 then -1 else if Issues(h[n - 1], raw) then n - 1 else Issue(h, n - 1, raw)
  }

  predicate IsIssue(h: seq<Event>, i: int) {
    0 <= i < |h| && h[i].op.RequestReset? && h[i].outcome.TokenSent?
  }

  /** A later request of the same user. */
  predicate Supersedes(e: Event, userId: Id) {
    e.op.RequestReset? && e.outcome == TokenSent(userId)
  }

  predicate Consumes(e: Event, raw: string) {
    e.op.ResetPassword? && e.outcome.ResetDone? && e.op.raw == raw
  }

  predicate SupersededSince(h: seq<Event>, n: nat, i: int)
    requires n <= |h| && IsIssue(h, i)
  {
    exists m :: i < m < n && Supersedes(h[m], h[i].outcome.id)
  }

  predicate ConsumedSince(h: seq<Event>, n: nat, i: int)
    requires n <= |h| && IsIssue(h, i)
  {
    exists m :: i < m < n && Consumes(h[m], h[i].op.raw)
  }

  predicate GoneSince(h: seq<Event>, n: nat, i: int)
    requires n <= |h| && IsIssue(h, i)
  {
    exists m :: i < m < n && RemovesUser(h[m], h[i].outcome.id, h[i].op.tenantId)
  }

  /** Issued by the user's latest request, for this tenant, not consumed, the user still
      there, and strictly less than an hour old. */
  predicate ShouldReset(h: seq<Event>, n: nat, raw: string, tenantId: Id, now: int)
    requires n <= |h|
  {
    var i := Issue(h, n, raw);
    i >= 0 && h[i].op.tenantId == tenantId &&
    !SupersededSince(h, n, i) && !ConsumedSince(h, n, i) && !GoneSince(h, n, i) &&
    now < h[i].time + 3_600_000
  }

  // ----- What one call does to one token row -----

  predicate UsesUp(e: Event, row: Token) {
    Supersedes(e, row.userId) || Consumes(e, row.token.raw)
  }

  lemma EffectOfRequest(s: State, e: Event, s': State, k: Id)
    requires Follows(s, e, s') && TokensSound(s) && k in s.tokens && e.op.RequestReset?
    ensures k in s'.tokens && s'.tokens[k] == s.tokens[k].(used := s.tokens[k].used || UsesUp(e, s.tokens[k]))
  {
  }

  lemma EffectOfReset(s: State, e: Event, s': State, k: Id)
    requires Follows(s, e, s') && TokensSound(s) && k in s.tokens && e.op.ResetPassword?
    ensures k in s'.tokens && s'.tokens[k] == s.tokens[k].(used := s.tokens[k].used || UsesUp(e, s.tokens[k]))
  {
  }

  lemma EffectOfRemoval(s: State, e: Event, s': State, k: Id)
    requires Follows(s, e, s') && UsersSound(s) && TokensSound(s) && k in s.tokens
    requires e.op.DropTenant? || e.op.DeleteUser?
    ensures k in s'.tokens <==> !RemovesUser(e, s.tokens[k].userId, s.tokens[k].tenantId)
    ensures k in s'.tokens ==> s'.tokens[k] == s.tokens[k]
  {
  }

  lemma TokenEffect(s: State, e: Event, s': State, k: Id)
    requires Follows(s, e, s') && UsersSound(s) && TokensSound(s) && k in s.tokens
    ensures k in s'.tokens <==> !RemovesUser(e, s.tokens[k].userId, s.tokens[k].tenantId)
    ensures k in s'.tokens ==> s'.tokens[k] == s.tokens[k].(used := s.tokens[k].used || UsesUp(e, s.tokens[k]))
    ensures !Issues(e, s.tokens[k].token.raw)
  {
    match e.op
    case RequestReset(_, _, _, _) => EffectOfRequest(s, e, s', k);
    case ResetPassword(_, _, _) => EffectOfReset(s, e, s', k);
    case DropTenant(_) => EffectOfRemoval(s, e, s', k);
    case DeleteUser(_, _) => EffectOfRemoval(s, e, s', k);
    case _ => UsersStay(s, e.op);
  }

  lemma NewToken(s: State, e: Event, s': State, k: Id)
    requires Follows(s, e, s') && k !in s.tokens && k in s'.tokens
    ensures Issues(e, e.op.raw)
    ensures s'.tokens[k] == Token(e.outcome.id, e.op.tenantId, Sha256(e.op.raw), e.time + TOKEN_TTL, false)
  {
  }

  lemma IssuedToken(s: State, e: Event, s': State, raw: string)
    requires Follows(s, e, s') && Issues(e, raw)
    ensures e.op.newTokenId in s'.tokens && s'.tokens[e.op.newTokenId].token == Sha256(raw)
  {
  }

  // ----- The token table agrees with the history -----

  ghost predicate RowTold(h: seq<Event>, n: nat, row: Token)
    requires n <= |h|
  {
    var i := Issue(h, n, row.token.raw);
    && i >= 0 && h[i].outcome.id == row.userId && h[i].op.tenantId == row.tenantId
    && row.expiresAt == h[i].time + TOKEN_TTL
    && !GoneSince(h, n, i)
    && (row.used <==> SupersededSince(h, n, i) || ConsumedSince(h, n, i))
  }

  ghost predicate Stored(s: State, raw: string) {
    exists k :: k in s.tokens && s.tokens[k].token == Sha256(raw)
  }

  ghost predicate RawTold(h: seq<Event>, n: nat, raw: string, s: State)
    requires n <= |h|
  {
    var i := Issue(h, n, raw);
    i >= 0 && !GoneSince(h, n, i) ==> Stored(s, raw)
  }

  ghost predicate Told(h: seq<Event>, n: nat, s: State)
    requires n <= |h|
  {
    && (forall k :: k in s.tokens ==> RowTold(h, n, s.tokens[k]))
    && (forall raw :: RawTold(h, n, raw, s))
  }

  lemma OneMore(h: seq<Event>, n: nat, i: int)
    requires i < n < |h| && IsIssue(h, i)
    ensures SupersededSince(h, n + 1, i) <==> SupersededSince(h, n, i) || Supersedes(h[n], h[i].outcome.id)
    ensures ConsumedSince(h, n + 1, i) <==> ConsumedSince(h, n, i) || Consumes(h[n], h[i].op.raw)
    ensures GoneSince(h, n + 1, i) <==> GoneSince(h, n, i) || RemovesUser(h[n], h[i].outcome.id, h[i].op.tenantId)
  {
  }

  lemma OldRowTold(h: seq<Event>, n: nat, row: Token, row': Token)
    requires n < |h| && RowTold(h, n, row) && row' == row.(used := row.used || UsesUp(h[n], row))
    requires !Issues(h[n], row.token.raw) && !RemovesUser(h[n], row.userId, row.tenantId)
    ensures RowTold(h, n + 1, row')
  {
  }

  lemma RawStillTold(h: seq<Event>, n: nat, s: State, s': State, raw: string)
    requires n < |h| && Follows(s, h[n], s') && UsersSound(s) && TokensSound(s) && Told(h, n, s)
    ensures RawTold(h, n + 1, raw, s')
  {
    if Issues(h[n], raw) {
      IssuedToken(s, h[n], s', raw);
    } else {
      var i := Issue(h, n, raw);
      if i >= 0 && !GoneSince(h, n + 1, i) {
        OneMore(h, n, i);
        assert RawTold(h, n, raw, s);
        var k :| k in s.tokens && s.tokens[k].token == Sha256(raw);
        assert RowTold(h, n, s.tokens[k]);
        TokenEffect(s, h[n], s', k);
      }
    }
  }

  lemma ToldStep(h: seq<Event>, n: nat, s: State, s': State)
    requires n < |h| && Follows(s, h[n], s') && UsersSound(s) && TokensSound(s) && Told(h, n, s)
    ensures Told(h, n + 1, s')
  {
    var next := n + 1;
    forall k | k in s'.tokens
      ensures RowTold(h, next, s'.tokens[k])
    {
      if k in s.tokens {
        TokenEffect(s, h[n], s', k);
        OldRowTold(h, n, s.tokens[k], s'.tokens[k]);
      } else {
        NewToken(s, h[n], s', k);
      }
    }
    forall raw
      ensures RawTold(h, next, raw, s')
    {
      RawStillTold(h, n, s, s', raw);
    }
  }

  lemma {:induction false} AlwaysTold(tr: Trace, n: nat)
    requires Valid(tr) && n <= |tr.events|
    ensures Told(tr.events, n, tr.states[n])
  {
    if n > 0 {
      AlwaysTold(tr, n - 1);
      AlwaysSound(tr, n - 1);
      assert StepAt(tr, n - 1);
      ToldStep(tr.events, n - 1, tr.states[n - 1], tr.states[n]);
    }
  }

  /** At every point of every run a reset goes through exactly when the history says so, and
      then for the user the token was issued to. */
  lemma ResetIffHistorySays(tr: Trace, n: nat, raw: string, t: Id, next: string)
    requires Valid(tr) && n <= |tr.events|
    ensures var outcome := DoResetPassword(tr.states[n], t, raw, next).1;
            && (outcome.ResetDone? <==> ShouldReset(tr.events, n, raw, t, tr.states[n].now))
            && (outcome.ResetDone? ==> outcome.id == tr.events[Issue(tr.events, n, raw)].outcome.id)
  {
    AlwaysTold(tr, n);
    AlwaysSound(tr, n);
    var s, h := tr.states[n], tr.events;
    if CanRedeem(s.tokens, raw, t, s.now) {
      var k := TokenOf(s.tokens, raw, t, s.now);
      assert RowTold(h, n, s.tokens[k]);
    } else {
      assert RawTold(h, n, raw, s);
      if Stored(s, raw) {
        var k :| k in s.tokens && s.tokens[k].token == Sha256(raw);
        assert RowTold(h, n, s.tokens[k]);
        assert !Redeemable(s.tokens[k], raw, t, s.now);
      }
    }
  }

  // ----- Single use -----

  lemma DrawnStep(s: State, e: Event, s': State)
    requires Follows(s, e, s')
    ensures s.drawn <= s'.drawn
    ensures forall raw :: Issues(e, raw) ==> raw !in s.drawn && raw in s'.drawn
  {
  }

  lemma {:induction false} DrawnGrows(tr: Trace, i: nat, j: nat)
    requires Valid(tr) && i <= j <= |tr.events|
    ensures tr.states[i].drawn <= tr.states[j].drawn
    decreases j - i
  {
    if i < j {
      DrawnGrows(tr, i, j - 1);
      assert StepAt(tr, j - 1);
      DrawnStep(tr.states[j - 1], tr.events[j - 1], tr.states[j]);
    }
  }

  lemma IssuedOnce(tr: Trace, i: nat, j: nat, raw: string)
    requires Valid(tr) && i < |tr.events| && j < |tr.events|
    requires Issues(tr.events[i], raw) && Issues(tr.events[j], raw)
    ensures i == j
  {
    var a, b := if i < j then i else j, if i < j then j else i;
    if a < b {
      assert StepAt(tr, a) && StepAt(tr, b);
      DrawnStep(tr.states[a], tr.events[a], tr.states[a + 1]);
      DrawnStep(tr.states[b], tr.events[b], tr.states[b + 1]);
      DrawnGrows(tr, a + 1, b);
    }
  }

  lemma ResetEvent(tr: Trace, n: nat, raw: string)
    requires Valid(tr) && n < |tr.events| && Consumes(tr.events[n], raw)
    ensures ShouldReset(tr.events, n, raw, tr.events[n].op.tenantId, tr.states[n].now)
  {
    var e := tr.events[n];
    assert StepAt(tr, n);
    ResetIffHistorySays(tr, n, raw, e.op.tenantId, e.op.next);
  }

  /** A token succeeds at most once in any run. */
  lemma TokenSucceedsOnce(tr: Trace, i: nat, j: nat, raw: string)
    requires Valid(tr) && i < |tr.events| && j < |tr.events|
    requires Consumes(tr.events[i], raw) && Consumes(tr.events[j], raw)
    ensures i == j
  {
    var a, b := if i < j then i else j, if i < j then j else i;
    if a < b {
      ResetEvent(tr, a, raw);
      ResetEvent(tr, b, raw);
      var issue, issue' := Issue(tr.events, a, raw), Issue(tr.events, b, raw);
      IssuedOnce(tr, issue, issue', raw);
      assert false;
    }
  }

  /** No user ever has two unused tokens. */
  lemma OneUnusedToken(tr: Trace, n: nat)
    requires Valid(tr) && n <= |tr.events|
    ensures OneUnused(tr.states[n].tokens)
  {
    AlwaysSound(tr, n);
  }
}
