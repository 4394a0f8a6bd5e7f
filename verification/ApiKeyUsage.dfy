/** How often `lastUsedAt` is written and how far it can lag. */
module ApiKeyUsage {
  import opened Prelude
  import opened ApiKeys

  ghost predicate Present(tr: Trace, i: nat, j: nat, id: Id) {
    i <= j < |tr.states| && forall m :: i <= m <= j ==> id in tr.states[m].keys
  }

  /** Step `m` wrote the field. */
  predicate Writes(tr: Trace, m: nat, id: Id) {
    m + 1 < |tr.states| && id in tr.states[m].keys && id in tr.states[m + 1].keys &&
    tr.states[m].keys[id].lastUsedAt != tr.states[m + 1].keys[id].lastUsedAt
  }

  function WriteCount(tr: Trace, i: nat, j: nat, id: Id): nat
    requires i <= j
    decreases j - i
  {
    if i == j then 0 else WriteCount(tr, i, j - 1, id) + (if Writes(tr, j - 1, id) then 1 else 0)
  }

  /** A row keeps its field or gets the current time, the latter only after the interval. */
  lemma StepUsage(s: State, e: Event, s': State, id: Id)
    requires Follows(s, e, s') && id in s.keys && id in s'.keys
    ensures s.now <= s'.now && s'.interval == s.interval
    ensures var last, last' := s.keys[id].lastUsedAt, s'.keys[id].lastUsedAt;
            last' == last || (last' == Some(s.now) && ShouldUpdateLastUsed(last, s.now, s.interval))
    ensures e.outcome == Accepted(id) ==>
              s'.keys[id].lastUsedAt.Some? && e.time - s'.keys[id].lastUsedAt.value <= s.interval
  {
  }

  /** The time `w` gaps take, one after the other. */
  function Span(w: nat, gap: nat): nat {
    if w == 0 then 0 else Span(w - 1, gap) + gap
  }

  lemma {:induction false} SpanExceeds(w: nat, interval: nat)
    ensures w * interval + w == Span(w, interval + 1)
  {
    if w > 0 {
      SpanExceeds(w - 1, interval);
      assert w * interval == (w - 1) * interval + interval;
    }
  }

  lemma {:induction false} WritesSpaced(tr: Trace, i: nat, j: nat, id: Id)
    requires Valid(tr) && Present(tr, i, j, id)
    ensures tr.states[i].now <= tr.states[j].now && tr.states[j].interval == tr.states[i].interval
    ensures var w, last := WriteCount(tr, i, j, id), tr.states[j].keys[id].lastUsedAt;
            w > 0 ==> last.Some? && last.value <= tr.states[j].now &&
                      Span(w - 1, tr.states[i].interval + 1) <= last.value - tr.states[i].now
    decreases j - i
  {
    if i < j {
      WritesSpaced(tr, i, j - 1, id);
      assert StepAt(tr, j - 1);
      StepUsage(tr.states[j - 1], tr.events[j - 1], tr.states[j], id);
    }
  }

  /** `w` writes take more than `w - 1` intervals. */
  lemma WritesAreRare(tr: Trace, i: nat, j: nat, id: Id)
    requires Valid(tr) && Present(tr, i, j, id) && WriteCount(tr, i, j, id) >= 2
    ensures (WriteCount(tr, i, j, id) - 1) * tr.states[i].interval < tr.states[j].now - tr.states[i].now
  {
    WritesSpaced(tr, i, j, id);
    SpanExceeds(WriteCount(tr, i, j, id) - 1, tr.states[i].interval);
  }

  /** The field is never ahead of the clock. */
  ghost predicate NotAhead(s: State) {
    forall id :: id in s.keys && s.keys[id].lastUsedAt.Some? ==> s.keys[id].lastUsedAt.value <= s.now
  }

  lemma NewKeyUnused(s: State, e: Event, s': State, id: Id)
    requires Follows(s, e, s') && id !in s.keys && id in s'.keys
    ensures s'.keys[id].lastUsedAt.None?
  {
  }

  lemma StepNotAhead(s: State, e: Event, s': State)
    requires Follows(s, e, s') && NotAhead(s)
    ensures NotAhead(s')
  {
    forall id | id in s'.keys && s'.keys[id].lastUsedAt.Some?
      ensures s'.keys[id].lastUsedAt.value <= s'.now
    {
      if id in s.keys {
        StepUsage(s, e, s', id);
      } else {
        NewKeyUnused(s, e, s', id);
      }
    }
  }

  lemma {:induction false} NeverAhead(tr: Trace, n: nat)
    requires Valid(tr) && n < |tr.states|
    ensures NotAhead(tr.states[n])
  {
    if n > 0 {
      NeverAhead(tr, n - 1);
      assert StepAt(tr, n - 1);
      StepNotAhead(tr.states[n - 1], tr.events[n - 1], tr.states[n]);
    }
  }

  /** From any accepted validation on, the field lags it by at most the interval. */
  lemma {:induction false} LagBounded(tr: Trace, m: nat, n: nat, id: Id)
    requires Valid(tr) && m < n < |tr.states| && Present(tr, m, n, id)
    requires tr.events[m].outcome == Accepted(id)
    ensures var last := tr.states[n].keys[id].lastUsedAt;
            last.Some? && tr.events[m].time - last.value <= tr.states[n].interval == tr.states[m].interval
    decreases n - m
  {
    var s, s' := tr.states[n - 1], tr.states[n];
    assert StepAt(tr, n - 1);
    StepUsage(s, tr.events[n - 1], s', id);
    if m + 1 < n {
      LagBounded(tr, m, n - 1, id);
      NeverAhead(tr, n - 1);
    }
  }
}
