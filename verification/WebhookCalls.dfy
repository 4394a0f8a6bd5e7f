/** What each webhook call does and answers, told from the rows before it, the network and the
    database alone. */
module WebhookCalls {
  import opened Prelude
  import opened Webhooks

  // ----- One delivery -----

  /** The attempt gets a 2xx reply and the save after it works. */
  predicate Goes(plan: Plan, i: int) {
    0 <= i < |plan.attempts| && plan.attempts[i].Replied? && plan.attempts[i].saved
  }

  /** Attempt `i` is the first within the retries allowed that goes through. */
  ghost predicate FirstToGo(w: Webhook, plan: Plan, i: int) {
    0 <= i < w.maxRetries && Goes(plan, i) && forall j :: 0 <= j < i ==> !Goes(plan, j)
  }

  /** The 2xx replies among the first `n` attempts. */
  function ReplySet(plan: Plan, n: int): set<int> {
    set i | 0 <= i < n && i < |plan.attempts| && plan.attempts[i].Replied?
  }

  lemma {:induction false} RepliesAreCounted(plan: Plan, n: nat)
    requires n <= |plan.attempts|
    ensures Replies(plan.attempts, n) == |ReplySet(plan, n)|
  {
    if n > 0 {
      RepliesAreCounted(plan, n - 1);
      var i := n - 1;
      assert ReplySet(plan, n) == ReplySet(plan, i) + (if plan.attempts[i].Replied? then {i} else {});
    } else {
      assert ReplySet(plan, n) == {};
    }
  }

  /** The instant of the last of them, or `before` if there is none. */
  ghost predicate IsLastReply(plan: Plan, n: int, before: Option<int>, last: Option<int>) {
    if ReplySet(plan, n) == {} then last == before
    else
      exists i :: 0 <= i < n && i < |plan.attempts| && plan.attempts[i].Replied? && last == Some(plan.attempts[i].at) &&
                  forall j :: i < j < n && j < |plan.attempts| ==> !plan.attempts[j].Replied?
  }

  lemma {:induction false} LastReplyIs(plan: Plan, n: nat, before: Option<int>)
    requires n <= |plan.attempts|
    ensures IsLastReply(plan, n, before, LastReply(plan.attempts, n, before))
  {
    if n > 0 {
      var i := n - 1;
      if plan.attempts[i].Replied? {
        assert i in ReplySet(plan, n);
      } else {
        LastReplyIs(plan, i, before);
        assert ReplySet(plan, n) == ReplySet(plan, i);
      }
    }
  }

  /** A delivery goes on until an attempt goes through, or for all the retries allowed.  It is
      a failure exactly if none of those goes through. */
  lemma DeliveryRetries(w: Webhook, plan: Plan)
    requires w.maxRetries <= |plan.attempts|
    ensures var r := Delivery(w, plan);
            && ((exists i :: 0 <= i < w.maxRetries && Goes(plan, i)) <==> r.memory.failureCount == w.failureCount)
            && (r.memory.failureCount == w.failureCount ==> FirstToGo(w, plan, r.requests - 1))
            && (r.memory.failureCount != w.failureCount ==>
                  r.memory.failureCount == w.failureCount + 1 &&
                  r.requests == if w.maxRetries > 0 then w.maxRetries else 0)
  {
    var first := FirstFull(plan.attempts, 0, Limit(w));
    if first < Limit(w) {
      assert Goes(plan, first);
    }
    assert forall i :: 0 <= i < first ==> !Goes(plan, i);
  }

  /** What it leaves behind: the entity counts the replies and keeps the time of the last one,
      nothing else in it changes; the row is the entity wherever the last save worked, and as
      it was otherwise; the caller sees an error exactly if none of the attempts went through
      and there were any, or the last save failed. */
  lemma DeliveryLeaves(w: Webhook, plan: Plan)
    requires w.maxRetries <= |plan.attempts|
    ensures var r := Delivery(w, plan);
            var failed := r.memory.failureCount != w.failureCount;
            && r.memory.deliveryCount == w.deliveryCount + |ReplySet(plan, r.requests)|
            && IsLastReply(plan, r.requests, w.lastDeliveredAt, r.memory.lastDeliveredAt)
            && r.memory == w.(deliveryCount := r.memory.deliveryCount, failureCount := r.memory.failureCount,
                              lastDeliveredAt := r.memory.lastDeliveredAt)
            && r.stored == (if failed && !plan.finalSave then w else r.memory)
            && (r.thrown <==> failed && (w.maxRetries > 0 || !plan.finalSave))
  {
    RepliesAreCounted(plan, Tries(w, plan));
    LastReplyIs(plan, Tries(w, plan), w.lastDeliveredAt);
  }

  // ----- The calls -----

  ghost predicate OnlyRow(s: State, s': State, id: Id) {
    s'.tenants == s.tenants && s'.webhooks.Keys + {id} == s.webhooks.Keys + {id} &&
    forall other :: other in s.webhooks && other != id ==> s'.webhooks[other] == s.webhooks[other]
  }

  /** A new webhook is active, with what was asked for, three retries unless said otherwise
      and nothing counted; without the tenant there is none. */
  lemma CreateMeans(s: State, op: Op)
    requires op.Create? && op.newId !in s.webhooks
    ensures var s' := Step(s, op);
            && OnlyRow(s, s', op.newId)
            && (op.newId in s'.webhooks <==> op.tenantId in s.tenants)
            && (op.newId in s'.webhooks ==>
                  var w := s'.webhooks[op.newId];
                  && w.tenantId == op.tenantId && w.url == op.url && w.description == op.description
                  && w.events == op.events && w.secret == op.newSecret && w.isActive
                  && (op.maxRetries.Some? ==> w.maxRetries == op.maxRetries.value)
                  && (op.maxRetries.None? ==> w.maxRetries == 3)
                  && w.deliveryCount == 0 && w.failureCount == 0 && w.lastDeliveredAt == None)
  {
  }

  /** Property by property: a value given is in the row afterwards, a null empties the
      description, the rest stays; refused exactly for an unknown webhook or a null where none
      may be. */
  lemma UpdateMeans(s: State, t: Id, id: Id, p: Patch)
    ensures var (s', outcome) := DoUpdate(s, t, id, p);
            && Step(s, Update(t, id, p)) == s' && OnlyRow(s, s', id) && s'.webhooks.Keys == s.webhooks.Keys
            && (outcome.NotFound? <==> !(id in s.webhooks && s.webhooks[id].tenantId == t))
            && (outcome.ConstraintViolation? <==>
                  id in s.webhooks && s.webhooks[id].tenantId == t &&
                  (p.url == Null || p.events == Null || p.isActive == Null || p.maxRetries == Null))
            && (!outcome.Served? ==> s' == s)
            && (outcome.Served? ==>
                  var w, w' := s.webhooks[id], s'.webhooks[id];
                  && w'.url == (if p.url.Given? then p.url.value else w.url)
                  && w'.events == (if p.events.Given? then p.events.value else w.events)
                  && w'.isActive == (if p.isActive.Given? then p.isActive.value else w.isActive)
                  && w'.maxRetries == (if p.maxRetries.Given? then p.maxRetries.value else w.maxRetries)
                  && w'.description == (if p.description.Given? then Some(p.description.value)
                                        else if p.description.Null? then None else w.description)
                  && w'.tenantId == t && w'.secret == w.secret && w'.deliveryCount == w.deliveryCount
                  && w'.failureCount == w.failureCount && w'.lastDeliveredAt == w.lastDeliveredAt)
  {
  }

  /** Its answer shows the row as it is now, but for properties that are there and undefined. */
  lemma UpdateShows(s: State, t: Id, id: Id, p: Patch)
    requires DoUpdate(s, t, id, p).1.Served?
    ensures var (s', outcome) := DoUpdate(s, t, id, p);
            var dto := outcome.dto;
            && id in s'.webhooks
            && var w := s'.webhooks[id];
               && dto.id == id && dto.tenantId == w.tenantId && dto.deliveryCount == w.deliveryCount
               && dto.failureCount == w.failureCount && dto.lastDeliveredAt == w.lastDeliveredAt
               && dto.url == (if p.url.Undefined? then None else Some(w.url))
               && dto.description == (if p.description.Undefined? then None else w.description)
               && dto.events == (if p.events.Undefined? then None else Some(w.events))
               && dto.isActive == (if p.isActive.Undefined? then None else Some(w.isActive))
               && dto.maxRetries == (if p.maxRetries.Undefined? then None else Some(w.maxRetries))
  {
  }

  lemma DeleteMeans(s: State, t: Id, id: Id)
    ensures var s' := Step(s, Delete(t, id));
            && OnlyRow(s, s', id)
            && (id in s'.webhooks <==> id in s.webhooks && s.webhooks[id].tenantId != t)
            && (id in s'.webhooks ==> s'.webhooks[id] == s.webhooks[id])
  {
  }

  lemma RotateMeans(s: State, t: Id, id: Id, newSecret: string)
    ensures var s' := Step(s, RotateSecret(t, id, newSecret));
            && OnlyRow(s, s', id) && s'.webhooks.Keys == s.webhooks.Keys
            && (id in s.webhooks ==>
                  var w, w' := s.webhooks[id], s'.webhooks[id];
                  w'.secret == (if w.tenantId == t then newSecret else w.secret) && w' == w.(secret := w'.secret))
  {
  }

  /** A trigger delivers to exactly the tenant's active webhooks that list the event; a test to
      the one named, active or not. */
  lemma DeliveriesMean(s: State, op: Op, id: Id)
    requires Enabled(s, op) && (op.Trigger? || op.Test?) && id in s.webhooks
    ensures var s', w := Step(s, op), s.webhooks[id];
            && s'.webhooks.Keys == s.webhooks.Keys && s'.tenants == s.tenants
            && s'.webhooks[id] ==
               if op.Trigger? && w.tenantId == op.tenantId && w.isActive && op.event in w.events
               then Delivery(w, op.plans[id]).stored
               else if op.Test? && op.id == id && w.tenantId == op.tenantId then Delivery(w, op.plan).stored
               else w
  {
  }

  /** The response shows the row field by field. */
  lemma ResponseShows(id: Id, w: Webhook)
    ensures var dto := FormatResponse(id, w);
            && dto.id == id && dto.tenantId == w.tenantId && dto.url == Some(w.url) && dto.description == w.description
            && dto.events == Some(w.events) && dto.isActive == Some(w.isActive) && dto.maxRetries == Some(w.maxRetries)
            && dto.deliveryCount == w.deliveryCount && dto.failureCount == w.failureCount
            && dto.lastDeliveredAt == w.lastDeliveredAt
  {
  }
}
