/** Webhook delivery: the retry loop against an adversarial network and database, the
    fan-out of an event, and what the counters add up to. */
module Webhooks {
  import opened Prelude

  datatype Webhook = Webhook(
    tenantId: Id,
    url: string,
    description: Option<string>,
    events: seq<string>,
    secret: string,
    isActive: bool,
    maxRetries: int,
    deliveryCount: int,
    failureCount: int,
    lastDeliveredAt: Option<int>)

  /** How one attempt goes: no connection, a status outside 2xx, or a 2xx reply at some
      instant after which the row is saved or the save fails. */
  datatype Attempt = NetworkError | BadStatus | Replied(at: int, saved: bool)

  /** What the world has in store for one delivery: its attempts in order, and whether the
      save after the last failure works. */
  datatype Plan = Plan(attempts: seq<Attempt>, finalSave: bool)

  /** `memory` is the entity the call holds at the end, `stored` the row in the database. */
  datatype Report = Report(memory: Webhook, stored: Webhook, requests: nat, thrown: bool)

  function Limit(w: Webhook): nat {
    if w.maxRetries > 0 then w.maxRetries else 0
  }

  /** The plan says how each attempt the webhook allows would go. */
  predicate Adequate(w: Webhook, plan: Plan) {
    w.maxRetries <= |plan.attempts|
  }

  predicate Full(a: Attempt) {
    a.Replied? && a.saved
  }

  /** The first attempt from `k` on that succeeds in full, or `n`. */
  function FirstFull(attempts: seq<Attempt>, k: nat, n: nat): (r: nat)
    requires k <= n <= |attempts|
    ensures k <= r <= n
    ensures forall i :: k <= i < r ==> !Full(attempts[i])
    ensures r < n ==> Full(attempts[r])
    decreases n - k
  {
    if k == n then n else if Full(attempts[k]) then k else FirstFull(attempts, k + 1, n)
  }

  function Replies(attempts: seq<Attempt>, n: nat): nat
    requires n <= |attempts|
  {
    if n == 0 then 0 else Replies(attempts, n - 1) + (if attempts[n - 1].Replied? then 1 else 0)
  }

  function LastReply(attempts: seq<Attempt>, n: nat, before: Option<int>): Option<int>
    requires n <= |attempts|
  {
    if n == 0 then before
    else if attempts[n - 1].Replied? then Some(attempts[n - 1].at) else LastReply(attempts, n - 1, before)
  }

  predicate Succeeds(w: Webhook, plan: Plan)
    requires Adequate(w, plan)
  {
    FirstFull(plan.attempts, 0, Limit(w)) < Limit(w)
  }

  /** Stop after the first full success, at the limit otherwise. */
  function Tries(w: Webhook, plan: Plan): nat
    requires Adequate(w, plan)
  {
    if Succeeds(w, plan) then FirstFull(plan.attempts, 0, Limit(w)) + 1 else Limit(w)
  }

  /** The entity after `n` attempts. */
  function AfterAttempts(w: Webhook, plan: Plan, n: nat): Webhook
    requires n <= |plan.attempts|
  {
    w.(deliveryCount := w.deliveryCount + Replies(plan.attempts, n),
       lastDeliveredAt := LastReply(plan.attempts, n, w.lastDeliveredAt))
  }

  /** A delivery counts every 2xx reply, and one failure exactly when no attempt succeeded in
      full.  Only a save that works reaches the database; an error surfaces when some
      attempt failed and none succeeded, or when the last save fails. */
  function Delivery(w: Webhook, plan: Plan): Report
    requires Adequate(w, plan)
  {
    var tried := AfterAttempts(w, plan, Tries(w, plan));
    if Succeeds(w, plan) then Report(tried, tried, Tries(w, plan), false)
    else
      var failed := tried.(failureCount := tried.failureCount + 1);
      Report(failed, if plan.finalSave then failed else w, Tries(w, plan), !plan.finalSave || Limit(w) > 0)
  }

  lemma {:induction false} NoReplies(attempts: seq<Attempt>, n: nat)
    requires n <= |attempts| && forall i :: 0 <= i < n ==> !attempts[i].Replied?
    ensures Replies(attempts, n) == 0
  {
    if n > 0 {
      NoReplies(attempts, n - 1);
    }
  }

  /** Every save of the plan works. */
  predicate SavesWork(plan: Plan) {
    plan.finalSave && forall i :: 0 <= i < |plan.attempts| && plan.attempts[i].Replied? ==> plan.attempts[i].saved
  }

  function Total(w: Webhook): int {
    w.deliveryCount + w.failureCount
  }

  /** With working saves each delivery counts exactly once, as delivered or as failed. */
  lemma DeliveryCountsOnce(w: Webhook, plan: Plan)
    requires Adequate(w, plan) && SavesWork(plan)
    ensures var r := Delivery(w, plan);
            && r.stored == r.memory && Total(r.stored) == Total(w) + 1
            && (Succeeds(w, plan) ==> r.stored.deliveryCount == w.deliveryCount + 1)
            && (!Succeeds(w, plan) ==> r.stored.failureCount == w.failureCount + 1)
  {
    var first := FirstFull(plan.attempts, 0, Limit(w));
    NoReplies(plan.attempts, first);
  }

  lemma {:induction false} RepliesMonotone(attempts: seq<Attempt>, m: nat, n: nat)
    requires m <= n <= |attempts|
    ensures Replies(attempts, m) <= Replies(attempts, n) <= Replies(attempts, m) + (n - m)
  {
    if m < n {
      RepliesMonotone(attempts, m, n - 1);
    }
  }

  /** Whatever happens: no more requests than allowed, the last one the only full success,
      every 2xx reply counted, so at least one for a success and never more than one per
      request. */
  lemma DeliveryBounds(w: Webhook, plan: Plan)
    requires Adequate(w, plan)
    ensures var r := Delivery(w, plan);
            && r.requests <= Limit(w)
            && (forall i :: 0 <= i < r.requests && Full(plan.attempts[i]) ==> i == r.requests - 1)
            && r.memory.deliveryCount == w.deliveryCount + Replies(plan.attempts, r.requests)
            && w.deliveryCount <= r.memory.deliveryCount <= w.deliveryCount + r.requests
            && (r.memory.failureCount == w.failureCount + 1 <==>
                  forall i :: 0 <= i < r.requests ==> !Full(plan.attempts[i]))
            && (r.memory.failureCount == w.failureCount ==>
                  r.stored == r.memory && r.memory.deliveryCount > w.deliveryCount)
            && (r.thrown <==> (r.memory.failureCount == w.failureCount + 1 && !(w.maxRetries <= 0 && plan.finalSave)))
  {
    RepliesMonotone(plan.attempts, 0, Tries(w, plan));
    if Succeeds(w, plan) {
      assert Full(plan.attempts[Tries(w, plan) - 1]);
    }
  }

  // ----- Calls over the table -----

  datatype State = State(webhooks: map<Id, Webhook>, tenants: set<Id>)

  datatype Patch = Patch(
    url: Field<string>, description: Field<string>, events: Field<seq<string>>, isActive: Field<bool>,
    maxRetries: Field<int>)

  /** The loaded row after the patch was copied over it. */
  datatype Entity = Entity(
    url: Field<string>, description: Field<string>, events: Field<seq<string>>, isActive: Field<bool>,
    maxRetries: Field<int>)

  /** A response; a field that is null or left out is None. */
  datatype WebhookDto = WebhookDto(
    id: Id,
    tenantId: Id,
    url: Option<string>,
    description: Option<string>,
    events: Option<seq<string>>,
    isActive: Option<bool>,
    maxRetries: Option<int>,
    deliveryCount: int,
    failureCount: int,
    lastDeliveredAt: Option<int>)

  datatype Outcome = Served(dto: WebhookDto) | NotFound | ConstraintViolation

  datatype Op =
    | Create(tenantId: Id, url: string, description: Option<string>, events: seq<string>, maxRetries: Option<int>,
             newId: Id, newSecret: string)
    | Update(tenantId: Id, id: Id, patch: Patch)
    | Delete(tenantId: Id, id: Id)
    | RotateSecret(tenantId: Id, id: Id, newSecret: string)
    | Trigger(tenantId: Id, event: string, plans: map<Id, Plan>)
    | Test(tenantId: Id, id: Id, plan: Plan)
    | AddTenant(newTenantId: Id)
    | DropTenant(tenantId: Id)

  predicate Owns(s: State, tenantId: Id, id: Id) {
    id in s.webhooks && s.webhooks[id].tenantId == tenantId
  }

  predicate Matches(w: Webhook, tenantId: Id, event: string) {
    w.tenantId == tenantId && w.isActive && event in w.events
  }

  predicate Enabled(s: State, op: Op) {
    match op
    case Create(_, _, _, _, _, newId, _) => newId !in s.webhooks
    case Trigger(t, event, plans) =>
      forall id :: id in s.webhooks && Matches(s.webhooks[id], t, event) ==>
        id in plans && Adequate(s.webhooks[id], plans[id])
    case Test(t, id, plan) => Owns(s, t, id) ==> Adequate(s.webhooks[id], plan)
    case _ => true
  }

  function NewRow(op: Op): Webhook
    requires op.Create?
  {
    Webhook(op.tenantId, op.url, op.description, op.events, op.newSecret, true, op.maxRetries.GetOr(3), 0, 0, None)
  }

  function Assign(w: Webhook, p: Patch): Entity {
    Entity(Assigned(Some(w.url), p.url), Assigned(w.description, p.description), Assigned(Some(w.events), p.events),
           Assigned(Some(w.isActive), p.isActive), Assigned(Some(w.maxRetries), p.maxRetries))
  }

  predicate BreaksNotNull(e: Entity) {
    e.url.Null? || e.events.Null? || e.isActive.Null? || e.maxRetries.Null?
  }

  function SavedRow(w: Webhook, e: Entity): Webhook
    requires !BreaksNotNull(e)
  {
    w.(url := Column(Some(w.url), e.url).value,
       description := Column(w.description, e.description),
       events := Column(Some(w.events), e.events).value,
       isActive := Column(Some(w.isActive), e.isActive).value,
       maxRetries := Column(Some(w.maxRetries), e.maxRetries).value)
  }

  function FormatResponse(id: Id, w: Webhook): WebhookDto {
    WebhookDto(id, w.tenantId, Some(w.url), w.description, Some(w.events), Some(w.isActive), Some(w.maxRetries),
               w.deliveryCount, w.failureCount, w.lastDeliveredAt)
  }

  /** The response to an update shows the entity, not the row. */
  function FormatEntity(id: Id, e: Entity, w: Webhook): WebhookDto {
    WebhookDto(id, w.tenantId, Shown(e.url), Shown(e.description), Shown(e.events), Shown(e.isActive),
               Shown(e.maxRetries), w.deliveryCount, w.failureCount, w.lastDeliveredAt)
  }

  function DoUpdate(s: State, t: Id, id: Id, p: Patch): (State, Outcome) {
    if !Owns(s, t, id) then (s, NotFound)
    else
      var e := Assign(s.webhooks[id], p);
      if BreaksNotNull(e) then (s, ConstraintViolation)
      else
        var row := SavedRow(s.webhooks[id], e);
        (Put(s, id, row), Served(FormatEntity(id, e, row)))
  }

  function Triggered(s: State, t: Id, event: string, plans: map<Id, Plan>): State
    requires Enabled(s, Trigger(t, event, plans))
  {
    s.(webhooks := map id | id in s.webhooks ::
         if Matches(s.webhooks[id], t, event) then Delivery(s.webhooks[id], plans[id]).stored else s.webhooks[id])
  }

  function Put(s: State, id: Id, w: Webhook): State {
    s.(webhooks := s.webhooks[id := w])
  }

  function Step(s: State, op: Op): State
    requires Enabled(s, op)
  {
    match op
    case Create(t, _, _, _, _, newId, _) => if t in s.tenants then Put(s, newId, NewRow(op)) else s
    case Update(t, id, patch) => DoUpdate(s, t, id, patch).0
    case Delete(t, id) => if Owns(s, t, id) then s.(webhooks := s.webhooks - {id}) else s
    case RotateSecret(t, id, newSecret) =>
      if Owns(s, t, id) then Put(s, id, s.webhooks[id].(secret := newSecret)) else s
    case Trigger(t, event, plans) => Triggered(s, t, event, plans)
    case Test(t, id, plan) => if Owns(s, t, id) then Put(s, id, Delivery(s.webhooks[id], plan).stored) else s
    case AddTenant(t) => s.(tenants := s.tenants + {t})
    case DropTenant(t) =>
      State(map id | id in s.webhooks && s.webhooks[id].tenantId != t :: s.webhooks[id], s.tenants - {t})
  }

  predicate HidesSome(w: Webhook, p: Patch) {
    p.url.Undefined? || p.events.Undefined? || p.isActive.Undefined? || p.maxRetries.Undefined? ||
    Hidden(w.description, p.description)
  }

  /** `shown` has nothing that `full` has not. */
  predicate Partial(shown: WebhookDto, full: WebhookDto) {
    && shown == full.(url := shown.url, description := shown.description, events := shown.events,
                      isActive := shown.isActive, maxRetries := shown.maxRetries)
    && (shown.url.Some? ==> shown.url == full.url)
    && (shown.description.Some? ==> shown.description == full.description)
    && (shown.events.Some? ==> shown.events == full.events)
    && (shown.isActive.Some? ==> shown.isActive == full.isActive)
    && (shown.maxRetries.Some? ==> shown.maxRetries == full.maxRetries)
  }

  /** The answer to an update never contradicts the row, and is the row in full exactly if no
      property of the patch is undefined where the row has a value; the counters, the secret
      and every other row stay. */
  lemma UpdateAnswerIff(s: State, t: Id, id: Id, p: Patch)
    requires DoUpdate(s, t, id, p).1.Served?
    ensures var (s', answer) := DoUpdate(s, t, id, p);
            var w, w' := s.webhooks[id], s'.webhooks[id];
            && Partial(answer.dto, FormatResponse(id, w'))
            && (answer.dto == FormatResponse(id, w') <==> !HidesSome(w, p))
            && Total(w') == Total(w) && w'.secret == w.secret && w'.tenantId == t
            && s' == s.(webhooks := s.webhooks[id := w'])
  {
  }

  /** The call delivers something to this webhook. */
  predicate DeliversTo(s: State, op: Op, id: Id) {
    id in s.webhooks &&
    ((op.Trigger? && Matches(s.webhooks[id], op.tenantId, op.event)) ||
     (op.Test? && op.id == id && Owns(s, op.tenantId, id)))
  }

  ghost predicate AllSavesWork(op: Op) {
    (op.Trigger? ==> forall id :: id in op.plans ==> SavesWork(op.plans[id])) && (op.Test? ==> SavesWork(op.plan))
  }

  /** A call adds one to the counters of exactly the webhooks it delivers to. */
  lemma StepTotal(s: State, op: Op, id: Id)
    requires Enabled(s, op) && AllSavesWork(op) && id in s.webhooks && id in Step(s, op).webhooks
    ensures Total(Step(s, op).webhooks[id]) == Total(s.webhooks[id]) + (if DeliversTo(s, op, id) then 1 else 0)
  {
    if DeliversTo(s, op, id) {
      DeliveryCountsOnce(s.webhooks[id], if op.Trigger? then op.plans[id] else op.plan);
    }
  }

  datatype Trace = Trace(states: seq<State>, ops: seq<Op>)

  ghost predicate Follows(s: State, op: Op, s': State) {
    Enabled(s, op) && AllSavesWork(op) && s' == Step(s, op)
  }

  /** Call `i` of the run is what happens between states `i` and `i + 1`. */
  ghost predicate StepAt(tr: Trace, i: int) {
    0 <= i < |tr.ops| < |tr.states| ==> Follows(tr.states[i], tr.ops[i], tr.states[i + 1])
  }

  ghost predicate Valid(tr: Trace) {
    && |tr.states| == |tr.ops| + 1
    && forall i :: StepAt(tr, i)
  }

  function Deliveries(tr: Trace, i: nat, j: nat, id: Id): nat
    requires i <= j <= |tr.ops| <= |tr.states|
    decreases j - i
  {
    if i == j then 0
    else Deliveries(tr, i, j - 1, id) + (if DeliversTo(tr.states[j - 1], tr.ops[j - 1], id) then 1 else 0)
  }

  /** Over any run the counters of a webhook grow by the deliveries made for it. */
  lemma {:induction false} TotalsCountDeliveries(tr: Trace, i: nat, j: nat, id: Id)
    requires Valid(tr) && i <= j <= |tr.ops|
    requires forall m :: i <= m <= j ==> id in tr.states[m].webhooks
    ensures Total(tr.states[j].webhooks[id]) == Total(tr.states[i].webhooks[id]) + Deliveries(tr, i, j, id)
    decreases j - i
  {
    if i < j {
      TotalsCountDeliveries(tr, i, j - 1, id);
      assert StepAt(tr, j - 1);
      assert id in tr.states[j - 1].webhooks && id in tr.states[j].webhooks;
      StepTotal(tr.states[j - 1], tr.ops[j - 1], id);
    }
  }

  lemma CreatedAtZero(s: State, op: Op, s': State)
    requires Follows(s, op, s') && op.Create? && op.newId in s'.webhooks
    ensures Total(s'.webhooks[op.newId]) == 0
  {
  }

  /** From its creation on they are that number. */
  lemma TotalsSinceCreation(tr: Trace, b: nat, j: nat, id: Id)
    requires Valid(tr) && b < j <= |tr.ops| && tr.ops[b].Create? && tr.ops[b].newId == id
    requires forall m :: b < m <= j ==> id in tr.states[m].webhooks
    ensures Total(tr.states[j].webhooks[id]) == Deliveries(tr, b + 1, j, id)
  {
    var start := b + 1;
    assert StepAt(tr, b);
    CreatedAtZero(tr.states[b], tr.ops[b], tr.states[start]);
    TotalsCountDeliveries(tr, start, j, id);
  }

  class WebhookService {
    var webhooks: map<Id, Webhook>
    var tenants: set<Id>

    constructor (tenants: set<Id>)
      ensures Snapshot() == State(map[], tenants)
    {
      webhooks := map[];
      this.tenants := tenants;
    }

    ghost function Snapshot(): State
      reads this
    {
      State(webhooks, tenants)
    }

    /** Refused only by the tenant's foreign key. */
    method CreateWebhook(tenantId: Id, url: string, description: Option<string>, events: seq<string>,
                         maxRetries: Option<int>, newId: Id, newSecret: string) returns (outcome: Outcome)
      requires newId !in webhooks
      modifies this
      ensures Snapshot() ==
              Step(old(Snapshot()), Create(tenantId, url, description, events, maxRetries, newId, newSecret))
      ensures tenantId in old(tenants) ==>
                newId in webhooks && outcome == Served(FormatResponse(newId, webhooks[newId]))
      ensures tenantId !in old(tenants) ==> outcome == ConstraintViolation
    {
      var retries := if maxRetries.Some? then maxRetries.value else 3;
      var webhook := Webhook(tenantId, url, description, events, newSecret, true, retries, 0, 0, None);
      if tenantId !in tenants {
        return ConstraintViolation;
      }
      webhooks := webhooks[newId := webhook];
      return Served(FormatResponse(newId, webhook));
    }

    method UpdateWebhook(tenantId: Id, id: Id, patch: Patch) returns (outcome: Outcome)
      modifies this
      ensures (Snapshot(), outcome) == DoUpdate(old(Snapshot()), tenantId, id, patch)
    {
      if id !in webhooks || webhooks[id].tenantId != tenantId {
        return NotFound;
      }
      var entity := Assign(webhooks[id], patch);
      // A null for a column that may not be null makes the save fail.
      if BreaksNotNull(entity) {
        return ConstraintViolation;
      }
      var updated := SavedRow(webhooks[id], entity);
      webhooks := webhooks[id := updated];
      return Served(FormatEntity(id, entity, updated));
    }

    method DeleteWebhook(tenantId: Id, id: Id) returns (found: bool)
      modifies this
      ensures found == Owns(old(Snapshot()), tenantId, id)
      ensures Snapshot() == Step(old(Snapshot()), Delete(tenantId, id))
    {
      if id !in webhooks || webhooks[id].tenantId != tenantId {
        return false;
      }
      webhooks := webhooks - {id};
      return true;
    }

    method RotateWebhookSecret(tenantId: Id, id: Id, newSecret: string) returns (found: bool)
      modifies this
      ensures found == Owns(old(Snapshot()), tenantId, id)
      ensures Snapshot() == Step(old(Snapshot()), RotateSecret(tenantId, id, newSecret))
    {
      if id !in webhooks || webhooks[id].tenantId != tenantId {
        return false;
      }
      webhooks := webhooks[id := webhooks[id].(secret := newSecret)];
      return true;
    }

    /** The retry loop.  `webhook` is the entity in memory, the map the database. */
    method Deliver(id: Id, plan: Plan) returns (webhook: Webhook, requests: nat, thrown: bool)
      requires id in webhooks && Adequate(webhooks[id], plan)
      modifies `webhooks
      ensures webhooks == old(webhooks)[id := Delivery(old(webhooks[id]), plan).stored]
      ensures Delivery(old(webhooks[id]), plan) == Report(webhook, webhooks[id], requests, thrown)
    {
      webhook := webhooks[id];
      ghost var w := webhook;
      var attempt, lastError := 0, false;
      requests := 0;
      while attempt < webhook.maxRetries
        invariant 0 <= attempt <= Limit(w) && requests == attempt && (lastError <==> attempt > 0)
        invariant webhook == AfterAttempts(w, plan, attempt) && webhooks == old(webhooks)
        invariant FirstFull(plan.attempts, 0, Limit(w)) == FirstFull(plan.attempts, attempt, Limit(w))
      {
        var reply := plan.attempts[attempt];
        requests := requests + 1;
        if reply.Replied? {
          webhook := webhook.(deliveryCount := webhook.deliveryCount + 1, lastDeliveredAt := Some(reply.at));
          if reply.saved {
            webhooks := webhooks[id := webhook];
            return webhook, requests, false;
          }
        }
        attempt := attempt + 1;
        lastError := true;
      }
      webhook := webhook.(failureCount := webhook.failureCount + 1);
      if !plan.finalSave {
        assert old(webhooks)[id := w] == webhooks;
        return webhook, requests, true;
      }
      webhooks := webhooks[id := webhook];
      thrown := lastError;
    }

    /** Every matching webhook gets its delivery; a failing one does not stop the others. */
    method TriggerEvent(tenantId: Id, event: string, plans: map<Id, Plan>)
      requires Enabled(Snapshot(), Trigger(tenantId, event, plans))
      modifies `webhooks
      ensures Snapshot() == Step(old(Snapshot()), Trigger(tenantId, event, plans))
    {
      var matching := set id | id in webhooks && Matches(webhooks[id], tenantId, event);
      var left := matching;
      while left != {}
        invariant left <= matching && webhooks.Keys == old(webhooks).Keys
        invariant forall id :: id in webhooks && (id !in matching || id in left) ==> webhooks[id] == old(webhooks)[id]
        invariant forall id :: id in matching && id !in left ==>
                    webhooks[id] == Delivery(old(webhooks)[id], plans[id]).stored
        decreases left
      {
        var id :| id in left;
        var _, _, _ := Deliver(id, plans[id]);
        left := left - {id};
      }
    }

    /** The result hides the error; None when the webhook is not found. */
    method TestDelivery(tenantId: Id, id: Id, plan: Plan) returns (delivered: Option<bool>)
      requires Enabled(Snapshot(), Test(tenantId, id, plan))
      modifies `webhooks
      ensures Snapshot() == Step(old(Snapshot()), Test(tenantId, id, plan))
      ensures delivered ==
              if Owns(old(Snapshot()), tenantId, id) then Some(!Delivery(old(webhooks)[id], plan).thrown) else None
    {
      if id !in webhooks || webhooks[id].tenantId != tenantId {
        return None;
      }
      var _, _, thrown := Deliver(id, plan);
      return Some(!thrown);
    }
  }
}
