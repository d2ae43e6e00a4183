/** The payment provider's webhook: each notification either activates,
    cancels or expires the local subscription rows that carry the
    provider's subscription id, or changes nothing. The `subscriptions`
    table is a map from row keys to rows, the clock is the `now` parameter,
    and the database's answer to an update is the `updateError`
    parameter. */
module AsaasWebhook {
  import opened Wrappers

  /** A row of `subscriptions`: the columns the webhook reads or writes, and
      the others by name. */
  datatype Subscription = Subscription(
    status: string,
    startedAt: Option<string>,
    asaasSubscriptionId: Option<string>,
    otherColumns: map<string, string>)

  /** The `payment` object of a payment notification. */
  datatype Payment = Payment(subscription: Option<string>)

  /** The `subscription` object of a subscription notification. */
  datatype ProviderSubscription = ProviderSubscription(id: string, status: string)

  /** A JSON object field that `.id` is read from: absent (`undefined`),
      `null`, or an object. */
  datatype JsonField<+T> = Undefined | Null | Defined(value: T)

  datatype Webhook = Webhook(event: string, payment: Option<Payment>, subscription: JsonField<ProviderSubscription>)

  /** The request body: not JSON, the JSON `null`, or a notification. */
  datatype WebhookRequest = Unparsable(message: string) | NullBody | Body(webhook: Webhook)

  /** A thrown value: an `Error` with its message, or anything else. */
  datatype Thrown = ErrorInstance(message: string) | OtherValue

  /** Status 200 with `{received: true}`, or status 500 with the error and
      `{received: false}`. */
  datatype WebhookResponse = Received | Failed(error: string)

  /** An update of the rows of one provider subscription: the new status and,
      when present, the new `started_at`; other columns are left alone. */
  datatype Patch = Patch(status: string, startedAt: Option<string>)

  /** What a notification asks of the table. */
  datatype Action = NoUpdate | Update(subscriptionId: string, patch: Patch) | Fail(error: Thrown)

  /** The message of reading `id` from an absent `subscription`. */
  const MissingSubscriptionMessage := "Cannot read properties of undefined (reading 'id')"

  /** The message of reading `id` from a `null` `subscription`. */
  const NullSubscriptionMessage := "Cannot read properties of null (reading 'id')"

  /** The message of reading `event` from a `null` body. */
  const NullBodyMessage := "Cannot read properties of null (reading 'event')"

  /** The notifications the handler acts on. */
  const HandledEvents: set<string> := {
    "PAYMENT_RECEIVED", "PAYMENT_CONFIRMED", "SUBSCRIPTION_CREATED", "SUBSCRIPTION_UPDATED",
    "PAYMENT_OVERDUE", "PAYMENT_DELETED"
  }

  /** The `catch` block's message. */
  function ErrorMessage(e: Thrown): string
  {
    match e
    case ErrorInstance(message) => message
    case OtherValue => "Internal server error"
  }

  /** `payment?.subscription` is truthy: present and non-empty. */
  predicate HasSubscription(payment: Option<Payment>)
  {
    payment.Some? && payment.value.subscription.Some? && payment.value.subscription.value != []
  }

  /** The `updateData` built for a provider status, if any. */
  function StatusPatch(providerStatus: string, now: string): Option<Patch>
  {
    if providerStatus == "ACTIVE" then Some(Patch("active", Some(now)))
    else if providerStatus == "CANCELLED" then Some(Patch("cancelled", None))
    else if providerStatus == "EXPIRED" then Some(Patch("expired", None))
    else None
  }

  /** The event dispatch of the handler. */
  function Dispatch(webhook: Webhook, now: string): (action: Action)
  {
    var event := webhook.event;
    if event == "PAYMENT_RECEIVED" || event == "PAYMENT_CONFIRMED" then
      if HasSubscription(webhook.payment) then Update(webhook.payment.value.subscription.value, Patch("active", Some(now)))
      else NoUpdate
    else if event == "SUBSCRIPTION_CREATED" || event == "SUBSCRIPTION_UPDATED" then
      match webhook.subscription
      case Undefined => Fail(ErrorInstance(MissingSubscriptionMessage))
      case Null => Fail(ErrorInstance(NullSubscriptionMessage))
      case Defined(subscription) =>
        match StatusPatch(subscription.status, now)
        case Some(patch) => Update(subscription.id, patch)
        case None => NoUpdate
    else if event == "PAYMENT_OVERDUE" || event == "PAYMENT_DELETED" then
      if HasSubscription(webhook.payment) then Update(webhook.payment.value.subscription.value, Patch("expired", None))
      else NoUpdate
    else NoUpdate
  }

  function RequestAction(req: WebhookRequest, now: string): Action
  {
    match req
    case Unparsable(message) => Fail(ErrorInstance(message))
    case NullBody => Fail(ErrorInstance(NullBodyMessage))
    case Body(webhook) => Dispatch(webhook, now)
  }

  /** A row after an update. */
  function Patched(row: Subscription, patch: Patch): Subscription
  {
    row.(status := patch.status, startedAt := if patch.startedAt.Some? then patch.startedAt else row.startedAt)
  }

  /** `update(patch).eq('asaas_subscription_id', id)`. */
  function UpdateWhere(rows: map<nat, Subscription>, id: string, patch: Patch): map<nat, Subscription>
  {
    map r | r in rows :: if rows[r].asaasSubscriptionId == Some(id) then Patched(rows[r], patch) else rows[r]
  }

  /** The table and the response after one notification. */
  function Step(rows: map<nat, Subscription>, req: WebhookRequest, now: string, updateError: Option<Thrown>): (map<nat, Subscription>, WebhookResponse)
  {
    match RequestAction(req, now)
    case NoUpdate => (rows, Received)
    case Fail(e) => (rows, Failed(ErrorMessage(e)))
    case Update(id, patch) =>
      match updateError
      case None => (UpdateWhere(rows, id, patch), Received)
      case Some(e) => (rows, Failed(ErrorMessage(e)))
  }

  /** The notification table: payment received or confirmed activates and
      stamps `started_at`; a subscription notification maps `ACTIVE`,
      `CANCELLED` and `EXPIRED` and ignores any other status; an overdue or
      deleted payment expires without touching `started_at`; anything else,
      or a payment without a subscription, asks for nothing. Only a
      subscription notification whose `subscription` is absent or `null`
      fails, with the error of reading `id` from it. */
  lemma EventTable(w: Webhook, now: string)
    ensures (w.event == "PAYMENT_RECEIVED" || w.event == "PAYMENT_CONFIRMED") && HasSubscription(w.payment) ==>
      Dispatch(w, now) == Update(w.payment.value.subscription.value, Patch("active", Some(now)))
    ensures (w.event == "PAYMENT_OVERDUE" || w.event == "PAYMENT_DELETED") && HasSubscription(w.payment) ==>
      Dispatch(w, now) == Update(w.payment.value.subscription.value, Patch("expired", None))
    ensures (w.event == "SUBSCRIPTION_CREATED" || w.event == "SUBSCRIPTION_UPDATED") && w.subscription.Defined? ==>
      var sub := w.subscription.value;
      && (sub.status == "ACTIVE" ==> Dispatch(w, now) == Update(sub.id, Patch("active", Some(now))))
      && (sub.status == "CANCELLED" ==> Dispatch(w, now) == Update(sub.id, Patch("cancelled", None)))
      && (sub.status == "EXPIRED" ==> Dispatch(w, now) == Update(sub.id, Patch("expired", None)))
      && (sub.status !in {"ACTIVE", "CANCELLED", "EXPIRED"} ==> Dispatch(w, now) == NoUpdate)
    ensures Dispatch(w, now).Fail? <==>
      (w.event == "SUBSCRIPTION_CREATED" || w.event == "SUBSCRIPTION_UPDATED") && !w.subscription.Defined?
    ensures Dispatch(w, now).Fail? ==>
      Dispatch(w, now).error == ErrorInstance(if w.subscription.Null? then NullSubscriptionMessage else MissingSubscriptionMessage)
    ensures w.event in {"PAYMENT_RECEIVED", "PAYMENT_CONFIRMED", "PAYMENT_OVERDUE", "PAYMENT_DELETED"} && !HasSubscription(w.payment) ==>
      Dispatch(w, now) == NoUpdate
    ensures w.event !in HandledEvents ==> Dispatch(w, now) == NoUpdate
  {
  }

  /** Every update writes one of three statuses, and only activation writes
      `started_at`, always with the current time. */
  lemma StatusVocabulary(w: Webhook, now: string)
    ensures Dispatch(w, now).Update? ==> Dispatch(w, now).patch.status in {"active", "cancelled", "expired"}
    ensures Dispatch(w, now).Update? && Dispatch(w, now).patch.startedAt.Some? ==>
      Dispatch(w, now).patch == Patch("active", Some(now))
  {
  }

  /** An update touches only the rows of the named provider subscription,
      and in them only the status and, when the patch sets it, `started_at`;
      no row appears or disappears. */
  lemma UpdateFrame(rows: map<nat, Subscription>, id: string, patch: Patch)
    ensures UpdateWhere(rows, id, patch).Keys == rows.Keys
    ensures forall r :: r in rows && rows[r].asaasSubscriptionId != Some(id) ==> UpdateWhere(rows, id, patch)[r] == rows[r]
    ensures forall r :: r in rows && rows[r].asaasSubscriptionId == Some(id) ==>
      var row := UpdateWhere(rows, id, patch)[r];
      && row.status == patch.status
      && row.startedAt == (if patch.startedAt.Some? then patch.startedAt else rows[r].startedAt)
      && row.asaasSubscriptionId == rows[r].asaasSubscriptionId
      && row.otherColumns == rows[r].otherColumns
  {
  }

  /** Applying an update a second time changes nothing more. */
  lemma UpdateIdempotent(rows: map<nat, Subscription>, id: string, patch: Patch)
    ensures UpdateWhere(UpdateWhere(rows, id, patch), id, patch) == UpdateWhere(rows, id, patch)
  {
    var once := UpdateWhere(rows, id, patch);
    var twice := UpdateWhere(once, id, patch);
    assert twice.Keys == once.Keys;
    forall r | r in once
      ensures twice[r] == once[r]
    {
      if rows[r].asaasSubscriptionId == Some(id) {
        assert once[r] == Patched(rows[r], patch);
      }
    }
  }

  /** A notification delivered twice at the same instant leaves the table as
      one delivery does; a failure leaves it untouched and answers 500. */
  lemma StepIdempotent(rows: map<nat, Subscription>, req: WebhookRequest, now: string, updateError: Option<Thrown>)
    ensures Step(Step(rows, req, now, updateError).0, req, now, updateError).0 == Step(rows, req, now, updateError).0
    ensures Step(rows, req, now, updateError).1.Failed? ==> Step(rows, req, now, updateError).0 == rows
  {
    if RequestAction(req, now).Update? && updateError.None? {
      UpdateIdempotent(rows, RequestAction(req, now).subscriptionId, RequestAction(req, now).patch);
    }
  }

  /** The answer is 500 exactly when the body is not JSON or is `null`, a
      subscription notification has an absent or `null` subscription, or an
      update was issued and failed; the `null` body fails on reading
      `event`. */
  lemma FailureCases(rows: map<nat, Subscription>, req: WebhookRequest, now: string, updateError: Option<Thrown>)
    ensures Step(rows, req, now, updateError).1.Failed? <==>
      || req.Unparsable?
      || req.NullBody?
      || (req.Body? && (Dispatch(req.webhook, now).Fail? || (Dispatch(req.webhook, now).Update? && updateError.Some?)))
    ensures req.NullBody? ==> Step(rows, req, now, updateError) == (rows, Failed(NullBodyMessage))
  {
  }

  /** The server side of the webhook, holding the `subscriptions` table. */
  class SubscriptionStore {
    var rows: map<nat, Subscription>

    constructor (rows: map<nat, Subscription>)
      ensures this.rows == rows
    {
      this.rows := rows;
    }

    /** Runs one update against the table; the database reports an error or
        applies it to every matching row. */
    method RunUpdate(id: string, patch: Patch, updateError: Option<Thrown>) returns (error: Option<Thrown>)
      modifies this
      ensures error == updateError
      ensures rows == if updateError.None? then UpdateWhere(old(rows), id, patch) else old(rows)
    {
      error := updateError;
      if updateError.None? {
        rows := UpdateWhere(rows, id, patch);
      }
    }

    /** The `serve` handler (CORS preflight and logging left out). */
    method HandleWebhook(req: WebhookRequest, now: string, updateError: Option<Thrown>) returns (resp: WebhookResponse)
      modifies this
      ensures (rows, resp) == Step(old(rows), req, now, updateError)
    {
      if req.Unparsable? {
        return Failed(ErrorMessage(ErrorInstance(req.message)));
      } else if req.NullBody? {
        return Failed(NullBodyMessage);
      }
      var webhook := req.webhook;
      if webhook.event == "PAYMENT_RECEIVED" || webhook.event == "PAYMENT_CONFIRMED" {
        if HasSubscription(webhook.payment) {
          var error := RunUpdate(webhook.payment.value.subscription.value, Patch("active", Some(now)), updateError);
          if error.Some? {
            return Failed(ErrorMessage(error.value));
          }
        }
      } else if webhook.event == "SUBSCRIPTION_CREATED" || webhook.event == "SUBSCRIPTION_UPDATED" {
        if webhook.subscription.Undefined? {
          return Failed(MissingSubscriptionMessage);
        } else if webhook.subscription.Null? {
          return Failed(NullSubscriptionMessage);
        }
        var subscription := webhook.subscription.value;
        var newStatus: Option<string> := None;
        var newStartedAt: Option<string> := None;
        if subscription.status == "ACTIVE" {
          newStatus, newStartedAt := Some("active"), Some(now);
        } else if subscription.status == "CANCELLED" {
          newStatus := Some("cancelled");
        } else if subscription.status == "EXPIRED" {
          newStatus := Some("expired");
        }
        if newStatus.Some? {
          var error := RunUpdate(subscription.id, Patch(newStatus.value, newStartedAt), updateError);
          if error.Some? {
            return Failed(ErrorMessage(error.value));
          }
        }
      } else if webhook.event == "PAYMENT_OVERDUE" || webhook.event == "PAYMENT_DELETED" {
        if HasSubscription(webhook.payment) {
          var error := RunUpdate(webhook.payment.value.subscription.value, Patch("expired", None), updateError);
          if error.Some? {
            return Failed(ErrorMessage(error.value));
          }
        }
      }
      resp := Received;
    }
  }
}
