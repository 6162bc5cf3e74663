/** Stripe webhooks: idempotent delivery, subscriptions, add-on credits and refunds. */
module Billing {
  import opened Options

  datatype Subscription = Subscription(id: string, customer: string, status: string, price: Option<string>,
      periodEnd: Option<nat>)

  /** An add-on checkout; "" stands for missing metadata. */
  datatype Addon = Addon(user: string, resource: string, grant: nat, intent: string)

  datatype Body =
    | SubscriptionChanged(sub: Subscription)
    | SubscriptionDeleted(customer: string)
    | AddonPaid(addon: Addon)
    | SubscriptionPaid(sub: Subscription)   // with the subscription that Stripe returns for it
    | InvoiceFailed(customer: string)
    | ChargeRefunded(intent: string)
    | Unhandled

  /** One delivery of an event, in the calendar month in which it is handled.  A handler
      may fail: before its first statement, or after so many of its statements. */
  datatype Delivery = Delivery(id: string, body: Body, month: nat, failsAfter: Option<nat>)

  datatype Customer = Customer(plan: string, status: string, subscription: Option<string>, periodEnd: Option<nat>)

  datatype CreditKey = CreditKey(user: string, resource: string, month: nat)

  /** The tables: recorded events and whether they are processed, customers, the
      granted_extra column of the usage table, and the payments of add-ons. */
  datatype Ledger = Ledger(
    events: map<string, bool>,
    customers: map<string, Customer>,
    extra: map<CreditKey, nat>,
    payments: map<string, Addon>)

  function PlanOf(prices: map<string, string>, price: Option<string>): string {
    if price.Some? && price.value in prices then prices[price.value] else "free"
  }

  function UpdateCustomer(l: Ledger, prices: map<string, string>, sub: Subscription): Ledger {
    if sub.customer !in l.customers then l
    else
      l.(customers := l.customers[sub.customer :=
        Customer(PlanOf(prices, sub.price), sub.status, Some(sub.id), sub.periodEnd)])
  }

  function ExtraAt(l: Ledger, k: CreditKey): nat {
    if k in l.extra then l.extra[k] else 0
  }

  predicate Credits(a: Addon) {
    a.user != "" && a.resource != "" && a.grant != 0
  }

  function Credited(l: Ledger, a: Addon, month: nat): Ledger {
    var k := CreditKey(a.user, a.resource, month);
    if Credits(a) then l.(extra := l.extra[k := ExtraAt(l, k) + a.grant]) else l
  }

  /** The first payment recorded for an intent stays.  Only a checkout that credits gets
      that far: the name that the second statement needs is imported with the first. */
  function Recorded(l: Ledger, a: Addon): Ledger {
    if a.intent == "" || !Credits(a) || a.intent in l.payments then l
    else l.(payments := l.payments[a.intent := a])
  }

  function Reversed(l: Ledger, a: Addon, month: nat): Ledger {
    var k := CreditKey(a.user, a.resource, month);
    if a.resource == "" || a.grant == 0 || k !in l.extra then l
    else l.(extra := l.extra[k := if l.extra[k] < a.grant then 0 else l.extra[k] - a.grant])
  }

  /** What an event does besides being recorded. */
  function Effect(l: Ledger, prices: map<string, string>, body: Body, month: nat): Ledger {
    match body
    case SubscriptionChanged(sub) => UpdateCustomer(l, prices, sub)
    case SubscriptionDeleted(c) =>
      if c in l.customers then l.(customers := l.customers[c := Customer("free", "canceled", None, None)]) else l
    case AddonPaid(a) => Recorded(Credited(l, a, month), a)
    case SubscriptionPaid(sub) => UpdateCustomer(l, prices, sub)
    case InvoiceFailed(c) =>
      if c in l.customers && l.customers[c].status == "active" then
        l.(customers := l.customers[c := l.customers[c].(status := "past_due")])
      else l
    case ChargeRefunded(intent) =>
      if intent != "" && intent in l.payments then Reversed(l, l.payments[intent], month) else l
    case Unhandled => l
  }

  /** What the first statements of a handler do: an add-on checkout has two, the credit and
      the payment, every other handler at most one. */
  function Begun(l: Ledger, prices: map<string, string>, body: Body, month: nat, statements: nat): Ledger {
    if statements == 0 then l
    else if body.AddonPaid? && statements == 1 then Credited(l, body.addon, month)
    else Effect(l, prices, body, month)
  }

  /** A checkout with a user and an intent that credits nothing raises before the payment. */
  predicate Raises(body: Body) {
    body.AddonPaid? && body.addon.user != "" && body.addon.intent != "" && !Credits(body.addon)
  }

  /** After how many statements the handler of a delivery fails, if it does. */
  function FailsAfter(d: Delivery): Option<nat> {
    if Raises(d.body) then Some(0) else d.failsAfter
  }

  function Handle(l: Ledger, prices: map<string, string>, d: Delivery): Ledger {
    if d.id in l.events then l
    else
      var recorded := l.(events := l.events[d.id := false]);
      if FailsAfter(d).Some? then Begun(recorded, prices, d.body, d.month, FailsAfter(d).value)
      else
        var done := Effect(recorded, prices, d.body, d.month);
        done.(events := done.events[d.id := true])
  }

  function Run(l: Ledger, prices: map<string, string>, ds: seq<Delivery>): Ledger {
    if ds == [] then l else Handle(Run(l, prices, ds[..|ds| - 1]), prices, ds[|ds| - 1])
  }

  datatype Reply = Duplicate | Processed | Failed

  /** The service with its four tables. */
  class BillingService {
    const prices: map<string, string>
    var events: map<string, bool>
    var customers: map<string, Customer>
    var extra: map<CreditKey, nat>
    var payments: map<string, Addon>

    function State(): Ledger
      reads this
    {
      Ledger(events, customers, extra, payments)
    }

    constructor (prices: map<string, string>, l: Ledger)
      ensures this.prices == prices && State() == l
    {
      this.prices := prices;
      events, customers, extra, payments := l.events, l.customers, l.extra, l.payments;
    }

    method UpdateSubscription(sub: Subscription)
      modifies this`customers
      ensures State() == UpdateCustomer(old(State()), prices, sub)
    {
      var plan := if sub.price.Some? && sub.price.value in prices then prices[sub.price.value] else "free";
      if sub.customer in customers {
        customers := customers[sub.customer := Customer(plan, sub.status, Some(sub.id), sub.periodEnd)];
      }
    }

    /** The two statements of an add-on checkout; after the first the handler may fail. */
    method CreditAddon(a: Addon, month: nat, failsAfter: Option<nat>) returns (raised: bool)
      modifies this`extra, this`payments
      ensures raised == (Raises(AddonPaid(a)) && failsAfter != Some(1))
      ensures var credited := Credited(old(State()), a, month);
              State() == if failsAfter == Some(1) then credited else Recorded(credited, a)
    {
      var imported := false;
      if a.user != "" && a.resource != "" && a.grant != 0 {
        imported := true;
        var k := CreditKey(a.user, a.resource, month);
        extra := extra[k := (if k in extra then extra[k] else 0) + a.grant];
      }
      if failsAfter == Some(1) { return false; }
      if a.intent != "" && a.user != "" {
        if !imported { return true; }
        if a.intent !in payments { payments := payments[a.intent := a]; }
      }
      return false;
    }

    method ReverseCharge(intent: string, month: nat)
      modifies this`extra
      ensures State() == Effect(old(State()), prices, ChargeRefunded(intent), month)
    {
      if intent == "" || intent !in payments { return; }
      var a := payments[intent];
      var k := CreditKey(a.user, a.resource, month);
      if a.resource != "" && a.grant != 0 && k in extra {
        extra := extra[k := if extra[k] < a.grant then 0 else extra[k] - a.grant];
      }
    }

    /** `handle_webhook`. */
    method HandleWebhook(d: Delivery) returns (reply: Reply)
      modifies this
      ensures State() == Handle(old(State()), prices, d)
      ensures reply == if d.id in old(events) then Duplicate else if FailsAfter(d).Some? then Failed else Processed
      ensures d.id !in old(events) && d.failsAfter.None? ==>
                (reply == Failed <==>
                 d.body.AddonPaid? && d.body.addon.user != "" && d.body.addon.intent != "" &&
                 (d.body.addon.resource == "" || d.body.addon.grant == 0))
    {
      if d.id in events { return Duplicate; }
      events := events[d.id := false];
      if d.failsAfter == Some(0) { return Failed; }
      match d.body {
        case SubscriptionDeleted(c) =>
          if c in customers { customers := customers[c := Customer("free", "canceled", None, None)]; }
        case SubscriptionChanged(sub) => UpdateSubscription(sub);
        case AddonPaid(a) => 
          var raised := CreditAddon(a, d.month, d.failsAfter);
          if raised { return Failed; }
        case SubscriptionPaid(sub) => UpdateSubscription(sub);
        case InvoiceFailed(c) =>
          if c in customers && customers[c].status == "active" {
            customers := customers[c := customers[c].(status := "past_due")];
          }
        case ChargeRefunded(intent) => ReverseCharge(intent, d.month);
        case Unhandled =>
      }
      if d.failsAfter.Some? { return Failed; }
      events := events[d.id := true];
      return Processed;
    }
  }

  // ----- Duplicates

  predicate Delivered(ds: seq<Delivery>, id: string) {
    exists i :: 0 <= i < |ds| && ds[i].id == id
  }

  /** The deliveries of events that were neither known nor delivered before. */
  function FirstDeliveries(known: set<string>, ds: seq<Delivery>): seq<Delivery> {
    if ds == [] then []
    else
      var init, last := FirstDeliveries(known, ds[..|ds| - 1]), ds[|ds| - 1];
      if last.id in known || Delivered(ds[..|ds| - 1], last.id) then init else init + [last]
  }

  lemma EffectKeepsEvents(l: Ledger, prices: map<string, string>, body: Body, month: nat)
    ensures Effect(l, prices, body, month).events == l.events
  {
  }

  lemma HandleRecords(l: Ledger, prices: map<string, string>, d: Delivery)
    ensures Handle(l, prices, d).events.Keys == l.events.Keys + {d.id}
  {
    EffectKeepsEvents(l.(events := l.events[d.id := false]), prices, d.body, d.month);
  }

  lemma {:induction false} RunRecords(l: Ledger, prices: map<string, string>, ds: seq<Delivery>, id: string)
    ensures id in Run(l, prices, ds).events <==> id in l.events || Delivered(ds, id)
  {
    if ds != [] {
      var init, last := ds[..|ds| - 1], ds[|ds| - 1];
      RunRecords(l, prices, init, id);
      HandleRecords(Run(l, prices, init), prices, last);
      assert Delivered(ds, id) <==> Delivered(init, id) || last.id == id by {
        assert forall i :: 0 <= i < |init| ==> ds[i] == init[i];
      }
    }
  }

  /** However often and in whatever order events are delivered again, the tables end up
      as after their first deliveries. */
  lemma {:induction false} DuplicatesHaveNoEffect(l: Ledger, prices: map<string, string>, ds: seq<Delivery>,
                                                  known: set<string>)
    requires known <= l.events.Keys
    ensures Run(l, prices, ds) == Run(l, prices, FirstDeliveries(known, ds))
  {
    if ds != [] {
      var init, last := ds[..|ds| - 1], ds[|ds| - 1];
      DuplicatesHaveNoEffect(l, prices, init, known);
      RunRecords(l, prices, init, last.id);
      if last.id !in known && !Delivered(init, last.id) {
        var first := FirstDeliveries(known, ds);
        assert first[..|first| - 1] == FirstDeliveries(known, init);
      }
    }
  }

  /** No delivery is a duplicate. */
  predicate AllNew(known: set<string>, ds: seq<Delivery>) {
    ds == [] ||
    var init, last := ds[..|ds| - 1], ds[|ds| - 1];
    AllNew(known, init) && last.id !in known && !Delivered(init, last.id)
  }

  lemma {:induction false} FirstDeliveriesAreNew(known: set<string>, ds: seq<Delivery>)
    ensures AllNew(known, FirstDeliveries(known, ds))
    ensures forall d :: d in FirstDeliveries(known, ds) ==> Delivered(ds, d.id)
  {
    if ds != [] {
      var init, last := ds[..|ds| - 1], ds[|ds| - 1];
      FirstDeliveriesAreNew(known, init);
      assert forall i :: 0 <= i < |init| ==> ds[i] == init[i];
      var first := FirstDeliveries(known, init);
      assert (first + [last])[..|first|] == first;
      assert last.id == ds[|ds| - 1].id;
    }
  }

  // ----- Failed handlers

  function Without(ds: seq<Delivery>, id: string): seq<Delivery> {
    if ds == [] then []
    else
      var init, last := Without(ds[..|ds| - 1], id), ds[|ds| - 1];
      if last.id == id then init else init + [last]
  }

  /** The same tables, but for the record of one event. */
  ghost predicate SameBut(a: Ledger, b: Ledger, id: string) {
    && a.customers == b.customers && a.extra == b.extra && a.payments == b.payments
    && id in a.events
    && forall e :: e != id ==> (e in a.events <==> e in b.events) && (e in a.events ==> a.events[e] == b.events[e])
  }

  lemma CreditedSame(a: Ledger, b: Ledger, addon: Addon, month: nat)
    requires a.customers == b.customers && a.extra == b.extra && a.payments == b.payments
    ensures Credited(a, addon, month) == Credited(b, addon, month).(events := a.events)
  {
  }

  lemma RecordedSame(a: Ledger, b: Ledger, addon: Addon)
    requires a == b.(events := a.events)
    ensures Recorded(a, addon) == Recorded(b, addon).(events := a.events)
  {
  }

  lemma EffectSame(a: Ledger, b: Ledger, prices: map<string, string>, body: Body, month: nat)
    requires a.customers == b.customers && a.extra == b.extra && a.payments == b.payments
    ensures Effect(a, prices, body, month) == Effect(b, prices, body, month).(events := a.events)
  {
    match body {
      case AddonPaid(addon) =>
        CreditedSame(a, b, addon, month);
        RecordedSame(Credited(a, addon, month), Credited(b, addon, month), addon);
      case _ =>
    }
  }

  lemma BegunSame(a: Ledger, b: Ledger, prices: map<string, string>, body: Body, month: nat, n: nat)
    requires a.customers == b.customers && a.extra == b.extra && a.payments == b.payments
    ensures Begun(a, prices, body, month, n) == Begun(b, prices, body, month, n).(events := a.events)
  {
    EffectSame(a, b, prices, body, month);
  }

  lemma BegunKeepsEvents(l: Ledger, prices: map<string, string>, body: Body, month: nat, n: nat)
    ensures Begun(l, prices, body, month, n).events == l.events
  {
    EffectKeepsEvents(l, prices, body, month);
  }

  lemma HandleSame(a: Ledger, b: Ledger, prices: map<string, string>, d: Delivery, id: string)
    requires SameBut(a, b, id) && d.id != id
    ensures SameBut(Handle(a, prices, d), Handle(b, prices, d), id)
  {
    assert d.id in a.events <==> d.id in b.events;
    var a', b' := a.(events := a.events[d.id := false]), b.(events := b.events[d.id := false]);
    if FailsAfter(d).Some? {
      BegunSame(a', b', prices, d.body, d.month, FailsAfter(d).value);
      BegunKeepsEvents(b', prices, d.body, d.month, FailsAfter(d).value);
    } else {
      EffectSame(a', b', prices, d.body, d.month);
      EffectKeepsEvents(b', prices, d.body, d.month);
    }
  }

  /** What a failed handler did not do is never done: whatever is delivered later, the
      event again included, the tables are as if there had been its first statements and
      no such event. */
  lemma {:induction false} FailedDeliveryIsLost(l: Ledger, prices: map<string, string>, d: Delivery, ds: seq<Delivery>)
    requires FailsAfter(d).Some? && d.id !in l.events
    ensures SameBut(Run(Handle(l, prices, d), prices, ds),
                    Run(Begun(l, prices, d.body, d.month, FailsAfter(d).value), prices, Without(ds, d.id)), d.id)
  {
    var begun := Begun(l, prices, d.body, d.month, FailsAfter(d).value);
    if ds == [] {
      var recorded := l.(events := l.events[d.id := false]);
      BegunSame(recorded, l, prices, d.body, d.month, FailsAfter(d).value);
      BegunKeepsEvents(l, prices, d.body, d.month, FailsAfter(d).value);
    } else {
      var init, last := ds[..|ds| - 1], ds[|ds| - 1];
      FailedDeliveryIsLost(l, prices, d, init);
      if last.id != d.id {
        var kept := Without(ds, d.id);
        assert kept[..|kept| - 1] == Without(init, d.id);
        HandleSame(Run(Handle(l, prices, d), prices, init), Run(begun, prices, Without(init, d.id)), prices, last,
                   d.id);
      }
    }
  }

  // ----- Credits and refunds

  /** The delivery's handler executes its n-th statement. */
  predicate Reaches(d: Delivery, n: nat) {
    FailsAfter(d).None? || FailsAfter(d).value >= n
  }

  predicate For(a: Addon, k: CreditKey) {
    a.resource != "" && a.grant != 0 && a.user == k.user && a.resource == k.resource
  }

  predicate CreditsFor(a: Addon, k: CreditKey) {
    Credits(a) && For(a, k)
  }

  /** What a delivery adds at the key: the grant of an add-on checkout. */
  function Bought(d: Delivery, k: CreditKey): nat {
    if d.body.AddonPaid? && Reaches(d, 1) && d.month == k.month && CreditsFor(d.body.addon, k)
    then d.body.addon.grant else 0
  }

  predicate Records(d: Delivery, intent: string) {
    d.body.AddonPaid? && Reaches(d, 2) && d.body.addon.intent == intent && Credits(d.body.addon)
  }

  /** The add-on checkout that recorded a payment for the intent. */
  function CheckoutOf(ds: seq<Delivery>, intent: string): (d: Option<Delivery>)
    ensures d.Some? ==> Records(d.value, intent)
  {
    if ds == [] then None
    else
      var earlier, last := CheckoutOf(ds[..|ds| - 1], intent), ds[|ds| - 1];
      if earlier.Some? then earlier else if Records(last, intent) then Some(last) else None
  }

  /** The payment that a refund of the intent finds after some deliveries. */
  function PaymentOf(l: Ledger, ds: seq<Delivery>, intent: string): Option<Addon> {
    if intent in l.payments then Some(l.payments[intent])
    else
      match CheckoutOf(ds, intent)
      case None => None
      case Some(d) => Some(d.body.addon)
  }

  /** What a delivery is to take back at the key: the grant of the payment it refunds. */
  function Refunded(l: Ledger, before: seq<Delivery>, d: Delivery, k: CreditKey): nat {
    if d.body.ChargeRefunded? && d.body.intent != "" && Reaches(d, 1) && d.month == k.month then
      match PaymentOf(l, before, d.body.intent)
      case None => 0
      case Some(a) => if For(a, k) then a.grant else 0
    else 0
  }

  /** The refund is of a purchase that was credited at the key's month during the run. */
  predicate OwnRefund(l: Ledger, before: seq<Delivery>, d: Delivery, k: CreditKey) {
    d.body.ChargeRefunded? && d.body.intent !in l.payments &&
    match CheckoutOf(before, d.body.intent)
    case None => false
    case Some(c) => c.month == k.month
  }

  /** Purchases credited at the key, minus refunds of these purchases. */
  function Net(l: Ledger, ds: seq<Delivery>, k: CreditKey): int {
    if ds == [] then 0
    else
      var init, last := ds[..|ds| - 1], ds[|ds| - 1];
      Net(l, init, k) + Bought(last, k) - if OwnRefund(l, init, last, k) then Refunded(l, init, last, k) else 0
  }

  /** A refund that is handled in the key's month, of a payment that was recorded before
      the run or in another month. */
  function ForeignRefund(l: Ledger, before: seq<Delivery>, d: Delivery, k: CreditKey): nat {
    if OwnRefund(l, before, d, k) then 0 else Refunded(l, before, d, k)
  }

  function Foreign(l: Ledger, ds: seq<Delivery>, k: CreditKey): nat {
    if ds == [] then 0
    else Foreign(l, ds[..|ds| - 1], k) + ForeignRefund(l, ds[..|ds| - 1], ds[|ds| - 1], k)
  }

  /** How far the credit would have sunk below zero at worst if refunds were not cut off. */
  function Shortfall(l: Ledger, ds: seq<Delivery>, k: CreditKey): nat {
    if ds == [] then 0
    else
      var earlier := Shortfall(l, ds[..|ds| - 1], k);
      if Balance(l, ds, k) < 0 - earlier then 0 - Balance(l, ds, k) else earlier
  }

  lemma OthersKeepExtra(before: Ledger, prices: map<string, string>, body: Body, month: nat, n: nat)
    requires !body.ChargeRefunded? && !body.AddonPaid?
    ensures Begun(before, prices, body, month, n).extra == before.extra
  {
  }

  lemma CreditedAt(before: Ledger, a: Addon, month: nat, k: CreditKey)
    ensures ExtraAt(Credited(before, a, month), k) ==
            ExtraAt(before, k) + if month == k.month && CreditsFor(a, k) then a.grant else 0
    ensures Recorded(Credited(before, a, month), a).extra == Credited(before, a, month).extra
  {
  }

  lemma BegunCredit(before: Ledger, prices: map<string, string>, d: Delivery, k: CreditKey, n: nat)
    requires !d.body.ChargeRefunded?
    ensures ExtraAt(Begun(before, prices, d.body, d.month, n), k) ==
            ExtraAt(before, k) + if n >= 1 && d.body.AddonPaid? && d.month == k.month && CreditsFor(d.body.addon, k)
                                 then d.body.addon.grant else 0
  {
    if d.body.AddonPaid? {
      CreditedAt(before, d.body.addon, d.month, k);
    } else {
      OthersKeepExtra(before, prices, d.body, d.month, n);
    }
  }

  lemma EffectIsBegun(before: Ledger, prices: map<string, string>, body: Body, month: nat)
    ensures Effect(before, prices, body, month) == Begun(before, prices, body, month, 2)
  {
  }

  function Minus(a: nat, b: nat): nat {
    if a < b then 0 else a - b
  }

  lemma BegunRefund(before: Ledger, prices: map<string, string>, d: Delivery, k: CreditKey, n: nat)
    requires d.body.ChargeRefunded?
    ensures var i := d.body.intent;
            ExtraAt(Begun(before, prices, d.body, d.month, n), k) ==
            if n >= 1 && d.month == k.month && i != "" && i in before.payments && For(before.payments[i], k)
            then Minus(ExtraAt(before, k), before.payments[i].grant) else ExtraAt(before, k)
  {
  }

  /** A new delivery's handler does its first statements, or all of them. */
  lemma HandleIsBegun(before: Ledger, prices: map<string, string>, d: Delivery) returns (n: nat)
    requires d.id !in before.events
    ensures n == if FailsAfter(d).Some? then FailsAfter(d).value else 2
    ensures var done, begun := Handle(before, prices, d), Begun(before, prices, d.body, d.month, n);
            done.customers == begun.customers && done.extra == begun.extra && done.payments == begun.payments
  {
    n := if FailsAfter(d).Some? then FailsAfter(d).value else 2;
    var recorded := before.(events := before.events[d.id := false]);
    EffectIsBegun(recorded, prices, d.body, d.month);
    BegunSame(recorded, before, prices, d.body, d.month, n);
  }

  /** A delivery moves credit in no other month than that in which it is handled. */
  lemma OtherMonthsKeepCredit(before: Ledger, prices: map<string, string>, d: Delivery, k: CreditKey)
    requires d.month != k.month
    ensures ExtraAt(Handle(before, prices, d), k) == ExtraAt(before, k)
  {
    if d.id !in before.events {
      var n := HandleIsBegun(before, prices, d);
      if d.body.ChargeRefunded? { BegunRefund(before, prices, d, k, n); } else { BegunCredit(before, prices, d, k, n); }
    }
  }

  lemma BegunPayment(before: Ledger, prices: map<string, string>, d: Delivery, n: nat, intent: string)
    requires intent != ""
    ensures var begun := Begun(before, prices, d.body, d.month, n);
            var paid := n >= 2 && d.body.AddonPaid? && d.body.addon.intent == intent && Credits(d.body.addon);
            && (intent in begun.payments <==> intent in before.payments || paid)
            && (intent in before.payments ==> begun.payments[intent] == before.payments[intent])
            && (intent !in before.payments && paid ==> begun.payments[intent] == d.body.addon)
  {
  }

  lemma LastIsNew(l: Ledger, prices: map<string, string>, ds: seq<Delivery>)
    requires ds != [] && AllNew(l.events.Keys, ds)
    ensures ds[|ds| - 1].id !in Run(l, prices, ds[..|ds| - 1]).events
  {
    RunRecords(l, prices, ds[..|ds| - 1], ds[|ds| - 1].id);
  }

  /** The payments table has what the ledger had and what the run's checkouts recorded. */
  lemma {:induction false} PaymentsAreRecorded(l: Ledger, prices: map<string, string>, ds: seq<Delivery>,
                                               intent: string)
    requires AllNew(l.events.Keys, ds) && intent != ""
    ensures var after := Run(l, prices, ds);
            PaymentOf(l, ds, intent) == if intent in after.payments then Some(after.payments[intent]) else None
  {
    if ds != [] {
      var init, last := ds[..|ds| - 1], ds[|ds| - 1];
      LastIsNew(l, prices, ds);
      PaymentsAreRecorded(l, prices, init, intent);
      var n := HandleIsBegun(Run(l, prices, init), prices, last);
      BegunPayment(Run(l, prices, init), prices, last, n, intent);
    }
  }

  lemma PurchaseStep(l: Ledger, prices: map<string, string>, before: Ledger, ds: seq<Delivery>, d: Delivery,
                     k: CreditKey)
    requires d.id !in before.events && !d.body.ChargeRefunded?
    ensures ExtraAt(Handle(before, prices, d), k) == ExtraAt(before, k) + Bought(d, k)
    ensures Refunded(l, ds, d, k) == 0
  {
    var n := HandleIsBegun(before, prices, d);
    BegunCredit(before, prices, d, k, n);
  }

  lemma RefundStep(l: Ledger, prices: map<string, string>, ds: seq<Delivery>, d: Delivery, k: CreditKey)
    requires AllNew(l.events.Keys, ds) && d.id !in Run(l, prices, ds).events && d.body.ChargeRefunded?
    ensures var before := Run(l, prices, ds);
            ExtraAt(Handle(before, prices, d), k) == Minus(ExtraAt(before, k), Refunded(l, ds, d, k))
    ensures Bought(d, k) == 0
  {
    var n := HandleIsBegun(Run(l, prices, ds), prices, d);
    if d.body.intent != "" { PaymentsAreRecorded(l, prices, ds, d.body.intent); }
    BegunRefund(Run(l, prices, ds), prices, d, k, n);
  }

  /** One delivery: it adds what it bought, and takes back what it refunds as far as
      there is credit. */
  lemma CreditStep(l: Ledger, prices: map<string, string>, ds: seq<Delivery>, d: Delivery, k: CreditKey, credit: nat,
                   after: nat)
    requires AllNew(l.events.Keys, ds) && d.id !in Run(l, prices, ds).events
    requires credit == ExtraAt(Run(l, prices, ds), k) && after == ExtraAt(Handle(Run(l, prices, ds), prices, d), k)
    ensures after == Minus(credit + Bought(d, k), Refunded(l, ds, d, k))
  {
    if d.body.ChargeRefunded? {
      RefundStep(l, prices, ds, d, k);
    } else {
      PurchaseStep(l, prices, Run(l, prices, ds), ds, d, k);
    }
  }

  /** The credit as it would be if refunds were not cut off. */
  function Balance(l: Ledger, ds: seq<Delivery>, k: CreditKey): int {
    ExtraAt(l, k) + Net(l, ds, k) - Foreign(l, ds, k)
  }

  lemma BalanceStep(l: Ledger, ds: seq<Delivery>, k: CreditKey)
    requires ds != []
    ensures var init, last := ds[..|ds| - 1], ds[|ds| - 1];
            Balance(l, ds, k) == Balance(l, init, k) + Bought(last, k) - Refunded(l, init, last, k)
  {
  }

  /** Cutting off refunds at zero is adding the shortfall. */
  lemma ShortfallStep(l: Ledger, ds: seq<Delivery>, k: CreditKey)
    requires ds != []
    requires Balance(l, ds[..|ds| - 1], k) + Shortfall(l, ds[..|ds| - 1], k) >= 0
    ensures var init, last := ds[..|ds| - 1], ds[|ds| - 1];
            Balance(l, ds, k) + Shortfall(l, ds, k) ==
            Minus(Balance(l, init, k) + Shortfall(l, init, k) + Bought(last, k), Refunded(l, init, last, k))
  {
    BalanceStep(l, ds, k);
    assert Shortfall(l, ds, k) ==
           var earlier := Shortfall(l, ds[..|ds| - 1], k);
           if Balance(l, ds, k) < 0 - earlier then 0 - Balance(l, ds, k) else earlier;
    assert Bought(ds[|ds| - 1], k) == 0 || Refunded(l, ds[..|ds| - 1], ds[|ds| - 1], k) == 0;
  }

  /** The credit at any key after any new deliveries, from any ledger: what it was, plus
      the net purchases, minus the refunds of other payments, except that no refund makes
      it negative.  So the amount lost is Foreign - Shortfall. */
  lemma {:induction false} CreditAfterRun(l: Ledger, prices: map<string, string>, ds: seq<Delivery>, k: CreditKey)
    requires AllNew(l.events.Keys, ds)
    ensures ExtraAt(Run(l, prices, ds), k) == Balance(l, ds, k) + Shortfall(l, ds, k)
  {
    if ds != [] {
      var init, last := ds[..|ds| - 1], ds[|ds| - 1];
      var credit, after := ExtraAt(Run(l, prices, init), k), ExtraAt(Run(l, prices, ds), k);
      CreditAfterRun(l, prices, init, k);
      assert after == Minus(credit + Bought(last, k), Refunded(l, init, last, k)) by {
        LastIsNew(l, prices, ds);
        CreditStep(l, prices, init, last, k, credit, after);
      }
      ShortfallStep(l, ds, k);
    }
  }

  /** The same for all deliveries, repeated ones included. */
  lemma CreditAfterDeliveries(l: Ledger, prices: map<string, string>, ds: seq<Delivery>, k: CreditKey)
    ensures var first := FirstDeliveries(l.events.Keys, ds);
            ExtraAt(Run(l, prices, ds), k) == Balance(l, first, k) + Shortfall(l, first, k)
  {
    DuplicatesHaveNoEffect(l, prices, ds, l.events.Keys);
    FirstDeliveriesAreNew(l.events.Keys, ds);
    CreditAfterRun(l, prices, FirstDeliveries(l.events.Keys, ds), k);
  }

  // ----- When the credit is conserved

  predicate Checks(d: Delivery, intent: string) {
    d.body.AddonPaid? && d.body.addon.intent == intent
  }

  predicate Refunds(d: Delivery, intent: string) {
    d.body.ChargeRefunded? && d.body.intent == intent
  }

  predicate AnyCheckout(ds: seq<Delivery>, intent: string) {
    ds != [] && (Checks(ds[|ds| - 1], intent) || AnyCheckout(ds[..|ds| - 1], intent))
  }

  predicate AnyRefund(ds: seq<Delivery>, intent: string) {
    ds != [] && (Refunds(ds[|ds| - 1], intent) || AnyRefund(ds[..|ds| - 1], intent))
  }

  /** One checkout and at most one refund event per payment intent. */
  predicate OncePerIntent(ds: seq<Delivery>) {
    if ds == [] then true
    else
      var init, body := ds[..|ds| - 1], ds[|ds| - 1].body;
      && OncePerIntent(init)
      && (body.AddonPaid? && body.addon.intent != "" ==> !AnyCheckout(init, body.addon.intent))
      && (body.ChargeRefunded? && body.intent != "" ==> !AnyRefund(init, body.intent))
  }

  /** What one delivery changes in Net. */
  function Change(l: Ledger, before: seq<Delivery>, d: Delivery, k: CreditKey): int {
    Bought(d, k) - if OwnRefund(l, before, d, k) then Refunded(l, before, d, k) else 0
  }

  /** The deliveries that do not concern the intent. */
  function Other(ds: seq<Delivery>, intent: string): (os: seq<Delivery>)
    ensures |os| <= |ds|
  {
    if ds == [] then []
    else
      var init, last := Other(ds[..|ds| - 1], intent), ds[|ds| - 1];
      if Checks(last, intent) || Refunds(last, intent) then init else init + [last]
  }

  /** What the deliveries that concern the intent contribute to Net. */
  function Part(l: Ledger, ds: seq<Delivery>, intent: string, k: CreditKey): int {
    if ds == [] then 0
    else
      var init, last := ds[..|ds| - 1], ds[|ds| - 1];
      Part(l, init, intent, k) + if Checks(last, intent) || Refunds(last, intent) then Change(l, init, last, k) else 0
  }

  lemma {:induction false} OtherKeeps(ds: seq<Delivery>, intent: string, i: string)
    ensures AnyCheckout(Other(ds, intent), i) ==> AnyCheckout(ds, i)
    ensures AnyRefund(Other(ds, intent), i) ==> AnyRefund(ds, i)
    ensures i != intent ==> CheckoutOf(Other(ds, intent), i) == CheckoutOf(ds, i)
  {
    if ds != [] {
      var init, last := ds[..|ds| - 1], ds[|ds| - 1];
      OtherKeeps(init, intent, i);
      if !(Checks(last, intent) || Refunds(last, intent)) {
        assert Other(ds, intent)[..|Other(ds, intent)| - 1] == Other(init, intent);
      }
    }
  }

  lemma {:induction false} OtherOncePerIntent(ds: seq<Delivery>, intent: string)
    requires OncePerIntent(ds)
    ensures OncePerIntent(Other(ds, intent))
  {
    if ds != [] {
      var init, last := ds[..|ds| - 1], ds[|ds| - 1];
      OtherOncePerIntent(init, intent);
      if !(Checks(last, intent) || Refunds(last, intent)) {
        assert Other(ds, intent)[..|Other(ds, intent)| - 1] == Other(init, intent);
        if last.body.AddonPaid? { OtherKeeps(init, intent, last.body.addon.intent); }
        if last.body.ChargeRefunded? { OtherKeeps(init, intent, last.body.intent); }
      }
    }
  }

  /** The net credit splits into what one intent contributes and the rest. */
  lemma {:induction false} NetSplits(l: Ledger, ds: seq<Delivery>, intent: string, k: CreditKey)
    ensures Net(l, ds, k) == Net(l, Other(ds, intent), k) + Part(l, ds, intent, k)
  {
    if ds != [] {
      var init, last := ds[..|ds| - 1], ds[|ds| - 1];
      NetSplits(l, init, intent, k);
      if !(Checks(last, intent) || Refunds(last, intent)) {
        assert Other(ds, intent)[..|Other(ds, intent)| - 1] == Other(init, intent);
        if last.body.ChargeRefunded? { OtherKeeps(init, intent, last.body.intent); }
      }
    }
  }

  lemma {:induction false} NothingBeforeCheckout(l: Ledger, ds: seq<Delivery>, intent: string, k: CreditKey)
    requires !AnyCheckout(ds, intent)
    ensures Part(l, ds, intent, k) == 0 && CheckoutOf(ds, intent) == None
  {
    if ds != [] {
      NothingBeforeCheckout(l, ds[..|ds| - 1], intent, k);
    }
  }

  /** Before its refund a recorded checkout contributes all of its grant. */
  lemma {:induction false} PartIsGrant(l: Ledger, ds: seq<Delivery>, intent: string, k: CreditKey)
    requires OncePerIntent(ds) && intent != "" && !AnyRefund(ds, intent)
    ensures Part(l, ds, intent, k) >= 0
    ensures match CheckoutOf(ds, intent)
            case None => true
            case Some(c) => Part(l, ds, intent, k) == Bought(c, k)
  {
    if ds != [] {
      var init, last := ds[..|ds| - 1], ds[|ds| - 1];
      PartIsGrant(l, init, intent, k);
      if Checks(last, intent) { NothingBeforeCheckout(l, init, intent, k); }
    }
  }

  /** Nor does a refund take back more than that. */
  lemma {:induction false} PartIsNotNegative(l: Ledger, ds: seq<Delivery>, intent: string, k: CreditKey)
    requires OncePerIntent(ds) && intent != ""
    ensures Part(l, ds, intent, k) >= 0
  {
    if ds != [] {
      var init, last := ds[..|ds| - 1], ds[|ds| - 1];
      PartIsNotNegative(l, init, intent, k);
      if Refunds(last, intent) { PartIsGrant(l, init, intent, k); }
    }
  }

  /** Refunds of a month's purchases never exceed them. */
  lemma {:induction false} NetIsNotNegative(l: Ledger, ds: seq<Delivery>, k: CreditKey)
    requires OncePerIntent(ds)
    ensures Net(l, ds, k) >= 0
    decreases |ds|
  {
    if ds != [] {
      var init, last := ds[..|ds| - 1], ds[|ds| - 1];
      if last.body.ChargeRefunded? && last.body.intent != "" {
        var intent := last.body.intent;
        NetSplits(l, ds, intent, k);
        PartIsNotNegative(l, ds, intent, k);
        OtherOncePerIntent(ds, intent);
        NetIsNotNegative(l, Other(ds, intent), k);
      } else {
        NetIsNotNegative(l, init, k);
      }
    }
  }

  /** At the refund of its purchase the month's net credit covers the grant. */
  lemma RefundIsCovered(l: Ledger, ds: seq<Delivery>, d: Delivery, k: CreditKey)
    requires OncePerIntent(ds) && OwnRefund(l, ds, d, k) && d.body.intent != "" && !AnyRefund(ds, d.body.intent)
    ensures Net(l, ds, k) >= Refunded(l, ds, d, k)
  {
    var intent := d.body.intent;
    PartIsGrant(l, ds, intent, k);
    NetSplits(l, ds, intent, k);
    OtherOncePerIntent(ds, intent);
    NetIsNotNegative(l, Other(ds, intent), k);
  }

  /** After every delivery the credit is its start plus the net purchases. */
  predicate AlwaysConserved(l: Ledger, prices: map<string, string>, ds: seq<Delivery>, k: CreditKey) {
    && (ds == [] || AlwaysConserved(l, prices, ds[..|ds| - 1], k))
    && ExtraAt(Run(l, prices, ds), k) == ExtraAt(l, k) + Net(l, ds, k)
  }

  /** No refund of another payment is handled in the key's month while the month has
      credit: something to check about the deliveries and the ledger before them. */
  predicate NothingToTake(l: Ledger, ds: seq<Delivery>, k: CreditKey) {
    ds == [] ||
    var init, last := ds[..|ds| - 1], ds[|ds| - 1];
    NothingToTake(l, init, k) && (ForeignRefund(l, init, last, k) == 0 || ExtraAt(l, k) + Net(l, init, k) == 0)
  }

  lemma NetStep(l: Ledger, ds: seq<Delivery>, k: CreditKey)
    requires ds != []
    ensures Net(l, ds, k) == Net(l, ds[..|ds| - 1], k) + Change(l, ds[..|ds| - 1], ds[|ds| - 1], k)
  {
  }

  /** From conserved credit, one delivery conserves it unless it takes credit for another payment. */
  lemma ConservedStep(l: Ledger, prices: map<string, string>, ds: seq<Delivery>, d: Delivery, k: CreditKey)
    requires AllNew(l.events.Keys, ds) && d.id !in Run(l, prices, ds).events
    requires OncePerIntent(ds) && (d.body.ChargeRefunded? && d.body.intent != "" ==> !AnyRefund(ds, d.body.intent))
    requires ExtraAt(Run(l, prices, ds), k) == ExtraAt(l, k) + Net(l, ds, k)
    ensures ExtraAt(Handle(Run(l, prices, ds), prices, d), k) == ExtraAt(l, k) + Net(l, ds, k) + Change(l, ds, d, k)
            <==> ForeignRefund(l, ds, d, k) == 0 || ExtraAt(l, k) + Net(l, ds, k) == 0
  {
    NetIsNotNegative(l, ds, k);
    if d.body.ChargeRefunded? {
      RefundStep(l, prices, ds, d, k);
      if OwnRefund(l, ds, d, k) && d.body.intent != "" { RefundIsCovered(l, ds, d, k); }
    } else {
      PurchaseStep(l, prices, Run(l, prices, ds), ds, d, k);
    }
  }

  /** Conservation: throughout the run the credit at the key is its start plus the
      purchases that were not refunded after their checkout, and GREATEST never cuts a
      refund of theirs off, if and only if no refund of another payment finds credit. */
  lemma {:induction false} CreditIsConservedIff(l: Ledger, prices: map<string, string>, ds: seq<Delivery>, k: CreditKey)
    requires AllNew(l.events.Keys, ds) && OncePerIntent(ds)
    ensures AlwaysConserved(l, prices, ds, k) <==> NothingToTake(l, ds, k)
  {
    if ds != [] {
      var init, last := ds[..|ds| - 1], ds[|ds| - 1];
      CreditIsConservedIff(l, prices, init, k);
      if NothingToTake(l, init, k) {
        LastIsNew(l, prices, ds);
        NetStep(l, ds, k);
        ConservedStep(l, prices, init, last, k);
      }
    }
  }

  /** At the end of any deliveries, repeated ones included, when no refund of another
      payment finds credit; within one month that is when no earlier payment is refunded. */
  lemma CreditIsConserved(l: Ledger, prices: map<string, string>, ds: seq<Delivery>, k: CreditKey)
    requires OncePerIntent(FirstDeliveries(l.events.Keys, ds)) &&
             NothingToTake(l, FirstDeliveries(l.events.Keys, ds), k)
    ensures ExtraAt(Run(l, prices, ds), k) == ExtraAt(l, k) + Net(l, FirstDeliveries(l.events.Keys, ds), k)
  {
    DuplicatesHaveNoEffect(l, prices, ds, l.events.Keys);
    FirstDeliveriesAreNew(l.events.Keys, ds);
    CreditIsConservedIff(l, prices, FirstDeliveries(l.events.Keys, ds), k);
  }

  // ----- Refunds that miss their purchase

  /** The refund of an earlier payment takes what another purchase has added. */
  lemma RefundTakesOtherPurchase(l: Ledger, prices: map<string, string>, a: Addon, b: Addon, d: Delivery, e: Delivery)
    requires Credits(a) && Credits(b) && a.user == b.user && a.resource == b.resource && a.intent != ""
    requires a.intent in l.payments && l.payments[a.intent] == a
    requires d.body == AddonPaid(b) && e.body == ChargeRefunded(a.intent) && d.month == e.month && d.id != e.id
    requires FailsAfter(d) == FailsAfter(e) == None && d.id !in l.events && e.id !in l.events
    ensures var k := CreditKey(a.user, a.resource, d.month);
            && OncePerIntent([d, e]) && Net(l, [d, e], k) == b.grant && !NothingToTake(l, [d, e], k)
            && ExtraAt(Run(l, prices, [d, e]), k) == Minus(ExtraAt(l, k) + b.grant, a.grant)
  {
    var k := CreditKey(a.user, a.resource, d.month);
    OneStep(l, d, k);
    assert Bought(d, k) == b.grant && Refunded(l, [d], e, k) == a.grant && !OwnRefund(l, [d], e, k);
    assert [d, e] == [d] + [e];
    SecondStep(l, [d], e, k);
    assert [d][..0] == [] && Run(l, prices, [d]) == Handle(l, prices, d);
    PurchaseStep(l, prices, l, [], d, k);
    RunRecords(l, prices, [d], e.id);
    RunMore(l, prices, [d], e);
    RefundStep(l, prices, [d], e, k);
  }

  lemma SecondStep(l: Ledger, ds: seq<Delivery>, e: Delivery, k: CreditKey)
    requires e.body.ChargeRefunded? && OncePerIntent(ds) && !AnyRefund(ds, e.body.intent)
    requires !OwnRefund(l, ds, e, k) && Refunded(l, ds, e, k) > 0 && ExtraAt(l, k) + Net(l, ds, k) > 0
    ensures OncePerIntent(ds + [e]) && Net(l, ds + [e], k) == Net(l, ds, k) && !NothingToTake(l, ds + [e], k)
  {
    assert (ds + [e])[..|ds|] == ds;
  }

  lemma OneStep(l: Ledger, d: Delivery, k: CreditKey)
    requires d.body.AddonPaid? && d.id !in l.events
    ensures OncePerIntent([d]) && AllNew(l.events.Keys, [d]) && Net(l, [d], k) == Bought(d, k)
    ensures forall i :: !AnyRefund([d], i)
    ensures NothingToTake(l, [d], k)
  {
    assert [d][..0] == [];
    assert OncePerIntent([]) && AllNew(l.events.Keys, []) && Net(l, [], k) == 0 && NothingToTake(l, [], k);
    forall i ensures !AnyRefund([], i) && !AnyCheckout([], i) { }
  }

  lemma RunMore(l: Ledger, prices: map<string, string>, ds: seq<Delivery>, d: Delivery)
    ensures Run(l, prices, ds + [d]) == Handle(Run(l, prices, ds), prices, d)
  {
    assert (ds + [d])[..|ds|] == ds;
  }

  /** A refund takes nothing back from any month but its own: the credit stays in the
      month of the purchase, and the month of the refund loses the grant, as far as it
      has any. */
  lemma LateRefundTakesNothingBack(l: Ledger, prices: map<string, string>, ds: seq<Delivery>, d: Delivery, a: Addon,
                                   month: nat)
    requires AllNew(l.events.Keys, ds) && d.id !in Run(l, prices, ds).events && d.month != month
    requires d.body.ChargeRefunded? && d.body.intent != "" && FailsAfter(d).None?
    requires PaymentOf(l, ds, d.body.intent) == Some(a) && Credits(a)
    ensures var before, after := Run(l, prices, ds), Run(l, prices, ds + [d]);
            && ExtraAt(after, CreditKey(a.user, a.resource, month)) ==
               ExtraAt(before, CreditKey(a.user, a.resource, month))
            && ExtraAt(after, CreditKey(a.user, a.resource, d.month)) ==
               Minus(ExtraAt(before, CreditKey(a.user, a.resource, d.month)), a.grant)
  {
    RunMore(l, prices, ds, d);
    OtherMonthsKeepCredit(Run(l, prices, ds), prices, d, CreditKey(a.user, a.resource, month));
    RefundStep(l, prices, ds, d, CreditKey(a.user, a.resource, d.month));
    assert Refunded(l, ds, d, CreditKey(a.user, a.resource, d.month)) == a.grant;
  }

  /** When a checkout failed between the credit and the payment, its credit is there, and
      no refund of it ever takes anything back. */
  lemma UnrecordedPaymentIsNotRefunded(l: Ledger, prices: map<string, string>, ds: seq<Delivery>, c: Delivery,
                                       d: Delivery, k: CreditKey)
    requires AllNew(l.events.Keys, ds + [c]) && d.id !in Run(l, prices, ds + [c]).events
    requires c.body.AddonPaid? && FailsAfter(c) == Some(1) && For(c.body.addon, k) && k.month == c.month
    requires c.body.addon.intent != "" && PaymentOf(l, ds, c.body.addon.intent) == None
    requires d.body == ChargeRefunded(c.body.addon.intent)
    ensures Credits(c.body.addon) ==>
              ExtraAt(Run(l, prices, ds + [c]), k) == ExtraAt(Run(l, prices, ds), k) + c.body.addon.grant
    ensures forall j :: ExtraAt(Run(l, prices, ds + [c] + [d]), j) == ExtraAt(Run(l, prices, ds + [c]), j)
  {
    var dc := ds + [c];
    assert dc[..|ds|] == ds && (dc + [d])[..|dc|] == dc;
    LastIsNew(l, prices, dc);
    PurchaseStep(l, prices, Run(l, prices, ds), ds, c, k);
    forall j ensures ExtraAt(Run(l, prices, dc + [d]), j) == ExtraAt(Run(l, prices, dc), j) {
      RefundStep(l, prices, dc, d, j);
    }
  }

  // ----- Customers

  /** The last delivery does something: its event is new, and its handler gets to its statement. */
  predicate LastActs(known: set<string>, ds: seq<Delivery>)
    requires ds != []
  {
    var init, last := ds[..|ds| - 1], ds[|ds| - 1];
    last.id !in known && !Delivered(init, last.id) && Reaches(last, 1)
  }

  /** The customer whose subscription an event sets. */
  function SubscriberOf(body: Body): Option<string> {
    match body
    case SubscriptionChanged(sub) => Some(sub.customer)
    case SubscriptionPaid(sub) => Some(sub.customer)
    case SubscriptionDeleted(c) => Some(c)
    case _ => None
  }

  /** The last event that did something to the customer's subscription. */
  function LastSubscription(known: set<string>, ds: seq<Delivery>, c: string): (body: Option<Body>)
    ensures body.Some? ==> SubscriberOf(body.value) == Some(c)
  {
    if ds == [] then None
    else if LastActs(known, ds) && SubscriberOf(ds[|ds| - 1].body) == Some(c) then Some(ds[|ds| - 1].body)
    else LastSubscription(known, ds[..|ds| - 1], c)
  }

  /** An invoice of the customer has failed since then. */
  predicate InvoiceFailedSince(known: set<string>, ds: seq<Delivery>, c: string) {
    ds != [] &&
    var init, last := ds[..|ds| - 1], ds[|ds| - 1];
    if LastActs(known, ds) && SubscriberOf(last.body) == Some(c) then false
    else (LastActs(known, ds) && last.body == InvoiceFailed(c)) || InvoiceFailedSince(known, init, c)
  }

  /** A failed invoice makes an active subscription past due. */
  function StatusAfter(status: string, failed: bool): string {
    if failed && status == "active" then "past_due" else status
  }

  /** The row of a customer, by the last event of the subscription and what failed since. */
  predicate RowFollows(prices: map<string, string>, was: Customer, event: Option<Body>, failed: bool, row: Customer) {
    match event
    case Some(SubscriptionDeleted(_)) =>
      row.plan == "free" && row.subscription == None && row.periodEnd == None &&
      row.status == StatusAfter("canceled", failed)
    case Some(SubscriptionChanged(sub)) => RowHas(prices, sub, failed, row)
    case Some(SubscriptionPaid(sub)) => RowHas(prices, sub, failed, row)
    case _ =>
      row.plan == was.plan && row.subscription == was.subscription && row.periodEnd == was.periodEnd &&
      row.status == StatusAfter(was.status, failed)
  }

  /** The plan is that of the price, or "free" without a price that is known. */
  predicate RowHas(prices: map<string, string>, sub: Subscription, failed: bool, row: Customer) {
    && row.subscription == Some(sub.id) && row.periodEnd == sub.periodEnd
    && row.status == StatusAfter(sub.status, failed)
    && match sub.price {
         case None => row.plan == "free"
         case Some(price) => row.plan == if price in prices then prices[price] else "free"
       }
  }

  lemma AddonsLeaveCustomers(before: Ledger, a: Addon, month: nat)
    ensures Credited(before, a, month).customers == before.customers
    ensures Recorded(before, a).customers == before.customers &&
            Reversed(before, a, month).customers == before.customers
  {
  }

  lemma SubscriptionStep(before: Ledger, prices: map<string, string>, sub: Subscription, c: string)
    ensures var after := UpdateCustomer(before, prices, sub).customers;
            && (c in after <==> c in before.customers)
            && (c in after ==> if sub.customer == c then RowHas(prices, sub, false, after[c])
                               else after[c] == before.customers[c])
  {
  }

  /** What one handler does to a customer. */
  lemma CustomerStep(before: Ledger, prices: map<string, string>, d: Delivery, n: nat, c: string)
    ensures var after := Begun(before, prices, d.body, d.month, n).customers;
            && (c in after <==> c in before.customers)
            && (c in after ==>
                  if n >= 1 && SubscriberOf(d.body) == Some(c) then
                    RowFollows(prices, before.customers[c], Some(d.body), false, after[c])
                  else if n >= 1 && d.body == InvoiceFailed(c) then
                    after[c] == before.customers[c].(status := StatusAfter(before.customers[c].status, true))
                  else after[c] == before.customers[c])
  {
    if n >= 1 {
      match d.body {
        case SubscriptionChanged(sub) => SubscriptionStep(before, prices, sub, c);
        case SubscriptionPaid(sub) => SubscriptionStep(before, prices, sub, c);
        case AddonPaid(a) =>
          AddonsLeaveCustomers(before, a, d.month);
          AddonsLeaveCustomers(Credited(before, a, d.month), a, d.month);
        case ChargeRefunded(intent) =>
          if intent in before.payments { AddonsLeaveCustomers(before, before.payments[intent], d.month); }
        case _ =>
      }
    }
  }

  lemma DuplicateChangesNothing(before: Ledger, prices: map<string, string>, d: Delivery)
    requires d.id in before.events
    ensures Handle(before, prices, d) == before
  {
  }

  /** Over any deliveries, repeated and failed ones included: customers are neither added
      nor removed, and each one's plan, subscription, period and status follow from the last
      event that did something to the subscription and from the failed invoices since. */
  lemma {:induction false} CustomersFollowDeliveries(l: Ledger, prices: map<string, string>, ds: seq<Delivery>,
                                                     c: string)
    ensures var after := Run(l, prices, ds).customers;
            && (c in after <==> c in l.customers)
            && (c in after ==>
                  RowFollows(prices, l.customers[c], LastSubscription(l.events.Keys, ds, c),
                             InvoiceFailedSince(l.events.Keys, ds, c), after[c]))
  {
    if ds != [] {
      var init, last := ds[..|ds| - 1], ds[|ds| - 1];
      var before := Run(l, prices, init);
      CustomersFollowDeliveries(l, prices, init, c);
      RunRecords(l, prices, init, last.id);
      if last.id in before.events {
        DuplicateChangesNothing(before, prices, last);
      } else {
        var n := HandleIsBegun(before, prices, last);
        CustomerStep(before, prices, last, n, c);
      }
    }
  }

  /** The first delivery of the event did all it had to. */
  predicate Completed(known: set<string>, ds: seq<Delivery>, id: string) {
    ds != [] &&
    var init, last := ds[..|ds| - 1], ds[|ds| - 1];
    Completed(known, init, id) ||
    (last.id == id && id !in known && !Delivered(init, id) && FailsAfter(last).None?)
  }

  /** Every delivered event is recorded, and marked processed exactly if its first delivery
      did not fail. */
  lemma {:induction false} EventsFollowDeliveries(l: Ledger, prices: map<string, string>, ds: seq<Delivery>, id: string)
    ensures var after := Run(l, prices, ds).events;
            && (id in after <==> id in l.events || Delivered(ds, id))
            && (id in l.events ==> after[id] == l.events[id])
            && (id in after && id !in l.events ==> after[id] == Completed(l.events.Keys, ds, id))
  {
    RunRecords(l, prices, ds, id);
    if ds != [] {
      var init, last := ds[..|ds| - 1], ds[|ds| - 1];
      var before := Run(l, prices, init);
      EventsFollowDeliveries(l, prices, init, id);
      RunRecords(l, prices, init, last.id);
      if last.id in before.events {
        DuplicateChangesNothing(before, prices, last);
      } else {
        MarksEvent(before, prices, last);
        if Completed(l.events.Keys, init, id) { CompletedWasDelivered(l.events.Keys, init, id); }
      }
    }
  }

  lemma {:induction false} CompletedWasDelivered(known: set<string>, ds: seq<Delivery>, id: string)
    requires Completed(known, ds, id)
    ensures Delivered(ds, id)
  {
    var init, last := ds[..|ds| - 1], ds[|ds| - 1];
    if Completed(known, init, id) {
      CompletedWasDelivered(known, init, id);
      var i :| 0 <= i < |init| && init[i].id == id;
      assert ds[i].id == id;
    } else {
      assert ds[|ds| - 1].id == id;
    }
  }

  lemma MarksEvent(before: Ledger, prices: map<string, string>, d: Delivery)
    requires d.id !in before.events
    ensures Handle(before, prices, d).events == before.events[d.id := FailsAfter(d).None?]
  {
    var recorded := before.(events := before.events[d.id := false]);
    EffectKeepsEvents(recorded, prices, d.body, d.month);
    if FailsAfter(d).Some? { BegunKeepsEvents(recorded, prices, d.body, d.month, FailsAfter(d).value); }
  }
}
