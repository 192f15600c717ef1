/**
 * The newsletter API over the subscriber table: `POST /api/subscribe`
 * validates the body, looks the email up, and inserts a new subscriber;
 * `GET /api/subscribers` returns the whole table behind the admin gate.
 *
 * The storage module and the validation schema are not part of this model:
 * the table is a sequence of records kept by `SubscriberStorage`, ids come
 * from a counter, the schema is the predicate `isValidEmail`, and a storage
 * call that throws is an input (`StorageFault`).
 */
module Subscriptions {
  import opened Optional
  import Auth

  datatype Subscriber = Subscriber(id: nat, email: string, subscribedAt: int)

  /** The `subscriber` object of a 201 body: `id` and `email`, not `subscribedAt`. */
  datatype PublicSubscriber = PublicSubscriber(id: nat, email: string)

  /** The request body as the schema sees it: its `email` field, when that is a string. */
  datatype SubscribeBody = SubscribeBody(email: Option<string>)

  /** Which storage call throws during the request, if any. */
  datatype StorageFault = NoFault | LookupFails | InsertFails

  /** Status code and JSON body of a subscribe reply. */
  datatype SubscribeReply = SubscribeReply(status: nat, message: string, subscriber: Option<PublicSubscriber>)

  const CreatedMessage: string := "Thank you for subscribing!"
  const DuplicateMessage: string := "You're already subscribed to our newsletter!"
  const InvalidMessage: string := "Invalid email address"
  const ListFailedMessage: string := "Failed to retrieve subscribers"

  const Duplicate: SubscribeReply := SubscribeReply(409, DuplicateMessage, None)
  const Invalid: SubscribeReply := SubscribeReply(400, InvalidMessage, None)

  /** The invariant: no two stored subscribers share an email. */
  predicate EmailsUnique(subs: seq<Subscriber>) {
    forall i, j :: 0 <= i < j < |subs| ==> subs[i].email != subs[j].email
  }

  /** Ids increase along the table and stay below the next id to hand out. */
  predicate IdsBelow(subs: seq<Subscriber>, nextId: nat) {
    (forall i :: 0 <= i < |subs| ==> subs[i].id < nextId) &&
    (forall i, j :: 0 <= i < j < |subs| ==> subs[i].id < subs[j].id)
  }

  function Emails(subs: seq<Subscriber>): set<string> {
    set i | 0 <= i < |subs| :: subs[i].email
  }

  /** `insertSubscriberSchema.parse(req.body).email`; `None` when `parse` throws. */
  function ParseBody(body: SubscribeBody, isValidEmail: string -> bool): (r: Option<string>)
    ensures r.Some? <==> body.email.Some? && isValidEmail(body.email.value)
    ensures r.Some? ==> r.value == body.email.value
  {
    if body.email.Some? && isValidEmail(body.email.value) then body.email else None
  }

  /** `storage.getSubscriberByEmail(email)`: the first stored subscriber with exactly that email. */
  function FindByEmail(subs: seq<Subscriber>, email: string): (r: Option<Subscriber>)
    ensures r.None? <==> email !in Emails(subs)
    ensures r.Some? ==> exists i :: 0 <= i < |subs| && subs[i] == r.value && r.value.email == email
  {
    if |subs| == 0 then None
    else if subs[0].email == email then Some(subs[0])
    else
      assert forall i :: 0 < i < |subs| ==> subs[i] == subs[1..][i - 1];
      FindByEmail(subs[1..], email)
  }

  /** The table and the id the storage hands out next. */
  datatype Store = Store(subscribers: seq<Subscriber>, nextId: nat)

  /** One `POST /api/subscribe`: the reply, and the store after it. */
  function Subscribe(s: Store, body: SubscribeBody, isValidEmail: string -> bool, now: int, fault: StorageFault)
    : (r: (SubscribeReply, Store))
    ensures r.0.status in {400, 409, 201}
    ensures r.0.status == 400 ==> r.0 == Invalid && r.1 == s
    ensures ParseBody(body, isValidEmail).Some? && fault == LookupFails ==> r == (Invalid, s)
    ensures (ParseBody(body, isValidEmail).Some? && fault == InsertFails
             && ParseBody(body, isValidEmail).value !in Emails(s.subscribers)) ==> r == (Invalid, s)
    ensures ParseBody(body, isValidEmail).None? ==> r.0.status == 400
    ensures r.0.status == 409 ==> r.0 == Duplicate && r.1 == s
    ensures r.0.status == 409 <==>
      ParseBody(body, isValidEmail).Some? && fault != LookupFails
      && ParseBody(body, isValidEmail).value in Emails(s.subscribers)
    ensures r.0.status == 201 <==>
      ParseBody(body, isValidEmail).Some? && fault == NoFault
      && ParseBody(body, isValidEmail).value !in Emails(s.subscribers)
    ensures r.0.status == 201 ==>
      var added := Subscriber(s.nextId, body.email.value, now);
      r.1 == Store(s.subscribers + [added], s.nextId + 1)
      && r.0 == SubscribeReply(201, CreatedMessage, Some(PublicSubscriber(added.id, added.email)))
  {
    match ParseBody(body, isValidEmail)
    case None => (Invalid, s)
    case Some(email) =>
      if fault == LookupFails then (Invalid, s)
      else if FindByEmail(s.subscribers, email).Some? then (Duplicate, s)
      else if fault == InsertFails then (Invalid, s)
      else
        assert fault == NoFault && email !in Emails(s.subscribers);
        var added := Subscriber(s.nextId, email, now);
        (SubscribeReply(201, CreatedMessage, Some(PublicSubscriber(added.id, added.email))),
         Store(s.subscribers + [added], s.nextId + 1))
  }

  /** Subscribe keeps emails pairwise distinct and ids increasing. */
  lemma SubscribeKeepsInvariant(s: Store, body: SubscribeBody, isValidEmail: string -> bool, now: int, fault: StorageFault)
    requires EmailsUnique(s.subscribers) && IdsBelow(s.subscribers, s.nextId)
    ensures var t := Subscribe(s, body, isValidEmail, now, fault).1;
      EmailsUnique(t.subscribers) && IdsBelow(t.subscribers, t.nextId)
  {
    var t := Subscribe(s, body, isValidEmail, now, fault).1;
    if t != s {
      var email := body.email.value;
      assert forall i :: 0 <= i < |s.subscribers| ==> s.subscribers[i].email in Emails(s.subscribers);
      assert t.subscribers[|s.subscribers|].email == email;
    }
  }

  /** The emails of the store after one request: the validated email joins them unless a storage call throws. */
  lemma SubscribeEmails(s: Store, body: SubscribeBody, isValidEmail: string -> bool, now: int, fault: StorageFault)
    ensures var t := Subscribe(s, body, isValidEmail, now, fault).1;
      var e := ParseBody(body, isValidEmail);
      Emails(t.subscribers) == if e.Some? && fault == NoFault then Emails(s.subscribers) + {e.value} else Emails(s.subscribers)
  {
    var r := Subscribe(s, body, isValidEmail, now, fault);
    var e := ParseBody(body, isValidEmail);
    if r.0.status == 201 {
      var subs := r.1.subscribers;
      assert subs[|s.subscribers|].email == e.value;
      assert forall i :: 0 <= i < |s.subscribers| ==> subs[i] == s.subscribers[i];
      assert Emails(subs) == Emails(s.subscribers) + {e.value};
    }
  }

  /** After a 201 for `e`, `e` is stored, and subscribing `e` again answers 409 and changes nothing. */
  lemma ResubscribeConflicts(s: Store, body: SubscribeBody, isValidEmail: string -> bool, now: int, now': int, fault': StorageFault)
    requires Subscribe(s, body, isValidEmail, now, NoFault).0.status == 201
    requires fault' != LookupFails
    ensures var t := Subscribe(s, body, isValidEmail, now, NoFault).1;
      body.email.value in Emails(t.subscribers)
      && Subscribe(t, body, isValidEmail, now', fault') == (Duplicate, t)
  {
    SubscribeEmails(s, body, isValidEmail, now, NoFault);
  }

  /** A request of a sequence handled one at a time. */
  datatype Request = Request(body: SubscribeBody, now: int, fault: StorageFault)

  /** The store after handling `reqs` in order, one request at a time. */
  function SubscribeAll(s: Store, reqs: seq<Request>, isValidEmail: string -> bool): Store
    decreases |reqs|
  {
    if |reqs| == 0 then s
    else SubscribeAll(Subscribe(s, reqs[0].body, isValidEmail, reqs[0].now, reqs[0].fault).1, reqs[1..], isValidEmail)
  }

  /** Handled one at a time, any sequence of requests keeps emails pairwise distinct. */
  lemma {:induction false} SubscribeAllKeepsInvariant(s: Store, reqs: seq<Request>, isValidEmail: string -> bool)
    requires EmailsUnique(s.subscribers) && IdsBelow(s.subscribers, s.nextId)
    ensures var t := SubscribeAll(s, reqs, isValidEmail);
      EmailsUnique(t.subscribers) && IdsBelow(t.subscribers, t.nextId)
    decreases |reqs|
  {
    if |reqs| > 0 {
      SubscribeKeepsInvariant(s, reqs[0].body, isValidEmail, reqs[0].now, reqs[0].fault);
      SubscribeAllKeepsInvariant(Subscribe(s, reqs[0].body, isValidEmail, reqs[0].now, reqs[0].fault).1, reqs[1..], isValidEmail);
    }
  }

  /** The validated emails of the requests in which no storage call throws. */
  function AcceptedEmails(reqs: seq<Request>, isValidEmail: string -> bool): set<string> {
    set i | 0 <= i < |reqs| && reqs[i].fault == NoFault && ParseBody(reqs[i].body, isValidEmail).Some?
      :: ParseBody(reqs[i].body, isValidEmail).value
  }

  /** The stored emails are the earlier ones plus every valid email of a request that did not fail in storage. */
  lemma {:induction false} SubscribeAllEmails(s: Store, reqs: seq<Request>, isValidEmail: string -> bool)
    ensures Emails(SubscribeAll(s, reqs, isValidEmail).subscribers) == Emails(s.subscribers) + AcceptedEmails(reqs, isValidEmail)
    decreases |reqs|
  {
    if |reqs| == 0 {
      assert AcceptedEmails(reqs, isValidEmail) == {};
    } else {
      var r := reqs[0];
      var s' := Subscribe(s, r.body, isValidEmail, r.now, r.fault).1;
      SubscribeEmails(s, r.body, isValidEmail, r.now, r.fault);
      SubscribeAllEmails(s', reqs[1..], isValidEmail);
      AcceptedEmailsFirst(reqs, isValidEmail);
    }
  }

  /** The accepted emails of a non-empty sequence: the first request's, if it is accepted, and the rest's. */
  lemma AcceptedEmailsFirst(reqs: seq<Request>, isValidEmail: string -> bool)
    requires |reqs| > 0
    ensures var e := ParseBody(reqs[0].body, isValidEmail);
      AcceptedEmails(reqs, isValidEmail)
      == (if e.Some? && reqs[0].fault == NoFault then {e.value} else {}) + AcceptedEmails(reqs[1..], isValidEmail)
  {
    var e := ParseBody(reqs[0].body, isValidEmail);
    var head := if e.Some? && reqs[0].fault == NoFault then {e.value} else {};
    forall x | x in AcceptedEmails(reqs, isValidEmail)
      ensures x in head + AcceptedEmails(reqs[1..], isValidEmail)
    {
      var i :| 0 <= i < |reqs| && reqs[i].fault == NoFault && ParseBody(reqs[i].body, isValidEmail).Some?
        && ParseBody(reqs[i].body, isValidEmail).value == x;
      if i > 0 {
        assert reqs[1..][i - 1] == reqs[i];
      }
    }
    forall x | x in AcceptedEmails(reqs[1..], isValidEmail)
      ensures x in AcceptedEmails(reqs, isValidEmail)
    {
      var i :| 0 <= i < |reqs[1..]| && reqs[1..][i].fault == NoFault && ParseBody(reqs[1..][i].body, isValidEmail).Some?
        && ParseBody(reqs[1..][i].body, isValidEmail).value == x;
      assert reqs[i + 1] == reqs[1..][i];
    }
  }

  // ---------------------------------------------------------------------------
  // the listing

  /** What `GET /api/subscribers` answers. */
  datatype ListReply =
    | ListDenied(decision: Auth.AuthDecision)
    | ListFailed(message: string)
    | ListOk(subscribers: seq<Subscriber>)
  {
    function Status(): nat {
      match this
      case ListDenied(_) => 401
      case ListFailed(_) => 500
      case ListOk(_) => 200
    }
  }

  /** `requireAdminAuth` followed by the listing handler; `fault` is `getAllSubscribers` throwing. */
  function ListSubscribers(subs: seq<Subscriber>, authorization: Option<string>, env: Auth.Env, fault: bool): (r: ListReply)
    ensures r.ListOk? <==> Auth.RequireAdminAuth(authorization, env).CallNext? && !fault
    ensures r.ListOk? ==> r.subscribers == subs
    ensures r.ListDenied? ==> r.decision == Auth.RequireAdminAuth(authorization, env) && r.decision.Unauthorized?
    ensures r.ListFailed? ==> r.message == ListFailedMessage
  {
    var decision := Auth.RequireAdminAuth(authorization, env);
    if decision.Unauthorized? then ListDenied(decision)
    else if fault then ListFailed(ListFailedMessage)
    else ListOk(subs)
  }

  /** The `storage` object: the table it keeps and the calls the routes make on it. */
  class SubscriberStorage {
    var subscribers: seq<Subscriber>
    var nextId: nat

    ghost predicate Valid()
      reads this
    {
      EmailsUnique(subscribers) && IdsBelow(subscribers, nextId)
    }

    function State(): Store
      reads this
    {
      Store(subscribers, nextId)
    }

    constructor ()
      ensures Valid() && subscribers == [] && nextId == 1
    {
      subscribers := [];
      nextId := 1;
    }

    /** `storage.createSubscriber`: appends a record with the next id. */
    method CreateSubscriber(email: string, now: int) returns (added: Subscriber)
      modifies this
      ensures added == Subscriber(old(nextId), email, now)
      ensures subscribers == old(subscribers) + [added] && nextId == old(nextId) + 1
    {
      added := Subscriber(nextId, email, now);
      subscribers := subscribers + [added];
      nextId := nextId + 1;
    }
  }

  /** The `POST /api/subscribe` handler. */
  method HandleSubscribe(storage: SubscriberStorage, body: SubscribeBody, isValidEmail: string -> bool, now: int, fault: StorageFault)
    returns (reply: SubscribeReply)
    requires storage.Valid()
    modifies storage
    ensures storage.Valid()
    ensures (reply, storage.State()) == Subscribe(old(storage.State()), body, isValidEmail, now, fault)
  {
    SubscribeKeepsInvariant(storage.State(), body, isValidEmail, now, fault);
    var validated := ParseBody(body, isValidEmail);
    if validated.None? {
      return Invalid;
    }
    if fault == LookupFails {
      return Invalid;
    }
    var existing := FindByEmail(storage.subscribers, validated.value);
    if existing.Some? {
      return Duplicate;
    }
    if fault == InsertFails {
      return Invalid;
    }
    var subscriber := storage.CreateSubscriber(validated.value, now);
    reply := SubscribeReply(201, CreatedMessage, Some(PublicSubscriber(subscriber.id, subscriber.email)));
  }

  /** The `GET /api/subscribers` route: the admin gate, then the whole table in storage order. */
  method HandleListSubscribers(storage: SubscriberStorage, authorization: Option<string>, env: Auth.Env, fault: bool)
    returns (reply: ListReply)
    ensures reply == ListSubscribers(storage.subscribers, authorization, env, fault)
  {
    var decision := Auth.RequireAdminAuth(authorization, env);
    if decision.Unauthorized? {
      return ListDenied(decision);
    }
    if fault {
      return ListFailed(ListFailedMessage);
    }
    reply := ListOk(storage.subscribers);
  }
}
