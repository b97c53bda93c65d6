/**
 * The document store as the loyalty app sees it: two collections keyed by the
 * customer id, `customers` and `engagement`. A field that is absent from a
 * document (or stored as null) is `None`.
 */
module Store {

  type Id = string

  /** An instant, in milliseconds since the Unix epoch (UTC). */
  type Timestamp = int

  datatype Option<T> = None | Some(value: T)

  /** The outcome of a store call that can throw: its value, or the exception. */
  datatype Attempt<T> = Ok(value: T) | Threw

  /** A document of the `customers` collection, with its document id. */
  datatype Customer = Customer(
    id: Id,
    name: Option<string>,
    email: Option<string>,
    timestamp: Option<Timestamp>)

  /** A document of the `engagement` collection. */
  datatype Engagement = Engagement(
    googleReviewed: Option<bool>,
    googleReviewTimestamp: Option<Timestamp>,
    instagramFollowed: Option<bool>,
    instagramFollowTimestamp: Option<Timestamp>,
    discountRedeemed: Option<bool>,
    discountRedeemedAt: Option<Timestamp>,
    createdAt: Option<Timestamp>)

  /** The empty object `{}` that stands in for a missing engagement document. */
  const NoFields := Engagement(None, None, None, None, None, None, None)

  /** JavaScript truthiness of a boolean field that may be missing. */
  predicate Truthy(b: Option<bool>) {
    b == Some(true)
  }

  /** JavaScript truthiness of a string field: present and not the empty string. */
  predicate Present(s: Option<string>) {
    s.Some? && s.value != ""
  }

  function Lookup(m: map<Id, Engagement>, id: Id): Option<Engagement> {
    if id in m then Some(m[id]) else None
  }

  /**
   * A read of the engagement document of each of `docs` succeeds: none of
   * their ids is among those whose read throws.
   */
  predicate Readable(docs: seq<Customer>, unreadable: set<Id>) {
    forall k :: 0 <= k < |docs| ==> docs[k].id !in unreadable
  }

  lemma ReadableAppend(docs: seq<Customer>, c: Customer, unreadable: set<Id>)
    ensures Readable(docs + [c], unreadable) <==> Readable(docs, unreadable) && c.id !in unreadable
  {
    assert (docs + [c])[|docs|] == c;
    assert forall k :: 0 <= k < |docs| ==> (docs + [c])[k] == docs[k];
  }

  /** The engagement data a reader works with: the document, or `{}` when there is none. */
  function DataOrEmpty(e: Option<Engagement>): Engagement {
    if e.Some? then e.value else NoFields
  }

  /** The document the engagement page writes when a customer has none yet. */
  function NewEngagement(now: Timestamp): (e: Engagement)
    ensures e.googleReviewed == Some(false) && e.instagramFollowed == Some(false)
    ensures !Truthy(e.discountRedeemed) && e.createdAt == Some(now)
  {
    NoFields.(googleReviewed := Some(false), instagramFollowed := Some(false), createdAt := Some(now))
  }

  /** The three actions that set a flag and its timestamp in an engagement document. */
  datatype Action = GoogleReview | InstagramFollow | Redemption

  function Flag(e: Engagement, a: Action): Option<bool> {
    match a
    case GoogleReview => e.googleReviewed
    case InstagramFollow => e.instagramFollowed
    case Redemption => e.discountRedeemed
  }

  function Stamp(e: Engagement, a: Action): Option<Timestamp> {
    match a
    case GoogleReview => e.googleReviewTimestamp
    case InstagramFollow => e.instagramFollowTimestamp
    case Redemption => e.discountRedeemedAt
  }

  /**
   * The partial update `{ <flag>: true, <flag's timestamp>: at }`: the action's
   * own flag and timestamp are set and no other field of the document changes.
   */
  function Apply(e: Engagement, a: Action, at: Timestamp): (r: Engagement)
    ensures Flag(r, a) == Some(true) && Stamp(r, a) == Some(at)
    ensures forall b :: b != a ==> Flag(r, b) == Flag(e, b) && Stamp(r, b) == Stamp(e, b)
    ensures r.createdAt == e.createdAt
  {
    match a
    case GoogleReview => e.(googleReviewed := Some(true), googleReviewTimestamp := Some(at))
    case InstagramFollow => e.(instagramFollowed := Some(true), instagramFollowTimestamp := Some(at))
    case Redemption => e.(discountRedeemed := Some(true), discountRedeemedAt := Some(at))
  }

  /** Applying an action never clears a flag that was set. */
  lemma ApplyKeepsFlags(e: Engagement, a: Action, at: Timestamp, b: Action)
    requires Truthy(Flag(e, b))
    ensures Truthy(Flag(Apply(e, a, at), b))
  {
  }

  /**
   * The two collections. Reads are made on the maps directly; every write
   * takes the outcome of the network call as `online` (false: the call throws).
   */
  class EngagementStore {
    var customers: map<Id, Customer>
    var engagement: map<Id, Engagement>

    constructor (customers: map<Id, Customer>, engagement: map<Id, Engagement>)
      ensures this.customers == customers && this.engagement == engagement
    {
      this.customers := customers;
      this.engagement := engagement;
    }

    /** `setDoc`: creates or overwrites the whole document. */
    method Create(id: Id, e: Engagement, online: bool) returns (ok: bool)
      modifies this
      ensures ok == online
      ensures engagement == if ok then old(engagement)[id := e] else old(engagement)
      ensures customers == old(customers)
    {
      ok := online;
      if ok {
        engagement := engagement[id := e];
      }
    }

    /** `updateDoc`: merges the action's fields into an existing document; it throws when there is none. */
    method Update(id: Id, a: Action, at: Timestamp, online: bool) returns (ok: bool)
      modifies this
      ensures ok == (online && id in old(engagement))
      ensures engagement == if ok then old(engagement)[id := Apply(old(engagement)[id], a, at)] else old(engagement)
      ensures customers == old(customers)
    {
      ok := online && id in engagement;
      if ok {
        engagement := engagement[id := Apply(engagement[id], a, at)];
      }
    }
  }
}
