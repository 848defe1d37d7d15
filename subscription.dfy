/**
 * The premium entitlement: the status the `useSubscription` hook reports, decided
 * once on mount from the checkout query parameters and the record cached in local
 * storage under `prompt-styler-subscription` for 24 hours, and the two helpers that
 * write or clear that record.
 */
module Subscription {
  import opened Wrappers
  import opened LocalStorage

  /** 24 hours, in milliseconds. */
  const CacheDuration: int := 24 * 60 * 60 * 1000

  /** The cached record, as JSON reads it back: `isPremium` false when absent or falsy,
      `subscriptionId` and `expiresAt` None when absent (an `expiresAt` of 0 reads as
      absent too, being falsy). */
  datatype Record = Record(isPremium: bool, subscriptionId: Option<string>, expiresAt: Option<int>)

  datatype Status = Status(isPremium: bool, isLoading: bool, subscriptionId: Option<string>, expiresAt: Option<int>)

  /** The state before the mount effect has run. */
  const Initial: Status := Status(false, true, None, None)

  /** The state when no entitlement holds. */
  const NotPremium: Status := Status(false, false, None, None)

  /** What the effect does to the cached record. */
  datatype Action = Write(record: Record) | Remove | Keep

  /** The outcome of the mount effect: the new status, the storage action, and whether
      the checkout query parameters are cleared from the address. */
  datatype Decision = Decision(status: Status, action: Action, clearQuery: bool)

  /** `x || null` for an optional string: an empty string is falsy. */
  function Truthy(s: Option<string>): Option<string> {
    if s.Some? && s.value != [] then s else None
  }

  /** A return from checkout: `success=true` with a non-empty `session_id`. */
  predicate IsCheckout(success: Option<string>, sessionId: Option<string>) {
    success == Some("true") && Truthy(sessionId).Some?
  }

  /** A cached record is honoured while its expiry is set and still ahead of now. */
  predicate Fresh(r: Record, now: int) {
    r.expiresAt.Some? && r.expiresAt.value != 0 && r.expiresAt.value > now
  }

  /** The mount effect of `useSubscription`. A checkout return wins over any cache: the
      session becomes a premium record valid for 24 hours, written and reported. Else a
      fresh cached record is reported as it is. Else the status is not premium, and an
      expired or unreadable record is removed. Loading ends in every case. */
  function Decide(success: Option<string>, sessionId: Option<string>, cached: Entry<Record>, now: int): (d: Decision)
    ensures !d.status.isLoading
    ensures d.clearQuery <==> IsCheckout(success, sessionId)
    ensures IsCheckout(success, sessionId) ==>
              d.status == Status(true, false, sessionId, Some(now + CacheDuration))
              && d.action == Write(Record(true, sessionId, Some(now + CacheDuration)))
    ensures !IsCheckout(success, sessionId) && cached.Present? && Fresh(cached.value, now) ==>
              d.action == Keep && d.status.isPremium == cached.value.isPremium
              && d.status.subscriptionId == Truthy(cached.value.subscriptionId)
              && d.status.expiresAt == cached.value.expiresAt
    ensures !IsCheckout(success, sessionId) && !(cached.Present? && Fresh(cached.value, now)) ==>
              d.status == NotPremium && d.action == (if cached.Absent? then Keep else Remove)
  {
    if IsCheckout(success, sessionId) then
      var r := Record(true, sessionId, Some(now + CacheDuration));
      Decision(Status(true, false, sessionId, r.expiresAt), Write(r), true)
    else
      match cached
      case Present(r) =>
        if Fresh(r, now) then
          Decision(Status(r.isPremium, false, Truthy(r.subscriptionId), r.expiresAt), Keep, false)
        else
          Decision(NotPremium, Remove, false)
      case Unparsable => Decision(NotPremium, Remove, false)
      case Absent => Decision(NotPremium, Keep, false)
  }

  /** The status is premium only for a checkout return or a fresh premium record. */
  lemma PremiumOnlyWhenEntitled(success: Option<string>, sessionId: Option<string>, cached: Entry<Record>, now: int)
    ensures Decide(success, sessionId, cached, now).status.isPremium <==>
              IsCheckout(success, sessionId) || (cached.Present? && Fresh(cached.value, now) && cached.value.isPremium)
  {
  }

  /** What the storage holds after an action. */
  function Apply(a: Action, e: Entry<Record>): (r: Entry<Record>)
    ensures a.Write? ==> r == Present(a.record)
    ensures a.Remove? ==> r.Absent?
    ensures a.Keep? ==> r == e
  {
    match a
    case Write(rec) => Present(rec)
    case Remove => Absent
    case Keep => e
  }

  /** A record written at checkout time `t` is honoured by every later mount for the
      next 24 hours and removed by the first mount after that. */
  lemma CheckoutLifetime(sessionId: string, t: int, now: int)
    requires sessionId != [] && t >= 0 && t <= now
    ensures var d := Decide(Some("true"), Some(sessionId), Absent, t);
      var later := Decide(None, None, Apply(d.action, Absent), now);
      (now < t + CacheDuration ==> later.status == Status(true, false, Some(sessionId), Some(t + CacheDuration)) && later.action == Keep)
      && (now >= t + CacheDuration ==> later.status == NotPremium && later.action == Remove)
  {
    assert IsCheckout(Some("true"), Some(sessionId));
  }

  /** `subscriptionId || 'manual'`. */
  function OrManual(id: Option<string>): (r: string)
    ensures r != []
    ensures id.Some? && id.value != [] ==> r == id.value
    ensures !(id.Some? && id.value != []) ==> r == "manual"
  {
    if id.Some? && id.value != [] then id.value else "manual"
  }

  /** The local storage slot of the entitlement, with the two helpers that change it. */
  class Store {
    var entry: Entry<Record>

    constructor(e: Entry<Record>)
      ensures entry == e
    {
      entry := e;
    }

    /** `setPremiumStatus`: true writes a premium record for `subscriptionId` (or
        `manual`) valid 24 hours from now; false removes the record. */
    method SetPremiumStatus(isPremium: bool, subscriptionId: Option<string>, now: int)
      modifies this
      ensures isPremium ==> entry == Present(Record(true, Some(OrManual(subscriptionId)), Some(now + CacheDuration)))
      ensures !isPremium ==> entry.Absent?
    {
      if isPremium {
        entry := Present(Record(true, Some(OrManual(subscriptionId)), Some(now + CacheDuration)));
      } else {
        entry := Absent;
      }
    }

    /** `clearSubscription`: the record is removed. */
    method ClearSubscription()
      modifies this
      ensures entry.Absent?
    {
      entry := Absent;
    }
  }

  /** A record set by hand at `t` makes the next mount premium until `t` + 24 hours;
      after `clearSubscription` the next mount is not premium. */
  lemma ManualLifetime(id: Option<string>, t: int, now: int)
    requires t >= 0 && t <= now < t + CacheDuration
    ensures var r := Record(true, Some(OrManual(id)), Some(t + CacheDuration));
      Decide(None, None, Present(r), now).status == Status(true, false, Some(OrManual(id)), Some(t + CacheDuration))
    ensures Decide(None, None, Absent, now).status == NotPremium
  {
  }

  /** The hook: its status and the slot it reads and writes. */
  class Hook {
    var status: Status
    var store: Store

    constructor(s: Store)
      ensures status == Initial && store == s
    {
      status := Initial;
      store := s;
    }

    /** The mount effect: the decision's status is reported and its action applied. */
    method Mount(success: Option<string>, sessionId: Option<string>, now: int) returns (clearQuery: bool)
      modifies this, store
      ensures store == old(store)
      ensures var d := Decide(success, sessionId, old(store.entry), now);
        status == d.status && store.entry == Apply(d.action, old(store.entry)) && clearQuery == d.clearQuery
      ensures !status.isLoading
    {
      var d := Decide(success, sessionId, store.entry, now);
      status := d.status;
      store.entry := Apply(d.action, store.entry);
      clearQuery := d.clearQuery;
    }
  }
}
