/** The registry of subscribers (subscribe.go): at most one channel per reserved scope, never a closed one. */
module Subscriptions {
  import opened Types

  datatype SubscribeError = InvalidScope | AlreadySubscribed

  datatype Subscribed = Attached(chan: Channel) | Refused(why: SubscribeError)

  /** make(chan struct{}, 1): one slot, filled or not. */
  class Channel {
    var slot: bool
    var closed: bool

    constructor ()
      ensures !slot && !closed
    {
      slot, closed := false, false;
    }

    // select { case ch <- struct{}{}: default: }
    method Offer()
      requires !closed
      modifies this`slot
      ensures slot
    {
      if !slot {
        slot := true;
      }
    }
  }

  class Registry {
    var subscribers: map<string, Channel>

    ghost predicate Valid()
      reads this, subscribers.Values
    {
      && (forall s :: s in subscribers ==> IsReserved(s) && !subscribers[s].closed)
      && (forall s, t :: s in subscribers && t in subscribers && s != t ==> subscribers[s] != subscribers[t])
    }

    constructor ()
      ensures Valid() && subscribers == map[]
    {
      subscribers := map[];
    }

    method Subscribe(scope: string) returns (r: Subscribed)
      requires Valid()
      modifies this
      ensures Valid()
      ensures r.Attached? <==> IsReserved(scope) && scope !in old(subscribers)
      ensures r.Attached? ==> fresh(r.chan) && !r.chan.slot && subscribers == old(subscribers)[scope := r.chan]
      ensures r.Refused? ==>
                r.why == (if IsReserved(scope) then AlreadySubscribed else InvalidScope) && subscribers == old(subscribers)
    {
      if !IsReserved(scope) {
        return Refused(InvalidScope);
      }
      if scope in subscribers {
        return Refused(AlreadySubscribed);
      }
      var ch := new Channel();
      subscribers := subscribers[scope := ch];
      return Attached(ch);
    }

    /** Idempotent: the entry goes first, then the channel closes, with its token if it has one. */
    method Unsubscribe(scope: string)
      requires Valid()
      modifies this, subscribers.Values
      ensures Valid() && subscribers == old(subscribers) - {scope}
      ensures scope in old(subscribers) ==> old(subscribers[scope]).closed
      ensures forall s :: s in old(subscribers) ==> old(subscribers)[s].slot == old(subscribers[s].slot)
      ensures forall s :: s in old(subscribers) && s != scope ==> !old(subscribers)[s].closed
    {
      if scope !in subscribers {
        assert subscribers - {scope} == subscribers;
        return;
      }
      var ch := subscribers[scope];
      subscribers := subscribers - {scope};
      ch.closed := true;
    }

    /** Any number of calls fills the one slot; nobody else's slot moves. */
    method Notify(scope: string)
      requires Valid()
      modifies set s | s in subscribers :: subscribers[s]
      ensures Valid() && subscribers == old(subscribers)
      ensures forall s :: s in subscribers ==> subscribers[s].slot == (s == scope || old(subscribers[s].slot))
    {
      if scope in subscribers {
        subscribers[scope].Offer();
      }
    }
  }
}
