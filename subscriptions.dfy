/**
 * src/controllers/subscription.controller.js: the subscribe/unsubscribe
 * toggle keyed on (subscriber, channel), and the two listings that join the
 * subscription records with the users they name.
 */
module Subscriptions {
  import opened ApiErrors
  import opened Store
  import opened Toggle

  /** The records naming `channel` as the channel: what a `$lookup` on `channel` collects. */
  function ChannelRecords(subs: set<Subscription>, channel: Id): set<Subscription>
  {
    set s | s in subs && s.channel == channel
  }

  /** The records naming `subscriber` as the subscriber. */
  function SubscriberRecords(subs: set<Subscription>, subscriber: Id): set<Subscription>
  {
    set s | s in subs && s.subscriber == subscriber
  }

  /** The number of users subscribed to `channel`: the `$size` of the subscribers `$lookup`. */
  function SubscriberCount(subs: set<Subscription>, channel: Id): (n: nat)
    ensures n <= |subs|
    ensures n == 0 <==> forall s :: s in subs ==> s.channel != channel
  {
    var records := ChannelRecords(subs, channel);
    SubsetNoLarger(records, subs);
    assert records == {} <==> forall s :: s in subs ==> s.channel != channel by {
      if records != {} {
        var s :| s in records;
      } else {
        forall s | s in subs ensures s.channel != channel {
          assert s.channel == channel ==> s in records;
        }
      }
    }
    |records|
  }

  /** The number of channels `subscriber` is subscribed to: the `$size` of the subscribedTo `$lookup`. */
  function SubscribedToCount(subs: set<Subscription>, subscriber: Id): (n: nat)
    ensures n <= |subs|
    ensures n == 0 <==> forall s :: s in subs ==> s.subscriber != subscriber
  {
    var records := SubscriberRecords(subs, subscriber);
    SubsetNoLarger(records, subs);
    assert records == {} <==> forall s :: s in subs ==> s.subscriber != subscriber by {
      if records != {} {
        var s :| s in records;
      } else {
        forall s | s in subs ensures s.subscriber != subscriber {
          assert s.subscriber == subscriber ==> s in records;
        }
      }
    }
    |records|
  }

  /**
   * Toggling a subscription moves the channel's subscriber count by one:
   * down when the record was there, up when it was not.
   */
  lemma {:induction false} ToggleMovesSubscriberCount(subs: set<Subscription>, x: Subscription)
    ensures SubscriberCount(Toggled(subs, x), x.channel) ==
      if x in subs then SubscriberCount(subs, x.channel) - 1 else SubscriberCount(subs, x.channel) + 1
  {
    var before := ChannelRecords(subs, x.channel);
    var after := ChannelRecords(Toggled(subs, x), x.channel);
    if x in subs {
      assert after == before - {x};
    } else {
      assert after == before + {x};
    }
  }

  /** Toggling a subscription moves the subscriber's own count of channels by one. */
  lemma {:induction false} ToggleMovesSubscribedToCount(subs: set<Subscription>, x: Subscription)
    ensures SubscribedToCount(Toggled(subs, x), x.subscriber) ==
      if x in subs then SubscribedToCount(subs, x.subscriber) - 1 else SubscribedToCount(subs, x.subscriber) + 1
  {
    var before := SubscriberRecords(subs, x.subscriber);
    var after := SubscriberRecords(Toggled(subs, x), x.subscriber);
    if x in subs {
      assert after == before - {x};
    } else {
      assert after == before + {x};
    }
  }

  /** Other channels keep their subscriber counts across a toggle. */
  lemma {:induction false} ToggleKeepsOtherChannels(subs: set<Subscription>, x: Subscription, channel: Id)
    requires channel != x.channel
    ensures SubscriberCount(Toggled(subs, x), channel) == SubscriberCount(subs, channel)
  {
    assert ChannelRecords(Toggled(subs, x), channel) == ChannelRecords(subs, channel);
  }

  /**
   * `toggleSubscription`, keyed on (caller, channel). The id check tests the
   * function `isValidObjectId` itself, which is always truthy, so it never
   * fires: a malformed id reaches `User.findById` and fails there with a
   * cast error. A missing channel is a 400. Otherwise the caller's record for
   * that channel is deleted when present and created when absent, and the
   * record is sent back.
   */
  method ToggleSubscription(db: Db, caller: Id, channelId: Id) returns (r: Result<Subscription>)
    requires db.Valid()
    modifies db
    ensures db.Valid()
    ensures !IsValidObjectId(channelId) ==> r.Unhandled?
    ensures IsValidObjectId(channelId) && channelId !in old(db.users) ==> r.IsError(400)
    ensures r.Ok? <==> IsValidObjectId(channelId) && channelId in old(db.users)
    ensures r.Ok? ==>
      && r.value == Subscription(caller, channelId)
      && db.Contents() == old(db.Contents()).(subscriptions := Toggled(old(db.subscriptions), r.value))
    ensures !r.Ok? ==> unchanged(db)
  {
    if !IsValidObjectId(channelId) {
      r := Unhandled("CastError");
      return;
    }
    if channelId !in db.users {
      r := Fail(400, "Channel does node exists");
      return;
    }
    var record := Subscription(caller, channelId);
    db.subscriptions := Toggled(db.subscriptions, record);
    r := Ok(record);
  }

  /** The `username` and `avatar` the channel listing projects from a user, with its id. */
  datatype ChannelCard = ChannelCard(id: Id, username: string, avatar: string)

  /** The channel a record's `$lookup` finds: none when the id names no user. */
  function LookUpChannel(users: map<Id, User>, id: Id): (c: Option<ChannelCard>)
    ensures c.Some? <==> id in users
    ensures c.Some? ==> c.value == ChannelCard(id, users[id].username, users[id].avatar)
  {
    if id in users then Some(ChannelCard(id, users[id].username, users[id].avatar)) else None
  }

  /**
   * `getUserChannelSubscribers`: a malformed channel id is a 400; otherwise
   * each of the channel's subscription records, with the subscriber it names
   * looked up among the users.
   */
  function ChannelSubscribers(users: map<Id, User>, subs: set<Subscription>, channelId: Id): (r: Result<map<Subscription, Option<UserCard>>>)
    ensures !IsValidObjectId(channelId) ==> r.IsError(400)
    ensures IsValidObjectId(channelId) ==> r.Ok?
    ensures r.Ok? ==> forall s :: s in r.value <==> s in subs && s.channel == channelId
    ensures r.Ok? ==> forall s :: s in r.value ==> r.value[s] == LookUp(users, s.subscriber)
  {
    if !IsValidObjectId(channelId) then Fail(400, "Given channel Id is inValid")
    else Ok(map s | s in ChannelRecords(subs, channelId) :: LookUp(users, s.subscriber))
  }

  /** The subscriber listing has as many rows as the channel has subscribers. */
  lemma {:induction false} ChannelSubscribersCounted(users: map<Id, User>, subs: set<Subscription>, channelId: Id)
    requires IsValidObjectId(channelId)
    ensures |ChannelSubscribers(users, subs, channelId).value| == SubscriberCount(subs, channelId)
  {
    assert ChannelSubscribers(users, subs, channelId).value.Keys == ChannelRecords(subs, channelId);
  }

  /**
   * `getSubscribedChannels`: a malformed subscriber id is a 400; otherwise
   * each of that user's subscription records, with the channel it names
   * looked up among the users.
   */
  function SubscribedChannels(users: map<Id, User>, subs: set<Subscription>, subscriberId: Id): (r: Result<map<Subscription, Option<ChannelCard>>>)
    ensures !IsValidObjectId(subscriberId) ==> r.IsError(400)
    ensures IsValidObjectId(subscriberId) ==> r.Ok?
    ensures r.Ok? ==> forall s :: s in r.value <==> s in subs && s.subscriber == subscriberId
    ensures r.Ok? ==> forall s :: s in r.value ==> r.value[s] == LookUpChannel(users, s.channel)
  {
    if !IsValidObjectId(subscriberId) then Fail(400, "Invalid Subscriber Id")
    else Ok(map s | s in SubscriberRecords(subs, subscriberId) :: LookUpChannel(users, s.channel))
  }

  /** The channel listing has as many rows as the user has subscriptions. */
  lemma {:induction false} SubscribedChannelsCounted(users: map<Id, User>, subs: set<Subscription>, subscriberId: Id)
    requires IsValidObjectId(subscriberId)
    ensures |SubscribedChannels(users, subs, subscriberId).value| == SubscribedToCount(subs, subscriberId)
  {
    assert SubscribedChannels(users, subs, subscriberId).value.Keys == SubscriberRecords(subs, subscriberId);
  }

  /**
   * A subscription document as the create call leaves it. The call passes
   * the caller's id under the key `subscribe`, which the schema does not
   * declare, so the document is stored without a `subscriber`.
   */
  datatype StoredSubscription = StoredSubscription(subscriber: Option<Id>, channel: Id)

  /**
   * `toggleSubscription` as written, on the stored documents: the lookup
   * asks for a document whose `subscriber` is the caller and whose `channel`
   * is the given channel; when one exists,
   * `findByIdAndDelete` is handed a filter object where an id belongs and
   * fails to cast it; otherwise a document with no subscriber is appended.
   */
  function ToggleSubscriptionAsWritten(records: seq<StoredSubscription>, caller: Id, channel: Id): (r: Result<seq<StoredSubscription>>)
    ensures r.Ok? <==> forall i :: 0 <= i < |records| ==> records[i] != StoredSubscription(Some(caller), channel)
  {
    if exists i :: 0 <= i < |records| && records[i] == StoredSubscription(Some(caller), channel) then
      Unhandled("CastError")
    else
      Ok(records + [StoredSubscription(None, channel)])
  }

  /**
   * The as-written records after `n` toggles by the same caller on the same
   * channel. As long as the toggles succeed they only ever append: no
   * document is removed or changed.
   */
  function ToggledSubscriptionsAsWritten(records: seq<StoredSubscription>, caller: Id, channel: Id, n: nat): (r: Result<seq<StoredSubscription>>)
    ensures r.Ok? ==> |r.value| == |records| + n && r.value[..|records|] == records
  {
    if n == 0 then Ok(records)
    else
      match ToggledSubscriptionsAsWritten(records, caller, channel, n - 1)
      case Ok(rs) =>
        assert (rs + [StoredSubscription(None, channel)])[..|records|] == rs[..|records|];
        ToggleSubscriptionAsWritten(rs, caller, channel)
      case Err(e) => Err(e)
      case Unhandled(x) => Unhandled(x)
  }

  /**
   * As written, a caller who is not recorded as a subscriber never becomes
   * one: every toggle succeeds and only adds a document without a
   * subscriber, so "unsubscribe" is never reached and the records grow by
   * one per request.
   */
  lemma {:induction false} AsWrittenNeverSubscribes(records: seq<StoredSubscription>, caller: Id, channel: Id, n: nat)
    requires forall i :: 0 <= i < |records| ==> records[i].subscriber != Some(caller)
    ensures ToggledSubscriptionsAsWritten(records, caller, channel, n).Ok?
    ensures var rs := ToggledSubscriptionsAsWritten(records, caller, channel, n).value;
      |rs| == |records| + n && forall i :: 0 <= i < |rs| ==> rs[i].subscriber != Some(caller)
  {
    if n > 0 {
      AsWrittenNeverSubscribes(records, caller, channel, n - 1);
      var before := ToggledSubscriptionsAsWritten(records, caller, channel, n - 1).value;
      var after := before + [StoredSubscription(None, channel)];
      assert ToggleSubscriptionAsWritten(before, caller, channel) == Ok(after);
      assert forall i :: 0 <= i < |after| ==> after[i].subscriber != Some(caller) by {
        forall i | 0 <= i < |after| ensures after[i].subscriber != Some(caller) {
          if i < |before| { assert after[i] == before[i]; }
        }
      }
    }
  }
}
