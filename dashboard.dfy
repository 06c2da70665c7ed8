/**
 * src/controllers/dashboard.controller.js: the channel owner's totals
 * (subscribers, videos, views, likes given by kind) and the listing of the
 * owner's videos. Everything here only reads the store.
 */
module Dashboard {
  import opened ApiErrors
  import opened Store
  import opened Toggle
  import Subscriptions

  /**
   * `getChannelVideos`: exactly the videos the caller owns. `find` answers
   * with an array, empty or not, so its 500 branch never fires.
   */
  function ChannelVideos(videos: map<Id, Video>, caller: Id): (r: map<Id, Video>)
    ensures forall k :: k in r <==> k in videos && videos[k].owner == caller
    ensures forall k :: k in r ==> r[k] == videos[k]
  {
    map k | k in videos && videos[k].owner == caller :: videos[k]
  }

  /** Some video of a non-empty collection: the next one the sum visits. */
  ghost function AnyKey(m: map<Id, Video>): (k: Id)
    requires m != map[]
    ensures k in m
  {
    var k :| k in m; k
  }

  /** The sum of `views` over a collection of videos: what `$sum: "$views"` adds up. */
  ghost function TotalViews(m: map<Id, Video>): (t: nat)
    ensures m == map[] ==> t == 0
    ensures forall k :: k in m ==> m[k].views <= t
    decreases |m|
  {
    if m == map[] then 0
    else
      var k := AnyKey(m);
      assert (m - {k}).Keys == m.Keys - {k};
      assert forall j :: j in m && j != k ==> j in m - {k} && (m - {k})[j] == m[j];
      m[k].views + TotalViews(m - {k})
  }

  /** The sum does not depend on the order the videos are visited in: any one video can be taken out first. */
  lemma {:induction false} TotalViewsWithout(m: map<Id, Video>, x: Id)
    requires x in m
    ensures TotalViews(m) == m[x].views + TotalViews(m - {x})
    decreases |m|
  {
    var k := AnyKey(m);
    assert (m - {k}).Keys == m.Keys - {k};
    if k != x {
      assert (m - {x}).Keys == m.Keys - {x};
      TotalViewsWithout(m - {k}, x);
      TotalViewsWithout(m - {x}, k);
      assert m - {k} - {x} == m - {x} - {k};
    }
  }

  /** Adding a video adds its views to the sum. */
  lemma {:induction false} TotalViewsWith(m: map<Id, Video>, x: Id, v: Video)
    requires x !in m
    ensures TotalViews(m[x := v]) == v.views + TotalViews(m)
  {
    TotalViewsWithout(m[x := v], x);
    assert m[x := v] - {x} == m;
  }

  /** The three kinds of thing a like can name; a like counts towards exactly one. */
  datatype LikeKind = VideoLike | CommentLike | TweetLike

  function KindOf(t: LikeTarget): (k: LikeKind)
    ensures k == VideoLike <==> t.OnVideo?
    ensures k == CommentLike <==> t.OnComment?
    ensures k == TweetLike <==> t.OnTweet?
  {
    match t
    case OnVideo(_) => VideoLike
    case OnComment(_) => CommentLike
    case OnTweet(_) => TweetLike
  }

  /** The likes `caller` gave: what the `$match` on `likeBy` keeps. */
  function LikesGiven(likes: set<Like>, caller: Id): set<Like>
  {
    set l | l in likes && l.likeBy == caller
  }

  /** The likes `caller` gave to things of one kind: the like documents whose field for that kind is non-null. */
  function LikesGivenOfKind(likes: set<Like>, caller: Id, kind: LikeKind): set<Like>
  {
    set l | l in likes && l.likeBy == caller && KindOf(l.target) == kind
  }

  /** The three per-kind totals add up to all the likes the caller gave. */
  lemma {:induction false} LikeTotalsPartition(likes: set<Like>, caller: Id)
    ensures |LikesGivenOfKind(likes, caller, VideoLike)| + |LikesGivenOfKind(likes, caller, CommentLike)|
      + |LikesGivenOfKind(likes, caller, TweetLike)| == |LikesGiven(likes, caller)|
  {
    var v := LikesGivenOfKind(likes, caller, VideoLike);
    var c := LikesGivenOfKind(likes, caller, CommentLike);
    var t := LikesGivenOfKind(likes, caller, TweetLike);
    assert v * c == {};
    assert (v + c) * t == {};
    assert LikesGiven(likes, caller) == v + c + t;
  }

  /** The totals the dashboard reports. `totalVideos` is optional because the handler as written never fills it. */
  datatype ChannelStats = ChannelStats(
    totalSubscribers: nat,
    totalVideos: Option<nat>,
    totalViews: nat,
    totalVideoLikes: nat,
    totalTweetLikes: nat,
    totalCommentLikes: nat)

  /** The response: HTTP status, the envelope's own status code, and the totals when there are any. */
  datatype StatsResponse = StatsResponse(httpStatus: nat, statusCode: nat, stats: Option<ChannelStats>)

  /** The totals of `caller`'s channel, each zero when there is nothing to count. */
  ghost function StatsOf(subs: set<Subscription>, videos: map<Id, Video>, likes: set<Like>, caller: Id): (s: ChannelStats)
    ensures s.totalSubscribers == Subscriptions.SubscriberCount(subs, caller)
    ensures s.totalVideos == Some(|ChannelVideos(videos, caller)|)
    ensures s.totalViews == TotalViews(ChannelVideos(videos, caller))
    ensures s.totalVideoLikes == |LikesGivenOfKind(likes, caller, VideoLike)|
    ensures s.totalTweetLikes == |LikesGivenOfKind(likes, caller, TweetLike)|
    ensures s.totalCommentLikes == |LikesGivenOfKind(likes, caller, CommentLike)|
    ensures s.totalVideoLikes + s.totalTweetLikes + s.totalCommentLikes == |LikesGiven(likes, caller)|
  {
    LikeTotalsPartition(likes, caller);
    ChannelStats(
      Subscriptions.SubscriberCount(subs, caller),
      Some(|ChannelVideos(videos, caller)|),
      TotalViews(ChannelVideos(videos, caller)),
      |LikesGivenOfKind(likes, caller, VideoLike)|,
      |LikesGivenOfKind(likes, caller, TweetLike)|,
      |LikesGivenOfKind(likes, caller, CommentLike)|)
  }

  /** `getChannelStats` as intended: the totals, sent with HTTP 201 inside a 200 envelope. */
  ghost function ChannelStatsResponse(subs: set<Subscription>, videos: map<Id, Video>, likes: set<Like>, caller: Id): (r: StatsResponse)
    ensures r.httpStatus == 201 && r.statusCode == 200
    ensures r.stats == Some(StatsOf(subs, videos, likes, caller))
  {
    StatsResponse(201, 200, Some(StatsOf(subs, videos, likes, caller)))
  }

  /**
   * `getChannelStats` as written. Each total is read as `[0].field` of an
   * aggregation result, and an aggregation over no documents returns no
   * group, so a channel without a subscriber, without a video or without a
   * like given throws a TypeError, which the `catch` answers with HTTP 500
   * and an empty 503 envelope. The video count is read from `.Video` while
   * `$count` names it `Videos`, so it is never sent.
   */
  ghost function ChannelStatsAsWritten(subs: set<Subscription>, videos: map<Id, Video>, likes: set<Like>, caller: Id): (r: StatsResponse)
    ensures r.stats.Some? <==>
      Subscriptions.SubscriberCount(subs, caller) > 0 && |ChannelVideos(videos, caller)| > 0 && |LikesGiven(likes, caller)| > 0
    ensures r.stats.None? ==> r.httpStatus == 500 && r.statusCode == 503
    ensures r.stats.Some? ==> r.httpStatus == 201 && r.stats.value.totalVideos.None?
  {
    var all := StatsOf(subs, videos, likes, caller);
    if Subscriptions.SubscriberCount(subs, caller) == 0 || |ChannelVideos(videos, caller)| == 0 || |LikesGiven(likes, caller)| == 0
    then StatsResponse(500, 503, None)
    else StatsResponse(201, 200, Some(all.(totalVideos := None)))
  }

  /**
   * As written, a channel nobody subscribes to gets a 500; as intended it
   * gets its totals with a subscriber count of zero.
   */
  lemma StatsAsWrittenFailsWithoutSubscribers(subs: set<Subscription>, videos: map<Id, Video>, likes: set<Like>, caller: Id)
    requires Subscriptions.SubscriberCount(subs, caller) == 0
    ensures ChannelStatsAsWritten(subs, videos, likes, caller).httpStatus == 500
    ensures ChannelStatsResponse(subs, videos, likes, caller).stats.value.totalSubscribers == 0
  {
  }

  /**
   * As written, even a successful response leaves out the video count of a
   * channel that has videos; as intended it carries that count.
   */
  lemma StatsAsWrittenDropsVideoCount(subs: set<Subscription>, videos: map<Id, Video>, likes: set<Like>, caller: Id)
    requires ChannelStatsAsWritten(subs, videos, likes, caller).stats.Some?
    ensures ChannelStatsAsWritten(subs, videos, likes, caller).stats.value.totalVideos.None?
    ensures ChannelStatsResponse(subs, videos, likes, caller).stats.value.totalVideos == Some(|ChannelVideos(videos, caller)|)
    ensures |ChannelVideos(videos, caller)| > 0
  {
  }

  /** A new video joins its owner's listing; the other channels' listings stay as they were. */
  lemma {:induction false} NewVideoListed(videos: map<Id, Video>, newId: Id, v: Video, c: Id)
    requires newId !in videos
    ensures ChannelVideos(videos[newId := v], c) ==
      if c == v.owner then ChannelVideos(videos, c)[newId := v] else ChannelVideos(videos, c)
  {
    var after := ChannelVideos(videos[newId := v], c);
    if c == v.owner {
      assert after.Keys == ChannelVideos(videos, c).Keys + {newId};
    } else {
      assert after.Keys == ChannelVideos(videos, c).Keys;
    }
  }

  /**
   * Publishing a video adds one to its owner's video total and its views
   * to the owner's view total; other channels' listings are unchanged.
   */
  lemma {:induction false} PublishMovesTotals(videos: map<Id, Video>, newId: Id, v: Video)
    requires newId !in videos
    ensures |ChannelVideos(videos[newId := v], v.owner)| == |ChannelVideos(videos, v.owner)| + 1
    ensures TotalViews(ChannelVideos(videos[newId := v], v.owner)) == TotalViews(ChannelVideos(videos, v.owner)) + v.views
    ensures forall c :: c != v.owner ==> ChannelVideos(videos[newId := v], c) == ChannelVideos(videos, c)
  {
    var before := ChannelVideos(videos, v.owner);
    NewVideoListed(videos, newId, v, v.owner);
    assert before[newId := v].Keys == before.Keys + {newId};
    TotalViewsWith(before, newId, v);
    forall c | c != v.owner
      ensures ChannelVideos(videos[newId := v], c) == ChannelVideos(videos, c)
    {
      NewVideoListed(videos, newId, v, c);
    }
  }

  /** Deleting a video takes one off its owner's video total and its views off the view total. */
  lemma {:induction false} DeleteMovesTotals(videos: map<Id, Video>, id: Id)
    requires id in videos
    ensures ChannelVideos(videos - {id}, videos[id].owner) == ChannelVideos(videos, videos[id].owner) - {id}
    ensures |ChannelVideos(videos - {id}, videos[id].owner)| == |ChannelVideos(videos, videos[id].owner)| - 1
    ensures TotalViews(ChannelVideos(videos - {id}, videos[id].owner)) ==
      TotalViews(ChannelVideos(videos, videos[id].owner)) - videos[id].views
  {
    var before := ChannelVideos(videos, videos[id].owner);
    assert ChannelVideos(videos - {id}, videos[id].owner).Keys == (before - {id}).Keys;
    assert (before - {id}).Keys == before.Keys - {id};
    TotalViewsWithout(before, id);
  }

  /** Toggling a like of the counted liker and kind toggles it in that total's set. */
  lemma {:induction false} ToggleInsideKind(likes: set<Like>, x: Like, caller: Id, kind: LikeKind)
    requires x.likeBy == caller && KindOf(x.target) == kind
    ensures LikesGivenOfKind(Toggled(likes, x), caller, kind) == Toggled(LikesGivenOfKind(likes, caller, kind), x)
  {
    var toggled := Toggled(likes, x);
    var after := LikesGivenOfKind(toggled, caller, kind);
    var expected := Toggled(LikesGivenOfKind(likes, caller, kind), x);
    forall l ensures l in after <==> l in expected {
      if l != x {
        assert l in toggled <==> l in likes;
      }
    }
  }

  /** Toggling any other like leaves the total's set as it was. */
  lemma {:induction false} ToggleOutsideKind(likes: set<Like>, x: Like, caller: Id, kind: LikeKind)
    requires x.likeBy != caller || KindOf(x.target) != kind
    ensures LikesGivenOfKind(Toggled(likes, x), caller, kind) == LikesGivenOfKind(likes, caller, kind)
  {
    var toggled := Toggled(likes, x);
    var after := LikesGivenOfKind(toggled, caller, kind);
    var before := LikesGivenOfKind(likes, caller, kind);
    forall l ensures l in after <==> l in before {
      if l != x {
        assert l in toggled <==> l in likes;
      }
    }
  }

  /**
   * Toggling a like moves exactly one of the liker's per-kind totals, the
   * one for the kind of thing liked, by one; every other total of every
   * user stays as it was.
   */
  lemma {:induction false} LikeToggleMovesOneTotal(likes: set<Like>, x: Like, caller: Id, kind: LikeKind)
    ensures x.likeBy == caller && KindOf(x.target) == kind ==>
      |LikesGivenOfKind(Toggled(likes, x), caller, kind)| ==
        if x in likes then |LikesGivenOfKind(likes, caller, kind)| - 1 else |LikesGivenOfKind(likes, caller, kind)| + 1
    ensures x.likeBy != caller || KindOf(x.target) != kind ==>
      LikesGivenOfKind(Toggled(likes, x), caller, kind) == LikesGivenOfKind(likes, caller, kind)
  {
    if x.likeBy == caller && KindOf(x.target) == kind {
      ToggleInsideKind(likes, x, caller, kind);
      assert x in LikesGivenOfKind(likes, caller, kind) <==> x in likes;
    } else {
      ToggleOutsideKind(likes, x, caller, kind);
    }
  }

  /** Toggling a subscription moves the channel's subscriber total on the dashboard by one. */
  lemma {:induction false} SubscriptionToggleMovesTotal(subs: set<Subscription>, videos: map<Id, Video>, likes: set<Like>, x: Subscription)
    ensures StatsOf(Toggled(subs, x), videos, likes, x.channel).totalSubscribers ==
      if x in subs then StatsOf(subs, videos, likes, x.channel).totalSubscribers - 1
      else StatsOf(subs, videos, likes, x.channel).totalSubscribers + 1
  {
    Subscriptions.ToggleMovesSubscriberCount(subs, x);
  }
}
