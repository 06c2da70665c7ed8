/**
 * src/controllers/like.controller.js: liking and unliking a video, a
 * comment or a tweet, keyed on (liker, kind, target), and the listing of
 * the videos a user liked.
 */
module Likes {
  import opened ApiErrors
  import opened Store
  import opened Toggle

  /** The id a like target names, whatever its kind. */
  function TargetId(t: LikeTarget): Id {
    match t
    case OnVideo(v) => v
    case OnComment(c) => c
    case OnTweet(w) => w
  }

  /**
   * The refusal of a malformed target id, before any store access. The
   * video and tweet handlers throw an ApiError 400; the comment handler
   * throws an ApiResponse instead, which is not an ApiError.
   */
  function InvalidTarget<T>(t: LikeTarget): (r: Result<T>)
    ensures t.OnComment? ==> r.Unhandled?
    ensures !t.OnComment? ==> r.IsError(400)
  {
    match t
    case OnVideo(_) => Fail(400, "Given videoId is inValid")
    case OnComment(_) => Unhandled("ApiResponse(400, \"Invalid comment Id\")")
    case OnTweet(_) => Fail(400, "Invalid Tweet Id")
  }

  /**
   * `toggleVideoLike`, `toggleCommentLike` and `toggleTweetLike`, keyed on
   * (caller, target): a malformed target id is refused and nothing is read
   * or written; otherwise the caller's like of that target is deleted when
   * present and created when absent. The created like names the caller as
   * `likeBy` and exactly one target. Whether the target exists is not
   * checked.
   *
   * The handlers as written differ (see `ToggleLikeAsWritten`): the lookup
   * hands `findById` a filter where an id belongs; read as a filter, it
   * would still ignore the liker, as does the `deleteOne` that unlikes; and
   * the tweet handler "creates" with `findByIdAndUpdate`, which never
   * inserts.
   */
  method ToggleLike(db: Db, caller: Id, target: LikeTarget) returns (r: Result<Like>)
    requires db.Valid()
    modifies db
    ensures db.Valid()
    ensures !IsValidObjectId(TargetId(target)) ==> r == InvalidTarget(target)
    ensures r.Ok? <==> IsValidObjectId(TargetId(target))
    ensures r.Ok? ==>
      && r.value == Like(caller, target)
      && db.Contents() == old(db.Contents()).(likes := Toggled(old(db.likes), r.value))
    ensures !r.Ok? ==> unchanged(db)
  {
    if !IsValidObjectId(TargetId(target)) {
      r := InvalidTarget(target);
      return;
    }
    var like := Like(caller, target);
    db.likes := Toggled(db.likes, like);
    r := Ok(like);
  }

  /** The message the `catch` of each toggle rethrows with its 500. */
  function UpdateFailureMessage(t: LikeTarget): string {
    match t
    case OnVideo(_) => "Something went wrong while updating like/unlike"
    case OnComment(_) => "Something went wrong while updating comment like/unlike"
    case OnTweet(_) => "Something went wrong while updating tweet like/unlike"
  }

  /**
   * A toggle as written. `Like.findById({video: videoId})` (and its comment
   * and tweet twins) passes an object where an id belongs; Mongoose casts
   * it through its string form, "[object Object]", which is not an
   * ObjectId, so the lookup throws a cast error inside the `try` and the
   * `catch` rethrows it as a 500. No like is ever read, created or deleted.
   */
  function ToggleLikeAsWritten(likes: set<Like>, caller: Id, target: LikeTarget): (r: Result<set<Like>>)
    ensures !IsValidObjectId(TargetId(target)) ==> r == InvalidTarget(target)
    ensures IsValidObjectId(TargetId(target)) ==> r.IsError(500)
  {
    if !IsValidObjectId(TargetId(target)) then InvalidTarget(target)
    else Err(NewApiError(500, Some(UpdateFailureMessage(target)), Some(["CastError"])))
  }

  /**
   * As written no toggle ever succeeds, so a like can never be recorded;
   * the corrected toggle records it on the first call and removes it on the
   * second.
   */
  lemma ToggleLikeAsWrittenNeverLikes(likes: set<Like>, caller: Id, target: LikeTarget)
    requires Like(caller, target) !in likes
    ensures !ToggleLikeAsWritten(likes, caller, target).Ok?
    ensures Like(caller, target) in Toggled(likes, Like(caller, target))
    ensures Toggled(Toggled(likes, Like(caller, target)), Like(caller, target)) == likes
  {
  }

  // ----------------------------------------------------------- liked videos

  /** One row of the liked-videos listing: the like, the video it names and that video's owner, projected. */
  datatype LikedVideo = LikedVideo(like: Like, video: Option<Video>, owner: Option<UserCard>)

  /** The video a like names, when it is a video like and the video is stored. */
  function LikedVideoOf(videos: map<Id, Video>, l: Like): (v: Option<Video>)
    ensures v.Some? <==> l.target.OnVideo? && l.target.video in videos
    ensures v.Some? ==> v.value == videos[l.target.video]
  {
    if l.target.OnVideo? && l.target.video in videos then Some(videos[l.target.video]) else None
  }

  /** The row a like yields: the video it names, and that video's owner looked up. */
  function LikedRow(users: map<Id, User>, videos: map<Id, Video>, l: Like): (row: LikedVideo)
    ensures row.like == l && row.video == LikedVideoOf(videos, l)
    ensures row.owner == (if row.video.Some? then LookUp(users, row.video.value.owner) else None)
  {
    var v := LikedVideoOf(videos, l);
    LikedVideo(l, v, if v.Some? then LookUp(users, v.value.owner) else None)
  }

  /**
   * `getLikedVideos` with the intended join: a caller no longer stored is a
   * 404; otherwise one row per video like the caller gave, with the video
   * and its owner projected to full name, username and avatar.
   */
  function LikedVideos(users: map<Id, User>, videos: map<Id, Video>, likes: set<Like>, caller: Id): (r: Result<set<LikedVideo>>)
    ensures caller !in users ==> r.IsError(404)
    ensures caller in users ==> r.Ok?
    ensures r.Ok? ==> forall row :: row in r.value ==>
      && row.like in likes && row.like.likeBy == caller && row.like.target.OnVideo?
      && row.video == LikedVideoOf(videos, row.like)
      && row.owner == (if row.video.Some? then LookUp(users, row.video.value.owner) else None)
    ensures r.Ok? ==> forall l :: l in likes && l.likeBy == caller && l.target.OnVideo? ==>
      LikedRow(users, videos, l) in r.value
  {
    if caller !in users then Fail(404, "User not found")
    else Ok(set l | l in likes && l.likeBy == caller && l.target.OnVideo? :: LikedRow(users, videos, l))
  }

  /**
   * `getLikedVideos` as written: the aggregation has no `$match`, so every
   * like of every user and every kind is listed; the owner lookup reads a
   * `videoOwner` field that videos do not have (theirs is `owner`), so no
   * owner is ever found.
   */
  function LikedVideosAsWritten(users: map<Id, User>, videos: map<Id, Video>, likes: set<Like>, caller: Id): (r: Result<set<LikedVideo>>)
    ensures caller !in users ==> r.IsError(404)
    ensures r.Ok? ==> forall row :: row in r.value ==> row.like in likes && row.owner.None?
  {
    if caller !in users then Fail(404, "User not found")
    else Ok(set l | l in likes :: LikedVideo(l, LikedVideoOf(videos, l), None))
  }

  /**
   * As written, another user's like shows up in the caller's listing; the
   * corrected listing leaves it out.
   */
  lemma LikedVideosAsWrittenLeaks(users: map<Id, User>, videos: map<Id, Video>, likes: set<Like>, caller: Id, other: Like)
    requires caller in users && other in likes && other.likeBy != caller
    ensures exists row :: row in LikedVideosAsWritten(users, videos, likes, caller).value && row.like == other
    ensures forall row :: row in LikedVideos(users, videos, likes, caller).value ==> row.like != other
  {
    var row := LikedVideo(other, LikedVideoOf(videos, other), None);
    assert row in LikedVideosAsWritten(users, videos, likes, caller).value;
  }

  /**
   * As written, a liked video whose owner is stored is listed without that
   * owner; the corrected listing carries the owner's card.
   */
  lemma LikedVideosAsWrittenDropsOwner(users: map<Id, User>, videos: map<Id, Video>, likes: set<Like>, caller: Id, l: Like)
    requires caller in users && l in likes && l.likeBy == caller
    requires l.target.OnVideo? && l.target.video in videos && videos[l.target.video].owner in users
    ensures forall row :: row in LikedVideosAsWritten(users, videos, likes, caller).value && row.like == l ==> row.owner.None?
    ensures forall row :: row in LikedVideos(users, videos, likes, caller).value && row.like == l ==>
      row.owner == Some(Card(videos[l.target.video].owner, users[videos[l.target.video].owner]))
  {
  }
}
