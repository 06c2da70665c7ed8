/**
 * src/controllers/comment.controller.js: commenting on a video, editing
 * and deleting one's own comment, and listing a video's comments.
 */
module Comments {
  import opened ApiErrors
  import opened Text
  import opened Store

  /** The comments whose `video` is `videoId`: what the `$match` keeps. */
  function CommentsOn(comments: map<Id, Comment>, videoId: Id): (r: map<Id, Comment>)
    ensures forall k :: k in r <==> k in comments && comments[k].video == videoId
    ensures forall k :: k in r ==> r[k] == comments[k]
  {
    map k | k in comments && comments[k].video == videoId :: comments[k]
  }

  /** A new comment on a video joins exactly that video's listing. */
  lemma {:induction false} NewCommentListed(comments: map<Id, Comment>, id: Id, c: Comment)
    requires id !in comments
    ensures CommentsOn(comments[id := c], c.video) == CommentsOn(comments, c.video)[id := c]
    ensures forall v :: v != c.video ==> CommentsOn(comments[id := c], v) == CommentsOn(comments, v)
  {
    var after := CommentsOn(comments[id := c], c.video);
    var expected := CommentsOn(comments, c.video)[id := c];
    assert after.Keys == expected.Keys;
    forall v | v != c.video
      ensures CommentsOn(comments[id := c], v) == CommentsOn(comments, v)
    {
      assert CommentsOn(comments[id := c], v).Keys == CommentsOn(comments, v).Keys;
    }
  }

  /** A deleted comment leaves its video's listing and nothing else changes there. */
  lemma {:induction false} DeletedCommentUnlisted(comments: map<Id, Comment>, id: Id, videoId: Id)
    ensures CommentsOn(comments - {id}, videoId) == CommentsOn(comments, videoId) - {id}
  {
    assert CommentsOn(comments - {id}, videoId).Keys == (CommentsOn(comments, videoId) - {id}).Keys;
  }

  /**
   * `getVideoComments`: a malformed video id is a 400, a missing video a
   * 400; otherwise the comments on that video (pagination aside).
   */
  function VideoComments(videos: map<Id, Video>, comments: map<Id, Comment>, videoId: Id): (r: Result<map<Id, Comment>>)
    ensures !IsValidObjectId(videoId) || videoId !in videos ==> r.IsError(400)
    ensures r.Ok? <==> IsValidObjectId(videoId) && videoId in videos
    ensures r.Ok? ==> r.value == CommentsOn(comments, videoId)
  {
    if !IsValidObjectId(videoId) then Fail(400, "Invalid Video ID")
    else if videoId !in videos then Fail(400, "Video does not exists")
    else Ok(CommentsOn(comments, videoId))
  }

  /**
   * `addComment`: a malformed video id, a missing video and missing or
   * blank content are each a 400; otherwise a comment with that content, on
   * that video, owned by the caller is stored and listed under the video.
   */
  method AddComment(db: Db, caller: Id, newId: Id, videoId: Id, content: Option<string>) returns (r: Result<Comment>)
    requires db.Valid() && newId !in db.comments
    modifies db
    ensures db.Valid()
    ensures !IsValidObjectId(videoId) || videoId !in old(db.videos) || MissingText(content) ==> r.IsError(400)
    ensures r.Ok? <==> IsValidObjectId(videoId) && videoId in old(db.videos) && !MissingText(content)
    ensures r.Ok? ==>
      && r.value == Comment(content.value, videoId, caller)
      && db.Contents() == old(db.Contents()).(comments := old(db.comments)[newId := r.value])
      && VideoComments(db.videos, db.comments, videoId) == Ok(CommentsOn(old(db.comments), videoId)[newId := r.value])
    ensures !r.Ok? ==> unchanged(db)
  {
    if !IsValidObjectId(videoId) {
      r := Fail(400, "InValid video ID");
      return;
    }
    if videoId !in db.videos {
      r := Fail(400, "Video does not exists");
      return;
    }
    if MissingText(content) {
      r := Fail(400, "Comment Content can't be empty");
      return;
    }
    var c := Comment(content.value, videoId, caller);
    NewCommentListed(db.comments, newId, c);
    db.comments := db.comments[newId := c];
    r := Ok(c);
  }

  /** The guards update and delete share: a well-formed id, a stored comment, owned by the caller. */
  predicate MayChange(comments: map<Id, Comment>, caller: Id, commentId: Id) {
    IsValidObjectId(commentId) && commentId in comments && comments[commentId].owner == caller
  }

  /**
   * `updateComment`: a malformed id, a missing comment and a caller who is
   * not the owner are each a 400; missing or blank new content is a 403;
   * otherwise only the content changes.
   */
  method UpdateComment(db: Db, caller: Id, commentId: Id, newContent: Option<string>) returns (r: Result<Comment>)
    requires db.Valid()
    modifies db
    ensures db.Valid()
    ensures !MayChange(old(db.comments), caller, commentId) ==> r.IsError(400)
    ensures MayChange(old(db.comments), caller, commentId) && MissingText(newContent) ==> r.IsError(403)
    ensures r.Ok? <==> MayChange(old(db.comments), caller, commentId) && !MissingText(newContent)
    ensures r.Ok? ==>
      && r.value == old(db.comments)[commentId].(content := newContent.value)
      && r.value.owner == caller && r.value.video == old(db.comments)[commentId].video
      && db.Contents() == old(db.Contents()).(comments := old(db.comments)[commentId := r.value])
    ensures !r.Ok? ==> unchanged(db)
  {
    if !IsValidObjectId(commentId) {
      r := Fail(400, "Invalid comment ID");
      return;
    }
    if commentId !in db.comments {
      r := Fail(400, "Comment does not exists");
      return;
    }
    if db.comments[commentId].owner != caller {
      r := Fail(400, "You dont have permission to edit comment");
      return;
    }
    if MissingText(newContent) {
      r := Fail(403, "Comment content can't be Empty");
      return;
    }
    var c := db.comments[commentId].(content := newContent.value);
    db.comments := db.comments[commentId := c];
    r := Ok(c);
  }

  /**
   * `deleteComment`: a malformed id, a missing comment and a caller who is
   * not the owner are each a 400 and delete nothing; otherwise exactly that
   * comment is deleted.
   */
  method DeleteComment(db: Db, caller: Id, commentId: Id) returns (r: Result<()>)
    requires db.Valid()
    modifies db
    ensures db.Valid()
    ensures !MayChange(old(db.comments), caller, commentId) ==> r.IsError(400)
    ensures r.Ok? <==> MayChange(old(db.comments), caller, commentId)
    ensures r.Ok? ==> db.Contents() == old(db.Contents()).(comments := old(db.comments) - {commentId})
    ensures !r.Ok? ==> unchanged(db)
  {
    if !IsValidObjectId(commentId) {
      r := Fail(400, "Invalid comment id");
      return;
    }
    if commentId !in db.comments {
      r := Fail(400, "Comment does not exists");
      return;
    }
    if db.comments[commentId].owner != caller {
      r := Fail(400, "You don't have permission to delete the comment");
      return;
    }
    db.comments := db.comments - {commentId};
    r := Ok(());
  }
}
