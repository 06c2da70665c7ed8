/**
 * src/controllers/tweet.controller.js: posting, listing, editing and
 * deleting tweets.
 */
module Tweets {
  import opened ApiErrors
  import opened Text
  import opened Store

  /** The tweets owned by `userId`: what the `$match` on `owner` keeps. */
  function TweetsBy(tweets: map<Id, Tweet>, userId: Id): (r: map<Id, Tweet>)
    ensures forall k :: k in r <==> k in tweets && tweets[k].owner == userId
    ensures forall k :: k in r ==> r[k] == tweets[k]
  {
    map k | k in tweets && tweets[k].owner == userId :: tweets[k]
  }

  /** A new tweet joins exactly its owner's listing. */
  lemma {:induction false} NewTweetListed(tweets: map<Id, Tweet>, id: Id, t: Tweet)
    requires id !in tweets
    ensures TweetsBy(tweets[id := t], t.owner) == TweetsBy(tweets, t.owner)[id := t]
    ensures forall u :: u != t.owner ==> TweetsBy(tweets[id := t], u) == TweetsBy(tweets, u)
  {
    assert TweetsBy(tweets[id := t], t.owner).Keys == (TweetsBy(tweets, t.owner)[id := t]).Keys;
    forall u | u != t.owner
      ensures TweetsBy(tweets[id := t], u) == TweetsBy(tweets, u)
    {
      assert TweetsBy(tweets[id := t], u).Keys == TweetsBy(tweets, u).Keys;
    }
  }

  /** A content edit keeps every listing's keys: the tweet stays with its owner. */
  lemma {:induction false} EditedTweetStaysListed(tweets: map<Id, Tweet>, id: Id, content: string)
    requires id in tweets
    ensures TweetsBy(tweets[id := tweets[id].(content := content)], tweets[id].owner).Keys == TweetsBy(tweets, tweets[id].owner).Keys
  {
    assert TweetsBy(tweets[id := tweets[id].(content := content)], tweets[id].owner).Keys == TweetsBy(tweets, tweets[id].owner).Keys;
  }

  /**
   * `createTweet`: missing or blank content is a 400; otherwise a tweet
   * with that content, owned by the caller, is stored.
   */
  method CreateTweet(db: Db, caller: Id, newId: Id, content: Option<string>) returns (r: Result<Tweet>)
    requires db.Valid() && newId !in db.tweets
    modifies db
    ensures db.Valid()
    ensures MissingText(content) ==> r.IsError(400)
    ensures r.Ok? <==> !MissingText(content)
    ensures r.Ok? ==>
      && r.value == Tweet(content.value, caller)
      && db.Contents() == old(db.Contents()).(tweets := old(db.tweets)[newId := r.value])
      && TweetsBy(db.tweets, caller) == TweetsBy(old(db.tweets), caller)[newId := r.value]
    ensures !r.Ok? ==> unchanged(db)
  {
    if MissingText(content) {
      r := Fail(400, "Tweet Content can't be empty");
      return;
    }
    var t := Tweet(content.value, caller);
    NewTweetListed(db.tweets, newId, t);
    db.tweets := db.tweets[newId := t];
    r := Ok(t);
  }

  /**
   * `getUserTweets`: a malformed user id is a 400, a missing user a 400;
   * otherwise exactly the tweets that user owns.
   */
  function UserTweets(users: map<Id, User>, tweets: map<Id, Tweet>, userId: Id): (r: Result<map<Id, Tweet>>)
    ensures !IsValidObjectId(userId) || userId !in users ==> r.IsError(400)
    ensures r.Ok? <==> IsValidObjectId(userId) && userId in users
    ensures r.Ok? ==> r.value == TweetsBy(tweets, userId)
  {
    if !IsValidObjectId(userId) then Fail(400, "Not a valid userId")
    else if userId !in users then Fail(400, "User not found")
    else Ok(TweetsBy(tweets, userId))
  }

  /**
   * `updateTweet`: only an empty id is refused up front (400); a malformed
   * one then fails to cast in `findById`. A missing tweet, a caller who is
   * not the owner and missing or blank new content are each a 400;
   * otherwise only the content changes.
   */
  method UpdateTweet(db: Db, caller: Id, tweetId: Id, newContent: Option<string>) returns (r: Result<Tweet>)
    requires db.Valid()
    modifies db
    ensures db.Valid()
    ensures tweetId == "" ==> r.IsError(400)
    ensures tweetId != "" && !IsValidObjectId(tweetId) ==> r.Unhandled?
    ensures IsValidObjectId(tweetId) && (tweetId !in old(db.tweets) || old(db.tweets)[tweetId].owner != caller) ==>
      r.IsError(400)
    ensures IsValidObjectId(tweetId) && tweetId in old(db.tweets) && old(db.tweets)[tweetId].owner == caller && MissingText(newContent) ==>
      r.IsError(400)
    ensures r.Ok? <==>
      IsValidObjectId(tweetId) && tweetId in old(db.tweets) && old(db.tweets)[tweetId].owner == caller && !MissingText(newContent)
    ensures r.Ok? ==>
      && r.value == Tweet(newContent.value, caller)
      && db.Contents() == old(db.Contents()).(tweets := old(db.tweets)[tweetId := r.value])
    ensures !r.Ok? ==> unchanged(db)
  {
    if tweetId == "" {
      r := Fail(400, "Given tweetId is inValid");
      return;
    }
    if !IsValidObjectId(tweetId) {
      r := Unhandled("CastError");
      return;
    }
    if tweetId !in db.tweets {
      r := Fail(400, "tweet does not exist in the database");
      return;
    }
    if db.tweets[tweetId].owner != caller {
      r := Fail(400, "You have permission to update the tweet");
      return;
    }
    if MissingText(newContent) {
      r := Fail(400, "Tweet feild can't be empty");
      return;
    }
    var t := db.tweets[tweetId].(content := newContent.value);
    db.tweets := db.tweets[tweetId := t];
    r := Ok(t);
  }

  /**
   * `deleteTweet`: a malformed id, a missing tweet and a caller who is not
   * the owner are each a 400 and delete nothing; otherwise exactly that
   * tweet is deleted and leaves its owner's listing.
   */
  method DeleteTweet(db: Db, caller: Id, tweetId: Id) returns (r: Result<()>)
    requires db.Valid()
    modifies db
    ensures db.Valid()
    ensures !IsValidObjectId(tweetId) || tweetId !in old(db.tweets) ==> r.IsError(400)
    ensures IsValidObjectId(tweetId) && tweetId in old(db.tweets) && old(db.tweets)[tweetId].owner != caller ==> r.IsError(400)
    ensures r.Ok? <==> IsValidObjectId(tweetId) && tweetId in old(db.tweets) && old(db.tweets)[tweetId].owner == caller
    ensures r.Ok? ==>
      && db.Contents() == old(db.Contents()).(tweets := old(db.tweets) - {tweetId})
      && tweetId !in TweetsBy(db.tweets, caller)
    ensures !r.Ok? ==> unchanged(db)
  {
    if !IsValidObjectId(tweetId) {
      r := Fail(400, "Given TweetId is inValid");
      return;
    }
    if tweetId !in db.tweets {
      r := Fail(400, "Tweet does not exists in the database");
      return;
    }
    if db.tweets[tweetId].owner != caller {
      r := Fail(400, "You don't have permission to Delete the tweet");
      return;
    }
    db.tweets := db.tweets - {tweetId};
    r := Ok(());
  }
}
