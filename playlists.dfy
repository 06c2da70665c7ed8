/**
 * src/controllers/playlist.controller.js: creating, filling, emptying,
 * deleting and renaming a playlist. A playlist's videos are an ordered
 * list of ids that the handlers keep free of duplicates.
 */
module Playlists {
  import opened ApiErrors
  import opened Text
  import opened Store

  // ------------------------------------------------------- the membership list

  /** `$push: {video: videoId}`: the id goes at the end. */
  function Append(l: seq<Id>, v: Id): (r: seq<Id>)
    ensures |r| == |l| + 1 && r[..|l|] == l && r[|l|] == v
  {
    l + [v]
  }

  /** Appending an id that is not yet in the list keeps the list free of duplicates. */
  lemma AppendKeepsNoDuplicates(l: seq<Id>, v: Id)
    requires NoDuplicates(l) && v !in l
    ensures NoDuplicates(Append(l, v))
  {
    var r := Append(l, v);
    forall i, j | 0 <= i < j < |r| ensures r[i] != r[j] {
      if j == |l| {
        assert r[i] == l[i];
      } else {
        assert r[i] == l[i] && r[j] == l[j];
      }
    }
  }

  /** The list without any entry equal to `v`, the rest in their order. */
  function Remove(l: seq<Id>, v: Id): (r: seq<Id>)
    ensures forall x :: x in r <==> x in l && x != v
    ensures |r| <= |l|
  {
    if l == [] then []
    else if l[0] == v then Remove(l[1..], v)
    else [l[0]] + Remove(l[1..], v)
  }

  /** Removing from a list in which `v` does not occur leaves it as it is. */
  lemma {:induction false} RemoveAbsent(l: seq<Id>, v: Id)
    requires v !in l
    ensures Remove(l, v) == l
  {
    if l != [] {
      assert l[0] != v;
      RemoveAbsent(l[1..], v);
      assert l == [l[0]] + l[1..];
    }
  }

  /** Remove undoes Append: adding a new id and then removing it gives back the list. */
  lemma {:induction false} RemoveAppended(l: seq<Id>, v: Id)
    requires v !in l
    ensures Remove(Append(l, v), v) == l
  {
    if l == [] {
      assert Append(l, v) == [v];
    } else {
      var r := Append(l, v);
      assert r[0] == l[0] && r[1..] == Append(l[1..], v);
      RemoveAppended(l[1..], v);
      assert l == [l[0]] + l[1..];
    }
  }

  /** Removing keeps a duplicate-free list duplicate-free. */
  lemma {:induction false} RemoveKeepsNoDuplicates(l: seq<Id>, v: Id)
    requires NoDuplicates(l)
    ensures NoDuplicates(Remove(l, v))
  {
    if l != [] {
      var tail := l[1..];
      assert NoDuplicates(tail) by {
        forall i, j | 0 <= i < j < |tail| ensures tail[i] != tail[j] {
          assert tail[i] == l[i + 1] && tail[j] == l[j + 1];
        }
      }
      RemoveKeepsNoDuplicates(tail, v);
      if l[0] != v {
        assert l[0] !in tail by {
          forall k | 0 <= k < |tail| ensures tail[k] != l[0] {
            assert tail[k] == l[k + 1];
          }
        }
        var rest := Remove(tail, v);
        var r := [l[0]] + rest;
        assert l[0] !in rest;
        forall i, j | 0 <= i < j < |r| ensures r[i] != r[j] {
          if i == 0 {
            assert r[j] == rest[j - 1];
          } else {
            assert r[i] == rest[i - 1] && r[j] == rest[j - 1];
          }
        }
      }
    }
  }

  /** In a duplicate-free list, removing a member shortens the list by exactly one. */
  lemma {:induction false} RemoveMemberShortens(l: seq<Id>, v: Id)
    requires NoDuplicates(l) && v in l
    ensures |Remove(l, v)| == |l| - 1
  {
    var tail := l[1..];
    if l[0] == v {
      assert v !in tail by {
        forall k | 0 <= k < |tail| ensures tail[k] != v {
          assert tail[k] == l[k + 1];
        }
      }
      RemoveAbsent(tail, v);
    } else {
      assert v in tail;
      assert NoDuplicates(tail) by {
        forall i, j | 0 <= i < j < |tail| ensures tail[i] != tail[j] {
          assert tail[i] == l[i + 1] && tail[j] == l[j + 1];
        }
      }
      RemoveMemberShortens(tail, v);
    }
  }

  // --------------------------------------------------------------- handlers

  /** Rewriting one playlist with a duplicate-free list keeps the store consistent. */
  lemma RewriteKeepsConsistent(t: Tables, playlistId: Id, p: Playlist)
    requires Consistent(t) && NoDuplicates(p.videos)
    ensures Consistent(t.(playlists := t.playlists[playlistId := p]))
  {
  }

  /** The owner check shared by add, remove and delete; a mismatch is a 400 in each. */
  predicate OwnedBy(p: Playlist, caller: Id) {
    p.owner == caller
  }

  /**
   * `createPlaylist`: a missing or blank name or description is a 400;
   * otherwise an empty playlist owned by the caller is stored under the id
   * the database assigns.
   */
  method CreatePlaylist(db: Db, caller: Id, newId: Id, name: Option<string>, description: Option<string>)
    returns (r: Result<Playlist>)
    requires db.Valid() && newId !in db.playlists
    modifies db
    ensures db.Valid()
    ensures MissingText(name) || MissingText(description) ==> r.IsError(400)
    ensures r.Ok? <==> !MissingText(name) && !MissingText(description)
    ensures r.Ok? ==>
      && r.value == Playlist(name.value, description.value, caller, [])
      && db.Contents() == old(db.Contents()).(playlists := old(db.playlists)[newId := r.value])
    ensures !r.Ok? ==> unchanged(db)
  {
    if MissingText(name) || MissingText(description) {
      r := Fail(400, "Name and description of the playlist is required");
      return;
    }
    var p := Playlist(name.value, description.value, caller, []);
    db.playlists := db.playlists[newId := p];
    r := Ok(p);
  }

  /** The guards add and remove share, in order: both ids well formed, the playlist stored, owned by the caller, the video stored. */
  predicate MembershipGuardsPass(t: Tables, caller: Id, playlistId: Id, videoId: Id) {
    && IsValidObjectId(playlistId) && IsValidObjectId(videoId)
    && playlistId in t.playlists && OwnedBy(t.playlists[playlistId], caller)
    && videoId in t.videos
  }

  /**
   * `addVideoToPlaylist`: malformed ids, a missing playlist, a caller who
   * is not the owner, a missing video and a video already listed are each a
   * 400; otherwise the video id is appended.
   */
  method AddVideo(db: Db, caller: Id, playlistId: Id, videoId: Id) returns (r: Result<Playlist>)
    requires db.Valid()
    modifies db
    ensures db.Valid()
    ensures !MembershipGuardsPass(old(db.Contents()), caller, playlistId, videoId) ==> r.IsError(400)
    ensures (MembershipGuardsPass(old(db.Contents()), caller, playlistId, videoId)
             && videoId in old(db.playlists)[playlistId].videos) ==> r.IsError(400)
    ensures r.Ok? <==>
      MembershipGuardsPass(old(db.Contents()), caller, playlistId, videoId) && videoId !in old(db.playlists)[playlistId].videos
    ensures r.Ok? ==>
      && var p := old(db.playlists)[playlistId];
      && r.value == p.(videos := Append(p.videos, videoId))
      && db.Contents() == old(db.Contents()).(playlists := old(db.playlists)[playlistId := r.value])
    ensures !r.Ok? ==> unchanged(db)
  {
    if !IsValidObjectId(playlistId) || !IsValidObjectId(videoId) {
      r := Fail(400, "Invalid playlist or video Id");
      return;
    }
    if playlistId !in db.playlists {
      r := Fail(400, "Playlist does not exists");
      return;
    }
    var p := db.playlists[playlistId];
    if !OwnedBy(p, caller) {
      r := Fail(400, "You have permission to add video to the playlist");
      return;
    }
    if videoId !in db.videos {
      r := Fail(400, "Video does not exists");
      return;
    }
    if videoId in p.videos {
      r := Fail(400, "Video already exist in the playlist");
      return;
    }
    AppendKeepsNoDuplicates(p.videos, videoId);
    var q := p.(videos := Append(p.videos, videoId));
    db.playlists := db.playlists[playlistId := q];
    r := Ok(q);
  }

  /**
   * `removeVideoFromPlaylist`, removing the named video (see
   * `RemoveVideoAsWritten` for what the `$pop` update does): the same
   * guards as add, then a video that is not listed is a 400; otherwise that
   * video's entry is removed and the others keep their order.
   */
  method RemoveVideo(db: Db, caller: Id, playlistId: Id, videoId: Id) returns (r: Result<Playlist>)
    requires db.Valid()
    modifies db
    ensures db.Valid()
    ensures !MembershipGuardsPass(old(db.Contents()), caller, playlistId, videoId) ==> r.IsError(400)
    ensures (MembershipGuardsPass(old(db.Contents()), caller, playlistId, videoId)
             && videoId !in old(db.playlists)[playlistId].videos) ==> r.IsError(400)
    ensures r.Ok? <==>
      MembershipGuardsPass(old(db.Contents()), caller, playlistId, videoId) && videoId in old(db.playlists)[playlistId].videos
    ensures r.Ok? ==>
      && var p := old(db.playlists)[playlistId];
      && r.value == p.(videos := Remove(p.videos, videoId))
      && |r.value.videos| == |p.videos| - 1
      && db.Contents() == old(db.Contents()).(playlists := old(db.playlists)[playlistId := r.value])
    ensures !r.Ok? ==> unchanged(db)
  {
    if !IsValidObjectId(playlistId) || !IsValidObjectId(videoId) {
      r := Fail(400, "Invalid playlist or video Id");
      return;
    }
    if playlistId !in db.playlists {
      r := Fail(400, "Playlist does not exists");
      return;
    }
    var p := db.playlists[playlistId];
    if !OwnedBy(p, caller) {
      r := Fail(400, "Ypu dont have permission to remove the video from playlist");
      return;
    }
    if videoId !in db.videos {
      r := Fail(400, "Video does not exists");
      return;
    }
    if videoId !in p.videos {
      r := Fail(400, "Video is not present in the Playlist");
      return;
    }
    RemoveKeepsNoDuplicates(p.videos, videoId);
    RemoveMemberShortens(p.videos, videoId);
    var q := p.(videos := Remove(p.videos, videoId));
    db.playlists := db.playlists[playlistId := q];
    r := Ok(q);
  }

  /**
   * The update `removeVideoFromPlaylist` sends, `{$pop: {video: videoId}}`,
   * on a playlist that lists the video. Mongoose casts a `$pop` operand to a
   * number, and a 24-hex-digit id is not one, so the update fails to cast
   * and the list is left as it was; the server would in any case accept
   * only 1 or -1, which remove the last or the first entry rather than a
   * named one.
   */
  function RemoveVideoAsWritten(l: seq<Id>, videoId: Id): (r: Result<seq<Id>>)
    ensures videoId !in l ==> r.IsError(400)
  {
    if videoId !in l then Fail(400, "Video is not present in the Playlist")
    else Unhandled("CastError")
  }

  /**
   * As written, a listed video can never be removed: the request fails and
   * the list keeps it; the corrected removal drops exactly that video.
   */
  lemma RemoveAsWrittenKeepsVideo(l: seq<Id>, videoId: Id)
    requires videoId in l
    ensures RemoveVideoAsWritten(l, videoId).Unhandled?
    ensures videoId !in Remove(l, videoId)
  {
  }

  /**
   * `deletePlaylist`: a malformed id, a missing playlist and a caller who is
   * not the owner are each a 400 and delete nothing; otherwise exactly that
   * playlist is deleted.
   */
  method DeletePlaylist(db: Db, caller: Id, playlistId: Id) returns (r: Result<()>)
    requires db.Valid()
    modifies db
    ensures db.Valid()
    ensures !IsValidObjectId(playlistId) || playlistId !in old(db.playlists) ==> r.IsError(400)
    ensures IsValidObjectId(playlistId) && playlistId in old(db.playlists) && !OwnedBy(old(db.playlists)[playlistId], caller) ==>
      r.IsError(400)
    ensures r.Ok? <==>
      IsValidObjectId(playlistId) && playlistId in old(db.playlists) && OwnedBy(old(db.playlists)[playlistId], caller)
    ensures r.Ok? ==> db.Contents() == old(db.Contents()).(playlists := old(db.playlists) - {playlistId})
    ensures !r.Ok? ==> unchanged(db)
  {
    if !IsValidObjectId(playlistId) {
      r := Fail(400, "Invalid playlist Id");
      return;
    }
    if playlistId !in db.playlists {
      r := Fail(400, "Playlist does not exists");
      return;
    }
    if !OwnedBy(db.playlists[playlistId], caller) {
      r := Fail(400, "You dont have permission to delete the playlist");
      return;
    }
    db.playlists := db.playlists - {playlistId};
    r := Ok(());
  }

  /**
   * `updatePlaylist`: a malformed id is a 400, a missing or blank name or
   * description a 400. There is NO owner check: any caller may rename any
   * playlist. A missing playlist raises a 400 inside the `try`, which the
   * `catch` turns into a 503. Only the name and the description change.
   */
  method UpdatePlaylist(db: Db, caller: Id, playlistId: Id, name: Option<string>, description: Option<string>)
    returns (r: Result<Playlist>)
    requires db.Valid()
    modifies db
    ensures db.Valid()
    ensures !IsValidObjectId(playlistId) ==> r.IsError(400)
    ensures IsValidObjectId(playlistId) && (MissingText(name) || MissingText(description)) ==> r.IsError(400)
    ensures IsValidObjectId(playlistId) && !MissingText(name) && !MissingText(description) && playlistId !in old(db.playlists) ==>
      r.IsError(503)
    ensures r.Ok? <==>
      IsValidObjectId(playlistId) && !MissingText(name) && !MissingText(description) && playlistId in old(db.playlists)
    ensures r.Ok? ==>
      && r.value == old(db.playlists)[playlistId].(name := name.value, description := description.value)
      && db.Contents() == old(db.Contents()).(playlists := old(db.playlists)[playlistId := r.value])
    ensures !r.Ok? ==> unchanged(db)
  {
    if !IsValidObjectId(playlistId) {
      r := Fail(400, "Invalid playlist Id");
      return;
    }
    if MissingText(name) || MissingText(description) {
      r := Fail(400, "Name and descripiton cant be empty");
      return;
    }
    if playlistId !in db.playlists {
      r := Fail(503, "Something went wrong while updating the playlist");
      return;
    }
    var q := db.playlists[playlistId].(name := name.value, description := description.value);
    RewriteKeepsConsistent(db.Contents(), playlistId, q);
    db.playlists := db.playlists[playlistId := q];
    r := Ok(q);
  }
}
