/**
 * src/controllers/video.controller.js: publishing, updating, reading,
 * deleting and (un)publishing a video, each update guarded by the owner
 * check. Uploads to and deletions from the media host are outside the
 * model: an upload is given as its outcome, and the deletions a handler
 * asks for are returned alongside its result.
 */
module Videos {
  import opened ApiErrors
  import opened Text
  import opened Store

  /** What the media host answers to an upload: the stored file's `public_id`, its url and, for a video, its duration. */
  datatype Upload = Upload(publicId: Option<string>, url: string, duration: Option<real>)

  datatype ResourceType = ImageResource | VideoResource

  /** A `deleteFromCloudinary(public_id, resource)` call; its failures are swallowed by the helper. */
  datatype Removal = Removal(publicId: Option<string>, resource: ResourceType)

  /**
   * `publishAvideo`. `videoUpload` and `thumbnailUpload` are the outcomes of
   * the two uploads (none when the helper returns null); `newId` is the id
   * the database assigns. A missing or blank title or description is a 400,
   * no video file a 400, a failed video upload a 500. The stored video
   * belongs to the caller, starts published with no views (the schema
   * defaults), and is what `getVideoById` then finds.
   */
  method Publish(db: Db, caller: Id, newId: Id, title: Option<string>, description: Option<string>,
                 videoLocalPath: Option<string>, videoUpload: Option<Upload>, thumbnailUpload: Option<Upload>)
    returns (r: Result<Video>)
    requires db.Valid() && newId !in db.videos && IsValidObjectId(newId)
    modifies db
    ensures db.Valid()
    ensures MissingText(title) ==> r.IsError(400)
    ensures !MissingText(title) && MissingText(description) ==> r.IsError(400)
    ensures !MissingText(title) && !MissingText(description) && !Truthy(videoLocalPath) ==> r.IsError(400)
    ensures !MissingText(title) && !MissingText(description) && Truthy(videoLocalPath) && videoUpload.None? ==>
      r.IsError(500)
    ensures r.Ok? <==> !MissingText(title) && !MissingText(description) && Truthy(videoLocalPath) && videoUpload.Some?
    ensures r.Ok? ==>
      && r.value.owner == caller
      && r.value.title == title.value && r.value.description == description.value
      && r.value.videoFile == Asset(videoUpload.value.publicId, videoUpload.value.url)
      && r.value.thumbnail == (if thumbnailUpload.Some? then Asset(thumbnailUpload.value.publicId, thumbnailUpload.value.url) else Asset(None, ""))
      && r.value.duration == videoUpload.value.duration
      && r.value.views == 0 && r.value.isPublished
      && db.Contents() == old(db.Contents()).(videos := old(db.videos)[newId := r.value])
      && GetVideoById(db.videos, Some(newId)) == Ok(r.value)
    ensures !r.Ok? ==> unchanged(db)
  {
    if MissingText(title) {
      r := Fail(400, "Title can't be empty");
      return;
    }
    if MissingText(description) {
      r := Fail(400, "description can't be empty");
      return;
    }
    if !Truthy(videoLocalPath) {
      r := Fail(400, "Video file does not exists");
      return;
    }
    if videoUpload.None? {
      r := Fail(500, "Something went wrong while uploading the video file to cloudinry");
      return;
    }
    var thumbnail := match thumbnailUpload
      case Some(t) => Asset(t.publicId, t.url)
      case None => Asset(None, "");
    var v := Video(caller, Asset(videoUpload.value.publicId, videoUpload.value.url), thumbnail,
                   title.value, description.value, videoUpload.value.duration, 0, true);
    db.videos := db.videos[newId := v];
    r := Ok(v);
    FoundOnceStored(db.videos, newId);
  }

  /**
   * `getVideoById`: a missing or blank id is a 400; an id that is not an
   * ObjectId fails to cast; an id naming no video is a 400. There is no
   * owner or `isPublished` check.
   */
  function GetVideoById(videos: map<Id, Video>, videoId: Option<string>): (r: Result<Video>)
    ensures MissingText(videoId) ==> r.IsError(400)
    ensures !MissingText(videoId) && !IsValidObjectId(videoId.value) ==> r.Unhandled?
    ensures r.Ok? <==> !MissingText(videoId) && IsValidObjectId(videoId.value) && videoId.value in videos
    ensures r.Ok? ==> r.value == videos[videoId.value]
    ensures r.Ok? || r.Unhandled? || r.IsError(400)
  {
    if MissingText(videoId) then Fail(400, "No VideoID detected")
    else if !IsValidObjectId(videoId.value) then Unhandled("CastError")
    else if videoId.value !in videos then Fail(400, "Video does not exists")
    else Ok(videos[videoId.value])
  }

  /** A video stored under a well-formed id is found by `getVideoById`. */
  lemma FoundOnceStored(videos: map<Id, Video>, id: Id)
    requires id in videos && IsValidObjectId(id)
    ensures GetVideoById(videos, Some(id)) == Ok(videos[id])
  {
    TrimStartOfHexDigit(id);
  }

  /** A string that starts with a hex digit does not trim to nothing. */
  lemma TrimStartOfHexDigit(id: string)
    requires id != [] && IsHexDigit(id[0])
    ensures Trim(id) != []
  {
    assert !IsJsWhitespace(id[0]);
    assert TrimStart(id) == id;
    TrimEndOfNonBlankHead(id);
  }

  /** The owner check shared by update, delete and toggle-publish; a mismatch is a 400 in every one of them. */
  predicate OwnedBy(v: Video, caller: Id) {
    v.owner == caller
  }

  /** The guards `updateVideo` passes before touching the thumbnail: a well-formed id of a stored video the caller owns. */
  predicate MayEdit(videos: map<Id, Video>, caller: Id, videoId: Id) {
    IsValidObjectId(videoId) && videoId in videos && OwnedBy(videos[videoId], caller)
  }

  /** None of title, description and thumbnail path is present but blank. */
  predicate DetailsGiven(title: Option<string>, description: Option<string>, newThumbnail: Option<string>) {
    !BlankAfterTrim(title) && !BlankAfterTrim(description) && !BlankAfterTrim(newThumbnail)
  }

  /** `Video.findByIdAndUpdate(id, {title, description, thumbnail})`: an `undefined` title or description leaves that field as it was. */
  function UpdatedDetails(v: Video, title: Option<string>, description: Option<string>, thumbnail: Asset): (w: Video)
    ensures w.owner == v.owner && w.videoFile == v.videoFile && w.duration == v.duration
    ensures w.views == v.views && w.isPublished == v.isPublished
    ensures w.title == title.GetOr(v.title) && w.description == description.GetOr(v.description)
    ensures w.thumbnail == thumbnail
  {
    v.(title := title.GetOr(v.title), description := description.GetOr(v.description), thumbnail := thumbnail)
  }

  /**
   * `updateVideo`. A malformed id and a missing video are reported with
   * status 200; a caller who is not the owner gets a 400; a title,
   * description or thumbnail path that is present but blank is a 400. The
   * previous thumbnail is then removed from the media host BEFORE the new
   * one is uploaded, so a failed upload (400) leaves the document pointing
   * at a removed file. On success only title, description and thumbnail
   * change.
   */
  method UpdateVideo(db: Db, caller: Id, videoId: Id, title: Option<string>, description: Option<string>,
                     newThumbnail: Option<string>, thumbnailUpload: Option<Upload>)
    returns (r: Result<Video>, removals: seq<Removal>)
    requires db.Valid()
    modifies db
    ensures db.Valid()
    ensures !IsValidObjectId(videoId) || videoId !in old(db.videos) ==> r.IsError(200) && removals == []
    ensures IsValidObjectId(videoId) && videoId in old(db.videos) && !OwnedBy(old(db.videos)[videoId], caller) ==>
      r.IsError(400) && removals == []
    ensures MayEdit(old(db.videos), caller, videoId) && !DetailsGiven(title, description, newThumbnail) ==> r.IsError(400)
    ensures MayEdit(old(db.videos), caller, videoId) && DetailsGiven(title, description, newThumbnail) && thumbnailUpload.None? ==>
      r.IsError(400)
    ensures r.Ok? <==> MayEdit(old(db.videos), caller, videoId) && DetailsGiven(title, description, newThumbnail) && thumbnailUpload.Some?
    ensures removals != [] <==> MayEdit(old(db.videos), caller, videoId) && DetailsGiven(title, description, newThumbnail)
    ensures removals != [] ==> removals == [Removal(old(db.videos)[videoId].thumbnail.publicId, ImageResource)]
    ensures r.Ok? ==>
      && r.value == UpdatedDetails(old(db.videos)[videoId], title, description,
                                   Asset(thumbnailUpload.value.publicId, thumbnailUpload.value.url))
      && r.value.owner == caller
      && db.Contents() == old(db.Contents()).(videos := old(db.videos)[videoId := r.value])
    ensures !r.Ok? ==> unchanged(db)
  {
    removals := [];
    if !IsValidObjectId(videoId) {
      r := Fail(200, "Given video Id is Invalid");
      return;
    }
    if videoId !in db.videos {
      r := Fail(200, "Video does not exists");
      return;
    }
    var v := db.videos[videoId];
    if !OwnedBy(v, caller) {
      r := Fail(400, "You don't have permission to do this action");
      return;
    }
    if !DetailsGiven(title, description, newThumbnail) {
      r := Fail(400, "title,description and thumbanail fields are required");
      return;
    }
    removals := [Removal(v.thumbnail.publicId, ImageResource)];
    if thumbnailUpload.None? {
      r := Fail(400, "Something went wrong while uploading thumbnail");
      return;
    }
    var w := UpdatedDetails(v, title, description, Asset(thumbnailUpload.value.publicId, thumbnailUpload.value.url));
    db.videos := db.videos[videoId := w];
    r := Ok(w);
  }

  /**
   * The removals `deleteVideo` asks for: the video file always, the
   * thumbnail only when its `public_id` is present and not blank.
   */
  function RemovalsFor(v: Video): (rs: seq<Removal>)
    ensures |rs| >= 1 && rs[0] == Removal(v.videoFile.publicId, VideoResource)
    ensures |rs| == 2 <==> !MissingText(v.thumbnail.publicId)
    ensures |rs| == 2 ==> rs[1] == Removal(v.thumbnail.publicId, ImageResource)
    ensures |rs| <= 2
  {
    [Removal(v.videoFile.publicId, VideoResource)]
      + if MissingText(v.thumbnail.publicId) then [] else [Removal(v.thumbnail.publicId, ImageResource)]
  }

  /** A video uploaded without a thumbnail has no thumbnail to remove when it is deleted. */
  lemma NoThumbnailNothingToRemove(v: Video)
    requires v.thumbnail.publicId.None?
    ensures RemovalsFor(v) == [Removal(v.videoFile.publicId, VideoResource)]
  {
  }

  /**
   * `deleteVideo`: a malformed id, a missing video and a caller who is not
   * the owner are each a 400 and remove nothing; otherwise the stored files
   * are removed and the video document is deleted, nothing else.
   */
  method DeleteVideo(db: Db, caller: Id, videoId: Id) returns (r: Result<()>, removals: seq<Removal>)
    requires db.Valid()
    modifies db
    ensures db.Valid()
    ensures !IsValidObjectId(videoId) ==> r.IsError(400)
    ensures IsValidObjectId(videoId) && videoId !in old(db.videos) ==> r.IsError(400)
    ensures IsValidObjectId(videoId) && videoId in old(db.videos) && !OwnedBy(old(db.videos)[videoId], caller) ==> r.IsError(400)
    ensures r.Ok? <==> IsValidObjectId(videoId) && videoId in old(db.videos) && OwnedBy(old(db.videos)[videoId], caller)
    ensures r.Ok? ==>
      && removals == RemovalsFor(old(db.videos)[videoId])
      && db.Contents() == old(db.Contents()).(videos := old(db.videos) - {videoId})
    ensures !r.Ok? ==> removals == [] && unchanged(db)
  {
    removals := [];
    if !IsValidObjectId(videoId) {
      r := Fail(400, "given Video Id is inValid");
      return;
    }
    if videoId !in db.videos {
      r := Fail(400, "Video does not exist in the database");
      return;
    }
    var v := db.videos[videoId];
    if !OwnedBy(v, caller) {
      r := Fail(400, "You don't have permission to delete the video");
      return;
    }
    removals := RemovalsFor(v);
    db.videos := db.videos - {videoId};
    r := Ok(());
  }

  /** The video with `isPublished` flipped and every other field kept. */
  function FlipPublished(v: Video): (w: Video)
    ensures w.isPublished == !v.isPublished
    ensures w.(isPublished := v.isPublished) == v
  {
    v.(isPublished := !v.isPublished)
  }

  /** Two toggles of the publish status restore the video. */
  lemma FlipPublishedTwice(v: Video)
    ensures FlipPublished(FlipPublished(v)) == v
  {
  }

  /**
   * `togglePublishStatus`: a malformed id, a missing video and a caller who
   * is not the owner are each a 400; otherwise `isPublished` is flipped and
   * nothing else changes.
   */
  method TogglePublishStatus(db: Db, caller: Id, videoId: Id) returns (r: Result<Video>)
    requires db.Valid()
    modifies db
    ensures db.Valid()
    ensures !IsValidObjectId(videoId) ==> r.IsError(400)
    ensures IsValidObjectId(videoId) && videoId !in old(db.videos) ==> r.IsError(400)
    ensures IsValidObjectId(videoId) && videoId in old(db.videos) && !OwnedBy(old(db.videos)[videoId], caller) ==> r.IsError(400)
    ensures r.Ok? <==> IsValidObjectId(videoId) && videoId in old(db.videos) && OwnedBy(old(db.videos)[videoId], caller)
    ensures r.Ok? ==>
      && r.value == FlipPublished(old(db.videos)[videoId])
      && db.Contents() == old(db.Contents()).(videos := old(db.videos)[videoId := r.value])
    ensures !r.Ok? ==> unchanged(db)
  {
    if !IsValidObjectId(videoId) {
      r := Fail(400, "Given video Id is inValid");
      return;
    }
    if videoId !in db.videos {
      r := Fail(400, "Video does not exist");
      return;
    }
    var v := db.videos[videoId];
    if !OwnedBy(v, caller) {
      r := Fail(400, "You don't have permission to do given action");
      return;
    }
    var w := FlipPublished(v);
    db.videos := db.videos[videoId := w];
    r := Ok(w);
  }
}
