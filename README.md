# shareTube backend core, modelled in Dafny

shareTube is an Express/Mongoose video-sharing backend. Each route handler runs a
chain of guard checks and then does one read or write against MongoDB. This project
replaces the database with an in-memory store and models each handler as a
sequential step on that store.

The store is the class `Store.Db`. It holds maps of users, videos, comments, tweets
and playlists, keyed by object id, and sets of like and subscription records.
Handlers that write are module-level methods that take the store and the caller id.
Their `ensures` clauses give the outcome of each guard and the whole new store. When
a handler fails, the store is unchanged. Handlers that only read are functions.

Outcomes are `ApiErrors.Result`:
- `Ok(value)`;
- `Err(ApiError(...))`, the error the code throws;
- `Unhandled(name)`, an exception that is not an `ApiError`. In the source these are
  a Mongoose cast error, a `TypeError`, a validation error, or an `ApiResponse`
  thrown where an error was meant.

The files:
- `api_error.dfy`: the `ApiError` value, its defaults, and `Result`.
- `text.dfy`: JavaScript `trim`, `toLowerCase` and `replace`, and the
  "missing or blank" field tests the handlers use.
- `store.dfy`: the entities, the object-id syntax, the schema setters for handles,
  and the store class.
- `toggle.dfy`: the present-means-delete, absent-means-create flip behind likes and
  subscriptions.
- `auth.dfy`: the access-token middleware.
- `users.dfy`: registration, login, logout, refresh rotation, password change,
  account details, channel profile.
- `videos.dfy`, `playlists.dfy`, `likes.dfy`, `subscriptions.dfy`, `comments.dfy`,
  `tweets.dfy`, `dashboard.dfy`: one module per controller.

Outside code becomes parameters:
- The JWT signer: the signed tokens are passed in.
- The JWT verifier: `verify: string -> Verification`.
- bcrypt: the hash is the value `HashOf(plain)`.
- The media host: each upload is an `Option<Upload>` outcome, and the deletions a
  handler asks for are returned as a list of `Removal`s.
- The id generator: each fresh id is a parameter that must be absent from the store.

Where the written description of the system and the code disagree, the model
follows the code:
- An ownership mismatch is a 400, not a 403.
- Nothing rejects subscribing to oneself.
- The dashboard's like totals count likes the owner *gave* (`likeBy`), not likes the
  owner's content received.
- The ids in `updateVideo` are refused with status 200.

## Model

| member | source | states |
|---|---|---|
| ApiErrors.NewApiError | src/utils/ApiError.js:2-9 | the status code is kept as given, `success` is false, `data` is null, the message defaults to "Something went wrong" and the errors to the empty list |
| Text.MissingTextIffAbsentOrWhitespace | src/controllers/video.controller.js:13 | the guard `!x \|\| x.trim()===""` fires exactly when the field is absent or all whitespace; the `x?.trim()===""` form fires only for a present, all-whitespace field |
| Text.Trim | src/controllers/user.controller.js:51 | the result neither starts nor ends with a character `trim` removes (tab, vertical tab, form feed, byte order mark, every Unicode space separator, and the four line terminators) |
| Text.TrimEmptyIffAllWhitespace | src/controllers/user.controller.js:51 | trimming gives the empty string exactly when every character is one that `trim` removes |
| Text.TrimmedIsFixedPoint | src/models/user.model.js:11 | a string already trimmed is left as it is, so trimming twice is trimming once |
| Text.LowerCaseIsFixedPoint | src/models/user.model.js:10 | a string without upper-case letters is left as it is by lower-casing |
| Text.ToLower | src/controllers/user.controller.js:409 | the result is lower-case and the same length, and only the letters A-Z change |
| Text.TrimKeepsLowerCase | src/models/user.model.js:10-11 | the lowercase-then-trim setter yields a lower-case handle |
| Store.IsValidObjectId | src/controllers/comment.controller.js:12 | an id passes `isValidObjectId` when it is 24 hexadecimal digits |
| Store.Normalize | src/models/user.model.js:10-11 | the setters' result is lower-case and trimmed |
| Store.NormalizedIsFixedPoint | src/models/user.model.js:5-20 | a normalised handle is its own trim and its own normal form |
| Store.NormalizeIdempotent | src/models/user.model.js:5-20 | normalising twice is normalising once, and the result is already trimmed |
| Store.UsersWriteKeepsConsistent | src/models/user.model.js:5-20 | users whose handles are unique and normalised keep the store's invariant: every stored username and email lower-case, trimmed and unique |
| Store.AddUserKeepsHandlesUnique | src/models/user.model.js:9-20 | adding a user whose username and email clash with nobody keeps both handles unique |
| Store.ReplaceUserKeepsHandlesUnique | src/models/user.model.js:9-20 | rewriting a user whose handles clash with no other user keeps both handles unique |
| Toggle.Toggled | src/controllers/subscription.controller.js:38-73 | a present record is removed and an absent one added; no other record changes, and the size moves by one |
| Toggle.ToggleTwiceRestores | src/controllers/like.controller.js:25-53 | two consecutive toggles of one record restore the original records |
| Toggle.ToggledTimesAlternates | src/controllers/subscription.controller.js:38-73 | after n toggles the record is present exactly when its presence before matches the parity of n, and every other record is as before |
| Auth.ExtractToken | src/middlewares/auth.middleware.js:9 | a non-empty cookie is the token; with neither cookie nor header there is none; a header without "Bearer " is taken as it is |
| Auth.CookieTakesPrecedence | src/middlewares/auth.middleware.js:9 | a non-empty access-token cookie is used whatever the Authorization header says |
| Auth.BearerHeaderStripped | src/middlewares/auth.middleware.js:9 | without a cookie, the header `Bearer t` yields the token `t` |
| Auth.Authenticate | src/middlewares/auth.middleware.js:8-33 | a missing token is a 401, and every failure is a 401; it succeeds exactly when the token verifies to a stored user, and `req.user` is then that user without password or refresh token |
| Users.WithRefreshToken | src/controllers/user.controller.js:16-20 | only the named user's refresh token changes; every other user and field is as before |
| Users.WithRefreshTokenKeepsHandles | src/controllers/user.controller.js:16-20 | storing a refresh token keeps usernames and emails unique |
| Users.IssueTokens | src/controllers/user.controller.js:9-28 | an unknown user is a 500 and changes nothing; otherwise the new refresh token replaces any earlier one and the pair is returned |
| Users.NewUser | src/controllers/user.controller.js:96-103 | a created user has lower-case, trimmed handles, a stored password hash that accepts the given password, and no refresh token |
| Users.HandleTaken | src/controllers/user.controller.js:58-61 | the `$or` lookup finds a user whose username or email equals the normalised form value; an absent field matches nobody |
| Users.SecondRegistrationConflicts | src/controllers/user.controller.js:58-64 | after a registration, the same form finds its handles taken, so registering it again is a 409 |
| Users.Register | src/controllers/user.controller.js:30-121 | a blank field is a 400; a taken username or email is a 409 and creates nothing; a missing avatar or failed upload is a 400; on success exactly the new user is added |
| Users.FreeHandlesStayUnique | src/controllers/user.controller.js:58-64 | a registration that passes the duplicate check keeps usernames and emails unique |
| Users.MatchesLogin | src/controllers/user.controller.js:138-140 | the login `$or` matches a user whose email or username equals the normalised form value; an absent field matches nobody |
| Users.StoredHandleMatchesLogin | src/controllers/user.controller.js:138-140 | a stored user is found by its own username or email, and by any spelling the setters map to them |
| Users.Login | src/controllers/user.controller.js:123-186 | 400 with neither username nor email, 400 when no user matches, 400 without a password, all without writing; once those pass the outcome is success or 401: success when every matching user's password matches, 401 when none does; on success the matched user's refresh token is replaced and the tokens returned |
| Users.Logout | src/controllers/user.controller.js:188-230 | the caller's stored refresh token is removed, and nothing else changes |
| Users.IncomingRefreshToken | src/controllers/user.controller.js:233 | the cookie is used when present, the body otherwise |
| Users.RefreshCheck | src/controllers/user.controller.js:240-254 | accepts exactly a token that verifies to a stored user whose stored refresh token equals it; every rejection is a 401 |
| Users.LogoutRevokesRefresh | src/controllers/user.controller.js:199-209 | after logout the user's last refresh token is refused with 401 |
| Users.RotationRejectsPrevious | src/controllers/user.controller.js:252-262 | after rotation the previous refresh token is refused with 401 and the new one accepted |
| Users.Refresh | src/controllers/user.controller.js:232-278 | no incoming token is a 400; otherwise it succeeds exactly when the check passes, storing the new refresh token; every failure is a 401 and changes nothing |
| Users.RefreshResponseAsWritten | src/controllers/user.controller.js:261-271 | as written the access token is delivered and the new refresh token is `undefined` |
| Users.RefreshResponse | src/controllers/user.controller.js:261-271 | the response delivers both the new access token and the new refresh token |
| Users.RefreshedTokenAcceptedNext | src/controllers/user.controller.js:261-271 | the refresh token a refresh delivers is accepted by the next refresh |
| Users.RefreshAsWrittenLosesToken | src/controllers/user.controller.js:261-271 | as written the refresh cookie and body carry `undefined`, so the client's next refresh is refused with 401 |
| Users.ChangePassword | src/controllers/user.controller.js:280-301 | a missing field is a 400 and a wrong old password a 400; on success only the caller's password changes, and the new one is accepted |
| Users.PasswordChangeTakesEffect | src/controllers/user.controller.js:294-296 | after a change the new password is accepted and the old one refused |
| Users.UpdateAccountDetails | src/controllers/user.controller.js:309-332 | a 400 exactly when a field is missing; a caller no longer stored gets `null`; an email another user holds fails the unique index; otherwise the update succeeds and only full name and email change, normalised by the schema |
| Users.ProfileOf | src/controllers/user.controller.js:436-442 | `isSubscribed` holds exactly when the caller's subscription to the channel is stored |
| Users.GetChannelProfile | src/controllers/user.controller.js:398-469 | a blank username is a 400 and no match a 404; when a stored username equals the lower-cased parameter the result is that user's profile |
| Users.ToggleUpdatesProfile | src/controllers/user.controller.js:413-443 | a subscription toggle, a self-subscription included, flips `isSubscribed`, moves the channel's subscriber count by one and the caller's subscribed-to count by one in the same direction |
| Users.PaddedUsernameNotFound | src/controllers/user.controller.js:401-409 | a username with leading whitespace passes the blank check but is matched untrimmed, so in a consistent store, where every handle is trimmed, it finds nobody: 404 |
| Videos.Publish | src/controllers/video.controller.js:9-68 | blank title, blank description or missing file is a 400, a failed upload a 500; on success the stored video is owned by the caller, carries both uploads (the thumbnail asset empty when none was uploaded), is unviewed, published, and found by `GetVideoById` |
| Videos.GetVideoById | src/controllers/video.controller.js:145-170 | a blank id is a 400, a malformed id a cast error, a missing video a 400; otherwise the stored video |
| Videos.FoundOnceStored | src/controllers/video.controller.js:155-163 | every stored video is found under its id |
| Videos.UpdatedDetails | src/controllers/video.controller.js:123-136 | an update changes title, description and thumbnail only, and an absent title or description keeps the old one |
| Videos.UpdateVideo | src/controllers/video.controller.js:71-143 | a bad or missing id is refused with 200, a non-owner with 400, a blank field with 400, all before any deletion; the old thumbnail is deleted before the upload, whose failure is a 400 |
| Videos.RemovalsFor | src/controllers/video.controller.js:195-201 | deleting a video removes its video file and also its thumbnail exactly when the thumbnail has a non-blank public id |
| Videos.NoThumbnailNothingToRemove | src/controllers/video.controller.js:197-198 | a thumbnail without public id is not sent for deletion |
| Videos.DeleteVideo | src/controllers/video.controller.js:172-212 | a bad id, missing video or non-owner is a 400 and deletes nothing; otherwise exactly that video goes |
| Videos.FlipPublished | src/controllers/video.controller.js:233 | the publish flag is negated and every other field kept |
| Videos.FlipPublishedTwice | src/controllers/video.controller.js:233 | two toggles restore the video |
| Videos.TogglePublishStatus | src/controllers/video.controller.js:214-243 | a bad id, missing video or non-owner is a 400 and changes nothing; otherwise only that video's flag flips |
| Playlists.Append | src/controllers/playlist.controller.js:140-142 | the id is added at the end and the earlier entries keep their order |
| Playlists.AppendKeepsNoDuplicates | src/controllers/playlist.controller.js:131-147 | appending an absent id keeps the list free of duplicates |
| Playlists.Remove | src/controllers/playlist.controller.js:189-199 | the named id is gone and every other entry stays |
| Playlists.RemoveAbsent | src/controllers/playlist.controller.js:185-186 | removing an absent id changes nothing |
| Playlists.RemoveAppended | src/controllers/playlist.controller.js:137-199 | removing the id just appended restores the list |
| Playlists.RemoveKeepsNoDuplicates | src/controllers/playlist.controller.js:189-199 | removal keeps the list free of duplicates |
| Playlists.RemoveMemberShortens | src/controllers/playlist.controller.js:189-199 | removing a member of a duplicate-free list shortens it by exactly one |
| Playlists.CreatePlaylist | src/controllers/playlist.controller.js:9-32 | a blank name or description is a 400; otherwise an empty playlist owned by the caller is stored |
| Playlists.AddVideo | src/controllers/playlist.controller.js:107-158 | bad ids, a missing playlist, a non-owner, a missing video, or a video already listed are each a 400; otherwise the video is appended |
| Playlists.RemoveVideo | src/controllers/playlist.controller.js:160-211 | the same guards, and a video not listed is a 400; otherwise that entry is removed and the list shrinks by one |
| Playlists.RemoveVideoAsWritten | src/controllers/playlist.controller.js:184-199 | as written, a video not in the list is a 400 |
| Playlists.RemoveAsWrittenKeepsVideo | src/controllers/playlist.controller.js:189-199 | as written, removing a listed video fails with a cast error; as intended, the video leaves the list |
| Playlists.DeletePlaylist | src/controllers/playlist.controller.js:213-244 | a bad id, missing playlist or non-owner is a 400 and deletes nothing; otherwise exactly that playlist goes |
| Playlists.UpdatePlaylist | src/controllers/playlist.controller.js:246-291 | a bad id or a blank field is a 400 and a missing playlist a 503; otherwise only name and description change, with no owner check |
| Likes.InvalidTarget | src/controllers/like.controller.js:64-66 | a malformed video or tweet id is a 400; the comment handler throws an `ApiResponse`, which is not an error |
| Likes.ToggleLike | src/controllers/like.controller.js:8-59 | a malformed id is refused before any access; otherwise the caller's like of that target is removed if present and created if absent, naming the caller and one target |
| Likes.ToggleLikeAsWritten | src/controllers/like.controller.js:17-58 | as written, every toggle with a well-formed id is a 500 |
| Likes.ToggleLikeAsWrittenNeverLikes | src/controllers/like.controller.js:18-20 | as written, a like is never recorded; as intended, the first toggle records it and the second removes it |
| Likes.LikedVideos | src/controllers/like.controller.js:173-233 | an unknown caller is a 404; otherwise one row for each video like the caller gave, with the video and its owner's card |
| Likes.LikedVideosAsWritten | src/controllers/like.controller.js:187-223 | as written, every listed row carries no owner |
| Likes.LikedVideosAsWrittenLeaks | src/controllers/like.controller.js:187-223 | as written, another user's like appears in the caller's listing; as intended, it does not |
| Likes.LikedVideosAsWrittenDropsOwner | src/controllers/like.controller.js:196-200 | as written, a stored owner is never joined; as intended, the row carries that owner |
| Subscriptions.SubscriberCount | src/controllers/user.controller.js:430-432 | the `$size` of the subscribers lookup is at most the number of records, and zero exactly when no record names the channel |
| Subscriptions.SubscribedToCount | src/controllers/user.controller.js:433-435 | the `$size` of the subscribed-to lookup is at most the number of records, and zero exactly when no record names the user as subscriber |
| Subscriptions.ToggleMovesSubscriberCount | src/controllers/subscription.controller.js:38-73 | a toggle moves the channel's subscriber count by one, down when subscribed and up otherwise |
| Subscriptions.ToggleMovesSubscribedToCount | src/controllers/subscription.controller.js:38-73 | a toggle moves the subscriber's count of channels by one |
| Subscriptions.ToggleKeepsOtherChannels | src/controllers/subscription.controller.js:38-73 | other channels keep their subscriber counts |
| Subscriptions.ToggleSubscription | src/controllers/subscription.controller.js:9-74 | a malformed id slips past the uncalled id check and fails to cast; a missing channel is a 400; otherwise the caller's subscription to the channel is toggled |
| Subscriptions.LookUpChannel | src/controllers/subscription.controller.js:142-155 | a channel card exists exactly for a stored user and shows its username and avatar |
| Subscriptions.ChannelSubscribers | src/controllers/subscription.controller.js:77-125 | a malformed id is a 400; otherwise exactly the channel's subscription records, each with its subscriber's card |
| Subscriptions.ChannelSubscribersCounted | src/controllers/subscription.controller.js:88-114 | the subscriber listing has as many entries as the profile's subscriber count |
| Subscriptions.SubscribedChannels | src/controllers/subscription.controller.js:128-167 | a malformed id is a 400; otherwise exactly the user's subscription records, each with the channel's card |
| Subscriptions.SubscribedChannelsCounted | src/controllers/subscription.controller.js:135-157 | the listing has as many entries as the profile's subscribed-to count |
| Subscriptions.ToggleSubscriptionAsWritten | src/controllers/subscription.controller.js:30-62 | as written, the toggle succeeds exactly when no stored record names the caller as subscriber of that channel |
| Subscriptions.ToggledSubscriptionsAsWritten | src/controllers/subscription.controller.js:30-62 | as written, repeated successful toggles only append, one document per toggle, and leave earlier documents as they were |
| Subscriptions.AsWrittenNeverSubscribes | src/controllers/subscription.controller.js:57-62 | as written, any number of toggles only add records without a subscriber, so the caller never becomes a subscriber |
| Comments.CommentsOn | src/controllers/comment.controller.js:22-28 | exactly the comments on the given video |
| Comments.NewCommentListed | src/controllers/comment.controller.js:66-70 | a new comment joins its own video's listing and no other |
| Comments.DeletedCommentUnlisted | src/controllers/comment.controller.js:165 | a deleted comment leaves its video's listing and nothing else changes there |
| Comments.VideoComments | src/controllers/comment.controller.js:8-28 | a malformed id or missing video is a 400; otherwise the video's comments |
| Comments.AddComment | src/controllers/comment.controller.js:46-81 | a malformed id, missing video or blank content is a 400; otherwise the caller's comment is stored and listed under the video |
| Comments.UpdateComment | src/controllers/comment.controller.js:84-143 | a malformed id, missing comment or non-owner is a 400, blank content a 403; otherwise only the content changes |
| Comments.DeleteComment | src/controllers/comment.controller.js:145-176 | a malformed id, missing comment or non-owner is a 400 and deletes nothing; otherwise exactly that comment goes |
| Tweets.TweetsBy | src/controllers/tweet.controller.js:46-52 | exactly the tweets the user owns |
| Tweets.NewTweetListed | src/controllers/tweet.controller.js:16-19 | a new tweet joins its owner's listing and no other |
| Tweets.EditedTweetStaysListed | src/controllers/tweet.controller.js:88-98 | an edit keeps the tweet in its owner's listing |
| Tweets.CreateTweet | src/controllers/tweet.controller.js:8-30 | blank content is a 400; otherwise a tweet owned by the caller is stored and listed under the caller |
| Tweets.UserTweets | src/controllers/tweet.controller.js:32-63 | a malformed id or missing user is a 400; otherwise exactly that user's tweets |
| Tweets.UpdateTweet | src/controllers/tweet.controller.js:65-109 | an empty id is a 400 and a malformed one a cast error; a missing tweet, non-owner or blank content is a 400; otherwise only the content changes |
| Tweets.DeleteTweet | src/controllers/tweet.controller.js:111-142 | a malformed id, missing tweet or non-owner is a 400 and deletes nothing; otherwise exactly that tweet goes |
| Dashboard.ChannelVideos | src/controllers/dashboard.controller.js:116-132 | exactly the caller's videos |
| Dashboard.TotalViews | src/controllers/dashboard.controller.js:36-50 | the `$sum` of views is 0 over no videos and at least each video's own views |
| Dashboard.TotalViewsWithout | src/controllers/dashboard.controller.js:36-50 | the view sum does not depend on visiting order: any video can be taken out first |
| Dashboard.TotalViewsWith | src/controllers/dashboard.controller.js:36-50 | adding a video adds its views to the sum |
| Dashboard.KindOf | src/controllers/dashboard.controller.js:62-86 | a like falls in exactly one of the video, comment and tweet totals |
| Dashboard.LikeTotalsPartition | src/controllers/dashboard.controller.js:52-90 | the three per-kind like totals add up to all the likes the caller gave |
| Dashboard.StatsOf | src/controllers/dashboard.controller.js:14-99 | the subscriber total is the channel's subscriber count, the video total the number of the caller's videos, the view total their summed views, each like total counts exactly the likes the caller gave to things of its own kind, and the three totals partition the likes given |
| Dashboard.ChannelStatsResponse | src/controllers/dashboard.controller.js:92-105 | the totals are always sent, zeros included |
| Dashboard.ChannelStatsAsWritten | src/controllers/dashboard.controller.js:92-113 | as written, totals are sent only when there is at least one subscriber, one video and one like given, and never the video total; otherwise a 500 with empty data |
| Dashboard.StatsAsWrittenFailsWithoutSubscribers | src/controllers/dashboard.controller.js:93 | as written, a channel without subscribers gets a 500; as intended, a zero total |
| Dashboard.StatsAsWrittenDropsVideoCount | src/controllers/dashboard.controller.js:94 | as written, a successful response lacks the video total; as intended, it carries it |
| Dashboard.NewVideoListed | src/controllers/dashboard.controller.js:25-34 | a new video joins its owner's listing and no other channel's |
| Dashboard.PublishMovesTotals | src/controllers/dashboard.controller.js:25-50 | publishing adds one video and its views to its owner's totals and leaves other channels alone |
| Dashboard.DeleteMovesTotals | src/controllers/dashboard.controller.js:25-50 | deleting takes one video and its views off its owner's totals |
| Dashboard.ToggleInsideKind | src/controllers/dashboard.controller.js:52-90 | toggling one of the liker's likes of a kind toggles it in that kind's set of likes given |
| Dashboard.ToggleOutsideKind | src/controllers/dashboard.controller.js:52-90 | toggling a like of another liker or kind leaves that set of likes given as it was |
| Dashboard.LikeToggleMovesOneTotal | src/controllers/dashboard.controller.js:52-90 | a like toggle moves exactly the liker's total for that kind by one; every other total is unchanged |
| Dashboard.SubscriptionToggleMovesTotal | src/controllers/dashboard.controller.js:14-23 | a subscription toggle moves the channel's subscriber total by one |

## Left out

- Pagination: `aggregatePaginate` in `getVideoComments` and `getAllVideos` is not modelled. `Comments.VideoComments` gives the full filtered set, not one page.
- `getAllVideos`, `getWatchHistory`, `getUserPlaylists`, `getPlaylistById`, `getCurrentUser`, `updateUserAvatar`, `updateUserCoverImage` and the health check are not part of this model. They are aggregation queries, upload plumbing or process clocks.
- The media host (src/utils/cloudinary.js) is not part of this model. An upload is an outcome parameter and a deletion a returned `Removal`. The crash of an upload given an undefined path is not modelled.
- Multer file extraction is left out, including the `TypeError` when a file field is absent. The paths and upload outcomes are parameters.
- bcrypt, JWT signing and JWT verification are uninterpreted. The hash is `HashOf(plain)`, so bcrypt's 72-byte truncation is not modelled. Token expiry is part of `verify`.
- The HTTP envelope (`ApiResponse`, cookies, response status versus envelope status) is mostly left out. `asyncHandler` is not part of this model: an `Unhandled` outcome stands for whatever it does with a non-`ApiError` exception.
- Concurrency and the read-then-write race of the toggles and the duplicate checks are left out. The model is sequential.
- Ids are 24 hex digits. Mongoose also accepts a 12-character string as an object id; that form is left out. Hex case is not folded.
- The Video schema is not part of this model. Its defaults (0 views, published) are taken from how the handlers use them.
- Unicode lower-casing is left out: `toLowerCase` maps every Unicode letter, the model only A-Z. Whitespace follows the full `trim` set of ECMA-262.
- The routers are left out, including the shadowed duplicate `GET /c/:param` route of src/routes/subscription.routes.js.
- Deleting a user, video, comment or tweet cascades nowhere in the source, and none is modelled.
- Users.Login: the source's `$or` query takes the first match in store order. The model proves the outcome for some matching user and does not pin which one.
- Comments.VideoComments: the `$match` result is handed to `aggregatePaginate` as an evaluated array. What that library then does with it is not modelled.

## Findings

| source | as written | input that shows it | evidently intended | confidence | as-written member | corrected member |
|---|---|---|---|---|---|---|
| src/controllers/user.controller.js:261-271 | destructures `newRefreshToken` from an object whose key is `refreshToken`, so the refresh cookie and body carry `undefined` | any successful refresh, followed by a refresh with the cookie it set | send the refresh token just stored | high; not executed | Users.RefreshAsWrittenLosesToken | Users.RefreshedTokenAcceptedNext |
| src/controllers/like.controller.js:18-20 | `Like.findById({video: videoId})` passes a filter where an id belongs; the cast fails and the `catch` turns it into a 500. The comment (70-72) and tweet (127-129) handlers do the same | any like toggle with a well-formed id | look up the caller's like of that target and toggle it | medium; not executed | Likes.ToggleLikeAsWrittenNeverLikes | Likes.ToggleLike |
| src/controllers/subscription.controller.js:40-62 | unsubscribe passes `{subscriber}` to `findByIdAndDelete`, and subscribe writes the key `subscribe`, which a strict schema drops | a caller toggling a subscription to an existing channel, any number of times | create and delete the (caller, channel) record | medium; not executed | Subscriptions.AsWrittenNeverSubscribes | Subscriptions.ToggleSubscription |
| src/controllers/playlist.controller.js:189-199 | `$pop` takes 1 or -1, not an id; the id fails to cast | removing a video that is in the playlist | remove that video from the list | medium; not executed | Playlists.RemoveAsWrittenKeepsVideo | Playlists.RemoveVideo |
| src/controllers/dashboard.controller.js:92-98 | indexes `[0]` of aggregations that return no group when nothing matches | a channel with no subscribers | report zero | high; not executed | Dashboard.StatsAsWrittenFailsWithoutSubscribers | Dashboard.StatsOf |
| src/controllers/dashboard.controller.js:94 | reads `.Video` while `$count` names the field `Videos` | any channel whose stats succeed | report the video count | high; not executed | Dashboard.StatsAsWrittenDropsVideoCount | Dashboard.StatsOf |
| src/controllers/like.controller.js:187-223 | the aggregation has no `$match` on the caller, so every like of every user is listed | two users, one like by the other | list only the caller's video likes | high; not executed | Likes.LikedVideosAsWrittenLeaks | Likes.LikedVideos |
| src/controllers/like.controller.js:196-200 | the owner join reads `videoOwner`, a field videos do not have | a liked video whose owner is stored | show the owner's card | high; not executed | Likes.LikedVideosAsWrittenDropsOwner | Likes.LikedVideos |
