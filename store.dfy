/**
 * The document store the handlers read and write, abstracted to maps of
 * documents keyed by id (users, videos, comments, tweets, playlists) and to
 * sets of presence records (likes, subscriptions).
 */
module Store {
  import opened ApiErrors
  import opened Text

  /** A document id, in its 24-hex-digit string form. */
  type Id = string

  predicate IsHexDigit(c: char) {
    '0' <= c <= '9' || 'a' <= c <= 'f' || 'A' <= c <= 'F'
  }

  /** Mongoose's `isValidObjectId` on a string: 24 hexadecimal digits. */
  predicate IsValidObjectId(s: string) {
    |s| == 24 && forall i :: 0 <= i < |s| ==> IsHexDigit(s[i])
  }

  /** A bcrypt hash, represented by the password it was computed from. */
  datatype PasswordHash = HashOf(plain: string)

  /** `bcrypt.compare(attempt, hash)`. */
  predicate PasswordMatches(hash: PasswordHash, attempt: string) {
    hash.plain == attempt
  }

  /**
   * `userSchema`'s setters on username and email (`lowercase`, then `trim`),
   * which Mongoose applies both when it writes those fields and when it casts
   * a query on them.
   */
  function Normalize(s: string): (r: string)
    ensures IsNormalized(r)
  {
    var lower := ToLower(s);
    TrimKeepsLowerCase(lower);
    Trim(lower)
  }

  /** A handle as the setters leave it: lower-case and trimmed. */
  predicate IsNormalized(s: string) {
    IsLowerCase(s) && IsTrimmed(s)
  }

  /** A normalised handle is its own normal form: trimming it or normalising it again changes nothing. */
  lemma NormalizedIsFixedPoint(s: string)
    requires IsNormalized(s)
    ensures Trim(s) == s && Normalize(s) == s
  {
    LowerCaseIsFixedPoint(s);
    TrimmedIsFixedPoint(s);
  }

  /** Normalising twice is normalising once. */
  lemma NormalizeIdempotent(s: string)
    ensures Trim(Normalize(s)) == Normalize(s)
    ensures Normalize(Normalize(s)) == Normalize(s)
  {
    NormalizedIsFixedPoint(Normalize(s));
  }

  datatype User = User(
    username: string,
    email: string,
    fullName: string,
    avatar: string,
    coverImage: string,
    password: PasswordHash,
    refreshToken: Option<string>)

  /** A user as `.select("-password -refreshToken")` returns it. */
  datatype PublicUser = PublicUser(id: Id, username: string, email: string, fullName: string, avatar: string, coverImage: string)

  function Public(id: Id, u: User): (p: PublicUser)
    ensures p.id == id && p.username == u.username && p.email == u.email
    ensures p.fullName == u.fullName && p.avatar == u.avatar && p.coverImage == u.coverImage
  {
    PublicUser(id, u.username, u.email, u.fullName, u.avatar, u.coverImage)
  }

  /** The `username`, `avatar` and `fullName` a listing projects from a user, with its id. */
  datatype UserCard = UserCard(id: Id, username: string, avatar: string, fullName: string)

  function Card(id: Id, u: User): UserCard
  {
    UserCard(id, u.username, u.avatar, u.fullName)
  }

  /** The user a `$lookup` finds: none when the id names no user. */
  function LookUp(users: map<Id, User>, id: Id): (c: Option<UserCard>)
    ensures c.Some? <==> id in users
    ensures c.Some? ==> c.value.id == id && c.value.username == users[id].username
  {
    if id in users then Some(Card(id, users[id])) else None
  }

  /** A file kept by the media host: its `public_id` (absent when the upload gave none) and its url. */
  datatype Asset = Asset(publicId: Option<string>, url: string)

  datatype Video = Video(
    owner: Id,
    videoFile: Asset,
    thumbnail: Asset,
    title: string,
    description: string,
    duration: Option<real>,
    views: nat,
    isPublished: bool)

  datatype Comment = Comment(content: string, video: Id, owner: Id)

  datatype Tweet = Tweet(content: string, owner: Id)

  datatype Playlist = Playlist(name: string, description: string, owner: Id, videos: seq<Id>)

  /** Which of `video`, `comment`, `tweet` a Like document sets: exactly one. */
  datatype LikeTarget = OnVideo(video: Id) | OnComment(comment: Id) | OnTweet(tweet: Id)

  datatype Like = Like(likeBy: Id, target: LikeTarget)

  datatype Subscription = Subscription(subscriber: Id, channel: Id)

  /** Every collection of the store at one moment. */
  datatype Tables = Tables(
    users: map<Id, User>,
    videos: map<Id, Video>,
    comments: map<Id, Comment>,
    tweets: map<Id, Tweet>,
    playlists: map<Id, Playlist>,
    likes: set<Like>,
    subscriptions: set<Subscription>)

  /** The unique indexes on `username` and `email`. */
  ghost predicate UniqueHandles(users: map<Id, User>) {
    forall a, b :: a in users && b in users && a != b ==>
      users[a].username != users[b].username && users[a].email != users[b].email
  }

  predicate NoDuplicates(s: seq<Id>) {
    forall i, j :: 0 <= i < j < |s| ==> s[i] != s[j]
  }

  /** Adding a user whose handles no existing user has keeps the handles unique. */
  lemma AddUserKeepsHandlesUnique(users: map<Id, User>, id: Id, u: User)
    requires UniqueHandles(users) && id !in users
    requires forall k :: k in users ==> users[k].username != u.username && users[k].email != u.email
    ensures UniqueHandles(users[id := u])
  {
  }

  /** Replacing a user by one whose handles no OTHER user has keeps the handles unique. */
  lemma ReplaceUserKeepsHandlesUnique(users: map<Id, User>, id: Id, u: User)
    requires UniqueHandles(users) && id in users
    requires forall k :: k in users && k != id ==> users[k].username != u.username && users[k].email != u.email
    ensures UniqueHandles(users[id := u])
  {
  }

  /** Every stored username and email went through the setters. */
  ghost predicate HandlesNormalized(users: map<Id, User>) {
    forall id :: id in users ==> IsNormalized(users[id].username) && IsNormalized(users[id].email)
  }

  ghost predicate Consistent(t: Tables) {
    && UniqueHandles(t.users)
    && HandlesNormalized(t.users)
    && forall p :: p in t.playlists ==> NoDuplicates(t.playlists[p].videos)
  }

  /** Replacing the users by a table whose handles are unique and normalised keeps the store consistent. */
  lemma UsersWriteKeepsConsistent(t: Tables, users: map<Id, User>)
    requires Consistent(t) && UniqueHandles(users) && HandlesNormalized(users)
    ensures Consistent(t.(users := users))
  {
  }

  class Db {
    var users: map<Id, User>
    var videos: map<Id, Video>
    var comments: map<Id, Comment>
    var tweets: map<Id, Tweet>
    var playlists: map<Id, Playlist>
    var likes: set<Like>
    var subscriptions: set<Subscription>

    function Contents(): Tables
      reads this
    {
      Tables(users, videos, comments, tweets, playlists, likes, subscriptions)
    }

    ghost predicate Valid()
      reads this
    {
      Consistent(Contents())
    }

    constructor ()
      ensures Valid()
      ensures Contents() == Tables(map[], map[], map[], map[], map[], {}, {})
    {
      users, videos, comments, tweets, playlists := map[], map[], map[], map[], map[];
      likes, subscriptions := {}, {};
    }
  }
}
