/** The pure parts of the server's handlers: request bodies, the records the
    handlers build from them, the like toggle, the lookups by id, the read
    views of GET /posts and GET /polls, and the saved-posts list update. */
module Store {
  import opened Text
  import opened Seqs
  import opened Records
  import opened Tally

  datatype ProfileRequest = ProfileRequest(
    displayName: string, profilePhoto: string, bio: string,
    txHash: string, blockNumber: int, profileFeesPaid: string)

  datatype PostRequest = PostRequest(
    id: string, content: string, photo: string, author: string,
    timestamp: int, txHash: Option<string>, blockNumber: Option<int>)

  datatype CommentRequest = CommentRequest(id: string, author: string, text: string, timestamp: int)

  /** `options` is [] when the field is missing. */
  datatype PollRequest = PollRequest(
    id: string, question: string, options: seq<string>, duration: int,
    endTime: int, author: string, timestamp: int, txHash: Option<string>)

  datatype LikeReply = LikeReply(likes: int, userHasLiked: bool)

  /** A post as GET /posts returns it and the client keeps it: the stored
      post spread with its reaction, its comments and its author's profile.
      `likedBy` and `commentsList` are None where a client-side record lacks
      them; `userHasLiked` is false until the client computes it. */
  datatype FeedPost = FeedPost(
    post: Post, likes: int, likedBy: Option<seq<string>>, comments: int,
    commentsList: Option<seq<Comment>>, authorProfile: Option<Profile>, userHasLiked: bool)

  /** A poll as GET /polls returns it. */
  datatype PollView = PollView(poll: Poll, authorProfile: Option<Profile>)

  const DayMillis := 24 * 60 * 60 * 1000

  function ProfileAt(profiles: map<string, Profile>, key: string): (r: Option<Profile>)
    ensures r.Some? <==> key in profiles
    ensures r.Some? ==> r.value == profiles[key]
  {
    if key in profiles then Some(profiles[key]) else None
  }

  /** The profile POST /profiles/:address stores once `displayName` is given. */
  function BuildProfile(previous: Option<Profile>, address: string, req: ProfileRequest, now: int): (p: Profile)
    ensures p.address == Lower(address) && p.displayName == req.displayName
    ensures p.joinedDate == if previous.Some? && previous.value.joinedDate != 0 then previous.value.joinedDate else now
    ensures p.updatedDate == Some(now)
    ensures p.profilePhoto == (if req.profilePhoto == "" then None else Some(req.profilePhoto))
    ensures p.bio == req.bio
    ensures p.txHash == (if req.txHash == "" then None else Some(req.txHash))
    ensures p.blockNumber == (if req.blockNumber == 0 then None else Some(req.blockNumber))
    ensures p.profileFeesPaid == (if req.profileFeesPaid == "" then None else Some(req.profileFeesPaid))
  {
    Profile(
      Lower(address), req.displayName, OrNull(req.profilePhoto), req.bio,
      if previous.Some? then OrDefault(previous.value.joinedDate, now) else now,
      Some(now), OrNull(req.txHash), OrNullNumber(req.blockNumber), OrNull(req.profileFeesPaid))
  }

  /** A second upsert keeps the joining date of the first, whatever the
      fields and the clock, once the clock reads a real (non-zero) time. */
  lemma UpsertKeepsJoinedDate(previous: Option<Profile>, address: string, r1: ProfileRequest, t1: int, r2: ProfileRequest, t2: int)
    requires t1 != 0
    ensures var first := BuildProfile(previous, address, r1, t1);
            BuildProfile(Some(first), address, r2, t2).joinedDate == first.joinedDate
  {
  }

  /** The 400 guard of POST /posts. */
  function MissingPostFields(req: PostRequest): (missing: bool)
    ensures !missing <==> req.content != "" && req.author != "" && req.id != ""
  {
    req.content == "" || req.author == "" || req.id == ""
  }

  /** The post POST /posts stores. */
  function NewPost(req: PostRequest, now: int): (p: Post)
    ensures p.id == req.id && p.author == req.author && p.content == req.content
    ensures p.timestamp == if req.timestamp != 0 then req.timestamp else Seconds(now)
    ensures !p.isEdited && p.updatedAt.None?
    ensures p.photo == OrNull(req.photo) && p.txHash == req.txHash && p.blockNumber == req.blockNumber
  {
    Post(req.id, req.content, OrNull(req.photo), req.author, OrDefault(req.timestamp, Seconds(now)),
         req.txHash, req.blockNumber, None, false)
  }

  /** The comment POST /posts/:postId/comments appends. */
  function NewComment(postId: string, req: CommentRequest, now: int): (c: Comment)
    ensures c.postId == postId && c.author == req.author && c.text == req.text
    ensures req.id != "" ==> c.id == req.id
    ensures req.id == "" ==> c.id == postId + "_" + req.author + "_" + IntToString(now)
    ensures c.timestamp == if req.timestamp != 0 then req.timestamp else Seconds(now)
  {
    Comment(if req.id != "" then req.id else postId + "_" + req.author + "_" + IntToString(now),
            postId, req.author, req.text, OrDefault(req.timestamp, Seconds(now)))
  }

  /** The post PATCH /api/posts/:id stores: new trimmed content, edit time and flag. */
  function EditPost(p: Post, content: string, now: int): (e: Post)
    ensures e.content == Trim(content) && e.isEdited && e.updatedAt == Some(Seconds(now))
    ensures e.id == p.id && e.author == p.author && e.photo == p.photo && e.timestamp == p.timestamp
    ensures e.txHash == p.txHash && e.blockNumber == p.blockNumber
  {
    p.(content := Trim(content), updatedAt := Some(Seconds(now)), isEdited := true)
  }

  /** The 400 guard of POST /polls. */
  function MissingPollFields(req: PollRequest): (missing: bool)
    ensures !missing <==> req.question != "" && req.author != "" && req.id != "" && |req.options| >= 2
  {
    req.question == "" || req.author == "" || req.id == "" || |req.options| < 2
  }

  /** The poll POST /polls stores: option i numbered i, with no votes yet. */
  function NewPoll(req: PollRequest, now: int): (p: Poll)
    ensures p.id == req.id && p.author == req.author && p.question == req.question
    ensures |p.options| == |req.options|
    ensures forall i :: 0 <= i < |p.options| ==> p.options[i] == PollOption(i, req.options[i], 0, 0, [])
    ensures p.duration == if req.duration != 0 then req.duration else 24
    ensures p.endTime == if req.endTime != 0 then req.endTime else now + DayMillis
    ensures p.totalVotes == 0 && p.isActive
    ensures p.timestamp == (if req.timestamp != 0 then req.timestamp else Seconds(now)) && p.txHash == req.txHash
  {
    Poll(req.id, req.question,
         seq(|req.options|, i requires 0 <= i < |req.options| => PollOption(i, req.options[i], 0, 0, [])),
         OrDefault(req.duration, 24), OrDefault(req.endTime, now + DayMillis), req.author,
         0, true, OrDefault(req.timestamp, Seconds(now)), req.txHash)
  }

  lemma {:induction false} SumVotesAllZero(opts: seq<PollOption>)
    requires forall i :: 0 <= i < |opts| ==> opts[i].votes == 0
    ensures SumVotes(opts) == 0
  {
    if opts != [] {
      SumVotesAllZero(opts[1..]);
    }
  }

  /** A poll the server accepts starts well-formed. */
  lemma NewPollOk(req: PollRequest, now: int)
    requires !MissingPollFields(req)
    ensures PollOk(NewPoll(req, now))
  {
    SumVotesAllZero(NewPoll(req, now).options);
  }

  /** The reaction invariant: `likes` counts a duplicate-free `likedBy`. */
  predicate ReactionOk(r: Reaction) {
    r.likes == |r.likedBy| && NoDup(r.likedBy)
  }

  /** The reaction of a post, `{ likes: 0, likedBy: [] }` when it has none. */
  function ReactionOf(reactions: map<string, Reaction>, id: string): (r: Reaction)
    ensures id !in reactions ==> r == Reaction(0, [])
    ensures id in reactions ==> r == reactions[id]
  {
    if id in reactions then reactions[id] else Reaction(0, [])
  }

  /** The comments of a post, [] when it has none. */
  function ThreadOf(comments: map<string, seq<Comment>>, id: string): (t: seq<Comment>)
    ensures id !in comments ==> t == []
    ensures id in comments ==> t == comments[id]
  {
    if id in comments then comments[id] else []
  }

  /** The like toggle of POST /posts/:postId/like for an already lowercased user. */
  function ToggleReaction(r: Reaction, user: string): (t: Reaction)
    ensures (user in t.likedBy) == (user !in r.likedBy)
    ensures forall w :: w != user ==> (w in t.likedBy <==> w in r.likedBy)
    ensures user in r.likedBy ==> t.likes == Max(0, r.likes - 1) && t.likedBy == Without(r.likedBy, user)
    ensures user !in r.likedBy ==> t.likes == r.likes + 1 && t.likedBy == r.likedBy + [user]
  {
    if user in r.likedBy then Reaction(Max(0, r.likes - 1), Without(r.likedBy, user))
    else Reaction(r.likes + 1, r.likedBy + [user])
  }

  /** The toggle keeps the reaction invariant. */
  lemma ToggleKeepsReactionOk(r: Reaction, user: string)
    requires ReactionOk(r)
    ensures ReactionOk(ToggleReaction(r, user))
  {
    if user in r.likedBy {
      WithoutLength(r.likedBy, user);
      WithoutNoDup(r.likedBy, user);
    } else {
      AppendNoDup(r.likedBy, user);
    }
  }

  /** Like then unlike gives back the very same record. */
  lemma ToggleTwiceFromUnliked(r: Reaction, user: string)
    requires user !in r.likedBy && r.likes >= 0
    ensures ToggleReaction(ToggleReaction(r, user), user) == r
  {
    WithoutAppended(r.likedBy, user);
  }

  /** Unlike then like gives back the same count and the same likers, the
      user now last in the list. */
  lemma ToggleTwiceFromLiked(r: Reaction, user: string)
    requires ReactionOk(r) && user in r.likedBy
    ensures var t := ToggleReaction(ToggleReaction(r, user), user);
            t.likes == r.likes && multiset(t.likedBy) == multiset(r.likedBy)
            && t.likedBy == Without(r.likedBy, user) + [user]
  {
    WithoutLength(r.likedBy, user);
    WithoutNoDup(r.likedBy, user);
    NoDupOnce(r.likedBy, user);
  }

  /** The ids of a list of records, in order. */
  function Ids<T>(records: seq<T>, id: T -> string): (ids: seq<string>)
    ensures |ids| == |records| && forall i :: 0 <= i < |records| ==> ids[i] == id(records[i])
  {
    seq(|records|, i requires 0 <= i < |records| => id(records[i]))
  }

  /** `posts.findIndex(p => p.id === id)` */
  function PostIndex(posts: seq<Post>, id: string): (k: int)
    ensures -1 <= k < |posts|
    ensures k == -1 <==> forall i :: 0 <= i < |posts| ==> posts[i].id != id
    ensures 0 <= k ==> posts[k].id == id && forall i :: 0 <= i < k ==> posts[i].id != id
  {
    var ids := Ids(posts, (p: Post) => p.id);
    var k := IndexOf(ids, id);
    assert k == -1 ==> forall i :: 0 <= i < |posts| ==> ids[i] != id;
    assert 0 <= k ==> forall i :: 0 <= i < k ==> ids[..k][i] != id;
    k
  }

  /** `polls.findIndex(p => p.id === id)` */
  function PollIndex(polls: seq<Poll>, id: string): (k: int)
    ensures -1 <= k < |polls|
    ensures k == -1 <==> forall i :: 0 <= i < |polls| ==> polls[i].id != id
    ensures 0 <= k ==> polls[k].id == id && forall i :: 0 <= i < k ==> polls[i].id != id
  {
    var ids := Ids(polls, (p: Poll) => p.id);
    var k := IndexOf(ids, id);
    assert k == -1 ==> forall i :: 0 <= i < |polls| ==> ids[i] != id;
    assert 0 <= k ==> forall i :: 0 <= i < k ==> ids[..k][i] != id;
    k
  }

  predicate UniqueIds(posts: seq<Post>) {
    forall i, j :: 0 <= i < j < |posts| ==> posts[i].id != posts[j].id
  }

  /** When ids are unique, a deleted post's id is gone: a later like or
      comment on it finds no post. */
  lemma DeletedIdGone(posts: seq<Post>, id: string)
    requires UniqueIds(posts) && PostIndex(posts, id) >= 0
    ensures PostIndex(RemoveAt(posts, PostIndex(posts, id)), id) == -1
  {
    var k := PostIndex(posts, id);
    var r := RemoveAt(posts, k);
    forall i | 0 <= i < |r| ensures r[i].id != id {
      if i >= k {
        assert r[i] == posts[i + 1];
      }
    }
  }

  /** One element of GET /posts. */
  function EnrichPost(p: Post, reactions: map<string, Reaction>, comments: map<string, seq<Comment>>,
                      profiles: map<string, Profile>): (v: FeedPost)
    ensures v.post == p && !v.userHasLiked
    ensures v.likes == ReactionOf(reactions, p.id).likes
    ensures v.likedBy == Some(ReactionOf(reactions, p.id).likedBy)
    ensures v.commentsList == Some(ThreadOf(comments, p.id)) && v.comments == |ThreadOf(comments, p.id)|
    ensures v.authorProfile == ProfileAt(profiles, Lower(p.author))
  {
    var r := ReactionOf(reactions, p.id);
    var c := ThreadOf(comments, p.id);
    FeedPost(p, r.likes, Some(r.likedBy), |c|, Some(c), ProfileAt(profiles, Lower(p.author)), false)
  }

  /** `posts.map(...)` of GET /posts. */
  function EnrichAll(posts: seq<Post>, reactions: map<string, Reaction>, comments: map<string, seq<Comment>>,
                     profiles: map<string, Profile>): (v: seq<FeedPost>)
    ensures |v| == |posts|
    ensures forall i :: 0 <= i < |posts| ==> v[i] == EnrichPost(posts[i], reactions, comments, profiles)
  {
    seq(|posts|, i requires 0 <= i < |posts| => EnrichPost(posts[i], reactions, comments, profiles))
  }

  /** A view built from a store that keeps the reaction invariant shows a
      like count equal to the number of likers. */
  lemma EnrichedLikesCount(p: Post, reactions: map<string, Reaction>, comments: map<string, seq<Comment>>,
                           profiles: map<string, Profile>)
    requires forall id :: id in reactions ==> ReactionOk(reactions[id])
    ensures var v := EnrichPost(p, reactions, comments, profiles);
            v.likes == |v.likedBy.value| && NoDup(v.likedBy.value)
  {
  }

  /** One element of GET /polls: the stored poll with `isActive` computed
      from the clock. */
  function EnrichPoll(poll: Poll, profiles: map<string, Profile>, now: int): (v: PollView)
    ensures v.poll.isActive <==> now < poll.endTime
    ensures v.poll.(isActive := poll.isActive) == poll
    ensures v.authorProfile == ProfileAt(profiles, Lower(poll.author))
  {
    PollView(poll.(isActive := poll.endTime > now), ProfileAt(profiles, Lower(poll.author)))
  }

  /** A poll that has ended never becomes active again. */
  lemma EndedStaysEnded(poll: Poll, profiles: map<string, Profile>, now: int, later: int)
    requires !EnrichPoll(poll, profiles, now).poll.isActive && now <= later
    ensures !EnrichPoll(poll, profiles, later).poll.isActive
  {
  }

  datatype SaveAction = Save | Unsave | OtherAction

  /** The saved-posts list update of POST /api/saved-posts/:address. */
  function SavedAfter(saved: map<string, seq<string>>, address: string, postId: string, action: SaveAction)
    : (m: map<string, seq<string>>)
    ensures Lower(address) in m && m.Keys == saved.Keys + {Lower(address)}
    ensures forall k :: k in saved && k != Lower(address) ==> m[k] == saved[k]
    ensures action == Save ==> postId in m[Lower(address)]
    ensures action == Unsave ==> postId !in m[Lower(address)]
    ensures var list := if Lower(address) in saved then saved[Lower(address)] else [];
            m[Lower(address)] == match action
              case Save => if postId in list then list else list + [postId]
              case Unsave => Without(list, postId)
              case OtherAction => list
    ensures forall x :: x != postId ==>
              (x in m[Lower(address)] <==> Lower(address) in saved && x in saved[Lower(address)])
  {
    var a := Lower(address);
    var list := if a in saved then saved[a] else [];
    var list' := match action
      case Save => if postId in list then list else list + [postId]
      case Unsave => Without(list, postId)
      case OtherAction => list;
    saved[a := list']
  }

  /** No action puts a post twice in a saved list: lists without repeats stay so. */
  lemma SavedAfterNoDup(saved: map<string, seq<string>>, address: string, postId: string, action: SaveAction)
    requires forall k :: k in saved ==> NoDup(saved[k])
    ensures var m := SavedAfter(saved, address, postId, action);
            forall k :: k in m ==> NoDup(m[k])
  {
    var a := Lower(address);
    var list := if a in saved then saved[a] else [];
    if action == Save && postId !in list {
      AppendNoDup(list, postId);
    } else if action == Unsave {
      WithoutNoDup(list, postId);
    }
  }

  /** Saving twice is saving once. */
  lemma SaveIdempotent(saved: map<string, seq<string>>, address: string, postId: string)
    ensures SavedAfter(SavedAfter(saved, address, postId, Save), address, postId, Save)
            == SavedAfter(saved, address, postId, Save)
  {
  }
}
