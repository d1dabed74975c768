/** The client's post-list hook: the optimistic updaters it applies to the
    feed after a like, a comment or a delete, the like and ownership tests
    the feed uses, the sort and count done on load, and the profile lookup
    with its cache and fallback. The account is "" when no wallet is
    connected. */
module Hooks {
  import opened Text
  import opened Seqs
  import opened Records
  import opened Store

  /** `post.likedBy || []` */
  function LikersOf(post: FeedPost): (l: seq<string>)
    ensures post.likedBy.Some? ==> l == post.likedBy.value
    ensures post.likedBy.None? ==> l == []
  {
    if post.likedBy.Some? then post.likedBy.value else []
  }

  /** `post.commentsList || []` */
  function ThreadIn(post: FeedPost): (t: seq<Comment>)
    ensures post.commentsList.Some? ==> t == post.commentsList.value
    ensures post.commentsList.None? ==> t == []
  {
    if post.commentsList.Some? then post.commentsList.value else []
  }

  /** The matching post after the optimistic like of `likePost`. */
  function LikedPost(post: FeedPost, account: string): (q: FeedPost)
    ensures var t := ToggleReaction(Reaction(post.likes, LikersOf(post)), Lower(account));
            q.likes == t.likes && q.likedBy == Some(t.likedBy)
    ensures q.userHasLiked <==> Lower(account) in q.likedBy.value
    ensures q.(likes := post.likes, likedBy := post.likedBy, userHasLiked := post.userHasLiked) == post
  {
    var userAddress := Lower(account);
    var current := LikersOf(post);
    var hasLiked := userAddress in current;
    post.(likes := if hasLiked then Max(0, post.likes - 1) else post.likes + 1,
          likedBy := Some(if hasLiked then Without(current, userAddress) else current + [userAddress]),
          userHasLiked := !hasLiked)
  }

  /** The `setPosts` updater of `likePost`. */
  function LikeUpdate(posts: seq<FeedPost>, postId: string, account: string): (r: seq<FeedPost>)
    ensures |r| == |posts|
    ensures forall i :: 0 <= i < |posts| && posts[i].post.id != postId ==> r[i] == posts[i]
    ensures forall i :: 0 <= i < |posts| && posts[i].post.id == postId ==> r[i] == LikedPost(posts[i], account)
  {
    seq(|posts|, i requires 0 <= i < |posts| =>
      if posts[i].post.id == postId then LikedPost(posts[i], account) else posts[i])
  }

  /** Liking optimistically shows what the server stores: the post the
      client holds, once liked, is the post a reload of GET /posts returns
      after the server's toggle (bar the client-only `userHasLiked`). */
  lemma LikeMatchesServer(p: Post, reactions: map<string, Reaction>, comments: map<string, seq<Comment>>,
                          profiles: map<string, Profile>, account: string)
    ensures var toggled := ToggleReaction(ReactionOf(reactions, p.id), Lower(account));
            LikedPost(EnrichPost(p, reactions, comments, profiles), account).(userHasLiked := false)
            == EnrichPost(p, reactions[p.id := toggled], comments, profiles)
  {
  }

  /** The matching post after the optimistic comment of `addComment`. */
  function CommentedPost(post: FeedPost, comment: Comment): (q: FeedPost)
    ensures q.commentsList == Some(ThreadIn(post) + [comment])
    ensures q.comments == |q.commentsList.value|
    ensures q.(comments := post.comments, commentsList := post.commentsList) == post
  {
    var updated := ThreadIn(post) + [comment];
    post.(comments := |updated|, commentsList := Some(updated))
  }

  /** The `setPosts` updater of `addComment`. */
  function CommentUpdate(posts: seq<FeedPost>, postId: string, comment: Comment): (r: seq<FeedPost>)
    ensures |r| == |posts|
    ensures forall i :: 0 <= i < |posts| && posts[i].post.id != postId ==> r[i] == posts[i]
    ensures forall i :: 0 <= i < |posts| && posts[i].post.id == postId ==> r[i] == CommentedPost(posts[i], comment)
  {
    seq(|posts|, i requires 0 <= i < |posts| =>
      if posts[i].post.id == postId then CommentedPost(posts[i], comment) else posts[i])
  }

  /** The `commentData` that `addComment` builds and posts, or None when it
      refuses (no account, or blank text). */
  function ClientComment(postId: string, account: string, commentText: string, now: int): (c: Option<Comment>)
    ensures c.None? <==> account == "" || Trim(commentText) == ""
    ensures c.Some? ==>
              && c.value.id == postId + "_" + account + "_" + IntToString(now)
              && c.value.postId == postId && c.value.author == account
              && c.value.text == Trim(commentText) && c.value.timestamp == Seconds(now)
  {
    if account == "" || Trim(commentText) == "" then None
    else Some(Comment(postId + "_" + account + "_" + IntToString(now), postId, account,
                      Trim(commentText), Seconds(now)))
  }

  /** The body `addComment` posts, as the server reads it. */
  function CommentRequestOf(c: Comment): (req: CommentRequest)
    ensures req.id == c.id && req.author == c.author && req.text == c.text && req.timestamp == c.timestamp
  {
    CommentRequest(c.id, c.author, c.text, c.timestamp)
  }

  /** Commenting optimistically shows what the server stores: the server
      accepts the client's comment and keeps its id (so its own default id
      never applies) and, when it is non-zero, its timestamp; the optimistic
      thread is then the server's thread after the append. */
  lemma CommentMatchesServer(p: Post, reactions: map<string, Reaction>, comments: map<string, seq<Comment>>,
                             profiles: map<string, Profile>, account: string, commentText: string,
                             now: int, serverNow: int)
    requires ClientComment(p.id, account, commentText, now).Some?
    ensures var c := ClientComment(p.id, account, commentText, now).value;
            var stored := NewComment(p.id, CommentRequestOf(c), serverNow);
            && CommentRequestOf(c).author != "" && CommentRequestOf(c).text != ""
            && stored.(timestamp := c.timestamp) == c
            && (c.timestamp != 0 ==> stored == c)
    ensures var c := ClientComment(p.id, account, commentText, now).value;
            var stored := NewComment(p.id, CommentRequestOf(c), serverNow);
            c.timestamp != 0 ==>
              CommentedPost(EnrichPost(p, reactions, comments, profiles), c)
              == EnrichPost(p, reactions, comments[p.id := ThreadOf(comments, p.id) + [stored]], profiles)
  {
  }

  /** The `setPosts` updater of `deletePost`: `filter(post => post.id !== postId)`. */
  function DeleteUpdate(posts: seq<FeedPost>, postId: string): (r: seq<FeedPost>)
    ensures |r| <= |posts|
    ensures forall i :: 0 <= i < |r| ==> r[i].post.id != postId
    ensures forall q :: q in posts && q.post.id != postId ==> q in r
    ensures forall q :: q in r ==> q in posts
  {
    if posts == [] then []
    else
      var rest := DeleteUpdate(posts[1..], postId);
      assert forall q :: q in posts ==> q == posts[0] || q in posts[1..];
      if posts[0].post.id == postId then rest else [posts[0]] + rest
  }

  /** One post is dropped exactly when it has the id. */
  lemma DeleteUpdateSingle(q: FeedPost, postId: string)
    ensures DeleteUpdate([q], postId) == if q.post.id == postId then [] else [q]
  {
    assert [q][1..] == [];
  }

  /** The filter works post by post: it keeps the order of the remaining
      posts and each of them as often as it occurs. */
  lemma {:induction false} DeleteUpdateAppend(a: seq<FeedPost>, b: seq<FeedPost>, postId: string)
    ensures DeleteUpdate(a + b, postId) == DeleteUpdate(a, postId) + DeleteUpdate(b, postId)
  {
    if a == [] {
      assert a + b == b;
    } else {
      assert (a + b)[1..] == a[1..] + b;
      DeleteUpdateAppend(a[1..], b, postId);
    }
  }

  /** Filtering leaves the remaining posts in their order: it keeps every post
      of a list that does not hold the id. */
  lemma {:induction false} DeleteAbsent(posts: seq<FeedPost>, postId: string)
    requires forall i :: 0 <= i < |posts| ==> posts[i].post.id != postId
    ensures DeleteUpdate(posts, postId) == posts
  {
    if posts != [] {
      DeleteAbsent(posts[1..], postId);
      assert posts == [posts[0]] + posts[1..];
    }
  }

  /** Filtering out one post is splicing it out at its place. */
  lemma {:induction false} DeleteIsRemoveAt(posts: seq<FeedPost>, postId: string, k: int)
    requires 0 <= k < |posts| && posts[k].post.id == postId
    requires forall i :: 0 <= i < |posts| && i != k ==> posts[i].post.id != postId
    ensures DeleteUpdate(posts, postId) == RemoveAt(posts, k)
  {
    if k == 0 {
      DeleteAbsent(posts[1..], postId);
    } else {
      DeleteIsRemoveAt(posts[1..], postId, k - 1);
      assert RemoveAt(posts, k) == [posts[0]] + RemoveAt(posts[1..], k - 1);
    }
  }

  /** Removing a post from the store's maps leaves the views of the other posts alone. */
  lemma EnrichOther(p: Post, reactions: map<string, Reaction>, comments: map<string, seq<Comment>>,
                    profiles: map<string, Profile>, id: string)
    requires p.id != id
    ensures EnrichPost(p, reactions - {id}, comments - {id}, profiles) == EnrichPost(p, reactions, comments, profiles)
  {
  }

  /** Deleting optimistically shows what the server stores, when post ids are unique. */
  lemma DeleteMatchesServer(posts: seq<Post>, reactions: map<string, Reaction>, comments: map<string, seq<Comment>>,
                            profiles: map<string, Profile>, postId: string)
    requires UniqueIds(posts) && PostIndex(posts, postId) != -1
    ensures DeleteUpdate(EnrichAll(posts, reactions, comments, profiles), postId)
            == EnrichAll(RemoveAt(posts, PostIndex(posts, postId)), reactions - {postId}, comments - {postId}, profiles)
  {
    var k := PostIndex(posts, postId);
    var feed := EnrichAll(posts, reactions, comments, profiles);
    DeleteIsRemoveAt(feed, postId, k);
    var kept := RemoveAt(posts, k);
    forall i | 0 <= i < |kept|
      ensures EnrichPost(kept[i], reactions - {postId}, comments - {postId}, profiles) == RemoveAt(feed, k)[i]
    {
      var j := if i < k then i else i + 1;
      assert kept[i] == posts[j] && j != k;
      EnrichOther(posts[j], reactions, comments, profiles, postId);
    }
  }

  /** `hasUserLiked(post)`: None stands for a missing post. */
  function HasUserLiked(account: string, post: Option<FeedPost>): (liked: bool)
    ensures liked ==> account != "" && post.Some? && post.value.likedBy.Some?
    ensures account != "" && post.Some? && post.value.likedBy.Some? ==>
              (liked <==> Lower(account) in post.value.likedBy.value)
  {
    account != "" && post.Some? && post.value.likedBy.Some? && Lower(account) in post.value.likedBy.value
  }

  /** On a post reloaded after the server's toggle, `hasUserLiked` agrees
      with the `userHasLiked` of the server's reply. */
  lemma HasUserLikedMatchesReply(p: Post, reactions: map<string, Reaction>, comments: map<string, seq<Comment>>,
                                 profiles: map<string, Profile>, account: string)
    requires account != ""
    ensures var toggled := ToggleReaction(ReactionOf(reactions, p.id), Lower(account));
            HasUserLiked(account, Some(EnrichPost(p, reactions[p.id := toggled], comments, profiles)))
            <==> Lower(account) !in ReactionOf(reactions, p.id).likedBy
  {
  }

  /** The like test and the optimistic like agree: after `likePost`, the
      post reports the user as a liker exactly when its flag says so. */
  lemma HasUserLikedAfterLike(posts: seq<FeedPost>, postId: string, account: string, i: int)
    requires account != "" && 0 <= i < |posts| && posts[i].post.id == postId
    ensures var r := LikeUpdate(posts, postId, account);
            HasUserLiked(account, Some(r[i])) == r[i].userHasLiked
            && HasUserLiked(account, Some(r[i])) != HasUserLiked(account, Some(posts[i]))
  {
  }

  /** `canDeletePost(post)`: None stands for a missing post. */
  function CanDeletePost(account: string, post: Option<FeedPost>): (can: bool)
    ensures can ==> account != "" && post.Some? && post.value.post.author != ""
    ensures account != "" && post.Some? && post.value.post.author != "" ==>
              (can <==> |post.value.post.author| == |account|
                        && forall i :: 0 <= i < |account| ==>
                             LowerChar(post.value.post.author[i]) == LowerChar(account[i]))
  {
    account != "" && post.Some? && post.value.post.author != "" && Lower(post.value.post.author) == Lower(account)
  }

  /** The client offers deletion exactly when the server's ownership check
      would pass, for a connected account and a post with an author. */
  lemma CanDeleteMatchesServer(account: string, post: FeedPost)
    requires account != "" && post.post.author != ""
    ensures CanDeletePost(account, Some(post)) <==> SameIdentity(post.post.author, account)
  {
  }

  /** One element of the `serverPosts.map(...)` of `loadAllPosts`. */
  function Enhance(post: FeedPost, account: string, authorProfile: Option<Profile>, now: int): (q: FeedPost)
    ensures q.userHasLiked == HasUserLiked(account, Some(q))
    ensures q.post.timestamp == if post.post.timestamp != 0 then post.post.timestamp else Seconds(now)
    ensures q.authorProfile == authorProfile
    ensures q.(post := post.post, authorProfile := post.authorProfile, userHasLiked := post.userHasLiked) == post
  {
    post.(post := post.post.(timestamp := OrDefault(post.post.timestamp, Seconds(now))),
          authorProfile := authorProfile,
          userHasLiked := account != "" && post.likedBy.Some? && Lower(account) in post.likedBy.value)
  }

  predicate NewestFirst(s: seq<FeedPost>) {
    forall i, j :: 0 <= i < j < |s| ==> s[i].post.timestamp >= s[j].post.timestamp
  }

  /** Places `x` before the first post that is not newer than it. */
  function InsertByTime(x: FeedPost, s: seq<FeedPost>): (r: seq<FeedPost>)
    ensures multiset(r) == multiset(s) + multiset{x}
  {
    if s == [] || s[0].post.timestamp <= x.post.timestamp then [x] + s
    else
      assert s == [s[0]] + s[1..];
      [s[0]] + InsertByTime(x, s[1..])
  }

  /** Inserting into a newest-first list keeps it newest first. */
  lemma {:induction false} InsertKeepsOrder(x: FeedPost, s: seq<FeedPost>)
    requires NewestFirst(s)
    ensures NewestFirst(InsertByTime(x, s))
  {
    if s != [] && s[0].post.timestamp > x.post.timestamp {
      var rest := InsertByTime(x, s[1..]);
      InsertKeepsOrder(x, s[1..]);
      forall j | 0 <= j < |rest| ensures s[0].post.timestamp >= rest[j].post.timestamp {
        assert rest[j] in multiset(rest);
        if rest[j] != x {
          assert rest[j] in multiset(s[1..]);
          var k :| 0 <= k < |s[1..]| && s[1..][k] == rest[j];
          assert s[k + 1] == rest[j];
        }
      }
      var r := [s[0]] + rest;
      forall i, j | 0 <= i < j < |r| ensures r[i].post.timestamp >= r[j].post.timestamp {
        assert r[j] == rest[j - 1];
        if i > 0 {
          assert r[i] == rest[i - 1];
        }
      }
    }
  }

  /** `sort((a, b) => b.timestamp - a.timestamp)`, as the stable insertion
      sort whose every step keeps the earlier of two equal posts first. */
  function SortNewestFirst(s: seq<FeedPost>): (r: seq<FeedPost>)
    ensures multiset(r) == multiset(s)
    ensures NewestFirst(r)
  {
    if s == [] then []
    else
      assert s == [s[0]] + s[1..];
      InsertKeepsOrder(s[0], SortNewestFirst(s[1..]));
      InsertByTime(s[0], SortNewestFirst(s[1..]))
  }

  /** Every sorted post comes from the list given. */
  lemma SortedFrom(s: seq<FeedPost>)
    ensures |SortNewestFirst(s)| == |s|
    ensures forall q :: q in SortNewestFirst(s) ==> q in s
  {
    var r := SortNewestFirst(s);
    assert |r| == |multiset(r)| == |s|;
    forall q | q in r ensures q in s {
      assert q in multiset(r);
    }
  }

  predicate ByAccount(post: FeedPost, account: string) {
    post.post.author != "" && Lower(post.post.author) == Lower(account)
  }

  /** `filter(post => post.author && ...).length` */
  function CountBy(s: seq<FeedPost>, account: string): (n: nat)
    ensures n <= |s|
    ensures n == 0 <==> forall i :: 0 <= i < |s| ==> !ByAccount(s[i], account)
    ensures n == |s| <==> forall i :: 0 <= i < |s| ==> ByAccount(s[i], account)
  {
    if s == [] then 0 else (if ByAccount(s[0], account) then 1 else 0) + CountBy(s[1..], account)
  }

  /** The count of a list is the sum of the counts of its parts. */
  lemma {:induction false} CountByAppend(a: seq<FeedPost>, b: seq<FeedPost>, account: string)
    ensures CountBy(a + b, account) == CountBy(a, account) + CountBy(b, account)
  {
    if a == [] {
      assert a + b == b;
    } else {
      assert (a + b)[1..] == a[1..] + b;
      CountByAppend(a[1..], b, account);
    }
  }

  function UserPostCount(s: seq<FeedPost>, account: string): (n: nat)
    ensures n <= |s|
    ensures account == "" ==> n == 0
    ensures account != "" ==> n == CountBy(s, account)
  {
    if account == "" then 0 else CountBy(s, account)
  }

  lemma {:induction false} CountInsert(x: FeedPost, s: seq<FeedPost>, account: string)
    ensures CountBy(InsertByTime(x, s), account) == CountBy([x], account) + CountBy(s, account)
  {
    if s != [] && s[0].post.timestamp > x.post.timestamp {
      CountInsert(x, s[1..], account);
      assert ([s[0]] + InsertByTime(x, s[1..]))[1..] == InsertByTime(x, s[1..]);
    }
  }

  /** Sorting does not change how many posts are the user's. */
  lemma {:induction false} SortKeepsCount(s: seq<FeedPost>, account: string)
    ensures CountBy(SortNewestFirst(s), account) == CountBy(s, account)
  {
    if s != [] {
      SortKeepsCount(s[1..], account);
      CountInsert(s[0], SortNewestFirst(s[1..]), account);
    }
  }

  datatype Loaded = Loaded(posts: seq<FeedPost>, totalPosts: nat, userPostCount: nat)

  /** `serverPosts.map(...)` of `loadAllPosts`. `resolved` holds the profile
      `getUserProfile` gave for each author. */
  function EnhanceAll(serverPosts: seq<FeedPost>, account: string, resolved: map<string, Profile>, now: int)
    : (e: seq<FeedPost>)
    ensures |e| == |serverPosts|
    ensures forall i :: 0 <= i < |e| ==>
              e[i] == Enhance(serverPosts[i], account, ProfileAt(resolved, serverPosts[i].post.author), now)
  {
    seq(|serverPosts|, i requires 0 <= i < |serverPosts| =>
      Enhance(serverPosts[i], account, ProfileAt(resolved, serverPosts[i].post.author), now))
  }

  /** The list state `loadAllPosts` sets from the server's posts. */
  function LoadPosts(serverPosts: seq<FeedPost>, account: string, resolved: map<string, Profile>, now: int)
    : (l: Loaded)
    ensures NewestFirst(l.posts) && l.totalPosts == |serverPosts| == |l.posts|
    ensures multiset(l.posts) == multiset(EnhanceAll(serverPosts, account, resolved, now))
    ensures forall q :: q in l.posts ==> q.userHasLiked == HasUserLiked(account, Some(q))
    ensures l.userPostCount == UserPostCount(serverPosts, account)
  {
    var enhanced := EnhanceAll(serverPosts, account, resolved, now);
    var sorted := SortNewestFirst(enhanced);
    SortedFrom(enhanced);
    SortKeepsCount(enhanced, account);
    EnhanceKeepsCount(serverPosts, enhanced, account);
    Loaded(sorted, |sorted|, UserPostCount(sorted, account))
  }

  /** Enhancing leaves authors alone, so the count is that of the server's list. */
  lemma {:induction false} EnhanceKeepsCount(a: seq<FeedPost>, b: seq<FeedPost>, account: string)
    requires |a| == |b| && forall i :: 0 <= i < |a| ==> a[i].post.author == b[i].post.author
    ensures CountBy(a, account) == CountBy(b, account)
  {
    if a != [] {
      EnhanceKeepsCount(a[1..], b[1..], account);
    }
  }

  /** The profile `getUserProfile` falls back to when the fetch fails. */
  function DefaultProfile(address: string, now: int): (p: Profile)
    ensures p.address == address && p.displayName == FallbackName(address)
    ensures p.profilePhoto.None? && p.bio == "" && p.joinedDate == now
  {
    Profile(address, FallbackName(address), None, "", now, None, None, None, None)
  }

  datatype Lookup = Lookup(profile: Option<Profile>, cache: map<string, Profile>)

  /** `getUserProfile(address)`: `fetched` is the server's answer, None when
      the request fails. The cache is keyed by the address as given. */
  function GetUserProfile(address: string, cache: map<string, Profile>, fetched: Option<Profile>, now: int)
    : (l: Lookup)
    ensures address == "" ==> l == Lookup(None, cache)
    ensures address != "" && address in cache ==> l == Lookup(Some(cache[address]), cache)
    ensures address != "" && address !in cache ==>
              && l.profile == Some(if fetched.Some? then fetched.value else DefaultProfile(address, now))
              && l.cache == cache[address := l.profile.value]
  {
    if address == "" then Lookup(None, cache)
    else if address in cache then Lookup(Some(cache[address]), cache)
    else
      var profile := if fetched.Some? then fetched.value else DefaultProfile(address, now);
      Lookup(Some(profile), cache[address := profile])
  }

  /** A second lookup is answered from the cache: same profile, whatever the
      server or the clock say then. */
  lemma LookupCached(address: string, cache: map<string, Profile>, fetched: Option<Profile>, now: int,
                     fetchedLater: Option<Profile>, later: int)
    ensures var first := GetUserProfile(address, cache, fetched, now);
            GetUserProfile(address, first.cache, fetchedLater, later) == first
  {
  }
}
