/** The server's in-memory content store: five collections updated in place
    by one handler each. A handler's response is its `Result`; the handlers
    that ignore the outcome of their write to disk are modelled without it,
    the poll handlers take it as `saveOk`. */
module Server {
  import opened Text
  import opened Seqs
  import opened Records
  import opened Tally
  import opened Store

  class ContentStore {
    var posts: seq<Post>                          // newest first
    var reactions: map<string, Reaction>          // by post id
    var comments: map<string, seq<Comment>>       // by post id
    var profiles: map<string, Profile>            // by lowercased address
    var polls: seq<Poll>                          // newest first

    /** What the handlers keep true of the store: every reaction counts a
        duplicate-free list of likers and every poll is well tallied. */
    ghost predicate Valid()
      reads this
    {
      && (forall id :: id in reactions ==> ReactionOk(reactions[id]))
      && (forall i :: 0 <= i < |polls| ==> PollOk(polls[i]))
    }

    /** The collections as they are read at start-up: a file's content, or
        the empty default when the file is missing or unreadable. */
    constructor (savedPosts: Option<seq<Post>>, savedReactions: Option<map<string, Reaction>>,
                 savedComments: Option<map<string, seq<Comment>>>, savedProfiles: Option<map<string, Profile>>,
                 savedPolls: Option<seq<Poll>>)
      ensures posts == if savedPosts.Some? then savedPosts.value else []
      ensures reactions == if savedReactions.Some? then savedReactions.value else map[]
      ensures comments == if savedComments.Some? then savedComments.value else map[]
      ensures profiles == if savedProfiles.Some? then savedProfiles.value else map[]
      ensures polls == if savedPolls.Some? then savedPolls.value else []
      ensures (savedReactions.Some? ==> forall id :: id in savedReactions.value ==> ReactionOk(savedReactions.value[id]))
              && (savedPolls.Some? ==> forall i :: 0 <= i < |savedPolls.value| ==> PollOk(savedPolls.value[i]))
              ==> Valid()
    {
      posts := if savedPosts.Some? then savedPosts.value else [];
      reactions := if savedReactions.Some? then savedReactions.value else map[];
      comments := if savedComments.Some? then savedComments.value else map[];
      profiles := if savedProfiles.Some? then savedProfiles.value else map[];
      polls := if savedPolls.Some? then savedPolls.value else [];
    }

    /** POST /profiles/:address */
    method UpsertProfile(address: string, req: ProfileRequest, now: int) returns (r: Result<Profile>)
      modifies this
      ensures req.displayName == "" ==> r == Err(MissingFields) && unchanged(this)
      ensures req.displayName != "" ==>
                && r == Ok(BuildProfile(ProfileAt(old(profiles), Lower(address)), address, req, now))
                && profiles == old(profiles)[Lower(address) := r.value]
                && posts == old(posts) && reactions == old(reactions)
                && comments == old(comments) && polls == old(polls)
      ensures old(Valid()) ==> Valid()
    {
      if req.displayName == "" {
        return Err(MissingFields);
      }
      var key := Lower(address);
      var profile := BuildProfile(ProfileAt(profiles, key), address, req, now);
      profiles := profiles[key := profile];
      r := Ok(profile);
    }

    /** POST /posts */
    method CreatePost(req: PostRequest, now: int) returns (r: Result<Post>)
      modifies this
      ensures MissingPostFields(req) ==> r == Err(MissingFields) && unchanged(this)
      ensures !MissingPostFields(req) ==>
                && r == Ok(NewPost(req, now))
                && posts == [r.value] + old(posts)
                && reactions == old(reactions)[req.id := Reaction(0, [])]
                && comments == old(comments)[req.id := []]
                && profiles == old(profiles) && polls == old(polls)
      ensures old(Valid()) ==> Valid()
    {
      if MissingPostFields(req) {
        return Err(MissingFields);
      }
      var post := NewPost(req, now);
      posts := [post] + posts;
      reactions := reactions[req.id := Reaction(0, [])];
      comments := comments[req.id := []];
      r := Ok(post);
    }

    /** POST /posts/:postId/like */
    method ToggleLike(postId: string, user: string) returns (r: Result<LikeReply>)
      modifies this
      ensures user == "" ==> r == Err(MissingFields) && unchanged(this)
      ensures user != "" && PostIndex(old(posts), postId) == -1 ==> r == Err(NotFound) && unchanged(this)
      ensures user != "" && PostIndex(old(posts), postId) != -1 ==>
                var before := ReactionOf(old(reactions), postId);
                && reactions == old(reactions)[postId := ToggleReaction(before, Lower(user))]
                && r == Ok(LikeReply(reactions[postId].likes, Lower(user) !in before.likedBy))
                && (r.value.userHasLiked <==> Lower(user) in reactions[postId].likedBy)
                && posts == old(posts) && comments == old(comments)
                && profiles == old(profiles) && polls == old(polls)
      ensures old(Valid()) ==> Valid()
    {
      if user == "" {
        return Err(MissingFields);
      }
      var userAddress := Lower(user);
      if PostIndex(posts, postId) == -1 {
        return Err(NotFound);
      }
      if postId !in reactions {
        reactions := reactions[postId := Reaction(0, [])];
      }
      var postReactions := reactions[postId];
      ghost var before := postReactions;
      var hasLiked := userAddress in postReactions.likedBy;
      if hasLiked {
        postReactions := postReactions.(likes := Max(0, postReactions.likes - 1));
        postReactions := postReactions.(likedBy := Without(postReactions.likedBy, userAddress));
      } else {
        postReactions := postReactions.(likes := postReactions.likes + 1);
        postReactions := postReactions.(likedBy := postReactions.likedBy + [userAddress]);
      }
      reactions := reactions[postId := postReactions];
      if old(Valid()) {
        ToggleKeepsReactionOk(before, userAddress);
      }
      r := Ok(LikeReply(postReactions.likes, !hasLiked));
    }

    /** POST /posts/:postId/comments */
    method AddComment(postId: string, req: CommentRequest, now: int) returns (r: Result<Comment>)
      modifies this
      ensures req.author == "" || req.text == "" ==> r == Err(MissingFields) && unchanged(this)
      ensures req.author != "" && req.text != "" && PostIndex(old(posts), postId) == -1 ==>
                r == Err(NotFound) && unchanged(this)
      ensures req.author != "" && req.text != "" && PostIndex(old(posts), postId) != -1 ==>
                && r == Ok(NewComment(postId, req, now))
                && comments == old(comments)[postId := ThreadOf(old(comments), postId) + [r.value]]
                && posts == old(posts) && reactions == old(reactions)
                && profiles == old(profiles) && polls == old(polls)
      ensures old(Valid()) ==> Valid()
    {
      if req.author == "" || req.text == "" {
        return Err(MissingFields);
      }
      if PostIndex(posts, postId) == -1 {
        return Err(NotFound);
      }
      var comment := NewComment(postId, req, now);
      if postId !in comments {
        comments := comments[postId := []];
      }
      comments := comments[postId := comments[postId] + [comment]];
      r := Ok(comment);
    }

    /** DELETE /posts/:postId: the post, its reaction and its comments go. */
    method DeletePost(postId: string, user: string) returns (r: Result<()>)
      modifies this
      ensures user == "" ==> r == Err(MissingFields) && unchanged(this)
      ensures user != "" && PostIndex(old(posts), postId) == -1 ==> r == Err(NotFound) && unchanged(this)
      ensures user != "" && PostIndex(old(posts), postId) != -1
              && !SameIdentity(old(posts)[PostIndex(old(posts), postId)].author, user) ==>
                r == Err(Forbidden) && unchanged(this)
      ensures user != "" && PostIndex(old(posts), postId) != -1
              && SameIdentity(old(posts)[PostIndex(old(posts), postId)].author, user) ==>
                && r == Ok(())
                && posts == RemoveAt(old(posts), PostIndex(old(posts), postId))
                && reactions == old(reactions) - {postId}
                && comments == old(comments) - {postId}
                && profiles == old(profiles) && polls == old(polls)
      ensures old(Valid()) ==> Valid()
    {
      if user == "" {
        return Err(MissingFields);
      }
      var postIndex := PostIndex(posts, postId);
      if postIndex == -1 {
        return Err(NotFound);
      }
      if Lower(posts[postIndex].author) != Lower(user) {
        return Err(Forbidden);
      }
      posts := RemoveAt(posts, postIndex);
      reactions := reactions - {postId};
      comments := comments - {postId};
      r := Ok(());
    }

    /** PATCH /api/posts/:id */
    method UpdatePost(postId: string, content: string, user: string, now: int) returns (r: Result<Post>)
      modifies this
      ensures user == "" || Trim(content) == "" ==> r == Err(MissingFields) && unchanged(this)
      ensures user != "" && Trim(content) != "" && PostIndex(old(posts), postId) == -1 ==>
                r == Err(NotFound) && unchanged(this)
      ensures user != "" && Trim(content) != "" && PostIndex(old(posts), postId) != -1
              && !SameIdentity(old(posts)[PostIndex(old(posts), postId)].author, user) ==>
                r == Err(Forbidden) && unchanged(this)
      ensures user != "" && Trim(content) != "" && PostIndex(old(posts), postId) != -1
              && SameIdentity(old(posts)[PostIndex(old(posts), postId)].author, user) ==>
                var k := PostIndex(old(posts), postId);
                && r == Ok(EditPost(old(posts)[k], content, now))
                && posts == old(posts)[k := r.value]
                && reactions == old(reactions) && comments == old(comments)
                && profiles == old(profiles) && polls == old(polls)
      ensures old(Valid()) ==> Valid()
    {
      if user == "" {
        return Err(MissingFields);
      }
      if content == "" || Trim(content) == "" {
        return Err(MissingFields);
      }
      var postIndex := PostIndex(posts, postId);
      if postIndex == -1 {
        return Err(NotFound);
      }
      var post := posts[postIndex];
      if Lower(post.author) != Lower(user) {
        return Err(Forbidden);
      }
      posts := posts[postIndex := EditPost(post, content, now)];
      r := Ok(posts[postIndex]);
    }

    /** POST /polls. A failed write is reported, but the poll stays in memory. */
    method CreatePoll(req: PollRequest, now: int, saveOk: bool) returns (r: Result<Poll>)
      modifies this
      ensures MissingPollFields(req) ==> r == Err(MissingFields) && unchanged(this)
      ensures !MissingPollFields(req) ==>
                && polls == [NewPoll(req, now)] + old(polls)
                && r == (if saveOk then Ok(polls[0]) else Err(SaveFailed))
                && posts == old(posts) && reactions == old(reactions)
                && comments == old(comments) && profiles == old(profiles)
      ensures old(Valid()) ==> Valid()
    {
      if MissingPollFields(req) {
        return Err(MissingFields);
      }
      var poll := NewPoll(req, now);
      polls := [poll] + polls;
      NewPollOk(req, now);
      if !saveOk {
        return Err(SaveFailed);
      }
      r := Ok(poll);
    }

    /** POST /polls/:pollId/vote. `optionId` is None when the body has no
        such field; only a position of an existing option is accepted. */
    method Vote(pollId: string, user: string, optionId: Option<int>, now: int, saveOk: bool) returns (r: Result<Poll>)
      modifies this
      ensures user == "" || optionId.None? ==> r == Err(MissingFields) && unchanged(this)
      ensures user != "" && optionId.Some? && PollIndex(old(polls), pollId) == -1 ==>
                r == Err(NotFound) && unchanged(this)
      ensures user != "" && optionId.Some? && PollIndex(old(polls), pollId) != -1
              && old(polls)[PollIndex(old(polls), pollId)].endTime <= now ==>
                r == Err(PollEnded) && unchanged(this)
      ensures user != "" && optionId.Some? && PollIndex(old(polls), pollId) != -1
              && now < old(polls)[PollIndex(old(polls), pollId)].endTime
              && !(0 <= optionId.value < |old(polls)[PollIndex(old(polls), pollId)].options|) ==>
                r == Err(InvalidOption) && unchanged(this)
      ensures user != "" && optionId.Some? && PollIndex(old(polls), pollId) != -1
              && now < old(polls)[PollIndex(old(polls), pollId)].endTime
              && 0 <= optionId.value < |old(polls)[PollIndex(old(polls), pollId)].options| ==>
                var k := PollIndex(old(polls), pollId);
                && polls == old(polls)[k := VotedPoll(old(polls)[k], Lower(user), optionId.value)]
                && r == (if saveOk then Ok(polls[k]) else Err(SaveFailed))
                && posts == old(posts) && reactions == old(reactions)
                && comments == old(comments) && profiles == old(profiles)
      ensures old(Valid()) ==> Valid()
    {
      if user == "" || optionId.None? {
        return Err(MissingFields);
      }
      var userAddress := Lower(user);
      var pollIndex := PollIndex(polls, pollId);
      if pollIndex == -1 {
        return Err(NotFound);
      }
      var poll := polls[pollIndex];
      if poll.endTime <= now {
        return Err(PollEnded);
      }
      var target := optionId.value;
      if !(0 <= target < |poll.options|) {
        return Err(InvalidOption);
      }
      var options := ClearVoter(poll.options, userAddress);
      options := options[target := options[target].(voters := options[target].voters + [userAddress])];
      options := options[target := options[target].(votes := options[target].votes + 1)];
      assert options == Cast(poll.options, userAddress, target);
      var total := Recount(options);
      options := Recalculate(options, total);
      poll := poll.(options := options, totalVotes := total);
      polls := polls[pollIndex := poll];
      if old(Valid()) {
        VoteKeepsPollOk(old(polls)[pollIndex], userAddress, target);
      }
      if !saveOk {
        return Err(SaveFailed);
      }
      r := Ok(poll);
    }

    /** DELETE /polls/:pollId. A failed write is reported, but the poll is
        already gone from memory. */
    method DeletePoll(pollId: string, user: string, saveOk: bool) returns (r: Result<()>)
      modifies this
      ensures user == "" ==> r == Err(MissingFields) && unchanged(this)
      ensures user != "" && PollIndex(old(polls), pollId) == -1 ==> r == Err(NotFound) && unchanged(this)
      ensures user != "" && PollIndex(old(polls), pollId) != -1
              && !SameIdentity(old(polls)[PollIndex(old(polls), pollId)].author, user) ==>
                r == Err(Forbidden) && unchanged(this)
      ensures user != "" && PollIndex(old(polls), pollId) != -1
              && SameIdentity(old(polls)[PollIndex(old(polls), pollId)].author, user) ==>
                && polls == RemoveAt(old(polls), PollIndex(old(polls), pollId))
                && r == (if saveOk then Ok(()) else Err(SaveFailed))
                && posts == old(posts) && reactions == old(reactions)
                && comments == old(comments) && profiles == old(profiles)
      ensures old(Valid()) ==> Valid()
    {
      if user == "" {
        return Err(MissingFields);
      }
      var pollIndex := PollIndex(polls, pollId);
      if pollIndex == -1 {
        return Err(NotFound);
      }
      if Lower(polls[pollIndex].author) != Lower(user) {
        return Err(Forbidden);
      }
      polls := RemoveAt(polls, pollIndex);
      if !saveOk {
        return Err(SaveFailed);
      }
      r := Ok(());
    }

    /** GET /profiles/:address */
    function ProfileOf(address: string): (r: Result<Profile>)
      reads this
      ensures r.Ok? <==> Lower(address) in profiles
      ensures r.Ok? ==> r.value == profiles[Lower(address)] && r.value in AllProfiles()
      ensures r.Err? ==> r.failure == NotFound
    {
      if Lower(address) in profiles then Ok(profiles[Lower(address)]) else Err(NotFound)
    }

    /** GET /profiles, as a set: the order of `Object.values` is not modelled. */
    function AllProfiles(): (s: set<Profile>)
      reads this
      ensures forall key :: key in profiles ==> profiles[key] in s
      ensures forall p :: p in s ==> exists key :: key in profiles && profiles[key] == p
    {
      profiles.Values
    }

    /** GET /posts */
    function Feed(): (v: seq<FeedPost>)
      reads this
      ensures |v| == |posts|
      ensures forall i :: 0 <= i < |v| ==> v[i].post == posts[i] && !v[i].userHasLiked
      ensures forall i :: 0 <= i < |v| ==>
                v[i].commentsList.Some? && v[i].comments == |v[i].commentsList.value| && v[i].likedBy.Some?
      ensures Valid() ==> forall i :: 0 <= i < |v| ==>
                v[i].likes == |v[i].likedBy.value| && NoDup(v[i].likedBy.value)
      ensures forall i :: 0 <= i < |v| ==> v[i] == EnrichPost(posts[i], reactions, comments, profiles)
    {
      EnrichAll(posts, reactions, comments, profiles)
    }

    /** GET /polls */
    function PollViews(now: int): (v: seq<PollView>)
      reads this
      ensures |v| == |polls|
      ensures forall i :: 0 <= i < |v| ==> (v[i].poll.isActive <==> now < polls[i].endTime)
      ensures forall i :: 0 <= i < |v| ==> v[i].poll.(isActive := polls[i].isActive) == polls[i]
      ensures forall i :: 0 <= i < |v| ==> v[i] == EnrichPoll(polls[i], profiles, now)
    {
      seq(|polls|, i requires 0 <= i < |polls| reads this => EnrichPoll(polls[i], profiles, now))
    }

    /** GET /polls/:pollId */
    function PollById(pollId: string, now: int): (r: Result<PollView>)
      reads this
      ensures r.Err? <==> forall i :: 0 <= i < |polls| ==> polls[i].id != pollId
      ensures r.Err? ==> r.failure == NotFound
      ensures r.Ok? ==> r.value == PollViews(now)[PollIndex(polls, pollId)] && r.value.poll.id == pollId
    {
      var k := PollIndex(polls, pollId);
      if k == -1 then Err(NotFound) else Ok(EnrichPoll(polls[k], profiles, now))
    }
  }

  /** One step of the vote handler's first `forEach`: `indexOf`, then `splice` and a count floored at 0. */
  method LeaveOption(option: PollOption, voter: string) returns (left: PollOption)
    ensures left == Unvote(option, voter)
  {
    left := option;
    var voterIndex := IndexOf(left.voters, voter);
    if voterIndex > -1 {
      left := left.(voters := RemoveAt(left.voters, voterIndex));
      left := left.(votes := Max(0, left.votes - 1));
    }
  }

  /** The first `forEach` of the vote handler: the voter leaves every option. */
  method ClearVoter(options: seq<PollOption>, voter: string) returns (cleared: seq<PollOption>)
    ensures |cleared| == |options|
    ensures forall j :: 0 <= j < |options| ==> cleared[j] == Unvote(options[j], voter)
  {
    cleared := options;
    var i := 0;
    while i < |cleared|
      invariant 0 <= i <= |cleared| == |options|
      invariant forall j :: 0 <= j < i ==> cleared[j] == Unvote(options[j], voter)
      invariant forall j :: i <= j < |cleared| ==> cleared[j] == options[j]
    {
      var option := LeaveOption(cleared[i], voter);
      cleared := cleared[i := option];
      i := i + 1;
    }
  }

  /** `options.reduce((sum, opt) => sum + opt.votes, 0)` */
  method Recount(options: seq<PollOption>) returns (total: int)
    ensures total == SumVotes(options)
  {
    total := 0;
    var i := 0;
    while i < |options|
      invariant 0 <= i <= |options|
      invariant total == SumVotes(options[..i])
    {
      SumVotesAppend(options[..i], options[i]);
      assert options[..i + 1] == options[..i] + [options[i]];
      total := total + options[i].votes;
      i := i + 1;
    }
    assert options[..i] == options;
  }

  /** The second `forEach`: every percentage recomputed against `total`. */
  method Recalculate(options: seq<PollOption>, total: int) returns (tallied: seq<PollOption>)
    ensures tallied == WithPercentages(options, total)
  {
    tallied := options;
    var i := 0;
    while i < |tallied|
      invariant 0 <= i <= |tallied| == |options|
      invariant forall j :: 0 <= j < i ==> tallied[j] == options[j].(percentage := Percentage(options[j].votes, total))
      invariant forall j :: i <= j < |tallied| ==> tallied[j] == options[j]
    {
      tallied := tallied[i := tallied[i].(percentage := Percentage(tallied[i].votes, total))];
      i := i + 1;
    }
  }
}
