/** Behaviours of the content store followed call by call, each step's
    outcome fixed by the handlers' contracts alone. */
module Scenarios {
  import opened Text
  import opened Seqs
  import opened Records
  import opened Tally
  import opened Store
  import opened Server

  const Alice := "0xa11ce"
  const Bob := "0xb0b"

  /** A like then an unlike by the same user leave no like behind. */
  method LikeThenUnlike() {
    var store := new ContentStore(None, None, None, None, None);
    var created := store.CreatePost(PostRequest("p1", "hello", "", Alice, 0, None, None), 5000);
    assert created.Ok? && store.posts[0].id == "p1";
    LowerKeepsLowercase(Bob);
    var liked := store.ToggleLike("p1", Bob);
    assert liked == Ok(LikeReply(1, true));
    var unliked := store.ToggleLike("p1", Bob);
    assert unliked == Ok(LikeReply(0, false));
    assert store.reactions["p1"] == Reaction(0, []);
  }

  /** Only the author may delete a post; anyone else is refused and nothing changes. */
  method DeleteByOtherRefused() {
    var store := new ContentStore(None, None, None, None, None);
    var _ := store.CreatePost(PostRequest("p1", "hello", "", Alice, 0, None, None), 5000);
    LowerKeepsLowercase(Alice);
    SameIdentityLowercase(Alice, Bob);
    var refused := store.DeletePost("p1", Bob);
    assert refused == Err(Forbidden) && |store.posts| == 1;
    var deleted := store.DeletePost("p1", Alice);
    assert deleted == Ok(()) && store.posts == [] && "p1" !in store.reactions;
    var again := store.ToggleLike("p1", Bob);
    assert again == Err(NotFound);
  }

  /** A second profile save keeps the date the profile was first made. */
  method ProfileKeepsJoinDate() {
    var store := new ContentStore(None, None, None, None, None);
    var first := store.UpsertProfile(Alice, ProfileRequest("Alice", "", "", "", 0, ""), 1000);
    var second := store.UpsertProfile(Alice, ProfileRequest("Al", "", "hi", "", 0, ""), 9000);
    assert first.Ok? && second.Ok?;
    assert second.value.joinedDate == 1000 && second.value.displayName == "Al";
  }

  /** A vote moved from one option to another leaves the voter in the second only. */
  method VoteMoves() {
    var store := new ContentStore(None, None, None, None, None);
    var req := PollRequest("q1", "Tea or coffee?", ["tea", "coffee"], 0, 0, Alice, 0, None);
    var created := store.CreatePoll(req, 1000, true);
    assert created.Ok? && store.Valid();
    LowerKeepsLowercase(Bob);
    var first := store.Vote("q1", Bob, Some(0), 2000, true);
    assert first.Ok? && Bob in store.polls[0].options[0].voters;
    var second := store.Vote("q1", Bob, Some(1), 3000, true);
    assert second.Ok?;
    var poll := store.polls[0];
    VoteRecordsVoter(first.value, Bob, 1);
    assert Bob !in poll.options[0].voters && Bob in poll.options[1].voters;
    assert PollOk(poll);
    var late := store.Vote("q1", Bob, Some(0), 1000 + DayMillis, true);
    assert late == Err(PollEnded);
  }
}
