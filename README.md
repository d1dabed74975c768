# MonadSocial content store, modelled in Dafny

MonadSocial is a small social feed: a wallet address writes posts, likes and
comments on them, keeps a profile, and runs polls. Its back end keeps five
collections in memory: the posts (newest first), the reactions and the
comments (both keyed by post id), the profiles (keyed by the lowercased
address) and the polls (newest first). One Express handler updates each of
them, and the whole store is written to JSON files now and then. The web
client mirrors several of these updates optimistically on its own copy of
the feed and the polls, and adds editor helpers of its own.

This project models:

- `Server.ContentStore`: a class over those five collections. It has one
  method per mutating handler:
  - profile upsert;
  - create, like, comment, edit and delete a post;
  - create, vote on and delete a poll.

  Each method states every error response and the whole new state, and
  keeps the store invariant `Valid()`:
  - every like count counts a duplicate-free list of likers;
  - every poll has one vote per identity, a total equal to the sum of its
    counts, and percentages computed from that total.

  The read handlers are functions of the store.
- `Tally`: the vote as a function of the poll. It proves that the invariant
  is kept, that voting twice for the same option changes nothing, and how
  far the rounded percentages can stray from 100.
- `Store`: the pure parts of the handlers:
  - the records built from request bodies;
  - the like toggle;
  - the lookups by id;
  - the GET views;
  - the saved-posts list update.
- `Hooks`: the client's post-list hook:
  - the optimistic like, comment and delete, each proved to agree with
    what a reload from the server shows;
  - the like and ownership tests;
  - the newest-first sort and the per-user count;
  - the profile lookup with its cache and fallback profile.
- `App`: the client's main component:
  - display names and short addresses;
  - the 1000-character editor's emoji, format and template insertions,
    with their undo and round-trip lemmas;
  - the saved-posts toggle;
  - poll creation, and the optimistic vote proved equal to the server's
    tally on every well-formed poll.
- `Text` and `Seqs`: the JavaScript string and array built-ins the code
  relies on.
- `Scenarios`: short call sequences on the store:
  - a like, then an unlike;
  - a delete refused to a non-author, then allowed to the author;
  - a profile saved twice;
  - a vote moved from one option to another, then a vote after the poll
    has ended.

Conventions of the model:

- A missing or empty string field is `""`, and a missing or zero number is
  `0`. These are the cases JavaScript's `||` and `!` treat alike.
- `null` is `None`.
- Times are parameters. `now` is `Date.now()` in milliseconds. Post and
  comment timestamps are `now / 1000`. ISO date strings are the instant
  they print.
- The clock reads a time after the epoch (`now > 0`). A stored time of 0
  stands for a missing one, which is why `Store.UpsertKeepsJoinedDate`
  asks for a non-zero first clock reading.
- The outcome of a synchronous write is the parameter `saveOk`. Only the
  poll handlers branch on it.
- A character stands for one UTF-16 code unit, which is what `length` and
  `slice` count.

Where the code and its design description disagree, the model follows the code:

- **Percentages can sum to more than 101.** The description says a tally's
  percentages add up to 99–101. In the code each percentage is rounded on
  its own. With votes 1, 1, 1 and 5 the percentages are 13, 13, 13 and 63,
  which sum to 102 (`Tally.PercentSumCanReach102`). What holds for n options
  is `Tally.PercentSumBound`: 100 - n/2 < sum <= 100 + n/2.
- **A deleted id is not always gone.** "A deleted post's id then answers
  404" holds only while post ids are unique (`Store.DeletedIdGone`).
  POST /posts does not check for duplicates.
- **Create and vote change memory even when the save fails.** If the write
  fails, create-poll and vote return 500, but the in-memory change stays,
  and the next automatic save writes it out. Delete-poll does the same.
  The model states this: a failed save gives `Err(SaveFailed)` with the
  new state.
- **The status codes follow the code.** "Poll has ended" and "Invalid
  option ID" are 400 responses.
- **`joinedDate` is kept only when it is truthy.** The profile upsert
  keeps `joinedDate` only when the stored one is truthy; otherwise it uses
  the current time.

## Model

| member | source | states |
|---|---|---|
| Text.Lower | backend/server.js:122 | lowercasing keeps the length, turns each capital A-Z into its own small letter (code point + 32) and keeps every other character |
| Text.LowerIdempotent | backend/server.js:351 | a lowercased identity lowercases to itself, so comparing lowercased identities is stable |
| Text.LowerKeepsLowercase | backend/server.js:122 | an address without capitals is its own lowercased key |
| Text.Trim | backend/server.js:688 | `trim` yields the text between the first and the last non-blank character; empty exactly when the text is all white space |
| Text.TrimIdempotent | backend/server.js:709 | an edited post's trimmed content trims to itself |
| Text.Last | frontend/src/App.tsx:194 | `slice(-4)` gives the last four characters, or the whole of a shorter string |
| Text.First | frontend/src/App.tsx:846 | `slice(0, 6)` gives the first six characters, or the whole of a shorter string |
| Text.NatToString | backend/server.js:306 | a clock reading prints as decimal digits without a leading zero |
| Text.NatToStringRoundTrip | backend/server.js:306 | reading back the printed clock gives the same number, so default comment ids built at different times differ |
| Seqs.IndexOf | backend/server.js:478 | `indexOf` is -1 exactly when the element is absent, else its first position |
| Seqs.RemoveAt | backend/server.js:355 | `splice(k, 1)` removes exactly position k and keeps the rest in order |
| Seqs.Without | backend/server.js:268 | `filter(x => x !== u)` removes every occurrence of u and keeps every other element and its multiplicity |
| Seqs.WithoutSingle | backend/server.js:268 | one element is kept exactly when it is not the one filtered out |
| Seqs.WithoutAppend | backend/server.js:268 | the filter goes element by element, so the kept elements keep their order and multiplicity on any list |
| Seqs.WithoutIsRemoveAt | backend/server.js:477-482 | on a duplicate-free list, filtering out a present element is `indexOf` then `splice` |
| Seqs.WithoutLength | backend/server.js:267-268 | filtering a present element out of a duplicate-free list shortens it by one |
| Seqs.WithoutNoDup | backend/server.js:268 | filtering keeps a list of identities duplicate-free |
| Seqs.WithoutAbsent | frontend/src/App.tsx:330 | filtering out an absent identity changes nothing |
| Seqs.WithoutAppended | backend/server.js:266-273 | appending an absent identity and then filtering it out gives the list back |
| Seqs.NoDupOnce | backend/server.js:261 | a present identity occurs exactly once in a duplicate-free list |
| Seqs.RemoveAtNoDup | backend/server.js:480 | splicing keeps a voter list duplicate-free |
| Records.Failure.Status | backend/server.js:453-474 | missing fields, an ended poll and an unknown option answer 400; a non-author 403; a missing record 404; a failed save 500; each code only for those |
| Records.OrNull | backend/server.js:131 | `x \|\| null` is null exactly for an empty value |
| Records.OrNullNumber | backend/server.js:136 | `blockNumber \|\| null` is null exactly for a missing (zero) number, else the number |
| Records.OrDefault | backend/server.js:211 | `x \|\| d` is d exactly for a missing (zero) value |
| Records.Seconds | backend/server.js:211 | `Math.floor(Date.now() / 1000)` is the whole second containing now |
| Records.FallbackName | frontend/src/App.tsx:194 | the name of an address without a profile is "User " followed by its last four characters |
| Records.SameIdentity | backend/server.js:351 | two identities match exactly when they have the same length and agree character by character once capitals are lowered |
| Records.SameIdentityLowercase | backend/server.js:351 | addresses written without capitals match only themselves |
| Records.Percentage | backend/server.js:492 | `Math.round(votes / total * 100)` is the integer nearest 100·votes/total, halves upward, and 0 for a zero total |
| Records.PercentageRange | backend/server.js:492 | a share of a positive total is between 0 and 100 percent |
| Tally.Cast | backend/server.js:477-487 | the option list after the voter leaves every option and joins the chosen one; its length is kept |
| Tally.Unvote | backend/server.js:478-482 | leaving an option keeps its id, text and percentage; an absent voter changes nothing; a present one shortens the list by one and the count by one, floored at 0 |
| Tally.UnvoteMultiset | backend/server.js:478-480 | `indexOf` then `splice` takes exactly one occurrence of the voter out of the list |
| Tally.CastVote | backend/server.js:486-487 | joining an option lengthens its voter list by one and one to its count, and keeps its id, text and percentage |
| Tally.CastVoteJoins | backend/server.js:486 | `push` adds exactly one occurrence of the voter to the option's list |
| Tally.VotedPoll | backend/server.js:477-493 | a vote changes only the poll's options and total and keeps their number |
| Tally.WithPercentages | backend/server.js:491-493 | every percentage is recomputed against the total and nothing else in an option changes |
| Tally.SumVotesAppend | backend/server.js:490 | the `reduce` adds one option's votes per step, left to right |
| Tally.SumVotesSameCounts | backend/server.js:490 | the total depends only on the counts |
| Tally.UnvoteOk | backend/server.js:478-482 | leaving an option keeps its count equal to its voter list, and the list is the old one without the voter |
| Tally.CastFacts | backend/server.js:477-487 | after the vote the voter is in the chosen option only, every other identity stays where it was, and counts match lists |
| Tally.VoteKeepsPollOk | backend/server.js:477-493 | a vote keeps one vote per identity, total = sum of counts and percentages from that total |
| Tally.VoteRecordsVoter | backend/server.js:477-487 | after the vote, the voter is recorded in exactly the chosen option and every other voter is untouched |
| Tally.VoteIdempotent | backend/server.js:477-493 | voting again for the same option leaves the poll as it is |
| Tally.RecastAt | backend/server.js:477-487 | per option, re-voting for the same option gives back the same voters and counts |
| Tally.UnvoteAfterCast | backend/server.js:478-487 | leaving an option one has just joined restores it |
| Tally.RecomputeForgetsPercentages | backend/server.js:491-493 | recomputed percentages do not depend on the old ones |
| Tally.PercentSumScaled | backend/server.js:491-493 | each rounding moves a share by at most half a percent, so the sum stays within n/2 of 100·total/total |
| Tally.PercentSumBound | backend/server.js:490-493 | on a well-formed poll with votes, the percentages sum to more than 100 - n/2 and at most 100 + n/2 for n options |
| Tally.PercentSumCanReach102 | backend/server.js:491-493 | four options with votes 1, 1, 1, 5 form a well-formed poll whose percentages sum to 102 |
| Store.ProfileAt | backend/server.js:177 | `profiles[key] \|\| null` is null exactly when no profile is stored under the key, else that profile |
| Store.BuildProfile | backend/server.js:128-138 | the profile is keyed by the lowercased address; `joinedDate` is the stored truthy one, else now; `updatedDate` is now; photo, transaction hash, block number and fees are the given value or null, and the bio the given one or "" |
| Store.UpsertKeepsJoinedDate | backend/server.js:133 | a second upsert keeps the joining date of the first |
| Store.MissingPostFields | backend/server.js:202-204 | POST /posts is refused with 400 exactly when id, author or content is missing or empty |
| Store.NewPost | backend/server.js:206-214 | the new post keeps id, author, content, transaction hash and block number; its photo is the given one or null; it takes the given timestamp or now in seconds, and is not edited |
| Store.NewComment | backend/server.js:305-311 | the comment keeps the author and text; its id is the given one or `postId_author_now`; its timestamp is the given one or now in seconds |
| Store.EditPost | backend/server.js:707-712 | an edit sets trimmed content, the edit time and the edited flag and keeps id, author, photo, timestamp and chain fields |
| Store.MissingPollFields | backend/server.js:402-404 | POST /polls is refused with 400 exactly when id, question or author is missing or empty, or fewer than two options are given |
| Store.NewPoll | backend/server.js:406-423 | option i is numbered i with no votes; duration defaults to 24, end time to now + 24 h, timestamp to now in seconds; the transaction hash is kept; no votes in total |
| Store.SumVotesAllZero | backend/server.js:412 | options with no votes total zero |
| Store.NewPollOk | backend/server.js:402-423 | a poll the server accepts starts well-formed |
| Store.ReactionOf | backend/server.js:175 | a post without a reaction record reads as no likes and no likers |
| Store.ThreadOf | backend/server.js:176 | a post without comments reads as an empty list |
| Store.ToggleReaction | backend/server.js:261-274 | a liker is filtered out with the count lowered by one and floored at 0; anyone else is appended last with the count raised by one; no other liker changes |
| Store.ToggleKeepsReactionOk | backend/server.js:266-274 | likes = number of likers, with no duplicates, survives a toggle |
| Store.ToggleTwiceFromUnliked | backend/server.js:266-274 | like then unlike restores the record exactly |
| Store.ToggleTwiceFromLiked | backend/server.js:266-274 | unlike then like restores the count and the set of likers, the user now last |
| Store.PostIndex | backend/server.js:344 | `findIndex` is -1 exactly when no post has the id, else the first such post |
| Store.PollIndex | backend/server.js:459 | `findIndex` is -1 exactly when no poll has the id, else the first such poll |
| Store.DeletedIdGone | backend/server.js:344-355 | with unique ids, a deleted post's id is found no more |
| Store.EnrichPost | backend/server.js:174-186 | a feed post spreads the stored post with its reaction's count and likers, its comments and their number, and its author's profile; the like flag is false |
| Store.EnrichAll | backend/server.js:174 | GET /posts lists one view per stored post, in order |
| Store.EnrichedLikesCount | backend/server.js:181-182 | in a valid store a feed post's like count is the number of its distinct likers |
| Store.EnrichPoll | backend/server.js:379-386 | a poll reads as active exactly while its end time is in the future; nothing else differs from the stored poll |
| Store.EndedStaysEnded | backend/server.js:385 | an ended poll never becomes active again |
| Store.SavedAfter | backend/server.js:747-757 | save appends the post unless already listed, unsave filters it out, any other action keeps the list; a missing list starts empty; other users' lists are untouched |
| Store.SavedAfterNoDup | backend/server.js:751-754 | no action lists a post twice: lists without repeats stay without repeats |
| Store.SaveIdempotent | backend/server.js:751-754 | saving twice is saving once |
| Server.ContentStore.constructor | backend/server.js:27-56 | each collection starts as its saved content or the empty default; the store invariant holds at start-up whenever every loaded reaction and every loaded poll is well formed |
| Server.ContentStore.UpsertProfile | backend/server.js:118-140 | no display name gives 400 and no change; otherwise only that profile is written |
| Server.ContentStore.CreatePost | backend/server.js:198-218 | missing fields give 400; otherwise the post goes first with an empty reaction and thread, nothing else changes |
| Server.ContentStore.ToggleLike | backend/server.js:240-283 | no user gives 400, no post 404, both without change; otherwise only that reaction toggles and the reply reports the new membership |
| Server.ContentStore.AddComment | backend/server.js:291-317 | missing author or text gives 400, no post 404; otherwise the comment is appended last to that post's thread |
| Server.ContentStore.DeletePost | backend/server.js:335-357 | 400, 404 and 403 leave the store as it was; the author's delete splices the post out and drops its reaction and comments |
| Server.ContentStore.UpdatePost | backend/server.js:679-712 | no user or blank content gives 400, then 404, then 403; otherwise only that post is edited |
| Server.ContentStore.CreatePoll | backend/server.js:398-430 | missing fields give 400; otherwise the poll goes first, and a failed save answers 500 with the poll kept |
| Server.ContentStore.Vote | backend/server.js:448-501 | 400, 404, ended and invalid option leave the store as it was; otherwise the poll becomes the tallied vote, kept even when the save fails |
| Server.ContentStore.DeletePoll | backend/server.js:544-564 | 400, 404 and 403 leave the store as it was; the author's delete splices the poll out, kept out even when the save fails |
| Server.ContentStore.ProfileOf | backend/server.js:99-110 | a profile is found under the lowercased address, else 404 |
| Server.ContentStore.AllProfiles | backend/server.js:158-162 | GET /profiles lists exactly the stored profiles |
| Server.ContentStore.Feed | backend/server.js:172-186 | view i is post i enriched with the reaction and comments filed under its id and its author's profile; like counts match distinct likers in a valid store |
| Server.ContentStore.PollViews | backend/server.js:377-386 | view i is poll i with its author's profile, active exactly while the end time is ahead |
| Server.ContentStore.PollById | backend/server.js:520-534 | 404 exactly when no poll has the id, else the first such poll's view |
| Server.LeaveOption | backend/server.js:478-482 | one step of the first `forEach` leaves the option without the voter |
| Server.ClearVoter | backend/server.js:477-483 | the first `forEach` takes the voter off every option |
| Server.Recount | backend/server.js:490 | the `reduce` computes the sum of the option counts |
| Server.Recalculate | backend/server.js:491-493 | the second `forEach` sets every percentage from the total |
| Hooks.LikedPost | frontend/src/hooks/useContracts.js:289-300 | the liked post's count and likers are the server's toggle of the ones it had, and its flag says whether the account now likes it |
| Hooks.LikeUpdate | frontend/src/hooks/useContracts.js:288-304 | only posts with the id are liked; every other post is unchanged |
| Hooks.LikeMatchesServer | frontend/src/hooks/useContracts.js:288-304 | the optimistic like shows what a reload after the server's toggle shows |
| Hooks.CommentedPost | frontend/src/hooks/useContracts.js:340-345 | the comment is appended last and the count is the new list's length |
| Hooks.CommentUpdate | frontend/src/hooks/useContracts.js:338-348 | only posts with the id get the comment; every other post is unchanged |
| Hooks.ClientComment | frontend/src/hooks/useContracts.js:318-331 | no comment without an account or with blank text; else the id `postId_account_now`, the trimmed text and the time in seconds |
| Hooks.CommentRequestOf | frontend/src/hooks/useContracts.js:333-336 | the body the client posts carries the comment's id, author, text and timestamp |
| Hooks.CommentMatchesServer | frontend/src/hooks/useContracts.js:325-348 | the server accepts the client's comment and stores it as built (its id always, its timestamp when non-zero); the optimistic thread is then what a reload after the server's append shows |
| Hooks.DeleteUpdate | frontend/src/hooks/useContracts.js:370 | the filter drops every post with the id and keeps every other one |
| Hooks.DeleteUpdateSingle | frontend/src/hooks/useContracts.js:370 | one post is dropped exactly when it has the id |
| Hooks.DeleteUpdateAppend | frontend/src/hooks/useContracts.js:370 | the filter goes post by post, so the remaining posts keep their order and multiplicity |
| Hooks.DeleteAbsent | frontend/src/hooks/useContracts.js:370 | filtering an id no post has keeps the list as it is |
| Hooks.DeleteIsRemoveAt | frontend/src/hooks/useContracts.js:370 | filtering out a single post is splicing it out, the others in order |
| Hooks.DeleteMatchesServer | frontend/src/hooks/useContracts.js:370 | with unique ids the optimistic delete shows what a reload after the server's delete shows |
| Hooks.HasUserLiked | frontend/src/hooks/useContracts.js:383-386 | false without an account or a post with likers; otherwise whether the lowercased account is among the likers |
| Hooks.HasUserLikedMatchesReply | frontend/src/hooks/useContracts.js:383-386 | on a post reloaded after the server's toggle, `hasUserLiked` says what the server's like reply said |
| Hooks.HasUserLikedAfterLike | frontend/src/hooks/useContracts.js:383-386 | after a like toggle, `hasUserLiked` agrees with the post's flag and has flipped |
| Hooks.CanDeletePost | frontend/src/hooks/useContracts.js:388-391 | false without an account or an author; otherwise whether author and account agree character by character ignoring capitals |
| Hooks.CanDeleteMatchesServer | frontend/src/hooks/useContracts.js:388-391 | the client offers deletion exactly when the server's ownership check passes |
| Hooks.Enhance | frontend/src/hooks/useContracts.js:163-173 | a loaded post gets its author's profile, a timestamp defaulting to now, and the like flag `hasUserLiked` computes |
| Hooks.EnhanceAll | frontend/src/hooks/useContracts.js:162-173 | every server post is enhanced in place with its author's resolved profile |
| Hooks.InsertByTime | frontend/src/hooks/useContracts.js:175 | an insertion step of the sort adds one post and loses none |
| Hooks.InsertKeepsOrder | frontend/src/hooks/useContracts.js:175 | an insertion step keeps the list newest first |
| Hooks.SortNewestFirst | frontend/src/hooks/useContracts.js:175 | the sort is a permutation ordered by timestamp, newest first |
| Hooks.SortedFrom | frontend/src/hooks/useContracts.js:175 | the sorted list has the same length and only the posts given |
| Hooks.CountBy | frontend/src/hooks/useContracts.js:179-186 | the count is 0 exactly when no post is the account's and the length exactly when all are |
| Hooks.CountByAppend | frontend/src/hooks/useContracts.js:179-186 | the count of a list is the sum of the counts of its parts |
| Hooks.UserPostCount | frontend/src/hooks/useContracts.js:179-186 | the count is 0 without an account, else the number of posts whose author matches it case-insensitively |
| Hooks.SortKeepsCount | frontend/src/hooks/useContracts.js:175-182 | sorting does not change how many posts are the account's |
| Hooks.EnhanceKeepsCount | frontend/src/hooks/useContracts.js:163-182 | enhancing does not change the count |
| Hooks.LoadPosts | frontend/src/hooks/useContracts.js:153-186 | the loaded list is the enhanced server list, newest first, with total and per-user count taken from the server's list |
| Hooks.DefaultProfile | frontend/src/hooks/useContracts.js:68-74 | the fallback profile has "User " and the last four characters as name, no photo and an empty bio |
| Hooks.GetUserProfile | frontend/src/hooks/useContracts.js:57-79 | no address gives null; a cached profile is returned as is; else the fetched or the fallback profile, which is cached |
| Hooks.LookupCached | frontend/src/hooks/useContracts.js:59-61 | a second lookup is answered from the cache with the same profile |
| App.DisplayName | frontend/src/App.tsx:190-195 | a non-empty display name is shown as is, else "User " and the last four characters; never empty |
| App.DefaultProfileDisplay | frontend/src/App.tsx:190-195 | the client's fallback profile shows the same name as no profile |
| App.FormatAddress | frontend/src/App.tsx:844-847 | empty stays empty; otherwise the first six characters, "..." and the last four |
| App.FormatFullAddress | frontend/src/App.tsx:844-847 | a 42-character address shows as 13 characters |
| App.Capped | frontend/src/App.tsx:613-615 | an edit is taken when the new text fits 1000 characters, else the old text stays |
| App.Splice | frontend/src/App.tsx:611 | the new text is the old prefix, the insertion, then the old suffix |
| App.SpliceUndo | frontend/src/App.tsx:611 | splicing the replaced text back undoes an insertion |
| App.InsertEmoji | frontend/src/App.tsx:605-620 | the emoji replaces the selection when the result fits 1000 characters, else nothing changes; the cap is kept |
| App.ApplyFormatting | frontend/src/App.tsx:622-654 | an empty selection changes nothing; otherwise the selection is wrapped in the format's marker if the result fits, else nothing changes |
| App.WrapSlices | frontend/src/App.tsx:645 | a wrapped selection reads as prefix, marker, selection, marker, suffix |
| App.FormattingRoundTrip | frontend/src/App.tsx:622-654 | taking the markers off a formatted text gives the text back |
| App.InsertTemplate | frontend/src/App.tsx:656-679 | the template goes in at the caret when the result fits, else nothing changes; the cap is kept |
| App.InsertionUndo | frontend/src/App.tsx:605-679 | an accepted emoji or template insertion can be taken back out |
| App.ToggleSaved | frontend/src/App.tsx:424-432 | an unsaved post is appended last; a saved one is filtered out, the others kept in order |
| App.ToggleSavedTwice | frontend/src/App.tsx:424-432 | saving then unsaving a post gives the list back |
| App.ToggleSavedMatchesServer | frontend/src/App.tsx:424-432 | applied to the same list, the client's local toggle and the server's saved-posts update with the action the client picks give the same list |
| App.ValidOptions | frontend/src/App.tsx:252 | the kept options are exactly the non-blank ones |
| App.ValidOptionsSingle | frontend/src/App.tsx:252 | one option is kept exactly when it is not blank |
| App.ValidOptionsAppend | frontend/src/App.tsx:252 | the filter goes option by option, so the kept options keep their order and multiplicity |
| App.ClientNewPoll | frontend/src/App.tsx:247-283 | no poll for a blank question or fewer than two non-blank options; else trimmed options numbered in order, no votes, the given duration, end time now + duration hours, active, timestamp in seconds and the client's hash |
| App.ClientPollOk | frontend/src/App.tsx:266-283 | a poll the client builds is well-formed |
| App.RequestOf | frontend/src/App.tsx:287-291 | the body the client sends carries the poll's id, question, author, option texts, duration, end time, timestamp and hash |
| App.ServerAcceptsClientPoll | frontend/src/App.tsx:266-291 | the server accepts the client's poll and stores it: the same id, question, author, options and hash, and the client's duration, end time and timestamp where non-zero, so exactly the client's poll when all three are |
| App.ClientOption | frontend/src/App.tsx:328-343 | an option's count is its voter list's length and holds the voter exactly when it is the chosen one |
| App.ClientVotePoll | frontend/src/App.tsx:326-359 | the voter ends in exactly the chosen option, other voters stay, counts match lists, total and percentages recomputed |
| App.OptimisticVote | frontend/src/App.tsx:324-361 | only polls with the id change |
| App.ClientOptionIsServerStep | frontend/src/App.tsx:328-343 | on a well-formed option the client's filter-and-count is the server's splice and decrement |
| App.ClientVoteAgreesWithServer | frontend/src/App.tsx:324-361 | on a well-formed poll the optimistic tally is exactly the server's |

## Left out

- Persistence is not modelled: file reads and writes, JSON encoding, the 30-second automatic save, the shutdown hooks, `/health` and `/backup`. A write's outcome is the `saveOk` parameter where a handler branches on it.
- The saved-posts handler's file read and write are not modelled; its list update is `Store.SavedAfter`, on a map given as a parameter.
- `/stats` is not modelled. It is a read-only summary, and its `averagePostsPerUser` is floating point.
- Express routing, response objects and the catch-all 500 for thrown exceptions are not modelled.
- Records.Percentage: computed in exact arithmetic. The source rounds a floating-point ratio, which can differ from the exact value by one ulp at a tie.
- Text.Lower: lowercases ASCII letters only. Identities are hexadecimal addresses, and full Unicode case mapping is not modelled.
- Server.ContentStore.AllProfiles: a set, so the order of `Object.values` is not modelled.
- The profile upsert's server log line reads the profile after it is written, so it always says "updated". It is logging and is not modelled.
- The server's `option.text || option` is modelled for the option objects the client sends, whose text is never empty; `Store.PollRequest` holds their texts (`App.RequestOf`). A bare string option from another client, and an option object with an empty text, are not modelled.
- An `optionId` that is not an integer is not modelled. An `optionId` is accepted only as a position of an existing option.
- The client keeps saved posts in local state only: `handleSavePost` never calls the saved-posts endpoint. `App.ToggleSavedMatchesServer` states only that the two updates agree when applied to the same list.
- App.ToggleSaved: the source picks the action from the `savedPosts` of the last render and applies it to the updater's `prev`; the model uses one list for both, so two toggles queued within one render are not modelled.
- Hooks.SortNewestFirst: proved a newest-first permutation. That it keeps equal timestamps in their original order, as the engine's stable sort does, is not proved.
- The wallet and chain side is not modelled: `useWallet.js`, the contract calls in `useContracts.js`, the deployment script and the Solidity tests. These are foreign calls.
- The client's network checks before creating a poll or voting are not modelled. They depend on the wallet. `App.ClientNewPoll` starts after them.
- The client's random transaction hash is not modelled; it is the `txHash` parameter of `App.ClientNewPoll`.
- UI code is not modelled: JSX, `renderFormattedText`, photo encoding, `confirm`/`alert`, polling timers, caret placement after an insertion, and `formatTime`.
- App.ApplyFormatting: only the four format names the editor's buttons pass are modelled. Any other name would leave the selection as it is.
- App.InsertTemplate: only the five template keys are modelled. Any other key would insert the text "undefined".
- Selections are assumed to lie within the text, with start <= end, as the browser guarantees.
