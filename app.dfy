/** The pure helpers of the client's main component: names and addresses as
    shown, the post editor's insertions under its character cap, the saved
    posts toggle, and the poll creation and optimistic vote. Selections are
    the editor's `selectionStart`/`selectionEnd`, which the browser keeps
    within the text and in order. */
module App {
  import opened Text
  import opened Seqs
  import opened Records
  import opened Tally
  import opened Store
  import opened Hooks

  const MaxCharacters := 1000
  const HourMillis := 60 * 60 * 1000

  /** `getDisplayName(address, profile)` */
  function DisplayName(address: string, profile: Option<Profile>): (r: string)
    ensures profile.Some? && profile.value.displayName != "" ==> r == profile.value.displayName
    ensures !(profile.Some? && profile.value.displayName != "") ==> r == FallbackName(address)
    ensures r != ""
  {
    if profile.Some? && profile.value.displayName != "" then profile.value.displayName
    else FallbackName(address)
  }

  /** A profile the client made up for an address shows the same name as no profile at all. */
  lemma DefaultProfileDisplay(address: string, now: int)
    ensures DisplayName(address, Some(DefaultProfile(address, now))) == DisplayName(address, None)
  {
  }

  /** `formatAddress(address)` */
  function FormatAddress(address: string): (r: string)
    ensures address == "" <==> r == ""
    ensures address != "" ==> r == First(address, 6) + "..." + Last(address, 4)
  {
    if address == "" then "" else First(address, 6) + "..." + Last(address, 4)
  }

  /** A full account address (0x and 40 hex digits) shows as 13 characters:
      its first six, three dots, its last four. */
  lemma FormatFullAddress(address: string)
    requires |address| == 42
    ensures var r := FormatAddress(address);
            |r| == 13 && r[..6] == address[..6] && r[6..9] == "..." && r[9..] == address[38..]
  {
  }

  /** `text.slice(0, start) + inserted + text.slice(end)` */
  function Splice(text: string, start: int, end: int, inserted: string): (r: string)
    requires 0 <= start <= end <= |text|
    ensures |r| == |text| - (end - start) + |inserted|
    ensures r[..start] == text[..start]
    ensures r[start..start + |inserted|] == inserted
    ensures r[start + |inserted|..] == text[end..]
  {
    text[..start] + inserted + text[end..]
  }

  /** Splicing the replaced text back over the insertion undoes it. */
  lemma SpliceUndo(text: string, start: int, end: int, inserted: string)
    requires 0 <= start <= end <= |text|
    ensures Splice(Splice(text, start, end, inserted), start, start + |inserted|, text[start..end]) == text
  {
    var once := Splice(text, start, end, inserted);
    assert once[..start] + text[start..end] + once[start + |inserted|..] == text[..start] + text[start..end] + text[end..];
    assert text[..start] + text[start..end] + text[end..] == text;
  }

  /** The editor takes a new text only when it fits the cap. */
  function Capped(text: string, candidate: string): (r: string)
    ensures |candidate| <= MaxCharacters ==> r == candidate
    ensures |candidate| > MaxCharacters ==> r == text
  {
    if |candidate| <= MaxCharacters then candidate else text
  }

  /** `handleEmojiClick(emoji)`: the emoji replaces the selection. */
  function InsertEmoji(text: string, start: int, end: int, emoji: string): (r: string)
    requires 0 <= start <= end <= |text|
    ensures |text| <= MaxCharacters ==> |r| <= MaxCharacters
    ensures |Splice(text, start, end, emoji)| <= MaxCharacters ==> r == Splice(text, start, end, emoji)
    ensures |Splice(text, start, end, emoji)| > MaxCharacters ==> r == text
  {
    Capped(text, Splice(text, start, end, emoji))
  }

  datatype Format = Bold | Italic | Underline | Code

  /** The marker written on each side of the selection. */
  function Marker(f: Format): (m: string)
    ensures 1 <= |m| <= 2
  {
    match f
    case Bold => "**"
    case Italic => "*"
    case Underline => "__"
    case Code => "`"
  }

  /** `applyFormatting(format)`: an empty selection changes nothing; otherwise
      the selection is wrapped in the format's marker, if the result fits. */
  function ApplyFormatting(text: string, start: int, end: int, f: Format): (r: string)
    requires 0 <= start <= end <= |text|
    ensures start == end ==> r == text
    ensures start < end && |text| + 2 * |Marker(f)| <= MaxCharacters ==>
              r == Splice(text, start, end, Marker(f) + text[start..end] + Marker(f))
    ensures start < end && |text| + 2 * |Marker(f)| > MaxCharacters ==> r == text
    ensures |text| <= MaxCharacters ==> |r| <= MaxCharacters
  {
    if start == end then text
    else
      var selected := text[start..end];
      Capped(text, Splice(text, start, end, Marker(f) + selected + Marker(f)))
  }

  /** The pieces of a selection wrapped in a marker. */
  lemma WrapSlices(text: string, start: int, end: int, m: string)
    requires 0 <= start <= end <= |text|
    ensures var r := Splice(text, start, end, m + text[start..end] + m);
            var n := end - start;
            && |r| == |text| + 2 * |m|
            && r[start..start + |m|] == m
            && r[start + |m|..start + |m| + n] == text[start..end]
            && r[start + |m| + n..start + 2 * |m| + n] == m
            && r[start + 2 * |m| + n..] == text[end..]
  {
    var wrapped := m + text[start..end] + m;
    var r := Splice(text, start, end, wrapped);
    var n := end - start;
    assert r[start..start + |wrapped|] == wrapped;
    assert r[start..start + |m|] == r[start..start + |wrapped|][..|m|];
    assert r[start + |m|..start + |m| + n] == r[start..start + |wrapped|][|m|..|m| + n];
    assert r[start + |m| + n..start + 2 * |m| + n] == r[start..start + |wrapped|][|m| + n..];
  }

  /** Formatting only adds markers: taking them off again gives back the text. */
  lemma FormattingRoundTrip(text: string, start: int, end: int, f: Format)
    requires 0 <= start < end <= |text| && |text| + 2 * |Marker(f)| <= MaxCharacters
    ensures var r := ApplyFormatting(text, start, end, f);
            var m := |Marker(f)|;
            var n := end - start;
            && |r| == |text| + 2 * m
            && r[start..start + m] == Marker(f) && r[start + m + n..start + 2 * m + n] == Marker(f)
            && r[..start] + r[start + m..start + m + n] + r[start + 2 * m + n..] == text
  {
    var m, n := Marker(f), end - start;
    var r := ApplyFormatting(text, start, end, f);
    assert r == Splice(text, start, end, m + text[start..end] + m);
    WrapSlices(text, start, end, m);
    assert r[..start] == text[..start];
    assert r[start + |m|..start + |m| + n] == text[start..end];
    assert r[start + 2 * |m| + n..] == text[end..];
    assert text[..start] + text[start..end] + text[end..] == text;
  }

  datatype Template = Bulleted | Numbered | Hashtag | Mention | Divider

  function TemplateText(t: Template): (s: string)
    ensures s != ""
  {
    match t
    case Bulleted => "• \n• \n• "
    case Numbered => "1. \n2. \n3. "
    case Hashtag => "#MonadSocial #DeFi #Crypto "
    case Mention => "@username "
    case Divider => "\n────────────\n"
  }

  /** `insertTemplate(template)`: the template goes in at the caret, the selection stays. */
  function InsertTemplate(text: string, start: int, t: Template): (r: string)
    requires 0 <= start <= |text|
    ensures |text| <= MaxCharacters ==> |r| <= MaxCharacters
    ensures |text| + |TemplateText(t)| <= MaxCharacters ==> r == Splice(text, start, start, TemplateText(t))
    ensures |text| + |TemplateText(t)| > MaxCharacters ==> r == text
  {
    Capped(text, Splice(text, start, start, TemplateText(t)))
  }

  /** An accepted insertion can be taken back out, leaving the text as it was. */
  lemma InsertionUndo(text: string, start: int, end: int, emoji: string, t: Template)
    requires 0 <= start <= end <= |text|
    ensures var r := InsertEmoji(text, start, end, emoji);
            |text| - (end - start) + |emoji| <= MaxCharacters ==> Splice(r, start, start + |emoji|, text[start..end]) == text
    ensures var r := InsertTemplate(text, start, t);
            |text| + |TemplateText(t)| <= MaxCharacters ==> Splice(r, start, start + |TemplateText(t)|, "") == text
  {
    SpliceUndo(text, start, end, emoji);
    SpliceUndo(text, start, start, TemplateText(t));
    assert text[start..start] == "";
  }

  /** The `setSavedPosts` updater of `handleSavePost`. */
  function ToggleSaved(saved: seq<string>, postId: string): (r: seq<string>)
    ensures (postId in r) == (postId !in saved)
    ensures forall x :: x != postId ==> (x in r <==> x in saved)
    ensures postId !in saved ==> r == saved + [postId]
    ensures postId in saved ==> r == Without(saved, postId)
  {
    if postId in saved then Without(saved, postId) else saved + [postId]
  }

  /** Saving and unsaving a post that was not saved gives the list back. */
  lemma ToggleSavedTwice(saved: seq<string>, postId: string)
    requires postId !in saved
    ensures ToggleSaved(ToggleSaved(saved, postId), postId) == saved
  {
    WithoutAppended(saved, postId);
  }

  /** The action `handleSavePost` picks: unsave a saved post, else save it. */
  function SaveActionFor(saved: seq<string>, postId: string): SaveAction {
    if postId in saved then Unsave else Save
  }

  /** The client's local toggle and the server's saved-posts update, applied
      to the same list with the action the client picks, give the same list. */
  lemma ToggleSavedMatchesServer(server: map<string, seq<string>>, address: string, postId: string)
    requires Lower(address) in server
    ensures var list := server[Lower(address)];
            SavedAfter(server, address, postId, SaveActionFor(list, postId))[Lower(address)]
            == ToggleSaved(list, postId)
  {
  }

  /** `pollOptions.filter(opt => opt.trim())` */
  function ValidOptions(options: seq<string>): (r: seq<string>)
    ensures |r| <= |options|
    ensures forall i :: 0 <= i < |r| ==> Trim(r[i]) != "" && r[i] in options
    ensures forall x :: x in options && Trim(x) != "" ==> x in r
  {
    if options == [] then []
    else
      var rest := ValidOptions(options[1..]);
      assert forall x :: x in options ==> x == options[0] || x in options[1..];
      if Trim(options[0]) != "" then [options[0]] + rest else rest
  }

  /** One option is kept exactly when it is not blank. */
  lemma ValidOptionsSingle(x: string)
    ensures ValidOptions([x]) == if Trim(x) != "" then [x] else []
  {
    assert [x][1..] == [];
  }

  /** The filter works option by option: it keeps the order and keeps each
      non-blank option as often as it is entered. */
  lemma {:induction false} ValidOptionsAppend(a: seq<string>, b: seq<string>)
    ensures ValidOptions(a + b) == ValidOptions(a) + ValidOptions(b)
  {
    if a == [] {
      assert a + b == b;
    } else {
      assert (a + b)[1..] == a[1..] + b;
      ValidOptionsAppend(a[1..], b);
    }
  }

  /** The poll `handleCreatePoll` builds and sends, or None when it refuses.
      `txHash` is the made-up hash the client attaches. */
  function ClientNewPoll(question: string, options: seq<string>, duration: int, account: string,
                         now: int, txHash: string): (p: Option<Poll>)
    ensures p.None? <==> Trim(question) == "" || |ValidOptions(options)| < 2
    ensures p.Some? ==> p.value.id == "poll_" + account + "_" + IntToString(now)
    ensures p.Some? ==> p.value.question == Trim(question) && p.value.author == account
    ensures p.Some? ==>
              && |p.value.options| == |ValidOptions(options)|
              && (forall i :: 0 <= i < |p.value.options| ==>
                    p.value.options[i] == PollOption(i, Trim(ValidOptions(options)[i]), 0, 0, []))
    ensures p.Some? ==> p.value.duration == duration && p.value.endTime == now + duration * HourMillis
    ensures p.Some? ==> p.value.totalVotes == 0 && p.value.isActive
    ensures p.Some? ==> p.value.timestamp == Seconds(now) && p.value.txHash == Some(txHash)
  {
    var valid := ValidOptions(options);
    if Trim(question) == "" || |valid| < 2 then None
    else
      Some(Poll(
        "poll_" + account + "_" + IntToString(now), Trim(question),
        seq(|valid|, i requires 0 <= i < |valid| => PollOption(i, Trim(valid[i]), 0, 0, [])),
        duration, now + duration * HourMillis, account, 0, true, Seconds(now), Some(txHash)))
  }

  /** A poll the client builds is well formed. */
  lemma ClientPollOk(question: string, options: seq<string>, duration: int, account: string, now: int, txHash: string)
    requires ClientNewPoll(question, options, duration, account, now, txHash).Some?
    ensures PollOk(ClientNewPoll(question, options, duration, account, now, txHash).value)
  {
    SumVotesAllZero(ClientNewPoll(question, options, duration, account, now, txHash).value.options);
  }

  /** The body the client posts for a new poll, as the server reads it. */
  function RequestOf(p: Poll): (req: PollRequest)
    ensures req.id == p.id && req.question == p.question && req.author == p.author
    ensures req.duration == p.duration && req.endTime == p.endTime
    ensures req.timestamp == p.timestamp && req.txHash == p.txHash
    ensures |req.options| == |p.options| && forall i :: 0 <= i < |p.options| ==> req.options[i] == p.options[i].text
  {
    PollRequest(p.id, p.question, seq(|p.options|, i requires 0 <= i < |p.options| => p.options[i].text),
                p.duration, p.endTime, p.author, p.timestamp, p.txHash)
  }

  /** The server accepts a poll the client builds for a connected account,
      and stores the client's poll: the same id, question, author, options
      and hash, and the client's duration, end time and timestamp wherever
      they are non-zero (a zero one is replaced by the server's default). */
  lemma ServerAcceptsClientPoll(question: string, options: seq<string>, duration: int, account: string,
                                now: int, txHash: string, serverNow: int)
    requires account != "" && ClientNewPoll(question, options, duration, account, now, txHash).Some?
    ensures var p := ClientNewPoll(question, options, duration, account, now, txHash).value;
            !MissingPollFields(RequestOf(p))
            && NewPoll(RequestOf(p), serverNow).options == p.options
            && NewPoll(RequestOf(p), serverNow).id == p.id
            && NewPoll(RequestOf(p), serverNow).question == p.question
            && NewPoll(RequestOf(p), serverNow).author == p.author
            && NewPoll(RequestOf(p), serverNow).txHash == p.txHash
            && NewPoll(RequestOf(p), serverNow).totalVotes == p.totalVotes
            && NewPoll(RequestOf(p), serverNow).isActive == p.isActive
    ensures var p := ClientNewPoll(question, options, duration, account, now, txHash).value;
            (p.duration != 0 ==> NewPoll(RequestOf(p), serverNow).duration == p.duration)
            && (p.endTime != 0 ==> NewPoll(RequestOf(p), serverNow).endTime == p.endTime)
            && (p.timestamp != 0 ==> NewPoll(RequestOf(p), serverNow).timestamp == p.timestamp)
    ensures var p := ClientNewPoll(question, options, duration, account, now, txHash).value;
            p.duration != 0 && p.endTime != 0 && p.timestamp != 0 ==> NewPoll(RequestOf(p), serverNow) == p
  {
  }

  /** One option in the optimistic vote: the voter filtered out, then added
      back where the option's id is the chosen one; the count is the list's length. */
  function ClientOption(o: PollOption, voter: string, optionId: int): (r: PollOption)
    ensures r.votes == |r.voters| && r.id == o.id && r.text == o.text
    ensures voter in r.voters <==> o.id == optionId
  {
    var cleaned := Without(o.voters, voter);
    if o.id == optionId then o.(voters := cleaned + [voter], votes := |cleaned| + 1)
    else o.(voters := cleaned, votes := |cleaned|)
  }

  /** `poll.options.map(...)`: every option through `ClientOption`. */
  function ClientOptions(options: seq<PollOption>, voter: string, optionId: int): (r: seq<PollOption>)
    ensures |r| == |options|
    ensures forall i :: 0 <= i < |r| ==> r[i] == ClientOption(options[i], voter, optionId)
  {
    seq(|options|, i requires 0 <= i < |options| => ClientOption(options[i], voter, optionId))
  }

  /** The matching poll after the optimistic vote of `handleVotePoll`. */
  function ClientVotePoll(p: Poll, voter: string, optionId: int): (q: Poll)
    ensures |q.options| == |p.options|
    ensures forall i :: 0 <= i < |q.options| ==> q.options[i].votes == |q.options[i].voters|
    ensures forall i :: 0 <= i < |q.options| ==> (voter in q.options[i].voters <==> p.options[i].id == optionId)
    ensures forall i, w :: 0 <= i < |q.options| && w != voter ==>
              (w in q.options[i].voters <==> w in p.options[i].voters)
    ensures q.totalVotes == SumVotes(q.options) && Tallied(q.options, q.totalVotes)
  {
    var updated := ClientOptions(p.options, voter, optionId);
    var total := SumVotes(updated);
    var tallied := WithPercentages(updated, total);
    SumVotesSameCounts(tallied, updated);
    p.(options := tallied, totalVotes := total)
  }

  /** The `setPolls` updater of `handleVotePoll`. */
  function OptimisticVote(polls: seq<Poll>, pollId: string, account: string, optionId: int): (r: seq<Poll>)
    ensures |r| == |polls|
    ensures forall i :: 0 <= i < |polls| && polls[i].id != pollId ==> r[i] == polls[i]
    ensures forall i :: 0 <= i < |polls| && polls[i].id == pollId ==> r[i] == ClientVotePoll(polls[i], Lower(account), optionId)
  {
    seq(|polls|, i requires 0 <= i < |polls| =>
      if polls[i].id == pollId then ClientVotePoll(polls[i], Lower(account), optionId) else polls[i])
  }

  /** On a well-formed option the client's filter-and-count is the server's
      `indexOf`, `splice` and floored decrement. */
  lemma ClientOptionIsServerStep(o: PollOption, voter: string, optionId: int)
    requires OptionOk(o)
    ensures ClientOption(o, voter, optionId)
            == if o.id == optionId then CastVote(Unvote(o, voter), voter) else Unvote(o, voter)
  {
    UnvoteOk(o, voter);
    if voter in o.voters {
      WithoutLength(o.voters, voter);
    } else {
      WithoutAbsent(o.voters, voter);
    }
  }

  /** The optimistic tally is the tally the server stores, for any poll that
      keeps the server's invariant and any option it accepts. */
  lemma ClientVoteAgreesWithServer(p: Poll, voter: string, target: int)
    requires PollOk(p) && 0 <= target < |p.options|
    ensures ClientVotePoll(p, voter, target) == VotedPoll(p, voter, target)
  {
    ClientOptionsAreCast(p, voter, target);
  }

  /** The client's options after the vote are the server's cast options. */
  lemma ClientOptionsAreCast(p: Poll, voter: string, target: int)
    requires PollOk(p) && 0 <= target < |p.options|
    ensures ClientOptions(p.options, voter, target) == Cast(p.options, voter, target)
  {
    var updated := ClientOptions(p.options, voter, target);
    var cast := Cast(p.options, voter, target);
    forall i | 0 <= i < |p.options| ensures updated[i] == cast[i] {
      ClientOptionAt(p, voter, target, i);
    }
  }

  /** Option by option, on a poll whose option ids are their positions. */
  lemma ClientOptionAt(p: Poll, voter: string, target: int, i: int)
    requires PollOk(p) && 0 <= target < |p.options| && 0 <= i < |p.options|
    ensures ClientOption(p.options[i], voter, target) == Cast(p.options, voter, target)[i]
  {
    ClientOptionIsServerStep(p.options[i], voter, target);
  }
}
