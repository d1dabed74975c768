/** The poll tally of the server's vote handler, as functions of the poll
    before the vote: take the voter off every option, add them to the chosen
    one, total the votes and recompute every percentage from scratch. */
module Tally {
  import opened Seqs
  import opened Records

  /** An option's voters form a set and `votes` counts them. */
  predicate OptionOk(o: PollOption) {
    o.votes == |o.voters| && NoDup(o.voters)
  }

  /** No identity sits in the voter lists of two different options. */
  predicate SingleVote(opts: seq<PollOption>) {
    forall i, j, v :: 0 <= i < j < |opts| && v in opts[i].voters ==> v !in opts[j].voters
  }

  /** `options.reduce((sum, opt) => sum + opt.votes, 0)` */
  function SumVotes(opts: seq<PollOption>): int {
    if opts == [] then 0 else opts[0].votes + SumVotes(opts[1..])
  }

  function SumPercent(opts: seq<PollOption>): int {
    if opts == [] then 0 else opts[0].percentage + SumPercent(opts[1..])
  }

  /** Every percentage is the option's rounded share of `total`. */
  predicate Tallied(opts: seq<PollOption>, total: int) {
    forall i :: 0 <= i < |opts| ==> opts[i].percentage == Percentage(opts[i].votes, total)
  }

  /** The invariant of a stored poll: at least two options numbered by
      position, one vote per identity, a total that is the sum of the
      option counts and percentages computed from that total. */
  predicate PollOk(p: Poll) {
    && |p.options| >= 2
    && (forall i :: 0 <= i < |p.options| ==> p.options[i].id == i && OptionOk(p.options[i]))
    && SingleVote(p.options)
    && p.totalVotes == SumVotes(p.options)
    && Tallied(p.options, p.totalVotes)
  }

  /** One step of the first `forEach`: `indexOf`, `splice` and a count floored at 0. */
  function Unvote(o: PollOption, voter: string): (r: PollOption)
    ensures r.id == o.id && r.text == o.text && r.percentage == o.percentage
    ensures voter !in o.voters ==> r.voters == o.voters && r.votes == o.votes
    ensures voter in o.voters ==> |r.voters| == |o.voters| - 1 && r.votes == Max(0, o.votes - 1)
  {
    var k := IndexOf(o.voters, voter);
    if k < 0 then o else o.(voters := RemoveAt(o.voters, k), votes := Max(0, o.votes - 1))
  }

  /** Leaving an option takes exactly one occurrence of the voter out of its
      list, and none when the voter is not in it. */
  lemma UnvoteMultiset(o: PollOption, voter: string)
    ensures multiset(Unvote(o, voter).voters) == multiset(o.voters) - multiset{voter}
  {
    var k := IndexOf(o.voters, voter);
    if k >= 0 {
      var s := o.voters;
      assert s == s[..k] + [s[k]] + s[k + 1..];
      assert RemoveAt(s, k) == s[..k] + s[k + 1..];
    }
  }

  /** `voters.push(voter)` and `votes += 1` on the chosen option. */
  function CastVote(o: PollOption, voter: string): (r: PollOption)
    ensures r.id == o.id && r.text == o.text && r.percentage == o.percentage
    ensures r.votes == o.votes + 1 && |r.voters| == |o.voters| + 1
  {
    o.(voters := o.voters + [voter], votes := o.votes + 1)
  }

  /** Joining an option adds exactly one occurrence of the voter to its list. */
  lemma CastVoteJoins(o: PollOption, voter: string)
    ensures voter in CastVote(o, voter).voters
    ensures multiset(CastVote(o, voter).voters) == multiset(o.voters) + multiset{voter}
  {
  }

  /** The options once the voter is removed everywhere and added to `target`. */
  function Cast(opts: seq<PollOption>, voter: string, target: int): (r: seq<PollOption>)
    requires 0 <= target < |opts|
    ensures |r| == |opts|
  {
    var cleared := seq(|opts|, i requires 0 <= i < |opts| => Unvote(opts[i], voter));
    cleared[target := CastVote(cleared[target], voter)]
  }

  /** The second `forEach`: each percentage recomputed against `total`. */
  function WithPercentages(opts: seq<PollOption>, total: int): (r: seq<PollOption>)
    ensures |r| == |opts| && Tallied(r, total)
    ensures forall i :: 0 <= i < |r| ==> r[i] == opts[i].(percentage := r[i].percentage)
  {
    seq(|opts|, i requires 0 <= i < |opts| => opts[i].(percentage := Percentage(opts[i].votes, total)))
  }

  /** The poll after `voter` votes for option `target`. */
  function VotedPoll(p: Poll, voter: string, target: int): (q: Poll)
    requires 0 <= target < |p.options|
    ensures |q.options| == |p.options|
    ensures q.id == p.id && q.question == p.question && q.author == p.author
    ensures q.duration == p.duration && q.endTime == p.endTime && q.isActive == p.isActive
    ensures q.timestamp == p.timestamp && q.txHash == p.txHash
  {
    var cast := Cast(p.options, voter, target);
    var total := SumVotes(cast);
    p.(options := WithPercentages(cast, total), totalVotes := total)
  }

  /** The running sum of the `reduce`, one option further along. */
  lemma {:induction false} SumVotesAppend(opts: seq<PollOption>, o: PollOption)
    ensures SumVotes(opts + [o]) == SumVotes(opts) + o.votes
  {
    if opts == [] {
      assert [] + [o] == [o];
    } else {
      assert (opts + [o])[1..] == opts[1..] + [o];
      SumVotesAppend(opts[1..], o);
    }
  }

  /** The total depends only on the counts. */
  lemma {:induction false} SumVotesSameCounts(a: seq<PollOption>, b: seq<PollOption>)
    requires |a| == |b|
    requires forall i :: 0 <= i < |a| ==> a[i].votes == b[i].votes
    ensures SumVotes(a) == SumVotes(b)
  {
    if a != [] {
      SumVotesSameCounts(a[1..], b[1..]);
    }
  }

  /** Taking the voter off a well-formed option keeps it well-formed, and is
      the same as filtering the voter out. */
  lemma UnvoteOk(o: PollOption, voter: string)
    requires OptionOk(o)
    ensures OptionOk(Unvote(o, voter))
    ensures Unvote(o, voter).voters == Without(o.voters, voter)
  {
    var k := IndexOf(o.voters, voter);
    if k < 0 {
      WithoutAbsent(o.voters, voter);
    } else {
      WithoutIsRemoveAt(o.voters, voter);
      RemoveAtNoDup(o.voters, k);
    }
  }

  /** What the first two passes do to each option of a poll whose options are well-formed. */
  lemma CastFacts(opts: seq<PollOption>, voter: string, target: int)
    requires 0 <= target < |opts|
    requires forall i :: 0 <= i < |opts| ==> OptionOk(opts[i])
    ensures forall i :: 0 <= i < |opts| ==> OptionOk(Cast(opts, voter, target)[i])
    ensures forall i :: 0 <= i < |opts| ==> Cast(opts, voter, target)[i].id == opts[i].id
    ensures forall i :: 0 <= i < |opts| ==> (voter in Cast(opts, voter, target)[i].voters <==> i == target)
    ensures forall i, w :: 0 <= i < |opts| && w != voter ==>
              (w in Cast(opts, voter, target)[i].voters <==> w in opts[i].voters)
  {
    var cast := Cast(opts, voter, target);
    forall i | 0 <= i < |opts|
      ensures OptionOk(cast[i])
      ensures voter in cast[i].voters <==> i == target
      ensures forall w :: w != voter ==> (w in cast[i].voters <==> w in opts[i].voters)
    {
      UnvoteOk(opts[i], voter);
      var u := Unvote(opts[i], voter);
      if i == target {
        assert cast[i] == CastVote(u, voter);
        AppendNoDup(u.voters, voter);
      } else {
        assert cast[i] == u;
      }
    }
  }

  /** A vote keeps a well-formed poll well-formed. */
  lemma VoteKeepsPollOk(p: Poll, voter: string, target: int)
    requires PollOk(p) && 0 <= target < |p.options|
    ensures PollOk(VotedPoll(p, voter, target))
  {
    var cast := Cast(p.options, voter, target);
    var q := VotedPoll(p, voter, target);
    CastFacts(p.options, voter, target);
    CastSingleVote(p.options, voter, target);
    assert q.options == WithPercentages(cast, SumVotes(cast));
    SumVotesSameCounts(q.options, cast);
    SingleVoteSameVoters(q.options, cast);
  }

  /** After the cast no identity sits in two options, if none did before. */
  lemma CastSingleVote(opts: seq<PollOption>, voter: string, target: int)
    requires 0 <= target < |opts| && SingleVote(opts)
    requires forall i :: 0 <= i < |opts| ==> OptionOk(opts[i])
    ensures SingleVote(Cast(opts, voter, target))
  {
    var cast := Cast(opts, voter, target);
    CastFacts(opts, voter, target);
    forall i, j, v | 0 <= i < j < |cast| && v in cast[i].voters
      ensures v !in cast[j].voters
    {
      if v != voter {
        assert v in opts[i].voters;
      }
    }
  }

  /** Single voting depends only on the voter lists. */
  lemma SingleVoteSameVoters(a: seq<PollOption>, b: seq<PollOption>)
    requires |a| == |b| && SingleVote(b)
    requires forall i :: 0 <= i < |a| ==> a[i].voters == b[i].voters
    ensures SingleVote(a)
  {
    forall i, j, v | 0 <= i < j < |a| && v in a[i].voters
      ensures v !in a[j].voters
    {
      assert v in b[i].voters;
    }
  }

  /** After the vote the voter is counted in exactly the chosen option, and
      every other identity keeps the options it had. */
  lemma VoteRecordsVoter(p: Poll, voter: string, target: int)
    requires PollOk(p) && 0 <= target < |p.options|
    ensures forall j :: 0 <= j < |p.options| ==>
              (voter in VotedPoll(p, voter, target).options[j].voters <==> j == target)
    ensures forall j, w :: 0 <= j < |p.options| && w != voter ==>
              (w in VotedPoll(p, voter, target).options[j].voters <==> w in p.options[j].voters)
  {
    var cast := Cast(p.options, voter, target);
    var q := VotedPoll(p, voter, target);
    CastFacts(p.options, voter, target);
    assert forall j :: 0 <= j < |p.options| ==> q.options[j].voters == cast[j].voters;
  }

  /** Taking a voter off the option they were just added to undoes the addition. */
  lemma UnvoteAfterCast(u: PollOption, voter: string, pct: int)
    requires OptionOk(u) && voter !in u.voters
    ensures Unvote(CastVote(u, voter).(percentage := pct), voter) == u.(percentage := pct)
  {
    var c := u.voters + [voter];
    assert IndexOf(c, voter) == |u.voters|;
    assert RemoveAt(c, |u.voters|) == u.voters;
  }

  /** Casting the same vote again on the voted poll changes each option only
      in its percentage. */
  lemma RecastAt(p: Poll, voter: string, target: int, i: int)
    requires PollOk(p) && 0 <= target < |p.options| && 0 <= i < |p.options|
    ensures var q := VotedPoll(p, voter, target);
            Cast(q.options, voter, target)[i]
              == Cast(p.options, voter, target)[i].(percentage := q.options[i].percentage)
  {
    var cast := Cast(p.options, voter, target);
    var q := VotedPoll(p, voter, target);
    var cast2 := Cast(q.options, voter, target);
    var pct := q.options[i].percentage;
    assert q.options[i] == cast[i].(percentage := pct);
    if i == target {
      var u := Unvote(p.options[i], voter);
      UnvoteOk(p.options[i], voter);
      assert cast[i] == CastVote(u, voter);
      UnvoteAfterCast(u, voter, pct);
      assert cast2[i] == CastVote(Unvote(q.options[i], voter), voter);
    } else {
      CastFacts(p.options, voter, target);
      assert voter !in cast[i].voters;
      assert IndexOf(q.options[i].voters, voter) == -1;
      assert cast2[i] == Unvote(q.options[i], voter);
    }
  }

  /** Voting twice for the same option is voting once. */
  lemma VoteIdempotent(p: Poll, voter: string, target: int)
    requires PollOk(p) && 0 <= target < |p.options|
    ensures VotedPoll(VotedPoll(p, voter, target), voter, target) == VotedPoll(p, voter, target)
  {
    var cast := Cast(p.options, voter, target);
    var q := VotedPoll(p, voter, target);
    var cast2 := Cast(q.options, voter, target);
    var total := SumVotes(cast);
    assert |cast2| == |cast| && forall i :: 0 <= i < |cast| ==> cast2[i] == cast[i].(percentage := cast2[i].percentage) by {
      RecastOptions(p, voter, target);
    }
    assert SumVotes(cast2) == total by {
      SumVotesSameCounts(cast2, cast);
    }
    assert WithPercentages(cast2, total) == WithPercentages(cast, total) by {
      RecomputeForgetsPercentages(cast2, cast, total);
    }
    assert q.options == WithPercentages(cast, total) && q.totalVotes == total;
    assert VotedPoll(q, voter, target) == q.(options := q.options, totalVotes := q.totalVotes);
  }

  /** Casting the same vote again differs from the first cast only in percentages. */
  lemma RecastOptions(p: Poll, voter: string, target: int)
    requires PollOk(p) && 0 <= target < |p.options|
    ensures var cast := Cast(p.options, voter, target);
            var cast2 := Cast(VotedPoll(p, voter, target).options, voter, target);
            |cast2| == |cast|
            && forall i :: 0 <= i < |cast| ==> cast2[i] == cast[i].(percentage := cast2[i].percentage)
  {
    var cast := Cast(p.options, voter, target);
    var cast2 := Cast(VotedPoll(p, voter, target).options, voter, target);
    forall i | 0 <= i < |cast|
      ensures cast2[i] == cast[i].(percentage := cast2[i].percentage)
    {
      RecastAt(p, voter, target, i);
    }
  }

  /** Recomputing percentages ignores the ones the options had. */
  lemma RecomputeForgetsPercentages(a: seq<PollOption>, b: seq<PollOption>, total: int)
    requires |a| == |b|
    requires forall i :: 0 <= i < |a| ==> a[i] == b[i].(percentage := a[i].percentage)
    ensures WithPercentages(a, total) == WithPercentages(b, total)
  {
    var wa, wb := WithPercentages(a, total), WithPercentages(b, total);
    forall i | 0 <= i < |a| ensures wa[i] == wb[i] {
      assert a[i].votes == b[i].votes;
    }
  }

  /** The bracket of one option added to the bracket of the others. */
  lemma AddBrackets(total: int, p: int, v: int, sp: int, sv: int, n: int)
    requires total > 0
    requires (2 * total) * p <= 200 * v + total < (2 * total) * p + 2 * total
    requires (2 * total) * sp <= 200 * sv + n * total <= (2 * total) * sp + n * (2 * total)
    ensures (2 * total) * (p + sp) <= 200 * (v + sv) + (n + 1) * total
    ensures 200 * (v + sv) + (n + 1) * total < (2 * total) * (p + sp) + (n + 1) * (2 * total)
  {
    assert (2 * total) * (p + sp) == (2 * total) * p + (2 * total) * sp;
    assert (n + 1) * total == n * total + total;
    assert (n + 1) * (2 * total) == n * (2 * total) + 2 * total;
  }

  /** Percentages scaled by twice the total bracket the scaled vote count. */
  lemma {:induction false} PercentSumScaled(opts: seq<PollOption>, total: int)
    requires total > 0 && Tallied(opts, total)
    ensures (2 * total) * SumPercent(opts) <= 200 * SumVotes(opts) + |opts| * total
    ensures 200 * SumVotes(opts) + |opts| * total <= (2 * total) * SumPercent(opts) + |opts| * (2 * total)
    ensures opts != [] ==>
              200 * SumVotes(opts) + |opts| * total < (2 * total) * SumPercent(opts) + |opts| * (2 * total)
  {
    if opts != [] {
      var rest := opts[1..];
      assert Tallied(rest, total) by {
        assert forall i :: 0 <= i < |rest| ==> rest[i] == opts[i + 1];
      }
      PercentSumScaled(rest, total);
      assert opts[0].percentage == Percentage(opts[0].votes, total);
      AddBrackets(total, opts[0].percentage, opts[0].votes, SumPercent(rest), SumVotes(rest), |rest|);
    }
  }

  /** With n options the percentages of a poll with votes add up to within
      n/2 of 100, so they can reach 100 + n/2 (for example 102 with four). */
  lemma PercentSumBound(p: Poll)
    requires PollOk(p) && p.totalVotes > 0
    ensures 200 - |p.options| < 2 * SumPercent(p.options) <= 200 + |p.options|
  {
    var t, n, s := p.totalVotes, |p.options|, SumPercent(p.options);
    PercentSumScaled(p.options, t);
    assert (2 * t) * s == t * (2 * s);
    assert 200 * t + n * t == t * (200 + n);
    assert n * (2 * t) == 2 * n * t;
    assert t * (200 - n) < t * (2 * s) by {
      assert t * (200 - n) == 200 * t + n * t - 2 * n * t;
    }
    assert t * (201 + n) == t * (200 + n) + t;
    if 2 * s > 200 + n {
      ScaleMonotone(t, 201 + n, 2 * s);
    }
    if 2 * s <= 200 - n {
      ScaleMonotone(t, 2 * s, 200 - n);
    }
  }

  /** Four options with 1, 1, 1 and 5 votes show 13, 13, 13 and 63 percent:
      the percentages of a well-formed poll can add up to 102. */
  lemma PercentSumCanReach102()
    ensures var p := Poll("p", "q", [
              PollOption(0, "a", 1, 13, ["0xa"]),
              PollOption(1, "b", 1, 13, ["0xb"]),
              PollOption(2, "c", 1, 13, ["0xc"]),
              PollOption(3, "d", 5, 63, ["0xd", "0xe", "0xf", "0x1", "0x2"])],
              24, 0, "0xa", 8, true, 0, None);
            PollOk(p) && SumPercent(p.options) == 102
  {
    var p := Poll("p", "q", [
              PollOption(0, "a", 1, 13, ["0xa"]),
              PollOption(1, "b", 1, 13, ["0xb"]),
              PollOption(2, "c", 1, 13, ["0xc"]),
              PollOption(3, "d", 5, 63, ["0xd", "0xe", "0xf", "0x1", "0x2"])],
              24, 0, "0xa", 8, true, 0, None);
    assert Percentage(1, 8) == 13;
    assert Percentage(5, 8) == 63;
    assert SumVotes(p.options) == 8;
    assert SumPercent(p.options) == 102;
    assert NoDup(p.options[3].voters);
    assert SingleVote(p.options);
  }
}
