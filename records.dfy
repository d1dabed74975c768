/** The records the content store keeps and the outcomes of its handlers.
    Absent JSON fields: a string field that is missing or empty is "" and a
    numeric field that is missing or zero is 0, the two cases JavaScript's
    `||` and `!` treat alike. Times are milliseconds since the epoch, as
    `Date.now()` returns them; ISO date strings are the instant they print. */
module Records {
  import opened Text

  datatype Option<T> = None | Some(value: T)

  /** The error responses of the handlers. */
  datatype Failure =
    | MissingFields   // 400: a required field is missing or empty
    | PollEnded       // 400: 'Poll has ended'
    | InvalidOption   // 400: 'Invalid option ID'
    | NotFound        // 404
    | Forbidden       // 403: the caller is not the author
    | SaveFailed      // 500: the synchronous write failed
  {
    function Status(): (code: int)
      ensures code == 400 <==> MissingFields? || PollEnded? || InvalidOption?
      ensures code == 403 <==> Forbidden?
      ensures code == 404 <==> NotFound?
      ensures code == 500 <==> SaveFailed?
    {
      match this
      case MissingFields | PollEnded | InvalidOption => 400
      case NotFound => 404
      case Forbidden => 403
      case SaveFailed => 500
    }
  }

  datatype Result<T> = Ok(value: T) | Err(failure: Failure)

  datatype Profile = Profile(
    address: string,
    displayName: string,
    profilePhoto: Option<string>,
    bio: string,
    joinedDate: int,
    updatedDate: Option<int>,
    txHash: Option<string>,
    blockNumber: Option<int>,
    profileFeesPaid: Option<string>)

  /** A stored post; `updatedAt` and `isEdited` appear once it is edited. */
  datatype Post = Post(
    id: string,
    content: string,
    photo: Option<string>,
    author: string,
    timestamp: int,            // seconds
    txHash: Option<string>,
    blockNumber: Option<int>,
    updatedAt: Option<int>,    // seconds
    isEdited: bool)

  /** The reaction record of one post. */
  datatype Reaction = Reaction(likes: int, likedBy: seq<string>)

  datatype Comment = Comment(id: string, postId: string, author: string, text: string, timestamp: int)

  datatype PollOption = PollOption(id: int, text: string, votes: int, percentage: int, voters: seq<string>)

  datatype Poll = Poll(
    id: string,
    question: string,
    options: seq<PollOption>,
    duration: int,             // hours
    endTime: int,              // milliseconds
    author: string,
    totalVotes: int,
    isActive: bool,
    timestamp: int,            // seconds
    txHash: Option<string>)

  /** `x || null` on a string field. */
  function OrNull(s: string): (r: Option<string>)
    ensures r.None? <==> s == ""
    ensures r.Some? ==> r.value == s
  {
    if s == "" then None else Some(s)
  }

  /** `x || null` on a numeric field. */
  function OrNullNumber(n: int): (r: Option<int>)
    ensures r.None? <==> n == 0
    ensures r.Some? ==> r.value == n
  {
    if n == 0 then None else Some(n)
  }

  /** `x || d` on a numeric field. */
  function OrDefault(n: int, d: int): (r: int)
    ensures n != 0 ==> r == n
    ensures n == 0 ==> r == d
  {
    if n != 0 then n else d
  }

  /** `Math.floor(Date.now() / 1000)`: the clock in seconds. */
  function Seconds(now: int): (s: int)
    ensures 1000 * s <= now < 1000 * s + 1000
  {
    now / 1000
  }

  function Max(a: int, b: int): int {
    if a >= b then a else b
  }

  /** The authorization guard: `a.toLowerCase() === b.toLowerCase()`. */
  function SameIdentity(a: string, b: string): (same: bool)
    ensures same <==> |a| == |b| && forall i :: 0 <= i < |a| ==> LowerChar(a[i]) == LowerChar(b[i])
  {
    Lower(a) == Lower(b)
  }

  /** Addresses written without capitals match only themselves. */
  lemma SameIdentityLowercase(a: string, b: string)
    requires forall i :: 0 <= i < |a| ==> !IsUpper(a[i])
    requires forall i :: 0 <= i < |b| ==> !IsUpper(b[i])
    ensures SameIdentity(a, b) <==> a == b
  {
    LowerKeepsLowercase(a);
    LowerKeepsLowercase(b);
  }

  /** `User ${address.slice(-4)}`: the name shown for an address without a profile. */
  function FallbackName(address: string): (r: string)
    ensures |r| == 5 + (if |address| <= 4 then |address| else 4)
    ensures r[..5] == "User " && r[5..] == address[|address| - (|r| - 5)..]
  {
    "User " + Last(address, 4)
  }

  /** `Math.round((votes / total) * 100)` when total > 0, else 0, in exact
      arithmetic: the integer nearest to 100 * votes / total, halves upward. */
  function Percentage(votes: int, total: int): (p: int)
    ensures total > 0 ==> 2 * total * p <= 200 * votes + total < 2 * total * p + 2 * total
    ensures total <= 0 ==> p == 0
  {
    if total > 0 then
      var n, d := 200 * votes + total, 2 * total;
      var q := n / d;
      assert n == d * q + n % d && 0 <= n % d < d;
      assert d * q == 2 * total * q;
      q
    else 0
  }

  /** Multiplying by a positive factor keeps order. */
  lemma ScaleMonotone(t: int, a: int, b: int)
    requires t > 0 && a <= b
    ensures t * a <= t * b
  {
    var d := b - a;
    assert t * b == t * a + t * d;
  }

  /** A share of a positive total lies between 0 and 100 percent. */
  lemma PercentageRange(votes: int, total: int)
    requires 0 <= votes <= total && 0 < total
    ensures 0 <= Percentage(votes, total) <= 100
  {
    var p := Percentage(votes, total);
    if p > 100 {
      assert (2 * total) * 101 == 202 * total;
      ScaleMonotone(2 * total, 101, p);
    }
  }
}
