/**
 * The two GitLab REST calls the sync loop depends on: the page of a user's
 * events after a checkpoint, and the commits of a multi-commit push.  The
 * HTTP exchange itself is a `Reply` value handed in by the caller.
 */
module Gitlab {

  import opened Wrappers
  import opened Decimal
  import opened TimeFormat

  /** GitLab user ids are `uint32`. */
  type UserId = n: nat | n < 0x1_0000_0000

  datatype PushData = PushData(commitCount: int, commitFrom: string, commitTo: string)

  /** The fields of an activity-feed entry that the sync loop reads. */
  datatype ProjectEvent = ProjectEvent(
    id: int,
    projectId: int,
    actionName: string,
    targetType: string,
    createdAt: Time,
    pushData: PushData)

  /** One entry of the repository commits listing. */
  datatype Commit = Commit(id: string, title: string, authoredDate: Time)

  /** A response body: it could not be read, it is not the expected JSON, or it decoded to a value. */
  datatype Body<T> = ReadFailure | Undecodable | Decoded(value: T)

  /** The outcome of one HTTP exchange. */
  datatype Reply<T> = TransportFailure | Response(status: int, body: Body<T>)

  datatype FetchError = RequestFailed | BadStatus(status: int) | UnreadableBody | DecodeFailed

  /** The events URL for a user and a checkpoint. */
  function EventsEndpoint(userId: UserId, from: Time): string {
    "https://gitlab.com/api/v4/users/" + NatText(userId) + "/events?sort=asc&per_page=100&after=" + FormatRFC3339(from)
  }

  /**
   * `GetEvents` after the exchange: the body is read before the status is
   * looked at, so an unreadable body is reported even for a non-200 reply.
   */
  function GetEvents(reply: Reply<seq<ProjectEvent>>): (r: Result<seq<ProjectEvent>, FetchError>)
    ensures r.Ok? <==> reply.Response? && reply.status == 200 && reply.body.Decoded?
    ensures r.Ok? ==> r.value == reply.body.value
    ensures reply.TransportFailure? ==> r == Err(RequestFailed)
    ensures reply.Response? && reply.body.ReadFailure? ==> r == Err(UnreadableBody)
    ensures reply.Response? && reply.status != 200 && !reply.body.ReadFailure? ==> r == Err(BadStatus(reply.status))
  {
    match reply
    case TransportFailure => Err(RequestFailed)
    case Response(status, body) =>
      if body.ReadFailure? then Err(UnreadableBody)
      else if status != 200 then Err(BadStatus(status))
      else if body.Undecodable? then Err(DecodeFailed)
      else Ok(body.value)
  }

  /** Length of the run of digits a text starts with. */
  function DigitRun(u: string): (n: nat)
    ensures n <= |u|
    ensures forall i :: 0 <= i < n ==> IsDigit(u[i])
    ensures n < |u| ==> !IsDigit(u[n])
  {
    if u == [] || !IsDigit(u[0]) then 0 else 1 + DigitRun(u[1..])
  }

  /** Digits followed by a non-digit: the run ends exactly at the non-digit. */
  lemma {:induction false} DigitRunOf(s: string, x: string)
    requires AllDigits(s) && x != [] && !IsDigit(x[0])
    ensures DigitRun(s + x) == |s|
  {
    if s == [] {
      assert s + x == x;
    } else {
      assert (s + x)[1..] == s[1..] + x;
      DigitRunOf(s[1..], x);
    }
  }

  lemma NatTextPrefix(a: nat, b: nat, x: string, y: string)
    requires x != [] && y != [] && x[0] == '/' && y[0] == '/'
    requires NatText(a) + x == NatText(b) + y
    ensures a == b && x == y
  {
    var s, t := NatText(a), NatText(b);
    DigitRunOf(s, x);
    DigitRunOf(t, y);
    assert |s| == |t|;
    assert s == (s + x)[..|s|] && t == (t + y)[..|t|];
    NatTextValue(a);
    NatTextValue(b);
    assert x == (s + x)[|s|..] && y == (t + y)[|t|..];
  }

  /** The events URL split at the user id: a fixed host part, the id, and the query with the instant. */
  lemma EventsEndpointParts(userId: UserId, from: Time)
    ensures EventsEndpoint(userId, from)
            == "https://gitlab.com/api/v4/users/" + (NatText(userId) + ("/events?sort=asc&per_page=100&after=" + FormatRFC3339(from)))
  {
  }

  lemma RequestParts(host: string, a: nat, x: string, b: nat, y: string, query: string)
    requires query != [] && query[0] == '/'
    requires host + (NatText(a) + (query + x)) == host + (NatText(b) + (query + y))
    ensures a == b && x == y
  {
    var u := host + (NatText(a) + (query + x));
    assert u[|host|..] == NatText(a) + (query + x);
    assert u[|host|..] == NatText(b) + (query + y);
    NatTextPrefix(a, b, query + x, query + y);
    assert x == (query + x)[|query|..];
  }

  /**
   * The events request identifies the user and, for well-formed instants,
   * the checkpoint it asks about: equal URLs mean equal ids and instants.
   */
  lemma EventsEndpointInjective(a: UserId, f: Time, b: UserId, g: Time)
    requires WellFormed(f) && WellFormed(g)
    requires EventsEndpoint(a, f) == EventsEndpoint(b, g)
    ensures a == b && f == g
  {
    EventsEndpointParts(a, f);
    EventsEndpointParts(b, g);
    RequestParts("https://gitlab.com/api/v4/users/", a, FormatRFC3339(f), b, FormatRFC3339(g), "/events?sort=asc&per_page=100&after=");
    RFC3339RoundTrip(f);
    RFC3339RoundTrip(g);
  }

  /**
   * The git revision range of a push: `from..to`, or `to~count..to` for a
   * push without a known start (a new branch).
   */
  function RevisionRange(p: PushData): (r: string)
    ensures p.commitFrom != "" ==> r == p.commitFrom + ".." + p.commitTo
    ensures p.commitFrom == "" ==> r == p.commitTo + "~" + IntText(p.commitCount) + ".." + p.commitTo
  {
    var start := if p.commitFrom == "" then p.commitTo + "~" + IntText(p.commitCount) else p.commitFrom;
    start + ".." + p.commitTo
  }

  /** The number of characters other than `.` at the end of `s`. */
  function TrailingNonDots(s: string): (n: nat)
    ensures n <= |s|
    ensures forall i :: |s| - n <= i < |s| ==> s[i] != '.'
    ensures n < |s| ==> s[|s| - n - 1] == '.'
  {
    if s != [] && s[|s| - 1] != '.' then 1 + TrailingNonDots(s[..|s| - 1]) else 0
  }

  /** Splits a revision range at its last `..` into its start and end revisions. */
  function SplitRange(s: string): (r: Option<(string, string)>)
    ensures r.Some? ==> s == r.value.0 + ".." + r.value.1
  {
    var n := TrailingNonDots(s);
    if n + 2 <= |s| && s[|s| - n - 2] == '.' then
      var start, end := s[..|s| - n - 2], s[|s| - n..];
      assert s == start + ".." + end;
      Some((start, end))
    else None
  }

  predicate NoDots(s: string) {
    forall i :: 0 <= i < |s| ==> s[i] != '.'
  }

  lemma {:induction false} TrailingNonDotsOf(x: string, y: string)
    requires NoDots(y)
    ensures TrailingNonDots(x + "." + y) == |y|
  {
    var s := x + "." + y;
    if y != [] {
      assert s[..|s| - 1] == x + "." + y[..|y| - 1];
      TrailingNonDotsOf(x, y[..|y| - 1]);
    }
  }

  /**
   * For a push whose end revision has no dots (a commit hash), the range
   * splits back into its end revision and the start the push gives: its
   * `CommitFrom`, or the end revision minus `CommitCount` commits.
   */
  lemma RevisionRangeSplits(p: PushData)
    requires NoDots(p.commitTo)
    ensures var start := if p.commitFrom == "" then p.commitTo + "~" + IntText(p.commitCount) else p.commitFrom;
            SplitRange(RevisionRange(p)) == Some((start, p.commitTo))
  {
    var start := if p.commitFrom == "" then p.commitTo + "~" + IntText(p.commitCount) else p.commitFrom;
    SplitJoined(start, p.commitTo);
  }

  /** A range joined at `..` splits back into its two ends when the end has no dots. */
  lemma SplitJoined(start: string, end: string)
    requires NoDots(end)
    ensures SplitRange(start + ".." + end) == Some((start, end))
  {
    var s := start + ".." + end;
    assert s == (start + ".") + "." + end;
    TrailingNonDotsOf(start + ".", end);
    assert s[..|s| - |end| - 2] == start;
    assert s[|s| - |end|..] == end;
  }

  /** The commits listing request: project, revision range and author filter. */
  datatype CommitsQuery = CommitsQuery(projectId: int, refName: string, author: string)

  function CommitsQueryOf(e: ProjectEvent, committerEmail: string): (q: CommitsQuery)
    ensures q.projectId == e.projectId && q.author == committerEmail
    ensures q.refName == RevisionRange(e.pushData)
  {
    CommitsQuery(e.projectId, RevisionRange(e.pushData), committerEmail)
  }

  /** `s` backwards. */
  function Reversed<T>(s: seq<T>): (r: seq<T>)
    ensures |r| == |s|
    ensures forall j :: 0 <= j < |s| ==> r[j] == s[|s| - 1 - j]
  {
    if s == [] then [] else Reversed(s[1..]) + [s[0]]
  }

  lemma {:induction false} ReversedMultiset<T>(s: seq<T>)
    ensures multiset(Reversed(s)) == multiset(s)
  {
    if s != [] {
      ReversedMultiset(s[1..]);
      assert s == [s[0]] + s[1..];
    }
  }

  /** `min(count, available)` as Go computes it, where a count below one keeps nothing. */
  function ResultSize(count: int, available: nat): (n: nat)
    ensures n <= available
    ensures count <= 0 ==> n == 0
    ensures 0 <= count <= available ==> n == count
    ensures available <= count ==> n == available
  {
    if count <= 0 then 0 else if count < available then count else available
  }

  /**
   * The commits of a push, oldest first: the first `count` entries of the
   * newest-first listing, reversed.
   */
  function TakeNewest(raw: seq<Commit>, count: int): (r: seq<Commit>)
    ensures |r| == ResultSize(count, |raw|)
    ensures forall j :: 0 <= j < |r| ==> r[j] == raw[|r| - 1 - j]
  {
    Reversed(raw[..ResultSize(count, |raw|)])
  }

  /**
   * The result holds exactly the entries of the first `count` positions of
   * the listing, each as often as there; entries further down the listing
   * are absent unless they repeat an earlier one.
   */
  lemma TakeNewestMembers(raw: seq<Commit>, count: int)
    ensures multiset(TakeNewest(raw, count)) == multiset(raw[..ResultSize(count, |raw|)])
    ensures forall c :: c in TakeNewest(raw, count) <==> c in raw[..ResultSize(count, |raw|)]
  {
    var n := ResultSize(count, |raw|);
    ReversedMultiset(raw[..n]);
    forall c ensures c in TakeNewest(raw, count) <==> c in raw[..n] {
      assert c in TakeNewest(raw, count) <==> c in multiset(TakeNewest(raw, count));
      assert c in raw[..n] <==> c in multiset(raw[..n]);
    }
  }

  predicate NewestFirst(cs: seq<Commit>) {
    forall i, j :: 0 <= i < j < |cs| ==> cs[j].authoredDate.unix <= cs[i].authoredDate.unix
  }

  predicate OldestFirst(cs: seq<Commit>) {
    forall i, j :: 0 <= i < j < |cs| ==> cs[i].authoredDate.unix <= cs[j].authoredDate.unix
  }

  /** A newest-first listing comes out oldest first. */
  lemma TakeNewestOrder(raw: seq<Commit>, count: int)
    requires NewestFirst(raw)
    ensures OldestFirst(TakeNewest(raw, count))
  {
    var r := TakeNewest(raw, count);
    forall i, j | 0 <= i < j < |r| ensures r[i].authoredDate.unix <= r[j].authoredDate.unix {
      assert r[i] == raw[|r| - 1 - i] && r[j] == raw[|r| - 1 - j];
    }
  }

  /**
   * `GetCommitsBetween` after the exchange: unlike `GetEvents`, the status is
   * checked before the body is read.
   */
  function CommitsFromReply(reply: Reply<seq<Commit>>, count: int): (r: Result<seq<Commit>, FetchError>)
    ensures r.Ok? <==> reply.Response? && reply.status == 200 && reply.body.Decoded?
    ensures r.Ok? ==> r.value == TakeNewest(reply.body.value, count)
    ensures reply.TransportFailure? ==> r == Err(RequestFailed)
    ensures reply.Response? && reply.status != 200 ==> r == Err(BadStatus(reply.status))
    ensures reply.Response? && reply.status == 200 && reply.body.ReadFailure? ==> r == Err(UnreadableBody)
  {
    match reply
    case TransportFailure => Err(RequestFailed)
    case Response(status, body) =>
      if status != 200 then Err(BadStatus(status))
      else if body.ReadFailure? then Err(UnreadableBody)
      else if body.Undecodable? then Err(DecodeFailed)
      else Ok(TakeNewest(body.value, count))
  }

  /** The same failed exchange is reported differently by the two calls. */
  lemma CheckOrderDiffers(status: int)
    requires status != 200
    ensures GetEvents(Response(status, ReadFailure)) == Err(UnreadableBody)
    ensures CommitsFromReply(Response(status, ReadFailure), 1) == Err(BadStatus(status))
  {
  }

  /**
   * `GetCommitsBetween`: asks `fetch` for the push's revision range by the
   * committer, then keeps the newest `CommitCount` entries, oldest first.
   */
  method GetCommitsBetween(event: ProjectEvent, committerEmail: string, fetch: CommitsQuery -> Reply<seq<Commit>>)
    returns (r: Result<seq<Commit>, FetchError>)
    ensures r == CommitsFromReply(fetch(CommitsQueryOf(event, committerEmail)), event.pushData.commitCount)
  {
    var reply := fetch(CommitsQueryOf(event, committerEmail));
    if reply.TransportFailure? {
      return Err(RequestFailed);
    }
    if reply.status != 200 {
      return Err(BadStatus(reply.status));
    }
    if reply.body.ReadFailure? {
      return Err(UnreadableBody);
    }
    if reply.body.Undecodable? {
      return Err(DecodeFailed);
    }
    var raw := reply.body.value;
    var count := event.pushData.commitCount;
    var size := if count < |raw| then count else |raw|;
    var result: seq<Commit> := [];
    var i := size - 1;
    while i >= 0
      invariant i < size
      invariant size > 0 ==> -1 <= i
      invariant |result| == if size > 0 then size - 1 - i else 0
      invariant forall j :: 0 <= j < |result| ==> result[j] == raw[size - 1 - j]
      decreases i + 1
    {
      result := result + [raw[i]];
      i := i - 1;
    }
    assert result == TakeNewest(raw, count);
    return Ok(result);
  }
}
