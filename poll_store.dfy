/**
 * The Express handlers of `server.js` over the in-memory database
 * `{ polls: [...] }`. HTTP status codes become `ApiError` values; the
 * `db.json` file read and write around each handler is the `polls` field.
 */
module PollStore {
  import opened Wrappers
  import opened Types
  import Seqs

  /** The error answers of the handlers, one per `res.status(...)` branch. */
  datatype ApiError = InvalidPollData | PollNotFound | PollClosed | CandidateNotFound

  /** The HTTP status code each error is answered with. */
  function HttpStatus(e: ApiError): (code: int)
    ensures code == 400 <==> e == InvalidPollData || e == PollClosed
    ensures code == 404 <==> e == PollNotFound || e == CandidateNotFound
  {
    match e
    case InvalidPollData => 400
    case PollClosed => 400
    case PollNotFound => 404
    case CandidateNotFound => 404
  }

  /** The `message` of each error body; none of them is empty. */
  function ErrorMessage(e: ApiError): (m: string)
    ensures m != ""
  {
    match e
    case InvalidPollData => "Invalid poll data provided"
    case PollNotFound => "Poll not found"
    case PollClosed => "This poll is closed"
    case CandidateNotFound => "Candidate not found"
  }

  // ---------------------------------------------------------------------------
  // Lookups: `polls.find(p => p.id === id)` and `poll.candidates.find(...)`.

  function HasPollId(id: string): Poll -> bool
  {
    (p: Poll) => p.id == id
  }

  function HasCandidateId(id: string): Candidate -> bool
  {
    (c: Candidate) => c.id == id
  }

  /** The position of the first poll whose id is `id`. */
  function FindPoll(polls: seq<Poll>, id: string): (r: Option<nat>)
    ensures r.Some? ==> r.value < |polls| && polls[r.value].id == id
    ensures r.Some? ==> forall k :: 0 <= k < r.value ==> polls[k].id != id
    ensures r.None? <==> forall k :: 0 <= k < |polls| ==> polls[k].id != id
  {
    Seqs.FindIndex(polls, HasPollId(id))
  }

  /** The position of the first candidate whose id is `id`. */
  function FindCandidate(cs: seq<Candidate>, id: string): (r: Option<nat>)
    ensures r.Some? ==> r.value < |cs| && cs[r.value].id == id
    ensures r.Some? ==> forall k :: 0 <= k < r.value ==> cs[k].id != id
    ensures r.None? <==> forall k :: 0 <= k < |cs| ==> cs[k].id != id
  {
    Seqs.FindIndex(cs, HasCandidateId(id))
  }

  // ---------------------------------------------------------------------------
  // GET /api/polls/:id/results: `[...poll.candidates].sort((a, b) => b.votes - a.votes)`.

  /** Non-increasing vote order. */
  predicate SortedByVotes(cs: seq<Candidate>)
  {
    forall i, j :: 0 <= i < j < |cs| ==> cs[i].votes >= cs[j].votes
  }

  function VotesEq(v: int): Candidate -> bool
  {
    (c: Candidate) => c.votes == v
  }

  /** The candidates holding exactly `v` votes, in their order in `cs`. */
  function Tied(cs: seq<Candidate>, v: int): seq<Candidate>
  {
    Seqs.Filter(cs, VotesEq(v))
  }

  /**
   * Insert `c` in front of the first candidate with no more votes than `c`:
   * one step of a stable sort, since `c` precedes `cs` in the input.
   */
  function InsertByVotes(c: Candidate, cs: seq<Candidate>): seq<Candidate>
  {
    if |cs| == 0 || c.votes >= cs[0].votes then [c] + cs
    else [cs[0]] + InsertByVotes(c, cs[1..])
  }

  /**
   * A stable sort by votes, descending. `Array.prototype.sort` is stable
   * (section 23.1.3.30 of ECMA-262, 2023 edition), and every stable sort
   * with this comparator returns the same sequence.
   */
  function SortByVotes(cs: seq<Candidate>): seq<Candidate>
  {
    if |cs| == 0 then [] else InsertByVotes(cs[0], SortByVotes(cs[1..]))
  }

  lemma {:induction false} InsertByVotesMultiset(c: Candidate, cs: seq<Candidate>)
    ensures multiset(InsertByVotes(c, cs)) == multiset(cs) + multiset{c}
  {
    if |cs| > 0 && c.votes < cs[0].votes {
      InsertByVotesMultiset(c, cs[1..]);
      assert cs == [cs[0]] + cs[1..];
    }
  }

  lemma {:induction false} InsertByVotesSorted(c: Candidate, cs: seq<Candidate>)
    requires SortedByVotes(cs)
    ensures SortedByVotes(InsertByVotes(c, cs))
  {
    if |cs| > 0 && c.votes < cs[0].votes {
      var t := InsertByVotes(c, cs[1..]);
      InsertByVotesSorted(c, cs[1..]);
      InsertByVotesMultiset(c, cs[1..]);
      forall e | e in t ensures cs[0].votes >= e.votes {
        assert e in multiset(t);
        assert e == c || e in multiset(cs[1..]);
      }
      SortedCons(cs[0], t);
    }
  }

  /** A head with at least the votes of everything after it extends a sorted sequence. */
  lemma SortedCons(x: Candidate, t: seq<Candidate>)
    requires SortedByVotes(t)
    requires forall e :: e in t ==> x.votes >= e.votes
    ensures SortedByVotes([x] + t)
  {
    var r := [x] + t;
    forall i, j | 0 <= i < j < |r| ensures r[i].votes >= r[j].votes {
      if i == 0 {
        assert r[j] in t;
      } else {
        assert r[i] == t[i - 1] && r[j] == t[j - 1];
      }
    }
  }

  /** The ties of a sequence with a head: the head if it holds `v` votes, then the ties of the rest. */
  lemma TiedCons(x: Candidate, s: seq<Candidate>, v: int)
    ensures Tied([x] + s, v) == (if x.votes == v then [x] else []) + Tied(s, v)
  {
    Seqs.FilterConcat([x], s, VotesEq(v));
    assert [x][1..] == [];
  }

  lemma {:induction false} InsertByVotesTied(c: Candidate, cs: seq<Candidate>, v: int)
    ensures Tied(InsertByVotes(c, cs), v) == Tied([c] + cs, v)
  {
    if |cs| > 0 && c.votes < cs[0].votes {
      var rest := cs[1..];
      InsertByVotesTied(c, rest, v);
      TiedCons(cs[0], InsertByVotes(c, rest), v);
      TiedCons(c, rest, v);
      TiedCons(c, cs, v);
      TiedCons(cs[0], rest, v);
      assert [cs[0]] + rest == cs;
    }
  }

  /**
   * The results order is a permutation of the stored candidates, in
   * non-increasing vote order, and candidates with equal votes keep their
   * stored relative order.
   */
  lemma SortByVotesCorrect(cs: seq<Candidate>)
    ensures SortedByVotes(SortByVotes(cs))
    ensures multiset(SortByVotes(cs)) == multiset(cs)
    ensures forall v :: Tied(SortByVotes(cs), v) == Tied(cs, v)
  {
    SortByVotesOrdered(cs);
    forall v ensures Tied(SortByVotes(cs), v) == Tied(cs, v) {
      SortByVotesStable(cs, v);
    }
  }

  lemma {:induction false} SortByVotesOrdered(cs: seq<Candidate>)
    ensures SortedByVotes(SortByVotes(cs))
    ensures multiset(SortByVotes(cs)) == multiset(cs)
  {
    if |cs| > 0 {
      var rest := SortByVotes(cs[1..]);
      SortByVotesOrdered(cs[1..]);
      InsertByVotesSorted(cs[0], rest);
      InsertByVotesMultiset(cs[0], rest);
      assert cs == [cs[0]] + cs[1..];
    }
  }

  lemma {:induction false} SortByVotesStable(cs: seq<Candidate>, v: int)
    ensures Tied(SortByVotes(cs), v) == Tied(cs, v)
  {
    if |cs| > 0 {
      var rest := SortByVotes(cs[1..]);
      SortByVotesStable(cs[1..], v);
      InsertByVotesTied(cs[0], rest, v);
      Seqs.FilterConcat([cs[0]], rest, VotesEq(v));
      Seqs.FilterConcat([cs[0]], cs[1..], VotesEq(v));
      assert cs == [cs[0]] + cs[1..];
    }
  }

  /**
   * Sortedness, the same multiset and the same order among ties pin the
   * result down: any sequence with these three properties is `SortByVotes`.
   */
  lemma {:induction false} SortByVotesUnique(cs: seq<Candidate>, r: seq<Candidate>)
    requires SortedByVotes(r)
    requires multiset(r) == multiset(cs)
    requires forall v :: Tied(r, v) == Tied(cs, v)
    ensures r == SortByVotes(cs)
  {
    SortByVotesCorrect(cs);
    SortedTiedUnique(r, SortByVotes(cs));
  }

  /** Two sorted sequences with the same ties for every count are equal. */
  lemma {:induction false} SortedTiedUnique(a: seq<Candidate>, b: seq<Candidate>)
    requires SortedByVotes(a) && SortedByVotes(b)
    requires forall v :: Tied(a, v) == Tied(b, v)
    ensures a == b
    decreases |a| + |b|
  {
    // Each head lies in the ties for its own count, so neither side is empty alone.
    if |a| > 0 {
      assert a[0] in Tied(a, a[0].votes);
    }
    if |b| > 0 {
      assert b[0] in Tied(b, b[0].votes);
    }
    if |a| > 0 && |b| > 0 {
      // The head of each is its largest count, so both heads hold the same count.
      assert a[0].votes == b[0].votes by {
        assert a[0] in Tied(b, a[0].votes);
        assert b[0] in Tied(a, b[0].votes);
        var i :| 0 <= i < |b| && b[i] == a[0];
        var j :| 0 <= j < |a| && a[j] == b[0];
      }
      var v := a[0].votes;
      assert a == [a[0]] + a[1..];
      assert b == [b[0]] + b[1..];
      assert a[0] == b[0] by {
        Seqs.FilterConcat([a[0]], a[1..], VotesEq(v));
        Seqs.FilterConcat([b[0]], b[1..], VotesEq(v));
        assert Tied(a, v)[0] == a[0];
        assert Tied(b, v)[0] == b[0];
      }
      forall w ensures Tied(a[1..], w) == Tied(b[1..], w) {
        Seqs.FilterConcat([a[0]], a[1..], VotesEq(w));
        Seqs.FilterConcat([b[0]], b[1..], VotesEq(w));
        var h := Seqs.Filter([a[0]], VotesEq(w));
        assert Tied(a, w) == h + Tied(a[1..], w);
        assert Tied(b, w) == h + Tied(b[1..], w);
        assert Tied(a[1..], w) == Tied(a, w)[|h|..];
      }
      SortedTiedUnique(a[1..], b[1..]);
    }
  }

  /** The worked example: `[A:3, B:5, C:5, D:0]` gives `[B:5, C:5, A:3, D:0]`. */
  lemma ResultsExample()
    ensures SortByVotes([Candidate("a", "A", 3), Candidate("b", "B", 5), Candidate("c", "C", 5), Candidate("d", "D", 0)])
         == [Candidate("b", "B", 5), Candidate("c", "C", 5), Candidate("a", "A", 3), Candidate("d", "D", 0)]
  {
    var a, b, c, d := Candidate("a", "A", 3), Candidate("b", "B", 5), Candidate("c", "C", 5), Candidate("d", "D", 0);
    assert SortByVotes([d]) == [d];
    assert [c, d][1..] == [d];
    assert SortByVotes([c, d]) == [c, d];
    assert [b, c, d][1..] == [c, d];
    assert SortByVotes([b, c, d]) == [b, c, d];
    assert [a, b, c, d][1..] == [b, c, d];
    assert [b, c, d][1..] == [c, d] && [c, d][1..] == [d];
  }

  // ---------------------------------------------------------------------------
  // Pure descriptions of the state changes.

  /** `candidate.votes++` on the `j`-th candidate of `p`. */
  function WithVote(p: Poll, j: nat): (q: Poll)
    requires j < |p.candidates|
    ensures q.id == p.id && q.title == p.title && q.status == p.status
    ensures |q.candidates| == |p.candidates|
    ensures forall k :: 0 <= k < |p.candidates| ==>
      q.candidates[k] == if k == j then p.candidates[j].(votes := p.candidates[j].votes + 1) else p.candidates[k]
  {
    p.(candidates := p.candidates[j := p.candidates[j].(votes := p.candidates[j].votes + 1)])
  }

  /** A vote adds exactly one to the poll's tally. */
  lemma WithVoteTally(p: Poll, j: nat)
    requires j < |p.candidates|
    ensures TotalVotes(WithVote(p, j).candidates) == TotalVotes(p.candidates) + 1
  {
    TotalVotesUpdate(p.candidates, j, p.candidates[j].(votes := p.candidates[j].votes + 1));
  }

  /** `currentStatus === 'open' ? 'closed' : 'open'`. */
  function Flip(s: Status): (t: Status)
    ensures t != s
  {
    if s == Open then Closed else Open
  }

  /** The database after toggling the status of the `i`-th poll. */
  function Toggled(polls: seq<Poll>, i: nat): (r: seq<Poll>)
    requires i < |polls|
    ensures |r| == |polls|
    ensures forall k :: 0 <= k < |polls| ==> r[k].id == polls[k].id
    ensures forall k :: 0 <= k < |polls| && k != i ==> r[k] == polls[k]
    ensures r[i] == polls[i].(status := Flip(polls[i].status))
  {
    polls[i := polls[i].(status := Flip(polls[i].status))]
  }

  /**
   * Toggling the same id twice finds the same poll both times and restores
   * the database.
   */
  lemma ToggleTwiceRestores(polls: seq<Poll>, id: string)
    requires FindPoll(polls, id).Some?
    ensures FindPoll(Toggled(polls, FindPoll(polls, id).value), id) == FindPoll(polls, id)
    ensures Toggled(Toggled(polls, FindPoll(polls, id).value), FindPoll(polls, id).value) == polls
  {
    var i := FindPoll(polls, id).value;
    FindPollSameIds(Toggled(polls, i), polls, id);
  }

  /** The first-match lookup only looks at ids. */
  lemma FindPollSameIds(a: seq<Poll>, b: seq<Poll>, id: string)
    requires |a| == |b|
    requires forall k :: 0 <= k < |a| ==> a[k].id == b[k].id
    ensures FindPoll(a, id) == FindPoll(b, id)
  {
    var fa, fb := FindPoll(a, id), FindPoll(b, id);
    if fa.Some? {
      assert b[fa.value].id == id;
    }
    if fb.Some? {
      assert a[fb.value].id == id;
    }
  }

  /** The first-match lookup of a candidate only looks at ids. */
  lemma FindCandidateSameIds(a: seq<Candidate>, b: seq<Candidate>, id: string)
    requires |a| == |b|
    requires forall k :: 0 <= k < |a| ==> a[k].id == b[k].id
    ensures FindCandidate(a, id) == FindCandidate(b, id)
  {
    var fa, fb := FindCandidate(a, id), FindCandidate(b, id);
    if fa.Some? {
      assert b[fa.value].id == id;
    }
    if fb.Some? {
      assert a[fb.value].id == id;
    }
  }

  /** `p => p.id !== id`. */
  function IdIsNot(id: string): Poll -> bool
  {
    (p: Poll) => p.id != id
  }

  /** `polls.filter(p => p.id !== id)`. */
  function WithoutId(polls: seq<Poll>, id: string): (r: seq<Poll>)
    ensures forall p :: p in r <==> p in polls && p.id != id
    ensures Seqs.IsSubseq(r, polls)
  {
    Seqs.Filter(polls, IdIsNot(id))
  }

  /** The filter leaves the length unchanged exactly when no poll has the id. */
  lemma WithoutIdLength(polls: seq<Poll>, id: string)
    ensures |WithoutId(polls, id)| <= |polls|
    ensures |WithoutId(polls, id)| == |polls| <==> forall k :: 0 <= k < |polls| ==> polls[k].id != id
    ensures |WithoutId(polls, id)| == |polls| ==> WithoutId(polls, id) == polls
  {
    Seqs.FilterLength(polls, IdIsNot(id));
    if |WithoutId(polls, id)| == |polls| {
      Seqs.FilterAllPass(polls, IdIsNot(id));
    }
  }

  /** `!title || !Array.isArray(candidates) || candidates.length < 2`, negated. */
  predicate ValidCreateRequest(title: Option<string>, names: Option<seq<string>>)
  {
    title.Some? && title.value != "" && names.Some? && |names.value| >= 2
  }

  /** Every stored count is non-negative. */
  predicate NonNegativeVotes(polls: seq<Poll>)
  {
    forall k, m :: 0 <= k < |polls| && 0 <= m < |polls[k].candidates| ==> polls[k].candidates[m].votes >= 0
  }

  /** Poll ids are distinct. */
  predicate DistinctIds(polls: seq<Poll>)
  {
    forall k, m :: 0 <= k < m < |polls| ==> polls[k].id != polls[m].id
  }

  /** The state `server.js` keeps in `db.json`. */
  class PollDb {
    var polls: seq<Poll>

    /**
     * What every handler preserves: counts only ever start at 0 and grow
     * by one, and poll ids come from `crypto.randomUUID`, taken to be fresh.
     */
    ghost predicate Valid()
      reads this
    {
      NonNegativeVotes(polls) && DistinctIds(polls)
    }

    /** `readDb` on a missing file: `{ polls: [] }`. */
    constructor ()
      ensures Valid() && polls == []
    {
      polls := [];
    }

    /** GET /api/polls, with `status` the `?status=` query parameter. */
    method ListPolls(status: Option<string>) returns (r: seq<Poll>)
      ensures status == Some("open") ==> forall p :: p in r <==> p in polls && p.status == Open
      ensures status == Some("open") ==> Seqs.IsSubseq(r, polls)
      ensures status == Some("open") ==> forall p :: multiset(r)[p] == if p.status == Open then multiset(polls)[p] else 0
      ensures status != Some("open") ==> r == polls
    {
      if status == Some("open") {
        r := Seqs.Filter(polls, IsOpen);
        forall p ensures multiset(r)[p] == if p.status == Open then multiset(polls)[p] else 0 {
          Seqs.FilterCounts(polls, IsOpen, p);
        }
      } else {
        r := polls;
      }
    }

    /** GET /api/polls/:id. */
    method GetPoll(id: string) returns (r: Result<Poll, ApiError>)
      ensures r.Err? <==> forall k :: 0 <= k < |polls| ==> polls[k].id != id
      ensures r.Err? ==> r.error == PollNotFound
      ensures r.Ok? ==> exists k :: 0 <= k < |polls| && polls[k] == r.value && r.value.id == id
                                  && forall m :: 0 <= m < k ==> polls[m].id != id
    {
      match FindPoll(polls, id)
      case None => r := Err(PollNotFound);
      case Some(k) => r := Ok(polls[k]);
    }

    /** GET /api/polls/:id/results. */
    method GetResults(id: string) returns (r: Result<seq<Candidate>, ApiError>)
      ensures r.Err? <==> forall k :: 0 <= k < |polls| ==> polls[k].id != id
      ensures r.Err? ==> r.error == PollNotFound
      ensures r.Ok? ==> exists k :: 0 <= k < |polls| && polls[k].id == id
                                  && (forall m :: 0 <= m < k ==> polls[m].id != id)
                                  && SortedByVotes(r.value)
                                  && multiset(r.value) == multiset(polls[k].candidates)
                                  && forall v :: Tied(r.value, v) == Tied(polls[k].candidates, v)
    {
      match FindPoll(polls, id)
      case None => r := Err(PollNotFound);
      case Some(k) =>
        SortByVotesCorrect(polls[k].candidates);
        r := Ok(SortByVotes(polls[k].candidates));
    }

    /**
     * POST /api/polls. `pollId` and `candidateIds` are the values
     * `crypto.randomUUID` returns, one per candidate name.
     */
    method CreatePoll(title: Option<string>, names: Option<seq<string>>, pollId: string, candidateIds: seq<string>)
      returns (r: Result<Poll, ApiError>)
      requires Valid()
      requires names.Some? ==> |candidateIds| == |names.value|
      requires forall k :: 0 <= k < |polls| ==> polls[k].id != pollId
      modifies this
      ensures Valid()
      ensures !ValidCreateRequest(title, names) ==> r == Err(InvalidPollData) && polls == old(polls)
      ensures ValidCreateRequest(title, names) ==>
        && r.Ok?
        && polls == old(polls) + [r.value]
        && r.value.id == pollId && r.value.title == title.value && r.value.status == Open
        && |r.value.candidates| == |names.value|
        && forall k :: 0 <= k < |names.value| ==> r.value.candidates[k] == Candidate(candidateIds[k], names.value[k], 0)
    {
      if !ValidCreateRequest(title, names) {
        return Err(InvalidPollData);
      }
      var ns := names.value;
      var cs := seq(|ns|, k requires 0 <= k < |ns| => Candidate(candidateIds[k], ns[k], 0));
      var poll := Poll(pollId, title.value, cs, Open);
      polls := polls + [poll];
      r := Ok(poll);
    }

    /** POST /api/polls/:id/vote with body `{ candidateId }`. */
    method Vote(pollId: string, candidateId: string) returns (r: Outcome<ApiError>)
      requires Valid()
      modifies this
      ensures Valid()
      ensures FindPoll(old(polls), pollId).None? ==> r == Fail(PollNotFound) && polls == old(polls)
      ensures FindPoll(old(polls), pollId).Some? ==>
        var i := FindPoll(old(polls), pollId).value;
        var p := old(polls)[i];
        && (p.status == Closed ==> r == Fail(PollClosed) && polls == old(polls))
        && (p.status == Open && FindCandidate(p.candidates, candidateId).None? ==>
              r == Fail(CandidateNotFound) && polls == old(polls))
        && (p.status == Open && FindCandidate(p.candidates, candidateId).Some? ==>
              r == Pass && polls == old(polls)[i := WithVote(p, FindCandidate(p.candidates, candidateId).value)])
    {
      var found := FindPoll(polls, pollId);
      if found.None? {
        return Fail(PollNotFound);
      }
      var i := found.value;
      if polls[i].status == Closed {
        return Fail(PollClosed);
      }
      var c := FindCandidate(polls[i].candidates, candidateId);
      if c.None? {
        return Fail(CandidateNotFound);
      }
      polls := polls[i := WithVote(polls[i], c.value)];
      r := Pass;
    }

    /** PATCH /api/polls/:id/status. */
    method ToggleStatus(id: string) returns (r: Result<Poll, ApiError>)
      requires Valid()
      modifies this
      ensures Valid()
      ensures FindPoll(old(polls), id).None? ==> r == Err(PollNotFound) && polls == old(polls)
      ensures FindPoll(old(polls), id).Some? ==>
        var i := FindPoll(old(polls), id).value;
        && polls == Toggled(old(polls), i)
        && polls[i].status == Flip(old(polls)[i].status)
        && r == Ok(polls[i])
    {
      var found := FindPoll(polls, id);
      if found.None? {
        return Err(PollNotFound);
      }
      var i := found.value;
      polls := Toggled(polls, i);
      r := Ok(polls[i]);
    }

    /** DELETE /api/polls/:id. */
    method DeletePoll(id: string) returns (r: Outcome<ApiError>)
      requires Valid()
      modifies this
      ensures Valid()
      ensures r.Fail? <==> forall k :: 0 <= k < |old(polls)| ==> old(polls)[k].id != id
      ensures r.Fail? ==> r.error == PollNotFound && polls == old(polls)
      ensures r.Pass? ==> polls == WithoutId(old(polls), id) && |polls| < |old(polls)|
    {
      var kept := WithoutId(polls, id);
      WithoutIdLength(polls, id);
      if |kept| == |polls| {
        return Fail(PollNotFound);
      }
      Seqs.SubseqMembers(kept, polls);
      SubseqKeepsDistinct(kept, polls);
      polls := kept;
      r := Pass;
    }

    /** DELETE /api/polls. */
    method DeleteAll()
      modifies this
      ensures Valid() && polls == []
    {
      polls := [];
    }
  }

  /** A subsequence of a database with distinct ids has distinct ids. */
  lemma {:induction false} SubseqKeepsDistinct(a: seq<Poll>, b: seq<Poll>)
    requires Seqs.IsSubseq(a, b) && DistinctIds(b) && NonNegativeVotes(b)
    ensures DistinctIds(a) && NonNegativeVotes(a)
    decreases |b|
  {
    if |a| > 0 {
      assert b == [b[0]] + b[1..];
      if a[0] == b[0] {
        SubseqKeepsDistinct(a[1..], b[1..]);
        Seqs.SubseqMembers(a[1..], b[1..]);
        forall m | 0 < m < |a| ensures a[0].id != a[m].id {
          assert a[m] == a[1..][m - 1];
          assert a[m] in a[1..];
          assert a[m] in b[1..];
          var t :| 0 <= t < |b[1..]| && b[1..][t] == a[m];
          assert b[t + 1] == a[m];
        }
        forall k, m | 0 <= k < |a| && 0 <= m < |a[k].candidates| ensures a[k].candidates[m].votes >= 0 {
          if k > 0 { assert a[k] == a[1..][k - 1]; }
        }
      } else {
        SubseqKeepsDistinct(a, b[1..]);
      }
    }
  }

  /**
   * The only double-vote guard is on the client: the server counts every
   * accepted request, so two identical votes add two.
   */
  method RepeatedVotesCount(db: PollDb, pollId: string, candidateId: string)
    requires db.Valid()
    requires FindPoll(db.polls, pollId).Some?
    requires db.polls[FindPoll(db.polls, pollId).value].status == Open
    requires FindCandidate(db.polls[FindPoll(db.polls, pollId).value].candidates, candidateId).Some?
    modifies db
    ensures |db.polls| == |old(db.polls)|
    ensures var i := FindPoll(old(db.polls), pollId).value;
            var j := FindCandidate(old(db.polls)[i].candidates, candidateId).value;
            && |db.polls[i].candidates| == |old(db.polls)[i].candidates|
            && db.polls[i].candidates[j].votes == old(db.polls)[i].candidates[j].votes + 2
  {
    var i := FindPoll(db.polls, pollId).value;
    var j := FindCandidate(db.polls[i].candidates, candidateId).value;
    var first := db.Vote(pollId, candidateId);
    FindPollSameIds(db.polls, old(db.polls), pollId);
    FindCandidateSameIds(db.polls[i].candidates, old(db.polls)[i].candidates, candidateId);
    var second := db.Vote(pollId, candidateId);
    assert first == Pass && second == Pass;
  }
}
