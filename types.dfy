/** The records of `types.ts`: candidates, polls and users. */
module Types {
  import opened Wrappers

  /** `'open' | 'closed'`. */
  datatype Status = Open | Closed

  /** One selectable option of a poll with its stored tally. */
  datatype Candidate = Candidate(id: string, name: string, votes: int)

  /**
   * A poll. `types.ts` also declares a `resultsheet` string that no core
   * operation reads or writes; it is not part of this record.
   */
  datatype Poll = Poll(id: string, title: string, candidates: seq<Candidate>, status: Status)

  /**
   * A user of the directory. `poll1`/`poll2` are the optional per-poll vote
   * fields the user card reads; `types.ts` does not declare them.
   */
  datatype User = User(username: string, name: string, department: string,
                       poll1: Option<string>, poll2: Option<string>)

  predicate IsOpen(p: Poll)
  {
    p.status == Open
  }

  /** `candidates.reduce((sum, c) => sum + c.votes, 0)`. */
  function TotalVotes(cs: seq<Candidate>): int
  {
    if |cs| == 0 then 0 else cs[0].votes + TotalVotes(cs[1..])
  }

  /** The tally of a concatenation is the sum of the tallies. */
  lemma {:induction false} TotalVotesConcat(a: seq<Candidate>, b: seq<Candidate>)
    ensures TotalVotes(a + b) == TotalVotes(a) + TotalVotes(b)
  {
    if |a| > 0 {
      assert (a + b)[1..] == a[1..] + b;
      TotalVotesConcat(a[1..], b);
    } else {
      assert a + b == b;
    }
  }

  /** Changing one candidate's count by `d` changes the tally by `d`. */
  lemma {:induction false} TotalVotesUpdate(cs: seq<Candidate>, j: nat, c: Candidate)
    requires j < |cs|
    ensures TotalVotes(cs[j := c]) == TotalVotes(cs) + c.votes - cs[j].votes
  {
    if j > 0 {
      assert cs[j := c][1..] == cs[1..][j - 1 := c];
      TotalVotesUpdate(cs[1..], j - 1, c);
    }
  }
}
