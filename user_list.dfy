/**
 * `filteredUsers` of `components/UserListPage.tsx`: a search over name
 * and department, then, when asked, only the users who have not yet voted
 * in every open poll. `hasVotedInPoll` is a parameter: the voting service
 * this page imports does not define it.
 */
module UserList {
  import opened Types
  import opened Strings
  import Seqs

  /** `user.name.toLowerCase().includes(q) || user.department.toLowerCase().includes(q)`, `q` lower-cased. */
  predicate SearchMatches(query: string, u: User)
  {
    Contains(Lower(u.name), Lower(query)) || Contains(Lower(u.department), Lower(query))
  }

  function MatchesSearch(query: string): User -> bool
  {
    (u: User) => SearchMatches(query, u)
  }

  /** `openPolls.every(poll => hasVotedInPoll(poll, user))`. */
  predicate VotedInAll(openPolls: seq<Poll>, u: User, hasVotedInPoll: (Poll, User) -> bool)
  {
    forall k :: 0 <= k < |openPolls| ==> hasVotedInPoll(openPolls[k], u)
  }

  function NotVotedInAll(openPolls: seq<Poll>, hasVotedInPoll: (Poll, User) -> bool): User -> bool
  {
    (u: User) => !VotedInAll(openPolls, u, hasVotedInPoll)
  }

  /** `polls.filter(p => p.status === 'open')`. */
  function OpenPolls(polls: seq<Poll>): seq<Poll>
  {
    Seqs.Filter(polls, IsOpen)
  }

  /** The search step: a query, when there is one (it is truthy), keeps the matching users. */
  function Searched(users: seq<User>, query: string): seq<User>
  {
    if query != "" then Seqs.Filter(users, MatchesSearch(query)) else users
  }

  /** `filteredUsers`. */
  function FilteredUsers(users: seq<User>, polls: seq<Poll>, query: string, onlyNonVoters: bool,
                         hasVotedInPoll: (Poll, User) -> bool): seq<User>
  {
    var results := Searched(users, query);
    if onlyNonVoters && |OpenPolls(polls)| > 0 then
      Seqs.Filter(results, NotVotedInAll(OpenPolls(polls), hasVotedInPoll))
    else results
  }

  /** Whether `filteredUsers` keeps `u`, one condition per step. */
  predicate Kept(u: User, polls: seq<Poll>, query: string, onlyNonVoters: bool,
                 hasVotedInPoll: (Poll, User) -> bool)
  {
    && (query == "" || SearchMatches(query, u))
    && (!onlyNonVoters || |OpenPolls(polls)| == 0 || !VotedInAll(OpenPolls(polls), u, hasVotedInPoll))
  }

  function KeptBy(polls: seq<Poll>, query: string, onlyNonVoters: bool,
                  hasVotedInPoll: (Poll, User) -> bool): User -> bool
  {
    (u: User) => Kept(u, polls, query, onlyNonVoters, hasVotedInPoll)
  }

  /**
   * The two steps together are one filter by `Kept`: the result is an
   * order-preserving subsequence of the users, holding exactly those kept.
   */
  lemma FilteredUsersIsFilter(users: seq<User>, polls: seq<Poll>, query: string, onlyNonVoters: bool,
                              hasVotedInPoll: (Poll, User) -> bool)
    ensures FilteredUsers(users, polls, query, onlyNonVoters, hasVotedInPoll)
            == Seqs.Filter(users, KeptBy(polls, query, onlyNonVoters, hasVotedInPoll))
  {
    var open := OpenPolls(polls);
    var kept := KeptBy(polls, query, onlyNonVoters, hasVotedInPoll);
    var search := MatchesSearch(query);
    var notVoted := NotVotedInAll(open, hasVotedInPoll);
    if query != "" && onlyNonVoters && |open| > 0 {
      Seqs.FilterTwice(users, search, notVoted);
      Seqs.FilterCongruent(users, Seqs.Both(search, notVoted), kept);
    } else if query != "" {
      Seqs.FilterCongruent(users, search, kept);
    } else if onlyNonVoters && |open| > 0 {
      Seqs.FilterCongruent(users, notVoted, kept);
    } else {
      Seqs.FilterAllPass(users, kept);
    }
  }

  /** `filteredUsers` keeps the directory's order and drops exactly the users not kept. */
  lemma FilteredUsersSpec(users: seq<User>, polls: seq<Poll>, query: string, onlyNonVoters: bool,
                          hasVotedInPoll: (Poll, User) -> bool)
    ensures Seqs.IsSubseq(FilteredUsers(users, polls, query, onlyNonVoters, hasVotedInPoll), users)
    ensures forall u :: u in FilteredUsers(users, polls, query, onlyNonVoters, hasVotedInPoll)
                        <==> u in users && Kept(u, polls, query, onlyNonVoters, hasVotedInPoll)
  {
    FilteredUsersIsFilter(users, polls, query, onlyNonVoters, hasVotedInPoll);
  }

  /** With no query and the non-voter toggle off the whole directory is shown. */
  lemma NoFiltersShowsAll(users: seq<User>, polls: seq<Poll>, hasVotedInPoll: (Poll, User) -> bool)
    ensures FilteredUsers(users, polls, "", false, hasVotedInPoll) == users
  {
  }

  /** Without open polls the non-voter toggle changes nothing. */
  lemma ToggleWithoutOpenPolls(users: seq<User>, polls: seq<Poll>, query: string,
                               hasVotedInPoll: (Poll, User) -> bool)
    requires forall k :: 0 <= k < |polls| ==> polls[k].status == Closed
    ensures FilteredUsers(users, polls, query, true, hasVotedInPoll)
            == FilteredUsers(users, polls, query, false, hasVotedInPoll)
  {
    Seqs.FilterNonePass(polls, IsOpen);
  }

  /**
   * With a query and no toggle, a user of the directory is listed exactly
   * when the lower-cased name or department contains the lower-cased query.
   */
  lemma SearchKeepsMatches(users: seq<User>, polls: seq<Poll>, query: string,
                           hasVotedInPoll: (Poll, User) -> bool, u: User)
    requires query != "" && u in users
    ensures u in FilteredUsers(users, polls, query, false, hasVotedInPoll) <==> SearchMatches(query, u)
  {
  }

  /**
   * With the toggle on, no query and some open poll, a user of the
   * directory is listed exactly when some open poll has no vote from them.
   */
  lemma NonVotersKept(users: seq<User>, polls: seq<Poll>, hasVotedInPoll: (Poll, User) -> bool, u: User)
    requires u in users
    requires exists k :: 0 <= k < |polls| && polls[k].status == Open
    ensures u in FilteredUsers(users, polls, "", true, hasVotedInPoll)
            <==> exists p :: p in polls && p.status == Open && !hasVotedInPoll(p, u)
  {
    var open := OpenPolls(polls);
    var k :| 0 <= k < |polls| && polls[k].status == Open;
    assert polls[k] in open;
    if !VotedInAll(open, u, hasVotedInPoll) {
      var j :| 0 <= j < |open| && !hasVotedInPoll(open[j], u);
      assert open[j] in open;
    }
  }
}
