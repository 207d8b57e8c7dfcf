/**
 * `components/VotingPage.tsx`: the candidate search, the per-user
 * "already voted" marker kept in `localStorage`, the screen each state
 * renders, and the poll list with its single-poll shortcut.
 */
module VotingPage {
  import opened Wrappers
  import opened Types
  import opened Strings
  import Seqs

  // ---------------------------------------------------------------------------
  // The candidate search.

  /** `candidate.name.toLowerCase().includes(searchQuery.toLowerCase())`. */
  predicate NameMatches(query: string, c: Candidate)
  {
    Contains(Lower(c.name), Lower(query))
  }

  function MatchesQuery(query: string): Candidate -> bool
  {
    (c: Candidate) => NameMatches(query, c)
  }

  /**
   * `filteredCandidates`: nothing before a poll is loaded, otherwise the
   * poll's candidates whose name contains the query, ignoring case, in
   * their stored order.
   */
  function FilteredCandidates(poll: Option<Poll>, query: string): (r: seq<Candidate>)
    ensures poll.None? ==> r == []
    ensures poll.Some? ==> Seqs.IsSubseq(r, poll.value.candidates)
    ensures poll.Some? ==> forall c :: c in r <==> c in poll.value.candidates && NameMatches(query, c)
    ensures poll.Some? ==> forall c :: multiset(r)[c] == if NameMatches(query, c) then multiset(poll.value.candidates)[c] else 0
  {
    if poll.None? then []
    else
      Seqs.FilterCountsAll(poll.value.candidates, MatchesQuery(query));
      Seqs.Filter(poll.value.candidates, MatchesQuery(query))
  }

  /** The empty query keeps every candidate. */
  lemma EmptyQueryKeepsAll(p: Poll)
    ensures FilteredCandidates(Some(p), "") == p.candidates
  {
    forall c | c in p.candidates ensures MatchesQuery("")(c) {
      ContainsEmpty(Lower(c.name));
    }
    Seqs.FilterAllPass(p.candidates, MatchesQuery(""));
  }

  /** Two queries that agree once lower-cased find the same candidates. */
  lemma SearchIgnoresQueryCase(poll: Option<Poll>, q: string, q2: string)
    requires Lower(q) == Lower(q2)
    ensures FilteredCandidates(poll, q) == FilteredCandidates(poll, q2)
  {
    if poll.Some? {
      Seqs.FilterCongruent(poll.value.candidates, MatchesQuery(q), MatchesQuery(q2));
    }
  }

  /** In particular a query typed in capitals finds what it finds in any case. */
  lemma UpperQuerySameResult(poll: Option<Poll>, q: string)
    ensures FilteredCandidates(poll, Upper(q)) == FilteredCandidates(poll, q)
  {
    LowerOfUpper(q);
    SearchIgnoresQueryCase(poll, Upper(q), q);
  }

  // ---------------------------------------------------------------------------
  // The voted marker.

  /** The `localStorage` key that remembers the vote of `user` in `pollId`. */
  function MarkerKey(user: string, pollId: string): string
  {
    "voted-candidate-id-" + user + "-" + pollId
  }

  /** `!!localStorage.getItem(key)`: a marker is stored and is not empty. */
  predicate HasMarker(items: map<string, string>, user: string, pollId: string)
  {
    MarkerKey(user, pollId) in items && items[MarkerKey(user, pollId)] != ""
  }

  lemma KeyDashAt(user: string, pollId: string)
    ensures |MarkerKey(user, pollId)| == 20 + |user| + |pollId|
    ensures MarkerKey(user, pollId)[19 + |user|] == '-'
  {
  }

  lemma KeyCharAt(user: string, pollId: string, i: nat)
    requires i < |user|
    ensures MarkerKey(user, pollId)[19 + i] == user[i]
  {
  }

  /**
   * For user names without a dash, which the seeded staff numbers are, each
   * (user, poll) pair has its own marker: a vote in one poll never marks
   * another poll, nor another user.
   */
  lemma MarkerKeyDistinct(u1: string, p1: string, u2: string, p2: string)
    requires '-' !in u1 && '-' !in u2
    ensures MarkerKey(u1, p1) == MarkerKey(u2, p2) <==> u1 == u2 && p1 == p2
  {
    var a, b := MarkerKey(u1, p1), MarkerKey(u2, p2);
    if |u1| < |u2| {
      ShorterUserOtherKey(u1, p1, u2, p2);
    } else if |u2| < |u1| {
      ShorterUserOtherKey(u2, p2, u1, p1);
    } else if a == b {
      assert u1 == a[19..19 + |u1|];
      assert u2 == b[19..19 + |u2|];
      KeyDashAt(u1, p1);
      assert p1 == a[20 + |u1|..];
      assert p2 == b[20 + |u2|..];
    }
  }

  /** Where the shorter user name ends, its key has a dash and the other key does not. */
  lemma ShorterUserOtherKey(u1: string, p1: string, u2: string, p2: string)
    requires '-' !in u2 && |u1| < |u2|
    ensures MarkerKey(u1, p1) != MarkerKey(u2, p2)
  {
    KeyDashAt(u1, p1);
    KeyCharAt(u2, p2, |u1|);
  }

  /** With a dash in a user name two pairs can share one marker. */
  lemma MarkerKeysCollide()
    ensures MarkerKey("a-b", "c") == MarkerKey("a", "b-c")
  {
  }

  /** The browser's `localStorage`, as far as the markers go. */
  class LocalStorage {
    var items: map<string, string>

    constructor ()
      ensures items == map[]
    {
      items := map[];
    }

    /** `localStorage.setItem(key, value)`. */
    method SetItem(key: string, value: string)
      modifies this
      ensures items == old(items)[key := value]
    {
      items := items[key := value];
    }
  }

  // ---------------------------------------------------------------------------
  // The single-poll view `PollVoteView`.

  const LoadPollError := "Failed to load the poll. Please try again later."
  const SubmitError := "An error occurred while submitting your vote."

  /** What `getPollById` settles with: a poll, `null` for a 404, or a rejection. */
  datatype PollFetch = Fetched(poll: Poll) | Missing | FetchFailed

  /** The five screens of the view, in the order its `if`s test them. */
  datatype ViewScreen = Spinner | ClosedScreen | ThanksScreen | NotFoundScreen | VoteForm

  /**
   * The screen for a state: loading first, then a closed poll (even for a
   * user who has voted), then the thank-you screen, then a missing poll.
   */
  function Screen(isLoading: bool, poll: Option<Poll>, hasVoted: bool): (s: ViewScreen)
    ensures s == Spinner <==> isLoading
    ensures s == VoteForm <==> !isLoading && poll.Some? && poll.value.status == Open && !hasVoted
    ensures s == ClosedScreen <==> !isLoading && poll.Some? && poll.value.status == Closed
    ensures s == NotFoundScreen <==> !isLoading && poll.None? && !hasVoted
    ensures s == ThanksScreen <==> !isLoading && hasVoted && !(poll.Some? && poll.value.status == Closed)
  {
    if isLoading then Spinner
    else if poll.Some? && poll.value.status == Closed then ClosedScreen
    else if hasVoted then ThanksScreen
    else if poll.None? then NotFoundScreen
    else assert poll.value.status.Open?; VoteForm
  }

  /** `err.message || 'An error occurred while submitting your vote.'`. */
  function SubmitMessage(message: string): (m: string)
    ensures m != ""
    ensures message != "" ==> m == message
  {
    if message == "" then SubmitError else message
  }

  class PollVoteView {
    const pollId: string
    const currentUser: string
    var poll: Option<Poll>
    var isLoading: bool
    var selectedCandidateId: Option<string>
    var isSubmitting: bool
    var hasVoted: bool
    var error: Option<string>
    var searchQuery: string

    constructor (pollId: string, currentUser: string)
      ensures this.pollId == pollId && this.currentUser == currentUser
      ensures poll == None && isLoading && selectedCandidateId == None
      ensures !isSubmitting && !hasVoted && error == None && searchQuery == ""
    {
      this.pollId := pollId;
      this.currentUser := currentUser;
      poll := None;
      isLoading := true;
      selectedCandidateId := None;
      isSubmitting := false;
      hasVoted := false;
      error := None;
      searchQuery := "";
    }

    /** The screen the component renders now. */
    function CurrentScreen(): ViewScreen
      reads this
    {
      Screen(isLoading, poll, hasVoted)
    }

    /** The submit button is enabled: a candidate is selected and no submission is running. */
    predicate CanSubmit()
      reads this
    {
      selectedCandidateId.Some? && !isSubmitting
    }

    /** `fetchPoll` up to its `await`. */
    method BeginFetch()
      modifies this
      ensures isLoading
      ensures poll == old(poll) && hasVoted == old(hasVoted) && error == old(error)
      ensures selectedCandidateId == old(selectedCandidateId) && isSubmitting == old(isSubmitting)
      ensures searchQuery == old(searchQuery)
    {
      isLoading := true;
    }

    /**
     * `fetchPoll` after its `await`: a loaded poll is shown and `hasVoted`
     * says whether this user's marker for it is stored; a 404 clears the
     * poll and a rejection shows an error. Loading ends in every case.
     */
    method FinishFetch(data: PollFetch, items: map<string, string>)
      modifies this
      ensures !isLoading
      ensures data.Fetched? ==> poll == Some(data.poll) && error == old(error)
                                && hasVoted == HasMarker(items, currentUser, data.poll.id)
      ensures data.Missing? ==> poll == None && error == old(error) && hasVoted == old(hasVoted)
      ensures data.FetchFailed? ==> poll == old(poll) && error == Some(LoadPollError) && hasVoted == old(hasVoted)
      ensures selectedCandidateId == old(selectedCandidateId) && isSubmitting == old(isSubmitting)
      ensures searchQuery == old(searchQuery)
    {
      match data {
        case Fetched(p) =>
          poll := Some(p);
          var key := MarkerKey(currentUser, p.id);
          hasVoted := key in items && items[key] != "";
        case Missing =>
          poll := None;
        case FetchFailed =>
          error := Some(LoadPollError);
      }
      isLoading := false;
    }

    /** `onSelect` of a candidate card. */
    method Select(candidateId: string)
      modifies this
      ensures selectedCandidateId == Some(candidateId)
      ensures poll == old(poll) && isLoading == old(isLoading) && isSubmitting == old(isSubmitting)
      ensures hasVoted == old(hasVoted) && error == old(error) && searchQuery == old(searchQuery)
    {
      selectedCandidateId := Some(candidateId);
    }

    /** The search box's `onChange`. */
    method SetSearchQuery(query: string)
      modifies this
      ensures searchQuery == query
      ensures poll == old(poll) && isLoading == old(isLoading) && isSubmitting == old(isSubmitting)
      ensures hasVoted == old(hasVoted) && error == old(error)
      ensures selectedCandidateId == old(selectedCandidateId)
    {
      searchQuery := query;
    }

    /**
     * `handleVoteSubmit`, where `outcome` is how `submitVote` settled
     * (`Fail` carries the error's message) and `write` is how the following
     * `localStorage.setItem` ends (`Fail` when it throws). Without a
     * selection nothing happens. The marker is written, and `hasVoted` set,
     * only when the vote was accepted and the write succeeds; a failure of
     * either shows that error's message and writes nothing, even though a
     * vote the server accepted stays counted.
     */
    method HandleVoteSubmit(storage: LocalStorage, outcome: Outcome<string>, write: Outcome<string>)
      modifies this, storage
      ensures old(selectedCandidateId).None? ==>
                && storage.items == old(storage.items) && error == old(error)
                && hasVoted == old(hasVoted) && isSubmitting == old(isSubmitting)
      ensures old(selectedCandidateId).Some? && outcome.Pass? && write.Pass? ==>
                && storage.items == old(storage.items)[MarkerKey(currentUser, pollId) := old(selectedCandidateId).value]
                && hasVoted && error == None && !isSubmitting
      ensures old(selectedCandidateId).Some? && outcome.Pass? && write.Fail? ==>
                && storage.items == old(storage.items) && hasVoted == old(hasVoted)
                && error == Some(SubmitMessage(write.error)) && !isSubmitting
      ensures old(selectedCandidateId).Some? && outcome.Fail? ==>
                && storage.items == old(storage.items) && hasVoted == old(hasVoted)
                && error == Some(SubmitMessage(outcome.error)) && !isSubmitting
      ensures poll == old(poll) && isLoading == old(isLoading) && searchQuery == old(searchQuery)
      ensures selectedCandidateId == old(selectedCandidateId)
    {
      if selectedCandidateId.None? {
        return;
      }
      isSubmitting := true;
      error := None;
      match outcome {
        case Pass =>
          match write {
            case Pass =>
              storage.SetItem(MarkerKey(currentUser, pollId), selectedCandidateId.value);
              hasVoted := true;
            case Fail(message) =>
              error := Some(SubmitMessage(message));
          }
        case Fail(message) =>
          error := Some(SubmitMessage(message));
      }
      isSubmitting := false;
    }
  }

  // ---------------------------------------------------------------------------
  // The poll list `VotingPage`.

  const LoadPollsError := "Failed to load polls. Please try again later."

  /** The screens of the page. `OpenPoll` is the single-poll view it hands over to. */
  datatype PageScreen = PageSpinner | OpenPoll(pollId: string, showBackButton: bool) | NoActivePolls | PollList

  /**
   * The screen for a state: loading, then a selected poll (a truthy id),
   * then the empty notice, then the list. The single-poll view gets a back
   * button only when there is more than one poll to go back to.
   */
  function PageScreenOf(isLoading: bool, selectedPollId: Option<string>, activePolls: seq<Poll>): (s: PageScreen)
    ensures s == PageSpinner <==> isLoading
    ensures s.OpenPoll? <==> !isLoading && selectedPollId.Some? && selectedPollId.value != ""
    ensures s == NoActivePolls <==> !isLoading && !(selectedPollId.Some? && selectedPollId.value != "") && activePolls == []
    ensures s == PollList <==> !isLoading && !(selectedPollId.Some? && selectedPollId.value != "") && activePolls != []
    ensures s.OpenPoll? ==> s.pollId == selectedPollId.value && (s.showBackButton <==> |activePolls| > 1)
  {
    if isLoading then PageSpinner
    else if selectedPollId.Some? && selectedPollId.value != "" then OpenPoll(selectedPollId.value, |activePolls| > 1)
    else if |activePolls| == 0 then NoActivePolls
    else PollList
  }

  function HasId(id: string): Candidate -> bool
  {
    (c: Candidate) => c.id == id
  }

  /**
   * `votedCandidate` of a poll card: the first candidate of the poll whose
   * id is the stored marker, when a non-empty marker is stored.
   */
  function VotedCandidate(items: map<string, string>, user: string, poll: Poll): (r: Option<Candidate>)
    ensures r.Some? ==> && HasMarker(items, user, poll.id) && r.value in poll.candidates
                        && r.value.id == items[MarkerKey(user, poll.id)]
    ensures r.Some? ==> exists k :: && 0 <= k < |poll.candidates| && poll.candidates[k] == r.value
                                    && forall j :: 0 <= j < k ==> poll.candidates[j].id != r.value.id
    ensures r.None? <==> !HasMarker(items, user, poll.id)
                         || forall k :: 0 <= k < |poll.candidates| ==> poll.candidates[k].id != items[MarkerKey(user, poll.id)]
  {
    var key := MarkerKey(user, poll.id);
    if key in items && items[key] != "" then
      match Seqs.FindIndex(poll.candidates, HasId(items[key]))
      case None => None
      case Some(k) => Some(poll.candidates[k])
    else None
  }

  class VotingPageView {
    const currentUser: string
    var activePolls: seq<Poll>
    var isLoading: bool
    var error: Option<string>
    var selectedPollId: Option<string>

    constructor (currentUser: string)
      ensures this.currentUser == currentUser
      ensures activePolls == [] && isLoading && error == None && selectedPollId == None
    {
      this.currentUser := currentUser;
      activePolls := [];
      isLoading := true;
      error := None;
      selectedPollId := None;
    }

    function CurrentScreen(): PageScreen
      reads this
    {
      PageScreenOf(isLoading, selectedPollId, activePolls)
    }

    /** `fetchPolls` up to its `await`. */
    method BeginFetchPolls()
      modifies this
      ensures isLoading && error == None
      ensures activePolls == old(activePolls) && selectedPollId == old(selectedPollId)
    {
      isLoading := true;
      error := None;
    }

    /**
     * `fetchPolls` after its `await`; `None` is a rejection. A single
     * active poll is selected at once, so the page opens it directly.
     */
    method FinishFetchPolls(data: Option<seq<Poll>>)
      modifies this
      ensures !isLoading
      ensures data.Some? ==> && activePolls == data.value && error == old(error)
                             && selectedPollId == (if |data.value| == 1 then Some(data.value[0].id) else old(selectedPollId))
      ensures data.None? ==> && activePolls == old(activePolls) && error == Some(LoadPollsError)
                             && selectedPollId == old(selectedPollId)
      ensures data.Some? && |data.value| == 1 && data.value[0].id != "" ==>
                CurrentScreen() == OpenPoll(data.value[0].id, false)
    {
      if data.Some? {
        activePolls := data.value;
        if |data.value| == 1 {
          selectedPollId := Some(data.value[0].id);
        }
      } else {
        error := Some(LoadPollsError);
      }
      isLoading := false;
    }

    /** `handleSelectPoll`. */
    method SelectPoll(pollId: string)
      modifies this
      ensures selectedPollId == Some(pollId)
      ensures activePolls == old(activePolls) && isLoading == old(isLoading) && error == old(error)
    {
      selectedPollId := Some(pollId);
    }

    /**
     * `handleBackToList`: leave the poll and re-read the active polls; its
     * refetch has no `catch`, so a rejection (`None`) changes nothing more.
     */
    method BackToList(data: Option<seq<Poll>>)
      modifies this
      ensures selectedPollId == None
      ensures activePolls == (if data.Some? then data.value else old(activePolls))
      ensures isLoading == old(isLoading) && error == old(error)
    {
      selectedPollId := None;
      if data.Some? {
        activePolls := data.value;
      }
    }
  }
}

/**
 * `handleVoteSubmit` of `components/VotingPage.tsx` sent to the vote
 * handler of `server.js`: the marker is the client's only record of a vote.
 */
module VotingSubmit {
  import opened Wrappers
  import opened Types
  import opened VotingPage
  import PollStore

  /** The server counts a vote for `candidateId` in `pollId`: the poll exists, is open and has that candidate. */
  predicate Accepted(polls: seq<Poll>, pollId: string, candidateId: string)
  {
    && PollStore.FindPoll(polls, pollId).Some?
    && polls[PollStore.FindPoll(polls, pollId).value].status == Open
    && PollStore.FindCandidate(polls[PollStore.FindPoll(polls, pollId).value].candidates, candidateId).Some?
  }

  /**
   * A submission against the poll database; `write` is how the marker's
   * `localStorage.setItem` ends. The marker is written exactly when the
   * server counted the vote and the write succeeds, and then the form is
   * gone. An accepted vote adds one vote to the selected candidate of that
   * poll and changes nothing else; a counted vote whose marker cannot be written stays counted while
   * the form stays up with an error. A refused vote leaves the database and
   * the storage as they were and shows the server's message.
   */
  method SubmitVote(view: PollVoteView, storage: LocalStorage, db: PollStore.PollDb, write: Outcome<string>)
    requires db.Valid()
    modifies view, storage, db
    ensures db.Valid()
    ensures old(view.selectedCandidateId).None? ==> db.polls == old(db.polls) && storage.items == old(storage.items)
    ensures old(view.selectedCandidateId).Some? && Accepted(old(db.polls), view.pollId, old(view.selectedCandidateId).value) ==>
              var i := PollStore.FindPoll(old(db.polls), view.pollId).value;
              var j := PollStore.FindCandidate(old(db.polls)[i].candidates, old(view.selectedCandidateId).value).value;
              db.polls == old(db.polls)[i := PollStore.WithVote(old(db.polls)[i], j)]
    ensures old(view.selectedCandidateId).Some? && Accepted(old(db.polls), view.pollId, old(view.selectedCandidateId).value) && write.Pass? ==>
              && storage.items == old(storage.items)[MarkerKey(view.currentUser, view.pollId) := old(view.selectedCandidateId).value]
              && view.hasVoted && view.error == None
              && view.CurrentScreen() != VoteForm
    ensures old(view.selectedCandidateId).Some? && Accepted(old(db.polls), view.pollId, old(view.selectedCandidateId).value) && write.Fail? ==>
              && storage.items == old(storage.items)
              && view.hasVoted == old(view.hasVoted) && view.error == Some(SubmitMessage(write.error))
    ensures old(view.selectedCandidateId).Some? && !Accepted(old(db.polls), view.pollId, old(view.selectedCandidateId).value) ==>
              && storage.items == old(storage.items) && db.polls == old(db.polls)
              && view.hasVoted == old(view.hasVoted) && view.error.Some?
  {
    if view.selectedCandidateId.None? {
      return;
    }
    var r := db.Vote(view.pollId, view.selectedCandidateId.value);
    var outcome: Outcome<string> := if r.Pass? then Pass else Fail(PollStore.ErrorMessage(r.error));
    view.HandleVoteSubmit(storage, outcome, write);
  }
}
