/**
 * `components/DashboardPage.tsx`: vote totals, the anonymised result
 * labels, the chart slice, the header metrics and the dashboard's poll
 * order. All of it is computed from fetched data without changing it.
 */
module Dashboard {
  import opened Wrappers
  import opened Types
  import opened Strings
  import Seqs
  import PollStore

  // ---------------------------------------------------------------------------
  // Totals.

  /** `cs.reduce((sum, c) => sum + c.votes, acc)`. */
  function SumVotes(cs: seq<Candidate>, acc: int): int
  {
    if |cs| == 0 then acc else SumVotes(cs[1..], acc + cs[0].votes)
  }

  /** The page's left fold is the sum of the candidates' votes. */
  lemma {:induction false} SumVotesIsTotal(cs: seq<Candidate>, acc: int)
    ensures SumVotes(cs, acc) == acc + TotalVotes(cs)
  {
    if |cs| > 0 {
      SumVotesIsTotal(cs[1..], acc + cs[0].votes);
    }
  }

  /** `totalVotes` of the results modal and of a poll card. */
  function PollTotal(cs: seq<Candidate>): (t: int)
    ensures t == TotalVotes(cs)
  {
    SumVotesIsTotal(cs, 0);
    SumVotes(cs, 0)
  }

  /** With counts that are never negative, the total is 0 exactly when every count is 0. */
  lemma {:induction false} TotalZeroIffNoVotes(cs: seq<Candidate>)
    requires forall k :: 0 <= k < |cs| ==> cs[k].votes >= 0
    ensures TotalVotes(cs) >= 0
    ensures TotalVotes(cs) == 0 <==> forall k :: 0 <= k < |cs| ==> cs[k].votes == 0
  {
    if |cs| > 0 {
      TotalZeroIffNoVotes(cs[1..]);
      assert forall k :: 1 <= k < |cs| ==> cs[1..][k - 1] == cs[k];
    }
  }

  /** Inserting a candidate adds its count to the tally. */
  lemma {:induction false} InsertByVotesTotal(c: Candidate, cs: seq<Candidate>)
    ensures TotalVotes(PollStore.InsertByVotes(c, cs)) == c.votes + TotalVotes(cs)
  {
    if |cs| > 0 && c.votes < cs[0].votes {
      var t := PollStore.InsertByVotes(c, cs[1..]);
      InsertByVotesTotal(c, cs[1..]);
      assert ([cs[0]] + t)[1..] == t;
    }
  }

  /**
   * The results the modal fetches are the poll's candidates sorted by
   * votes, so the modal's total is the poll card's total.
   */
  lemma {:induction false} ResultsTotal(cs: seq<Candidate>)
    ensures PollTotal(PollStore.SortByVotes(cs)) == PollTotal(cs)
  {
    if |cs| > 0 {
      ResultsTotal(cs[1..]);
      InsertByVotesTotal(cs[0], PollStore.SortByVotes(cs[1..]));
    }
  }

  /** Two lists with the same counts, position by position, have the same tally. */
  lemma {:induction false} TotalVotesSameCounts(a: seq<Candidate>, b: seq<Candidate>)
    requires |a| == |b|
    requires forall k :: 0 <= k < |a| ==> a[k].votes == b[k].votes
    ensures TotalVotes(a) == TotalVotes(b)
  {
    if |a| > 0 {
      assert forall k :: 0 <= k < |a| - 1 ==> a[1..][k] == a[k + 1] && b[1..][k] == b[k + 1];
      TotalVotesSameCounts(a[1..], b[1..]);
    }
  }

  // ---------------------------------------------------------------------------
  // `displayData`, the chart slice and the card view.

  /**
   * `String.fromCharCode(65 + i)`: the UTF-16 code unit `(65 + i) mod 2^16`.
   * A lone surrogate code unit is not a character here and becomes U+FFFD.
   */
  function LabelLetter(i: nat): char
  {
    var code := (65 + i) % 0x1_0000;
    if 0xD800 <= code < 0xE000 then '\U{FFFD}' else code as char
  }

  /** `` `Candidate ${String.fromCharCode(65 + index)}` ``. */
  function Label(i: nat): string
  {
    "Candidate " + [LabelLetter(i)]
  }

  /** Every candidate renamed after its position; everything else is kept. */
  function Anonymise(results: seq<Candidate>): seq<Candidate>
  {
    seq(|results|, i requires 0 <= i < |results| => results[i].(name := Label(i)))
  }

  /** `displayData`: the results as fetched, or anonymised. */
  function DisplayData(results: seq<Candidate>, anonymise: bool): seq<Candidate>
  {
    if anonymise then Anonymise(results) else results
  }

  /**
   * `displayData` keeps the length and order of the results and each
   * entry's id and votes, so also the total; with anonymise on the name at
   * position `i` is `Label(i)`, and with it off the results are unchanged.
   */
  lemma DisplayDataKeeps(results: seq<Candidate>, anonymise: bool)
    ensures !anonymise ==> DisplayData(results, anonymise) == results
    ensures |DisplayData(results, anonymise)| == |results|
    ensures forall i :: 0 <= i < |results| ==>
              && DisplayData(results, anonymise)[i].id == results[i].id
              && DisplayData(results, anonymise)[i].votes == results[i].votes
    ensures anonymise ==> forall i :: 0 <= i < |results| ==> DisplayData(results, anonymise)[i].name == Label(i)
    ensures PollTotal(DisplayData(results, anonymise)) == PollTotal(results)
  {
    TotalVotesSameCounts(DisplayData(results, anonymise), results);
  }

  /** The first 26 labels are `Candidate A` to `Candidate Z`. */
  lemma LetterLabels(i: nat)
    requires i < 26
    ensures 'A' <= LabelLetter(i) <= 'Z'
    ensures Label(i) == "Candidate " + [(65 + i) as char]
  {
  }

  /** Labels stay apart until the code units reach the surrogate range. */
  lemma LabelsDistinct(i: nat, j: nat)
    requires i != j && i < 0xD800 - 65 && j < 0xD800 - 65
    ensures Label(i) != Label(j)
  {
    assert Label(i)[10] == LabelLetter(i);
    assert Label(j)[10] == LabelLetter(j);
  }

  /** `fromCharCode` wraps around after 2^16 code units, so labels repeat. */
  lemma LabelsWrap(i: nat)
    ensures Label(i + 0x1_0000) == Label(i)
  {
    assert (65 + i + 0x1_0000) % 0x1_0000 == (65 + i) % 0x1_0000;
  }

  /** `displayData.slice(0, 10)`: the first ten entries, or all when there are fewer. */
  function ChartData(d: seq<Candidate>): (r: seq<Candidate>)
    ensures r <= d
    ensures |r| == if |d| < 10 then |d| else 10
  {
    if |d| <= 10 then d else d[..10]
  }

  /** The card tab: one card per displayed candidate, or the notice "No votes cast yet.". */
  datatype CardView = Cards(cards: seq<Candidate>) | NoVotesYet

  /** `totalVotes > 0 ? <cards> : "No votes cast yet."`. */
  function CardViewOf(results: seq<Candidate>, anonymise: bool): (v: CardView)
    ensures v == NoVotesYet <==> TotalVotes(results) <= 0
    ensures v.Cards? ==> v.cards == DisplayData(results, anonymise)
  {
    if PollTotal(results) > 0 then Cards(DisplayData(results, anonymise)) else NoVotesYet
  }

  /** Over stored counts, which are never negative, the notice shows exactly when nobody has voted. */
  lemma NoVotesNotice(results: seq<Candidate>, anonymise: bool)
    requires forall k :: 0 <= k < |results| ==> results[k].votes >= 0
    ensures CardViewOf(results, anonymise) == NoVotesYet <==> forall k :: 0 <= k < |results| ==> results[k].votes == 0
  {
    TotalZeroIffNoVotes(results);
  }

  // ---------------------------------------------------------------------------
  // `DashboardMetrics`.

  datatype Metrics = Metrics(totalPolls: int, activePolls: int, totalVotes: int)

  /** `polls.reduce((sum, poll) => sum + <poll's reduce>, acc)`. */
  function SumPollVotes(polls: seq<Poll>, acc: int): int
  {
    if |polls| == 0 then acc else SumPollVotes(polls[1..], acc + SumVotes(polls[0].candidates, 0))
  }

  /** The sum of the totals shown on the poll cards. */
  function CardTotals(polls: seq<Poll>): int
  {
    if |polls| == 0 then 0 else PollTotal(polls[0].candidates) + CardTotals(polls[1..])
  }

  lemma {:induction false} SumPollVotesIsCardTotals(polls: seq<Poll>, acc: int)
    ensures SumPollVotes(polls, acc) == acc + CardTotals(polls)
  {
    if |polls| > 0 {
      SumPollVotesIsCardTotals(polls[1..], acc + SumVotes(polls[0].candidates, 0));
    }
  }

  /**
   * The three header numbers: there are never more active polls than
   * polls, and as many only when every poll is open; the votes cast are
   * the sum of the totals on the poll cards.
   */
  function MetricsOf(polls: seq<Poll>): (m: Metrics)
    ensures m.totalPolls == |polls|
    ensures 0 <= m.activePolls <= m.totalPolls
    ensures m.activePolls == m.totalPolls <==> forall p :: p in polls ==> p.status == Open
    ensures m.totalVotes == CardTotals(polls)
  {
    Seqs.FilterLength(polls, IsOpen);
    SumPollVotesIsCardTotals(polls, 0);
    Metrics(|polls|, |Seqs.Filter(polls, IsOpen)|, SumPollVotes(polls, 0))
  }

  // ---------------------------------------------------------------------------
  // The dashboard order:
  // `(a.status === 'open' ? -1 : 1) - (b.status === 'open' ? -1 : 1) || b.id.localeCompare(a.id)`.

  function Rank(p: Poll): int
  {
    if p.status == Open then -1 else 1
  }

  /** `x.localeCompare(y)`, with code-point order standing in for the locale's. */
  function IdCompare(x: string, y: string): int
  {
    if x == y then 0 else if StrLeq(x, y) then -1 else 1
  }

  /** The comparator: negative when `a` goes first, positive when `b` does. */
  function Compare(a: Poll, b: Poll): int
  {
    var d := Rank(a) - Rank(b);
    if d != 0 then d else IdCompare(b.id, a.id)
  }

  /** What the comparator says of one pair: open before closed, then the larger id first. */
  lemma CompareMeaning(a: Poll, b: Poll)
    ensures Compare(a, b) <= 0 <==> (a.status == Open && b.status == Closed)
                                    || (a.status == b.status && StrLeq(b.id, a.id))
  {
    StrLeqTotal(a.id, a.id);
  }

  lemma CompareFlip(a: Poll, b: Poll)
    ensures Compare(a, b) > 0 ==> Compare(b, a) < 0
  {
    StrLeqTotal(a.id, b.id);
  }

  lemma CompareTransitive(a: Poll, b: Poll, c: Poll)
    requires Compare(a, b) <= 0 && Compare(b, c) <= 0
    ensures Compare(a, c) <= 0
  {
    CompareMeaning(a, b);
    CompareMeaning(b, c);
    CompareMeaning(a, c);
    if a.status == b.status && b.status == c.status {
      StrLeqTransitive(c.id, b.id, a.id);
    }
  }

  /** Every pair is in the comparator's order. */
  predicate InDashboardOrder(polls: seq<Poll>)
  {
    forall i, j :: 0 <= i < j < |polls| ==> Compare(polls[i], polls[j]) <= 0
  }

  /** Insert `p` in front of the first poll that may follow it: one step of a stable sort. */
  function InsertPoll(p: Poll, polls: seq<Poll>): seq<Poll>
  {
    if |polls| == 0 || Compare(p, polls[0]) <= 0 then [p] + polls
    else [polls[0]] + InsertPoll(p, polls[1..])
  }

  /** `[...allPolls].sort(<comparator>)`: a stable sort of a copy. */
  function DashboardOrder(polls: seq<Poll>): seq<Poll>
  {
    if |polls| == 0 then [] else InsertPoll(polls[0], DashboardOrder(polls[1..]))
  }

  lemma {:induction false} InsertPollMultiset(p: Poll, polls: seq<Poll>)
    ensures multiset(InsertPoll(p, polls)) == multiset(polls) + multiset{p}
  {
    if |polls| > 0 && Compare(p, polls[0]) > 0 {
      InsertPollMultiset(p, polls[1..]);
      assert polls == [polls[0]] + polls[1..];
    }
  }

  /** A head that may precede everything after it extends an ordered sequence. */
  lemma OrderedCons(x: Poll, t: seq<Poll>)
    requires InDashboardOrder(t)
    requires forall e :: e in t ==> Compare(x, e) <= 0
    ensures InDashboardOrder([x] + t)
  {
    var r := [x] + t;
    forall i, j | 0 <= i < j < |r| ensures Compare(r[i], r[j]) <= 0 {
      if i == 0 {
        assert r[j] == t[j - 1];
      } else {
        assert r[i] == t[i - 1] && r[j] == t[j - 1];
      }
    }
  }

  lemma {:induction false} InsertPollOrdered(p: Poll, polls: seq<Poll>)
    requires InDashboardOrder(polls)
    ensures InDashboardOrder(InsertPoll(p, polls))
  {
    if |polls| == 0 {
    } else if Compare(p, polls[0]) <= 0 {
      forall e | e in polls ensures Compare(p, e) <= 0 {
        var k :| 0 <= k < |polls| && polls[k] == e;
        if k > 0 {
          CompareTransitive(p, polls[0], e);
        }
      }
      OrderedCons(p, polls);
    } else {
      var t := InsertPoll(p, polls[1..]);
      InsertPollOrdered(p, polls[1..]);
      InsertPollMultiset(p, polls[1..]);
      CompareFlip(p, polls[0]);
      forall e | e in t ensures Compare(polls[0], e) <= 0 {
        assert e in multiset(t);
        assert e == p || e in multiset(polls[1..]);
        if e != p {
          var k :| 0 <= k < |polls[1..]| && polls[1..][k] == e;
          assert polls[k + 1] == e;
        }
      }
      OrderedCons(polls[0], t);
    }
  }

  /** The dashboard order is ordered by the comparator and a permutation of the fetched polls. */
  lemma {:induction false} DashboardOrderCorrect(polls: seq<Poll>)
    ensures InDashboardOrder(DashboardOrder(polls))
    ensures multiset(DashboardOrder(polls)) == multiset(polls)
  {
    if |polls| > 0 {
      DashboardOrderCorrect(polls[1..]);
      InsertPollOrdered(polls[0], DashboardOrder(polls[1..]));
      InsertPollMultiset(polls[0], DashboardOrder(polls[1..]));
      assert polls == [polls[0]] + polls[1..];
    }
  }

  /**
   * In the dashboard order every open poll comes before every closed one,
   * and polls of the same status come by id, the larger first.
   */
  lemma OpenFirstThenIdDescending(polls: seq<Poll>, i: nat, j: nat)
    requires i < j < |DashboardOrder(polls)|
    ensures DashboardOrder(polls)[j].status == Open ==> DashboardOrder(polls)[i].status == Open
    ensures DashboardOrder(polls)[i].status == DashboardOrder(polls)[j].status ==>
              StrLeq(DashboardOrder(polls)[j].id, DashboardOrder(polls)[i].id)
  {
    DashboardOrderCorrect(polls);
    CompareMeaning(DashboardOrder(polls)[i], DashboardOrder(polls)[j]);
  }

  lemma {:induction false} InsertPollTotals(p: Poll, polls: seq<Poll>)
    ensures |InsertPoll(p, polls)| == 1 + |polls|
    ensures CardTotals(InsertPoll(p, polls)) == PollTotal(p.candidates) + CardTotals(polls)
    ensures |Seqs.Filter(InsertPoll(p, polls), IsOpen)|
            == (if p.status == Open then 1 else 0) + |Seqs.Filter(polls, IsOpen)|
  {
    if |polls| == 0 || Compare(p, polls[0]) <= 0 {
      assert ([p] + polls)[1..] == polls;
    } else {
      var t := InsertPoll(p, polls[1..]);
      InsertPollTotals(p, polls[1..]);
      assert ([polls[0]] + t)[1..] == t;
    }
  }

  /** The dashboard order has the polls' count, open count and vote total. */
  lemma {:induction false} OrderKeepsCounts(polls: seq<Poll>)
    ensures |DashboardOrder(polls)| == |polls|
    ensures CardTotals(DashboardOrder(polls)) == CardTotals(polls)
    ensures |Seqs.Filter(DashboardOrder(polls), IsOpen)| == |Seqs.Filter(polls, IsOpen)|
  {
    if |polls| > 0 {
      OrderKeepsCounts(polls[1..]);
      InsertPollTotals(polls[0], DashboardOrder(polls[1..]));
    }
  }

  /** Sorting a copy for display leaves the header numbers as they are for the fetched order. */
  lemma OrderKeepsMetrics(polls: seq<Poll>)
    ensures MetricsOf(DashboardOrder(polls)) == MetricsOf(polls)
  {
    OrderKeepsCounts(polls);
  }

  // ---------------------------------------------------------------------------
  // The page.

  const LoadError := "Failed to load poll list."

  /** What the page shows once `fetchPolls` has settled. */
  datatype DashboardScreen = ErrorText(message: string) | NoPollsFound | Overview(metrics: Metrics, polls: seq<Poll>)

  /**
   * `fetchPolls` and the render after it; `None` is a rejection. The
   * overview lists the polls in the dashboard order, with the metrics of
   * the polls as fetched.
   */
  function AfterFetch(fetched: Option<seq<Poll>>): (s: DashboardScreen)
    ensures fetched.None? ==> s == ErrorText(LoadError)
    ensures fetched.Some? && fetched.value == [] ==> s == NoPollsFound
    ensures fetched.Some? && fetched.value != [] ==>
              && s.Overview? && s.metrics == MetricsOf(fetched.value)
              && InDashboardOrder(s.polls) && multiset(s.polls) == multiset(fetched.value)
  {
    match fetched
    case None => ErrorText(LoadError)
    case Some(all) =>
      var polls := DashboardOrder(all);
      DashboardOrderCorrect(all);
      OrderKeepsMetrics(all);
      if |polls| == 0 then
        OrderKeepsCounts(all);
        NoPollsFound
      else
        Overview(MetricsOf(polls), polls)
  }
}
