/**
 * `components/UserCard.tsx`: the avatar's initials and colour and the
 * voting status derived from a user's `poll1`/`poll2` fields.
 */
module UserCard {
  import opened Wrappers
  import opened Types
  import opened Strings

  /** The eight avatar colours, `COLORS`. */
  const Colors: seq<string> := ["#6366F1", "#EC4899", "#10B981", "#F59E0B", "#3B82F6", "#EF4444", "#8B5CF6", "#14B8A6"]

  /** `COLORS[index % COLORS.length]` for the card at `index` of the list. */
  function AvatarColour(index: nat): (c: string)
    ensures c in Colors
  {
    Colors[index % |Colors|]
  }

  /** The colours repeat every eight cards. */
  lemma ColourCycle(index: nat)
    ensures AvatarColour(index + 8) == AvatarColour(index)
  {
    assert (index + 8) % 8 == index % 8;
  }

  /** Neighbouring cards never share a colour. */
  lemma NeighboursDiffer(index: nat)
    ensures AvatarColour(index) != AvatarColour(index + 1)
  {
    var i := index % 8;
    assert (index + 1) % 8 == if i == 7 then 0 else i + 1;
    assert forall a, b :: 0 <= a < b < 8 ==> Colors[a] != Colors[b];
  }

  /** `name.substring(0, 2)`. */
  function FirstTwo(name: string): (r: string)
    ensures r <= name && |r| == (if |name| < 2 then |name| else 2)
  {
    if |name| < 2 then name else name[..2]
  }

  /**
   * `getInitials`: when the trimmed name splits on `' '` into several parts
   * whose first and last are not empty, their first characters; otherwise
   * the first two characters of the name as given. Either way upper-cased.
   */
  function Initials(name: string): string
  {
    var parts := Split(Trim(name), ' ');
    if |parts| > 1 && parts[0] != "" && parts[|parts| - 1] != "" then
      Upper([parts[0][0], parts[|parts| - 1][0]])
    else Upper(FirstTwo(name))
  }

  /** Initials are at most two characters, and empty only for the empty name. */
  lemma InitialsLength(name: string)
    ensures |Initials(name)| <= 2
    ensures Initials(name) == "" <==> name == ""
  {
    if name == "" {
      assert Trim(name) == "";
    }
  }

  /** A name of two space-free words gets the upper-cased first letters of both. */
  lemma TwoWordInitials(first: string, last: string)
    requires first != "" && last != ""
    requires forall k :: 0 <= k < |first| ==> !IsSpace(first[k])
    requires forall k :: 0 <= k < |last| ==> !IsSpace(last[k])
    ensures Initials(first + " " + last) == [UpperChar(first[0]), UpperChar(last[0])]
  {
    var name := first + " " + last;
    assert name[0] == first[0] && name[|name| - 1] == last[|last| - 1];
    assert IsTrimmed(name);
    assert ' ' !in first && ' ' !in last;
    assert Join([first, last], [' ']) == name;
    SplitJoin([first, last], ' ');
  }

  /** A name whose trimmed text has no space gets its own first two characters, upper-cased. */
  lemma OneWordInitials(name: string)
    requires ' ' !in Trim(name)
    ensures Initials(name) == Upper(FirstTwo(name))
  {
    SplitNoSeparator(Trim(name), ' ');
  }

  /** `if (user.pollN)`: the field is present and a non-empty string. */
  predicate Truthy(field: Option<string>)
  {
    field.Some? && field.value != ""
  }

  /**
   * `votesCasted`, built as the card builds it by pushing onto an empty
   * list: `'poll1'` when that field is set, then `'poll2'` when that one is.
   */
  method VotesCasted(user: User) returns (votes: seq<string>)
    ensures "poll1" in votes <==> Truthy(user.poll1)
    ensures "poll2" in votes <==> Truthy(user.poll2)
    ensures forall k :: 0 <= k < |votes| ==> votes[k] == "poll1" || votes[k] == "poll2"
    ensures |votes| == (if Truthy(user.poll1) then 1 else 0) + (if Truthy(user.poll2) then 1 else 0)
    ensures |votes| == 2 ==> votes == ["poll1", "poll2"]
  {
    votes := [];
    if Truthy(user.poll1) {
      votes := votes + ["poll1"];
    }
    if Truthy(user.poll2) {
      votes := votes + ["poll2"];
    }
  }

  /** `hasVotedInTwoPolls`: both fields are set. */
  method HasVotedInTwoPolls(user: User) returns (b: bool)
    ensures b <==> Truthy(user.poll1) && Truthy(user.poll2)
  {
    var votes := VotesCasted(user);
    b := |votes| >= 2;
  }

  /** The status line: a check mark per vote, or "No votes cast". */
  datatype VotingStatus = CheckMarks(count: nat) | NoVotesCast

  method StatusOf(user: User) returns (s: VotingStatus)
    ensures s == NoVotesCast <==> !Truthy(user.poll1) && !Truthy(user.poll2)
    ensures s.CheckMarks? ==> s.count == (if Truthy(user.poll1) then 1 else 0) + (if Truthy(user.poll2) then 1 else 0)
  {
    var votes := VotesCasted(user);
    if |votes| > 0 {
      s := CheckMarks(|votes|);
    } else {
      s := NoVotesCast;
    }
  }
}
