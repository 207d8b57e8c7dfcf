/**
 * `services/authService.ts`: the username whitelist kept in `localStorage`
 * and the logged-in user kept in `sessionStorage`.
 */
module AuthService {
  import opened Wrappers

  /** The `localStorage` key of the whitelist. */
  const UsersKey: string := "poll-app-users"
  /** The `sessionStorage` key of the logged-in user. */
  const CurrentUserKey: string := "current-user"
  /** The administrator, who is always on the list. */
  const Admin: string := "saitama"

  /** The list seeded on first use: 98 staff numbers and the administrator, last. */
  function DefaultUsers(): (r: seq<string>)
    ensures |r| == 99 && r[98] == Admin
    ensures Admin in r
  {
    StaffNumbers() + [Admin]
  }

  /** The staff numbers of the seeded list, in their order there. */
  function StaffNumbers(): (r: seq<string>)
    ensures |r| == 98
  {
    seq(98, i requires 0 <= i => StaffNumber(i))
  }

  /** The `i`-th staff number of the seeded list (of 98). */
  function StaffNumber(i: nat): string
  {
    var numbers := [
      "0275", "0317", "0327", "0307", "0289", "0224", "0192", "0332", "0205",
      "0309", "0338", "0341", "0288", "0069", "0080", "0299", "0085", "0049",
      "0161", "0295", "0207", "0314", "0272", "0002", "0174", "0339", "0237",
      "0285", "0293", "0128", "0270", "0077", "0228", "0333", "0335", "0302",
      "0279", "0005", "0183", "0091", "0170", "0282", "0206", "0260", "0310",
      "0320", "0326", "0315", "0097", "0019", "0078", "0225", "0336", "0337",
      "0308", "0164", "0331", "0298", "0011", "0123", "0268", "0329", "0175",
      "0229", "0311", "0281", "0234", "0030", "0251", "0012", "0321", "0165",
      "0048", "0014", "0290", "0210", "0273", "0322", "0277", "0162", "0029",
      "0038", "0068", "0043", "0316", "0334", "0330", "0147", "0098", "0235",
      "0304", "0328", "0050", "0305", "0070", "0297", "0243", "0306"
    ];
    if i < |numbers| then numbers[i] else ""
  }

  /** No element occurs twice. */
  predicate NoDuplicates(s: seq<string>)
  {
    forall i, j :: 0 <= i < j < |s| ==> s[i] != s[j]
  }

  /** The position of the first occurrence of `x` in `s`. */
  function FirstIndex(s: seq<string>, x: string): (i: nat)
    requires x in s
    ensures i < |s| && s[i] == x
    ensures forall m :: 0 <= m < i ==> s[m] != x
  {
    if s[0] == x then 0 else FirstIndex(s[1..], x) + 1
  }

  /** A first occurrence does not move when something is appended. */
  lemma FirstIndexExtend(p: seq<string>, y: string, x: string)
    requires x in p
    ensures FirstIndex(p + [y], x) == FirstIndex(p, x)
  {
    var k := FirstIndex(p, x);
    assert (p + [y])[k] == x;
  }

  /**
   * `Array.from(new Set(s))`: a `Set` iterates in insertion order and
   * adding a present element leaves it where it is.
   */
  function Dedup(s: seq<string>): (r: seq<string>)
    ensures NoDuplicates(r)
    ensures forall x :: x in r <==> x in s
  {
    if |s| == 0 then []
    else
      var p := s[..|s| - 1];
      var x := s[|s| - 1];
      assert s == p + [x];
      var d := Dedup(p);
      if x in d then d else d + [x]
  }

  /** The elements of `Dedup(s)` are listed in the order of their first occurrence in `s`. */
  lemma {:induction false} DedupFirstOccurrenceOrder(s: seq<string>)
    ensures forall i, j :: 0 <= i < j < |Dedup(s)| ==> FirstIndex(s, Dedup(s)[i]) < FirstIndex(s, Dedup(s)[j])
  {
    if |s| > 0 {
      var p := s[..|s| - 1];
      var x := s[|s| - 1];
      assert s == p + [x];
      var d := Dedup(p);
      DedupFirstOccurrenceOrder(p);
      forall y | y in p
        ensures FirstIndex(s, y) == FirstIndex(p, y) < |p|
      {
        FirstIndexExtend(p, x, y);
      }
      if x !in d {
        assert FirstIndex(s, x) == |p|;
      }
    }
  }

  /** The list `updateUsers` stores: the input without repeats, with the administrator added. */
  function FinalUsers(users: seq<string>): (r: seq<string>)
    ensures Admin in r
    ensures NoDuplicates(r)
    ensures forall x :: x in r <==> x in users || x == Admin
    ensures Admin in users ==> r == Dedup(users)
    ensures Admin !in users ==> r == Dedup(users) + [Admin]
  {
    var d := Dedup(users);
    if Admin in d then d else d + [Admin]
  }

  /**
   * The stored list keeps first occurrences in input order; only the
   * administrator, when the input lacks it, is not from the input, and it
   * comes last.
   */
  lemma FinalUsersOrder(users: seq<string>)
    ensures var r := FinalUsers(users);
            forall i, j :: 0 <= i < j < |r| ==>
              && r[i] in users
              && (r[j] in users ==> FirstIndex(users, r[i]) < FirstIndex(users, r[j]))
  {
    DedupFirstOccurrenceOrder(users);
  }

  /**
   * A `localStorage` value. `Encoded(u)` is the text `JSON.stringify(u)`;
   * `Text(raw)` is any other text. Text that does not parse sends
   * `getUsersFromStorage` to its `catch`. Text that parses to something
   * other than a list of strings (`null`, `{}`, `5`) is returned by the
   * source as parsed; the model reads it, too, as the default list.
   */
  datatype Item = Encoded(users: seq<string>) | Text(raw: string)

  /** The whitelist is missing, or stored as the empty (falsy) string. */
  predicate NeedsSeeding(local: map<string, Item>)
  {
    UsersKey !in local || local[UsersKey] == Text("")
  }

  /**
   * What `getUsersFromStorage` returns: the stored list when there is one,
   * otherwise the default list (after seeding, or from the `catch` when
   * the stored text does not parse). Stored text that is JSON but not a
   * list of strings is also read as the default list, although the source
   * returns the parsed value.
   */
  function ReadUsers(local: map<string, Item>): (r: seq<string>)
    ensures UsersKey in local && local[UsersKey].Encoded? ==> r == local[UsersKey].users
    ensures !(UsersKey in local && local[UsersKey].Encoded?) ==> r == DefaultUsers()
  {
    if UsersKey in local && local[UsersKey].Encoded? then local[UsersKey].users else DefaultUsers()
  }

  /**
   * The storage after `getUsersFromStorage`: the default list is written
   * when none is stored, unless the write throws (`writeFails`), which the
   * `catch` swallows.
   */
  function Seeded(local: map<string, Item>, writeFails: bool): (r: map<string, Item>)
    ensures forall k :: k != UsersKey ==> (k in r <==> k in local)
    ensures forall k :: k != UsersKey && k in local ==> r[k] == local[k]
    ensures ReadUsers(r) == ReadUsers(local)
    ensures !NeedsSeeding(local) || writeFails ==> r == local
    ensures NeedsSeeding(local) && !writeFails ==> UsersKey in r && r[UsersKey] == Encoded(DefaultUsers())
  {
    if NeedsSeeding(local) && !writeFails then local[UsersKey := Encoded(DefaultUsers())] else local
  }

  /** Seeding happens at most once: a second read writes nothing. */
  lemma SeededIdempotent(local: map<string, Item>, writeFails: bool, again: bool)
    requires !writeFails
    ensures Seeded(Seeded(local, writeFails), again) == Seeded(local, writeFails)
  {
    var r := Seeded(local, writeFails);
    assert !NeedsSeeding(r);
  }

  /** The browser storage the service reads and writes. */
  class AuthStore {
    var local: map<string, Item>
    var session: map<string, string>

    constructor (local0: map<string, Item>, session0: map<string, string>)
      ensures local == local0 && session == session0
    {
      local := local0;
      session := session0;
    }

    /** `getCurrentUser`: `sessionStorage.getItem`, `null` when absent. */
    function CurrentUser(): Option<string>
      reads this
    {
      if CurrentUserKey in session then Some(session[CurrentUserKey]) else None
    }

    /** `getUsersFromStorage`, with `writeFails` saying whether `setItem` throws. */
    method GetUsersFromStorage(writeFails: bool) returns (users: seq<string>)
      modifies this
      ensures users == ReadUsers(old(local))
      ensures local == Seeded(old(local), writeFails)
      ensures session == old(session)
    {
      users := ReadUsers(local);
      if NeedsSeeding(local) && !writeFails {
        local := local[UsersKey := Encoded(DefaultUsers())];
      }
    }

    /** `getUsers`. */
    method GetUsers(writeFails: bool) returns (users: seq<string>)
      modifies this
      ensures users == ReadUsers(old(local))
      ensures local == Seeded(old(local), writeFails)
      ensures session == old(session)
    {
      users := GetUsersFromStorage(writeFails);
    }

    /** `login`: exact, case-sensitive membership; `Fail` is the thrown error. */
    method Login(username: string, writeFails: bool) returns (r: Outcome<string>)
      modifies this
      ensures r.Pass? <==> username in ReadUsers(old(local))
      ensures r.Pass? ==> session == old(session)[CurrentUserKey := username] && CurrentUser() == Some(username)
      ensures r.Fail? ==> r.error == "Invalid username" && session == old(session)
      ensures local == Seeded(old(local), writeFails)
    {
      var users := GetUsersFromStorage(writeFails);
      if username in users {
        session := session[CurrentUserKey := username];
        r := Pass;
      } else {
        r := Fail("Invalid username");
      }
    }

    /** `logout`. */
    method Logout()
      modifies this
      ensures session == old(session) - {CurrentUserKey}
      ensures CurrentUser() == None
      ensures local == old(local)
    {
      session := session - {CurrentUserKey};
    }

    /** `updateUsers`; a failed write is logged and swallowed. */
    method UpdateUsers(users: seq<string>, writeFails: bool)
      modifies this
      ensures writeFails ==> local == old(local)
      ensures !writeFails ==> local == old(local)[UsersKey := Encoded(FinalUsers(users))]
      ensures !writeFails ==> ReadUsers(local) == FinalUsers(users)
      ensures session == old(session)
    {
      var finalUsers := FinalUsers(users);
      if !writeFails {
        local := local[UsersKey := Encoded(finalUsers)];
      }
    }
  }

  /** After an update that was written, the administrator can always log in. */
  method AdminCanLogIn(store: AuthStore, users: seq<string>)
    modifies store
    ensures store.CurrentUser() == Some(Admin)
  {
    store.UpdateUsers(users, false);
    var r := store.Login(Admin, false);
    assert r == Pass;
  }
}
