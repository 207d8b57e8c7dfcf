/**
 * `services/apiService.ts`: turning the parsed remote payload into users
 * and polls, the one-slot cache in front of the request, and the
 * cache-clearing rule of the user-list upload.
 */
module ApiService {
  import opened Wrappers
  import opened Json
  import opened Types
  import Seqs

  /** A normalised user; the fields are copied from the row unconverted. */
  datatype ApiUser = ApiUser(username: Json, name: Json, department: Json)

  /** A normalised candidate: `String(c.id)`, `c.name` as read, `Number(c.votes) || 0`. */
  datatype ApiCandidate = ApiCandidate(id: string, name: Option<Json>, votes: int)

  /** A normalised poll: `String(p.id)`, `p.title` as read, the status and the candidates. */
  datatype ApiPoll = ApiPoll(id: string, title: Json, status: Status, candidates: seq<ApiCandidate>)

  /** What `fetchData` resolves to. */
  datatype Data = Data(users: seq<ApiUser>, polls: seq<ApiPoll>)

  /** `new User('saitama', 'Saitama', 'Admin')`. */
  const AdminUser: ApiUser := ApiUser(JStr("saitama"), JStr("Saitama"), JStr("Admin"))

  /** The value returned from the `catch`. */
  const Fallback: Data := Data([AdminUser], [])

  // ---------------------------------------------------------------------
  // Finding the three tables
  // ---------------------------------------------------------------------

  /** `json.data || json`; reading `.data` of `null` throws (`None`). */
  function SourceData(json: Json): (r: Option<Json>)
    ensures r.None? <==> json == JNull
    ensures r.Some? && TruthyProp(Prop(json, "data")) ==> r == Prop(json, "data")
    ensures r.Some? && !TruthyProp(Prop(json, "data")) ==> r == Some(json)
  {
    if json == JNull then None
    else if TruthyProp(Prop(json, "data")) then Prop(json, "data")
    else Some(json)
  }

  /** `Array.isArray(value)` for a property. */
  predicate IsArrayField(f: Field)
  {
    f.value.JArr?
  }

  /**
   * The array-valued fields of an object, in enumeration order: exactly the
   * items of the fields that pass `Array.isArray`, one entry per such field.
   */
  function ArrayFields(fields: seq<Field>): (r: seq<seq<Json>>)
    ensures |r| <= |fields|
    ensures |r| == |Seqs.Filter(fields, IsArrayField)|
    ensures forall k :: 0 <= k < |r| ==> Seqs.Filter(fields, IsArrayField)[k].value == JArr(r[k])
    ensures forall k :: 0 <= k < |fields| && fields[k].value.JArr? ==> fields[k].value.items in r
  {
    if |fields| == 0 then []
    else
      var rest := ArrayFields(fields[1..]);
      assert forall k :: 1 <= k < |fields| ==> fields[k] == fields[1..][k - 1];
      if fields[0].value.JArr? then [fields[0].value.items] + rest else rest
  }

  /** The arrays `processArray` is applied to: the payload itself, or each array-valued field. */
  function Arrays(src: Json): seq<seq<Json>>
  {
    match src
    case JArr(items) => [items]
    case JObj(fields) => ArrayFields(fields)
    case _ => []
  }

  /** `firstItem.hasOwnProperty(...)` throws on a `null` first element. */
  predicate Throws(arr: seq<Json>)
  {
    |arr| > 0 && arr[0] == JNull
  }

  predicate IsUserArray(arr: seq<Json>)
  {
    |arr| > 0 && HasOwn(arr[0], "username") && HasOwn(arr[0], "name")
  }

  predicate IsPollArray(arr: seq<Json>)
  {
    |arr| > 0 && HasOwn(arr[0], "title") && HasOwn(arr[0], "status")
  }

  predicate IsCandidateArray(arr: seq<Json>)
  {
    |arr| > 0 && HasOwn(arr[0], "poll_id") && HasOwn(arr[0], "name")
  }

  /** The first index from `i` on whose array is of kind `f` and was not taken by an earlier branch. */
  function FirstUntaken(arrays: seq<seq<Json>>, i: nat, f: seq<Json> -> bool, taken1: Option<nat>, taken2: Option<nat>): (r: Option<nat>)
    requires i <= |arrays|
    ensures r.Some? ==> i <= r.value < |arrays| && f(arrays[r.value]) && Some(r.value) != taken1 && Some(r.value) != taken2
    ensures r.Some? ==> forall k :: i <= k < r.value ==> !f(arrays[k]) || Some(k) == taken1 || Some(k) == taken2
    ensures r.None? ==> forall k :: i <= k < |arrays| ==> !f(arrays[k]) || Some(k) == taken1 || Some(k) == taken2
    decreases |arrays| - i
  {
    if i == |arrays| then None
    else if f(arrays[i]) && Some(i) != taken1 && Some(i) != taken2 then Some(i)
    else FirstUntaken(arrays, i + 1, f, taken1, taken2)
  }

  /** The array that becomes `userList`: the first one of the user kind. */
  function UserIndex(arrays: seq<seq<Json>>): Option<nat>
  {
    Seqs.FindIndex(arrays, IsUserArray)
  }

  /** The array that becomes `pollList`: the first of the poll kind that is not `userList`. */
  function PollIndex(arrays: seq<seq<Json>>): Option<nat>
  {
    FirstUntaken(arrays, 0, IsPollArray, UserIndex(arrays), None)
  }

  /** The array that becomes `candidateList`: the first of its kind taken by neither earlier branch. */
  function CandidateIndex(arrays: seq<seq<Json>>): Option<nat>
  {
    FirstUntaken(arrays, 0, IsCandidateArray, UserIndex(arrays), PollIndex(arrays))
  }

  function Pick(arrays: seq<seq<Json>>, o: Option<nat>): seq<Json>
    requires o.Some? ==> o.value < |arrays|
  {
    if o.Some? then arrays[o.value] else []
  }

  datatype Lists = Lists(users: seq<Json>, polls: seq<Json>, candidates: seq<Json>)

  /** The three tables as the `processArray` calls leave them. */
  function Classified(arrays: seq<seq<Json>>): Lists
  {
    Lists(Pick(arrays, UserIndex(arrays)), Pick(arrays, PollIndex(arrays)), Pick(arrays, CandidateIndex(arrays)))
  }

  /** One `processArray` call on an array whose first element is not `null`. */
  function Step(l: Lists, arr: seq<Json>): Lists
  {
    if IsUserArray(arr) && |l.users| == 0 then l.(users := arr)
    else if IsPollArray(arr) && |l.polls| == 0 then l.(polls := arr)
    else if IsCandidateArray(arr) && |l.candidates| == 0 then l.(candidates := arr)
    else l
  }

  /** The tables after the first `i` calls. */
  function Scan(arrays: seq<seq<Json>>, i: nat): Lists
    requires i <= |arrays|
  {
    if i == 0 then Lists([], [], []) else Step(Scan(arrays, i - 1), arrays[i - 1])
  }

  /** The array at `o` once the scan has passed it, and nothing before. */
  function Upto(arrays: seq<seq<Json>>, o: Option<nat>, i: nat): seq<Json>
    requires o.Some? ==> o.value < |arrays|
  {
    if o.Some? && o.value < i then arrays[o.value] else []
  }

  /** The tables after `i` calls: each is the array its test picks, once the scan has reached it. */
  lemma {:induction false} ScanTables(arrays: seq<seq<Json>>, i: nat)
    requires i <= |arrays|
    ensures Scan(arrays, i) == Lists(Upto(arrays, UserIndex(arrays), i),
                                     Upto(arrays, PollIndex(arrays), i),
                                     Upto(arrays, CandidateIndex(arrays), i))
  {
    if i > 0 {
      ScanTables(arrays, i - 1);
      var l := Scan(arrays, i - 1);
      ScanUsersStep(arrays, i - 1, l);
      ScanPollsStep(arrays, i - 1, l);
      ScanCandidatesStep(arrays, i - 1, l);
    }
  }

  /** `userList` is set by the first user-kind array and kept afterwards. */
  lemma ScanUsersStep(arrays: seq<seq<Json>>, i: nat, l: Lists)
    requires i < |arrays|
    requires l.users == Upto(arrays, UserIndex(arrays), i)
    ensures Step(l, arrays[i]).users == Upto(arrays, UserIndex(arrays), i + 1)
  {
    var ui := UserIndex(arrays);
    if ui.Some? && ui.value < i {
      assert |arrays[ui.value]| > 0;
    } else if ui.Some? && ui.value == i {
      assert IsUserArray(arrays[i]);
    } else {
      assert !IsUserArray(arrays[i]);
    }
  }

  /** `pollList` is set by the first poll-kind array that `userList` did not take. */
  lemma ScanPollsStep(arrays: seq<seq<Json>>, i: nat, l: Lists)
    requires i < |arrays|
    requires l.users == Upto(arrays, UserIndex(arrays), i)
    requires l.polls == Upto(arrays, PollIndex(arrays), i)
    ensures Step(l, arrays[i]).polls == Upto(arrays, PollIndex(arrays), i + 1)
  {
    var pi := PollIndex(arrays);
    if pi.Some? && pi.value < i {
      assert |arrays[pi.value]| > 0;
    } else if pi.Some? && pi.value == i {
      assert Some(i) != UserIndex(arrays);
    } else {
      assert !IsPollArray(arrays[i]) || Some(i) == UserIndex(arrays);
    }
  }

  /** `candidateList` is set by the first candidate-kind array that neither earlier table took. */
  lemma ScanCandidatesStep(arrays: seq<seq<Json>>, i: nat, l: Lists)
    requires i < |arrays|
    requires l.users == Upto(arrays, UserIndex(arrays), i)
    requires l.polls == Upto(arrays, PollIndex(arrays), i)
    requires l.candidates == Upto(arrays, CandidateIndex(arrays), i)
    ensures Step(l, arrays[i]).candidates == Upto(arrays, CandidateIndex(arrays), i + 1)
  {
    var ci := CandidateIndex(arrays);
    if ci.Some? && ci.value < i {
      assert |arrays[ci.value]| > 0;
    } else if ci.Some? && ci.value == i {
      assert Some(i) != UserIndex(arrays) && Some(i) != PollIndex(arrays);
      if IsUserArray(arrays[i]) {
        assert |l.users| > 0;
      }
      if IsPollArray(arrays[i]) {
        assert |l.polls| > 0;
      }
    } else {
      assert !IsCandidateArray(arrays[i]) || Some(i) == UserIndex(arrays) || Some(i) == PollIndex(arrays);
    }
  }

  /** The scan over every array gives the classified tables. */
  lemma ScanClassified(arrays: seq<seq<Json>>)
    ensures Scan(arrays, |arrays|) == Classified(arrays)
  {
    ScanTables(arrays, |arrays|);
  }

  /** `processArray`: `None` is the `TypeError` of a `null` first element. */
  method ProcessArray(l: Lists, arr: seq<Json>) returns (r: Option<Lists>)
    ensures r.None? <==> Throws(arr)
    ensures r.Some? ==> r.value == Step(l, arr)
  {
    if |arr| == 0 {
      return Some(l);
    }
    var firstItem := arr[0];
    if firstItem == JNull {
      return None;
    }
    var userList, pollList, candidateList := l.users, l.polls, l.candidates;
    if HasOwn(firstItem, "username") && HasOwn(firstItem, "name") && |userList| == 0 {
      userList := arr;
    } else if HasOwn(firstItem, "title") && HasOwn(firstItem, "status") && |pollList| == 0 {
      pollList := arr;
    } else if HasOwn(firstItem, "poll_id") && HasOwn(firstItem, "name") && |candidateList| == 0 {
      candidateList := arr;
    }
    return Some(Lists(userList, pollList, candidateList));
  }

  /** The `processArray` calls over `arrays`, stopping at the first that throws. */
  method Classify(arrays: seq<seq<Json>>) returns (r: Option<Lists>)
    ensures r.None? <==> exists k :: 0 <= k < |arrays| && Throws(arrays[k])
    ensures r.Some? ==> r.value == Classified(arrays)
  {
    var lists := Lists([], [], []);
    var i := 0;
    while i < |arrays|
      invariant 0 <= i <= |arrays|
      invariant forall k :: 0 <= k < i ==> !Throws(arrays[k])
      invariant lists == Scan(arrays, i)
    {
      var next := ProcessArray(lists, arrays[i]);
      if next.None? {
        return None;
      }
      lists := next.value;
      i := i + 1;
    }
    ScanClassified(arrays);
    return Some(lists);
  }

  // ---------------------------------------------------------------------
  // Attaching candidates to polls
  // ---------------------------------------------------------------------

  /** `String(c.poll_id)`. */
  function PollKey(c: Json): string
  {
    PropToStr(Prop(c, "poll_id"))
  }

  /** `String(p.id)`. */
  function IdKey(p: Json): string
  {
    PropToStr(Prop(p, "id"))
  }

  function HasPollKey(key: string): Json -> bool
  {
    (c: Json) => PollKey(c) == key
  }

  /** The candidate rows of the poll whose key is `key`, in row order. */
  function Group(cands: seq<Json>, key: string): seq<Json>
  {
    Seqs.Filter(cands, HasPollKey(key))
  }

  /** `candidatesByPollId.get(key) || []`. */
  function Lookup(m: map<string, seq<Json>>, key: string): seq<Json>
  {
    if key in m then m[key] else []
  }

  /** The `forEach` that fills `candidatesByPollId`; reading `poll_id` of `null` throws. */
  method GroupByPoll(cands: seq<Json>) returns (r: Option<map<string, seq<Json>>>)
    ensures r.None? <==> JNull in cands
    ensures r.Some? ==> forall key :: Lookup(r.value, key) == Group(cands, key)
    ensures r.Some? ==> forall key :: key in r.value ==> r.value[key] != []
  {
    var m: map<string, seq<Json>> := map[];
    var i := 0;
    while i < |cands|
      invariant 0 <= i <= |cands|
      invariant JNull !in cands[..i]
      invariant forall key :: Lookup(m, key) == Group(cands[..i], key)
      invariant forall key :: key in m ==> m[key] != []
    {
      var c := cands[i];
      if c == JNull {
        return None;
      }
      var pollId := PollKey(c);
      ghost var before := m;
      if pollId !in m {
        m := m[pollId := []];
      }
      m := m[pollId := m[pollId] + [c]];
      assert cands[..i + 1] == cands[..i] + [c];
      forall key
        ensures Lookup(m, key) == Group(cands[..i + 1], key)
      {
        GroupStep(cands[..i], c, key);
      }
      i := i + 1;
    }
    assert cands[..i] == cands;
    return Some(m);
  }

  /** Adding a row to the table adds it to its own poll's group only. */
  lemma GroupStep(prefix: seq<Json>, c: Json, key: string)
    ensures Group(prefix + [c], key) == Group(prefix, key) + (if PollKey(c) == key then [c] else [])
  {
    Seqs.FilterConcat(prefix, [c], HasPollKey(key));
    assert [c][1..] == [];
  }

  /** `p.candidates = group`; on an array the new property is never read again. */
  function WithCandidates(p: Json, group: seq<Json>): Json
  {
    if p.JObj? then JObj(SetField(p.fields, "candidates", JArr(group))) else p
  }

  /** Reading `p.id` and assigning `p.candidates` succeed (strict mode forbids it on primitives). */
  predicate Assignable(p: Json)
  {
    p.JObj? || p.JArr?
  }

  /** The poll rows once every poll object holds the candidate rows that name it. */
  function Attached(polls: seq<Json>, cands: seq<Json>): (r: seq<Json>)
    ensures |r| == |polls|
  {
    seq(|polls|, k requires 0 <= k < |polls| => WithCandidates(polls[k], Group(cands, IdKey(polls[k]))))
  }

  /** The `forEach` over the poll rows. */
  method AttachCandidates(polls: seq<Json>, groups: map<string, seq<Json>>) returns (r: Option<seq<Json>>)
    ensures r.None? <==> exists k :: 0 <= k < |polls| && !Assignable(polls[k])
    ensures r.Some? ==> |r.value| == |polls|
    ensures r.Some? ==> forall k :: 0 <= k < |polls| ==> r.value[k] == WithCandidates(polls[k], Lookup(groups, IdKey(polls[k])))
  {
    var out: seq<Json> := [];
    var i := 0;
    while i < |polls|
      invariant 0 <= i <= |polls|
      invariant forall k :: 0 <= k < i ==> Assignable(polls[k])
      invariant |out| == i
      invariant forall k :: 0 <= k < i ==> out[k] == WithCandidates(polls[k], Lookup(groups, IdKey(polls[k])))
    {
      var p := polls[i];
      if !Assignable(p) {
        return None;
      }
      var pollId := IdKey(p);
      out := out + [WithCandidates(p, Lookup(groups, pollId))];
      i := i + 1;
    }
    return Some(out);
  }

  /**
   * Attaching sets exactly the `candidates` property of each poll object, to
   * the rows whose `String(poll_id)` is the poll's `String(id)`, in row order.
   */
  lemma AttachedCandidates(polls: seq<Json>, cands: seq<Json>, k: nat)
    requires k < |polls| && polls[k].JObj?
    ensures Prop(Attached(polls, cands)[k], "candidates") == Some(JArr(Group(cands, IdKey(polls[k]))))
    ensures forall key :: key != "candidates" ==> Prop(Attached(polls, cands)[k], key) == Prop(polls[k], key)
    ensures forall c :: c in Group(cands, IdKey(polls[k])) <==> c in cands && PollKey(c) == IdKey(polls[k])
  {
  }

  // ---------------------------------------------------------------------
  // Users
  // ---------------------------------------------------------------------

  /** The `filter` test of a user row. */
  predicate KeepUser(u: Json)
  {
    && Truthy(u)
    && TruthyProp(Prop(u, "username"))
    && TruthyProp(Prop(u, "name"))
    && (TruthyProp(Prop(u, "department")) || TruthyProp(Prop(u, "depart")))
  }

  /** `new User(u.username, u.name, u.department || u.depart)`. */
  function ToApiUser(u: Json): (r: ApiUser)
    requires KeepUser(u)
    ensures Truthy(r.username) && Truthy(r.name) && Truthy(r.department)
    ensures Some(r.username) == Prop(u, "username") && Some(r.name) == Prop(u, "name")
    ensures TruthyProp(Prop(u, "department")) ==> Some(r.department) == Prop(u, "department")
    ensures !TruthyProp(Prop(u, "department")) ==> Some(r.department) == Prop(u, "depart")
  {
    var dept := if TruthyProp(Prop(u, "department")) then Prop(u, "department") else Prop(u, "depart");
    ApiUser(Prop(u, "username").value, Prop(u, "name").value, dept.value)
  }

  function MapUsers(rows: seq<Json>): (r: seq<ApiUser>)
    requires forall k :: 0 <= k < |rows| ==> KeepUser(rows[k])
    ensures |r| == |rows| && forall k :: 0 <= k < |rows| ==> r[k] == ToApiUser(rows[k])
  {
    seq(|rows|, k requires 0 <= k < |rows| => ToApiUser(rows[k]))
  }

  predicate NamesAdmin(users: seq<ApiUser>)
  {
    exists k :: 0 <= k < |users| && users[k].username == JStr("saitama")
  }

  /** `if (!users.some(u => u.username === 'saitama')) users.push(admin)`. */
  function WithAdmin(users: seq<ApiUser>): (r: seq<ApiUser>)
    ensures NamesAdmin(r)
    ensures |users| <= |r| <= |users| + 1 && r[..|users|] == users
    ensures |r| == |users| + 1 <==> !NamesAdmin(users)
    ensures |r| == |users| + 1 ==> r[|users|] == AdminUser
  {
    if NamesAdmin(users) then users
    else
      assert (users + [AdminUser])[|users|].username == JStr("saitama");
      users + [AdminUser]
  }

  /** The users of `fetchData`: the kept rows converted, then the administrator unless present. */
  function NormaliseUsers(rows: seq<Json>): seq<ApiUser>
  {
    WithAdmin(MapUsers(Seqs.Filter(rows, KeepUser)))
  }

  /**
   * The normalised users are the kept rows converted in order, followed by
   * the administrator exactly when no kept row is named `saitama`; every
   * field of every user is truthy, and the administrator is always there.
   */
  lemma NormalisedUsers(rows: seq<Json>)
    ensures var r := NormaliseUsers(rows);
            && NamesAdmin(r)
            && (forall u :: u in r ==> Truthy(u.username) && Truthy(u.name) && Truthy(u.department))
            && var kept := Seqs.Filter(rows, KeepUser);
            && |kept| <= |r| <= |kept| + 1
            && (forall k :: 0 <= k < |kept| ==> r[k] == ToApiUser(kept[k]))
            && (|r| == |kept| + 1 <==> forall k :: 0 <= k < |kept| ==> Prop(kept[k], "username") != Some(JStr("saitama")))
            && (|r| == |kept| + 1 ==> r[|kept|] == AdminUser)
  {
    var kept := Seqs.Filter(rows, KeepUser);
    var users := MapUsers(kept);
    var r := WithAdmin(users);
    assert forall k :: 0 <= k < |kept| ==> r[k] == users[k];
    MappedNamesAdmin(kept);
    WithAdminTruthy(users);
  }

  /** A converted list names the administrator exactly when one of its rows does. */
  lemma MappedNamesAdmin(kept: seq<Json>)
    requires forall k :: 0 <= k < |kept| ==> KeepUser(kept[k])
    ensures NamesAdmin(MapUsers(kept)) <==> exists k :: 0 <= k < |kept| && Prop(kept[k], "username") == Some(JStr("saitama"))
  {
    var users := MapUsers(kept);
    if NamesAdmin(users) {
      var k :| 0 <= k < |users| && users[k].username == JStr("saitama");
      assert Prop(kept[k], "username") == Some(JStr("saitama"));
    }
  }

  /** Appending the administrator keeps every field truthy. */
  lemma WithAdminTruthy(users: seq<ApiUser>)
    requires forall k :: 0 <= k < |users| ==> Truthy(users[k].username) && Truthy(users[k].name) && Truthy(users[k].department)
    ensures forall u :: u in WithAdmin(users) ==> Truthy(u.username) && Truthy(u.name) && Truthy(u.department)
  {
    var r := WithAdmin(users);
    forall u | u in r ensures Truthy(u.username) && Truthy(u.name) && Truthy(u.department) {
      var k :| 0 <= k < |r| && r[k] == u;
      if k < |users| {
        assert u == users[k];
      }
    }
  }

  // ---------------------------------------------------------------------
  // Polls
  // ---------------------------------------------------------------------

  /** The `filter` test of a poll row. */
  predicate KeepPoll(p: Json)
  {
    && Truthy(p)
    && TruthyProp(Prop(p, "id"))
    && TruthyProp(Prop(p, "title"))
    && TruthyProp(Prop(p, "status"))
    && Prop(p, "candidates").Some? && Prop(p, "candidates").value.JArr?
  }

  /** `p.status === 'open' ? 'open' : 'closed'`. */
  function StatusOf(s: Option<Json>): (t: Status)
    ensures t == Open <==> s == Some(JStr("open"))
  {
    if s == Some(JStr("open")) then Open else Closed
  }

  /** `{ id: String(c.id), name: c.name, votes: Number(c.votes) || 0 }`. */
  function ToApiCandidate(c: Json): ApiCandidate
  {
    ApiCandidate(PropToStr(Prop(c, "id")), Prop(c, "name"), NumberOrZero(Prop(c, "votes")))
  }

  /** The rows of a kept poll's `candidates` array. */
  function RawCandidates(p: Json): seq<Json>
    requires KeepPoll(p)
  {
    Prop(p, "candidates").value.items
  }

  /** The `map` over one kept poll; reading `c.id` of a `null` row throws. */
  function ToApiPoll(p: Json): (r: Option<ApiPoll>)
    requires KeepPoll(p)
    ensures r.None? <==> JNull in RawCandidates(p)
    ensures r.Some? ==> && r.value.id == IdKey(p)
                        && Some(r.value.title) == Prop(p, "title")
                        && (r.value.status == Open <==> Prop(p, "status") == Some(JStr("open")))
                        && |r.value.candidates| == |RawCandidates(p)|
                        && forall j :: 0 <= j < |RawCandidates(p)| ==> r.value.candidates[j] == ToApiCandidate(RawCandidates(p)[j])
  {
    var raw := RawCandidates(p);
    if JNull in raw then None
    else
      Some(ApiPoll(IdKey(p), Prop(p, "title").value, StatusOf(Prop(p, "status")),
                   seq(|raw|, j requires 0 <= j < |raw| => ToApiCandidate(raw[j]))))
  }

  function MapPolls(rows: seq<Json>): (r: Option<seq<ApiPoll>>)
    requires forall k :: 0 <= k < |rows| ==> KeepPoll(rows[k])
    ensures r.None? <==> exists k :: 0 <= k < |rows| && ToApiPoll(rows[k]).None?
    ensures r.Some? ==> |r.value| == |rows| && forall k :: 0 <= k < |rows| ==> Some(r.value[k]) == ToApiPoll(rows[k])
  {
    if |rows| == 0 then Some([])
    else
      match ToApiPoll(rows[0])
      case None => None
      case Some(p) =>
        match MapPolls(rows[1..])
        case None => None
        case Some(ps) => Some([p] + ps)
  }

  /** The polls of `fetchData`: the kept rows converted in order. */
  function NormalisePolls(rows: seq<Json>): Option<seq<ApiPoll>>
  {
    MapPolls(Seqs.Filter(rows, KeepPoll))
  }

  /**
   * Normalising the polls fails exactly when a kept row has a `null`
   * candidate, and otherwise converts every kept row, in order.
   */
  lemma NormalisedPolls(rows: seq<Json>)
    ensures var r := NormalisePolls(rows);
            var kept := Seqs.Filter(rows, KeepPoll);
            && (r.None? <==> exists k :: 0 <= k < |kept| && JNull in RawCandidates(kept[k]))
            && (r.Some? ==> |r.value| == |kept| && forall k :: 0 <= k < |kept| ==> Some(r.value[k]) == ToApiPoll(kept[k]))
  {
  }

  // ---------------------------------------------------------------------
  // The whole transformation
  // ---------------------------------------------------------------------

  /** The poll rows after the candidate step, or `None` if it throws. */
  function PollRows(l: Lists): Option<seq<Json>>
  {
    if |l.polls| > 0 && |l.candidates| > 0 then
      if JNull in l.candidates || exists k :: 0 <= k < |l.polls| && !Assignable(l.polls[k]) then None
      else Some(Attached(l.polls, l.candidates))
    else Some(l.polls)
  }

  /** The users and polls made from the three tables; `None` when a step throws. */
  function FromLists(l: Lists): Option<Data>
  {
    match PollRows(l)
    case None => None
    case Some(rows) =>
      match NormalisePolls(rows)
      case None => None
      case Some(polls) => Some(Data(NormaliseUsers(l.users), polls))
  }

  /** The parsed payload turned into users and polls; `None` when a step throws. */
  function Payload(json: Json): Option<Data>
  {
    match SourceData(json)
    case None => None
    case Some(src) =>
      var arrays := Arrays(src);
      if exists k :: 0 <= k < |arrays| && Throws(arrays[k]) then None
      else FromLists(Classified(arrays))
  }

  /** What `fetchData` resolves to for a response; `None` is a failed request or unreadable body. */
  function Resolved(response: Option<Json>): Data
  {
    if response.Some? && Payload(response.value).Some? then Payload(response.value).value else Fallback
  }

  /** The statements of `fetchData` after `response.json()`. */
  method ProcessPayload(json: Json) returns (r: Option<Data>)
    ensures r == Payload(json)
  {
    var sourceData := SourceData(json);
    if sourceData.None? {
      return None;
    }
    var arrays := Arrays(sourceData.value);
    var lists := Classify(arrays);
    if lists.None? {
      return None;
    }
    r := ProcessLists(lists.value);
  }

  /** The statements of `fetchData` from the candidate step to the result. */
  method ProcessLists(l: Lists) returns (r: Option<Data>)
    ensures r == FromLists(l)
  {
    var pollList := AttachStep(l);
    if pollList.None? {
      return None;
    }
    var polls := NormalisePolls(pollList.value);
    if polls.None? {
      return None;
    }
    r := Some(Data(NormaliseUsers(l.users), polls.value));
  }

  /** Lines 52-66: group and attach when both tables are present. */
  method AttachStep(l: Lists) returns (r: Option<seq<Json>>)
    ensures r == PollRows(l)
  {
    if |l.polls| > 0 && |l.candidates| > 0 {
      var groups := GroupByPoll(l.candidates);
      if groups.None? {
        return None;
      }
      var attached := AttachCandidates(l.polls, groups.value);
      if attached.None? {
        return None;
      }
      assert attached.value == Attached(l.polls, l.candidates);
      return attached;
    }
    return Some(l.polls);
  }

  /** Whatever the response, the administrator is among the users. */
  lemma ResolvedHasAdmin(response: Option<Json>)
    ensures NamesAdmin(Resolved(response).users)
  {
    assert Fallback.users[0].username == JStr("saitama");
  }

  /** A failed request, a `null` body and a `null` first table element all give the fallback. */
  lemma FailuresFallBack(response: Option<Json>)
    requires response.None? || response == Some(JNull)
             || (response.Some? && response.value.JArr? && Throws(response.value.items))
    ensures Resolved(response) == Fallback
  {
    if response.Some? && response.value.JArr? && Throws(response.value.items) {
      assert Arrays(response.value) == [response.value.items];
    }
  }

  // ---------------------------------------------------------------------
  // The cache and the upload
  // ---------------------------------------------------------------------

  /** How the upload POST ended: a network error, or a response with its status and body text. */
  datatype PostResponse = NetworkError | Response(ok: bool, status: int, text: string)

  /** The error `updateUsers` rethrows. */
  datatype UploadError = RequestFailed(status: int, text: string) | NetworkFailure

  /** The module-level `cachedData` and the requests made so far. */
  class ApiClient {
    var cached: Option<Data>
    ghost var requests: nat

    /** Only transformed data is cached, and it always names the administrator. */
    ghost predicate Valid()
      reads this
    {
      cached.Some? ==> NamesAdmin(cached.value.users)
    }

    constructor ()
      ensures Valid()
      ensures cached == None && requests == 0
    {
      cached := None;
      requests := 0;
    }

    /**
     * `fetchData`; `response` is what a request would return. A cached value
     * is returned without a request; only a successful transformation is cached.
     */
    method FetchData(response: Option<Json>) returns (d: Data)
      requires Valid()
      modifies this
      ensures Valid() && NamesAdmin(d.users)
      ensures old(cached).Some? ==> d == old(cached).value && cached == old(cached) && requests == old(requests)
      ensures old(cached).None? ==> d == Resolved(response) && requests == old(requests) + 1
      ensures old(cached).None? && response.Some? && Payload(response.value).Some? ==> cached == Some(d)
      ensures old(cached).None? && !(response.Some? && Payload(response.value).Some?) ==> cached == None
    {
      if cached.Some? {
        return cached.value;
      }
      ResolvedHasAdmin(response);
      requests := requests + 1;
      if response.None? {
        return Fallback;
      }
      var r := ProcessPayload(response.value);
      if r.None? {
        return Fallback;
      }
      cached := r;
      d := r.value;
    }

    /** `getUsers`. */
    method GetUsers(response: Option<Json>) returns (users: seq<ApiUser>)
      requires Valid()
      modifies this
      ensures Valid()
      ensures old(cached).Some? ==> users == old(cached).value.users && cached == old(cached)
      ensures old(cached).None? ==> users == Resolved(response).users
      ensures NamesAdmin(users)
    {
      var d := FetchData(response);
      users := d.users;
    }

    /** `getPolls`. */
    method GetPolls(response: Option<Json>) returns (polls: seq<ApiPoll>)
      requires Valid()
      modifies this
      ensures Valid()
      ensures old(cached).Some? ==> polls == old(cached).value.polls && cached == old(cached)
      ensures old(cached).None? ==> polls == Resolved(response).polls
    {
      var d := FetchData(response);
      polls := d.polls;
    }

    /** `clearCache`. */
    method ClearCache()
      modifies this
      ensures Valid()
      ensures cached == None && requests == old(requests)
    {
      cached := None;
    }

    /** `updateUsers`: the cache is cleared only after an ok response; errors are rethrown. */
    method UpdateUsers(usernames: seq<string>, response: PostResponse) returns (r: Outcome<UploadError>)
      requires Valid()
      modifies this
      ensures Valid()
      ensures r.Pass? <==> response.Response? && response.ok
      ensures r.Pass? ==> cached == None
      ensures r.Fail? ==> cached == old(cached)
      ensures response.Response? && !response.ok ==> r == Fail(RequestFailed(response.status, response.text))
      ensures response.NetworkError? ==> r == Fail(NetworkFailure)
      ensures requests == old(requests)
    {
      match response
      case NetworkError =>
        r := Fail(NetworkFailure);
      case Response(ok, status, text) =>
        if !ok {
          r := Fail(RequestFailed(status, text));
        } else {
          ClearCache();
          r := Pass;
        }
    }
  }

  /** Once a fetch succeeds, the next one answers from the cache without a request. */
  method SecondFetchIsCached(client: ApiClient, first: Option<Json>, second: Option<Json>)
    returns (d1: Data, d2: Data)
    requires client.Valid() && client.cached.None?
    modifies client
    ensures client.Valid()
    ensures first.Some? && Payload(first.value).Some? ==> d2 == d1 && client.requests == old(client.requests) + 1
    ensures !(first.Some? && Payload(first.value).Some?) ==> d2 == Resolved(second) && client.requests == old(client.requests) + 2
  {
    d1 := client.FetchData(first);
    d2 := client.FetchData(second);
  }
}
