/**
 * `components/UserManagementPage.tsx`, first part: the text form of the
 * whitelist, how `handleSave` parses it and how the page writes it back.
 */
module UserListText {
  import opened Strings
  import Seqs

  /** `user.trim()` over every piece. */
  function TrimAll(pieces: seq<string>): seq<string>
  {
    seq(|pieces|, k requires 0 <= k < |pieces| => Trim(pieces[k]))
  }

  predicate NonEmpty(s: string)
  {
    |s| > 0
  }

  /** `text.split(',').map(u => u.trim()).filter(u => u.length > 0)`. */
  function ParseUserList(text: string): seq<string>
  {
    Seqs.Filter(TrimAll(Split(text, ',')), NonEmpty)
  }

  /**
   * The parsed names are non-empty, trimmed and free of commas, and they
   * keep the order of the pieces they come from.
   */
  lemma ParseUserListNames(text: string)
    ensures var r := ParseUserList(text);
            && (forall k :: 0 <= k < |r| ==> r[k] != "" && IsTrimmed(r[k]) && ',' !in r[k])
            && Seqs.IsSubseq(r, TrimAll(Split(text, ',')))
  {
    var trimmed := TrimAll(Split(text, ','));
    TrimAllClean(Split(text, ','));
    var r := Seqs.Filter(trimmed, NonEmpty);
    forall k | 0 <= k < |r| ensures r[k] != "" && IsTrimmed(r[k]) && ',' !in r[k] {
      assert r[k] in r;
    }
  }

  /** Every trimmed piece of comma-free pieces is trimmed and comma-free. */
  lemma TrimAllClean(pieces: seq<string>)
    requires forall k :: 0 <= k < |pieces| ==> ',' !in pieces[k]
    ensures forall x :: x in TrimAll(pieces) ==> IsTrimmed(x) && ',' !in x
  {
    var trimmed := TrimAll(pieces);
    forall x | x in trimmed ensures IsTrimmed(x) && ',' !in x {
      var k :| 0 <= k < |trimmed| && trimmed[k] == x;
      TrimKeeps(pieces[k], ',');
    }
  }

  /** Trimming removes characters, so it adds no separator. */
  lemma TrimKeeps(s: string, c: char)
    requires c !in s
    ensures c !in Trim(s)
  {
    TrimStartKeeps(s, c);
    TrimEndKeeps(TrimStart(s), c);
  }

  lemma {:induction false} TrimStartKeeps(s: string, c: char)
    requires c !in s
    ensures c !in TrimStart(s)
  {
    if |s| > 0 && IsSpace(s[0]) {
      assert c !in s[1..];
      TrimStartKeeps(s[1..], c);
    }
  }

  lemma {:induction false} TrimEndKeeps(s: string, c: char)
    requires c !in s
    ensures c !in TrimEnd(s)
  {
    if |s| > 0 && IsSpace(s[|s| - 1]) {
      assert c !in s[..|s| - 1];
      TrimEndKeeps(s[..|s| - 1], c);
    }
  }

  /** The pieces `split(',')` cuts from `p + names.join(', ')`: each but the first keeps the blank. */
  function Padded(p: string, names: seq<string>): (r: seq<string>)
    requires |names| > 0
    ensures |r| == |names|
  {
    seq(|names|, k requires 0 <= k < |names| => if k == 0 then p + names[0] else " " + names[k])
  }

  lemma {:induction false} SplitJoinPadded(p: string, names: seq<string>)
    requires |names| > 0
    requires ',' !in p
    requires forall k :: 0 <= k < |names| ==> ',' !in names[k]
    ensures Split(p + Join(names, ", "), ',') == Padded(p, names)
    decreases |names|
  {
    if |names| == 1 {
      SplitNoSeparator(p + names[0], ',');
      assert Padded(p, names) == [p + names[0]];
    } else {
      var rest := Join(names[1..], ", ");
      JoinCut(p, names);
      SplitPiece(p + names[0], " " + rest, ',');
      SplitJoinPadded(" ", names[1..]);
      PaddedCut(p, names);
    }
  }

  /** A join of two or more names cut at its first comma. */
  lemma JoinCut(p: string, names: seq<string>)
    requires |names| > 1
    ensures p + Join(names, ", ") == (p + names[0]) + [','] + (" " + Join(names[1..], ", "))
  {
  }

  /** The padded pieces of two or more names: the first, then the padded rest. */
  lemma PaddedCut(p: string, names: seq<string>)
    requires |names| > 1
    ensures Padded(p, names) == [p + names[0]] + Padded(" ", names[1..])
  {
  }

  /** `users.join(', ')`: the text area contents for a list of usernames. */
  function Render(users: seq<string>): string
  {
    Join(users, ", ")
  }

  /**
   * Parsing what `Render` shows gives the list back when every name is
   * non-empty, trimmed and comma-free.
   */
  lemma ParseRender(names: seq<string>)
    requires forall k :: 0 <= k < |names| ==> names[k] != "" && IsTrimmed(names[k]) && ',' !in names[k]
    ensures ParseUserList(Render(names)) == names
  {
    if |names| == 0 {
      assert Split("", ',') == [""];
      BlankTrim();
      assert TrimAll([""]) == [""];
    } else {
      SplitJoinPadded("", names);
      assert "" + Join(names, ", ") == Join(names, ", ");
      TrimPadded(names);
      Seqs.FilterAllPass(names, NonEmpty);
    }
  }

  /** Trimming the pieces of a rendered list gives the names back. */
  lemma TrimPadded(names: seq<string>)
    requires |names| > 0
    requires forall k :: 0 <= k < |names| ==> names[k] != "" && IsTrimmed(names[k])
    ensures TrimAll(Padded("", names)) == names
  {
    var pieces := Padded("", names);
    forall k | 0 <= k < |names| ensures Trim(pieces[k]) == names[k] {
      if k == 0 {
        assert pieces[0] == names[0];
      } else {
        TrimAfterBlank(names[k]);
      }
    }
  }

  /**
   * The text `users.map(u => u.username).join(', ')` produces when `users`
   * are strings, as `authService.getUsers` returns: every `.username` is
   * `undefined`, which `join` writes as the empty string.
   */
  function RenderAsWritten(users: seq<string>): string
  {
    Join(seq(|users|, k => ""), ", ")
  }

  /** What the page shows for two users: the text `", "`. */
  lemma AsWrittenExample()
    ensures RenderAsWritten(["alice", "saitama"]) == ", "
  {
    var blanks: seq<string> := seq(2, k => "");
    assert blanks == ["", ""];
    assert Join(["", ""], ", ") == "" + ", " + Join([""], ", ");
  }

  /** The text shown for any list parses to nothing, so saving it unedited is refused as empty. */
  lemma AsWrittenLosesNames(users: seq<string>)
    ensures ParseUserList(RenderAsWritten(users)) == []
  {
    var text := RenderAsWritten(users);
    var pieces := Split(text, ',');
    BlanksSplit(users);
    BlankTrim();
    var trimmed := TrimAll(pieces);
    assert forall k :: 0 <= k < |pieces| ==> pieces[k] in pieces;
    assert forall k :: 0 <= k < |trimmed| ==> !NonEmpty(trimmed[k]);
    NoneSelected(trimmed);
  }

  /** The pieces of the as-written text are blanks. */
  lemma BlanksSplit(users: seq<string>)
    ensures forall piece :: piece in Split(RenderAsWritten(users), ',') ==> piece == "" || piece == " "
  {
    var empties: seq<string> := seq(|users|, k => "");
    var text := RenderAsWritten(users);
    if |users| > 0 {
      SplitJoinPadded("", empties);
      assert "" + text == text;
    } else {
      assert Split(text, ',') == [""];
    }
  }

  lemma BlankTrim()
    ensures Trim("") == "" && Trim(" ") == ""
  {
    assert " "[1..] == "";
    assert TrimStart(" ") == "";
  }

  /** A filter that nothing passes is empty. */
  lemma NoneSelected(s: seq<string>)
    requires forall k :: 0 <= k < |s| ==> !NonEmpty(s[k])
    ensures Seqs.Filter(s, NonEmpty) == []
  {
  }
}

/**
 * `components/UserManagementPage.tsx`, second part: the page state and the
 * `saveStatus` steps of `handleSave`.
 */
module UserManagement {
  import opened Wrappers
  import opened UserListText

  /** The errors the page can show. */
  datatype PageError = EmptyList | SaveFailed | LoadFailed

  /** The text shown for each error. */
  function Message(e: PageError): string
  {
    match e
    case EmptyList => "User list cannot be empty."
    case SaveFailed => "Failed to save users."
    case LoadFailed => "Failed to load user list."
  }

  /** `'idle' | 'saving' | 'saved'`. */
  datatype SaveStatus = Idle | Saving | Saved

  /** The page's React state. */
  class UserManagementPage {
    var userList: string
    var saveStatus: SaveStatus
    var error: Option<PageError>

    constructor ()
      ensures userList == "" && saveStatus == Idle && error == None
    {
      userList := "";
      saveStatus := Idle;
      error := None;
    }

    /**
     * The `useEffect` load; `None` is a `getUsers` that throws. The text is
     * rendered as written, `users.map(u => u.username).join(', ')` over
     * the strings the whitelist store returns.
     */
    method LoadUsers(users: Option<seq<string>>)
      modifies this
      ensures users.Some? ==> userList == RenderAsWritten(users.value) && error == old(error)
      ensures users.None? ==> error == Some(LoadFailed) && userList == old(userList)
      ensures saveStatus == old(saveStatus)
    {
      if users.Some? {
        userList := RenderAsWritten(users.value);
      } else {
        error := Some(LoadFailed);
      }
    }

    /**
     * `handleSave` up to the `await`: clear the error, go to `saving` and
     * parse; an empty list is refused and the status returns to `idle`.
     */
    method BeginSave() returns (users: seq<string>)
      modifies this
      ensures unchanged(this`userList)
      ensures users == ParseUserList(userList)
      ensures error == (if users == [] then Some(EmptyList) else None)
      ensures saveStatus == (if users == [] then Idle else Saving)
    {
      users := ParseUserList(userList);
      if users == [] {
        error := Some(EmptyList);
        saveStatus := Idle;
      } else {
        error := None;
        saveStatus := Saving;
      }
    }

    /**
     * `handleSave` after the `await`: `updated` is the list `getUsers`
     * returned, `None` an exception from either service call. The text is
     * rendered as written, as on load.
     */
    method FinishSave(updated: Option<seq<string>>)
      modifies this
      ensures updated.Some? ==> userList == RenderAsWritten(updated.value) && saveStatus == Saved && error == old(error)
      ensures updated.None? ==> error == Some(SaveFailed) && saveStatus == Idle && userList == old(userList)
    {
      if updated.Some? {
        userList := RenderAsWritten(updated.value);
        saveStatus := Saved;
      } else {
        error := Some(SaveFailed);
        saveStatus := Idle;
      }
    }

    /** The `setTimeout` callback two seconds after a save. */
    method SavedTimeout()
      modifies this
      ensures saveStatus == Idle && userList == old(userList) && error == old(error)
    {
      saveStatus := Idle;
    }
  }
}

/**
 * `handleSave` of `components/UserManagementPage.tsx` run against the
 * whitelist store of `services/authService.ts`.
 */
module UserManagementSave {
  import opened Wrappers
  import opened UserListText
  import opened UserManagement
  import AuthService
  import opened Strings

  /**
   * `handleSave` against the whitelist store. Neither `updateUsers` nor
   * `getUsers` of that store throws, so a non-empty parse always ends in
   * `saved`. The text then shown is the as-written rendering of the stored
   * list, which parses to nothing: saving again unedited is refused.
   */
  method HandleSave(page: UserManagementPage, store: AuthService.AuthStore, writeFails: bool)
    modifies page, store
    ensures var parsed := ParseUserList(old(page.userList));
            && (|parsed| == 0 ==> && page.error == Some(EmptyList) && page.saveStatus == Idle
                                  && store.local == old(store.local) && page.userList == old(page.userList))
            && (|parsed| > 0 && !writeFails ==> && page.saveStatus == Saved && page.error == None
                                                && page.userList == RenderAsWritten(AuthService.FinalUsers(parsed))
                                                && AuthService.ReadUsers(store.local) == AuthService.FinalUsers(parsed))
            && (|parsed| > 0 && writeFails ==> page.saveStatus == Saved && page.userList == RenderAsWritten(AuthService.ReadUsers(old(store.local))))
            && (|parsed| > 0 ==> ParseUserList(page.userList) == [])
    ensures store.session == old(store.session)
  {
    var users := page.BeginSave();
    if |users| == 0 {
      return;
    }
    store.UpdateUsers(users, writeFails);
    var updated := store.GetUsers(writeFails);
    page.FinishSave(Some(updated));
    AsWrittenLosesNames(updated);
  }

  /**
   * With the intended rendering `users.join(', ')`, the text shown after a
   * save parses back to exactly the stored list, so saving it again
   * unedited keeps the whitelist.
   */
  lemma IntendedResaveKeepsList(text: string)
    ensures var stored := AuthService.FinalUsers(ParseUserList(text));
            ParseUserList(Render(stored)) == stored
  {
    var parsed := ParseUserList(text);
    var stored := AuthService.FinalUsers(parsed);
    ParseUserListNames(text);
    assert IsTrimmed(AuthService.Admin) && ',' !in AuthService.Admin;
    forall k | 0 <= k < |stored|
      ensures stored[k] != "" && IsTrimmed(stored[k]) && ',' !in stored[k]
    {
      assert stored[k] in stored;
      if stored[k] != AuthService.Admin {
        var j :| 0 <= j < |parsed| && parsed[j] == stored[k];
      }
    }
    ParseRender(stored);
  }
}
