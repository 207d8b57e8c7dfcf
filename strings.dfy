/**
 * The JavaScript string operations the core relies on: `trim`, `split`,
 * `join`, `includes`, ASCII `toLowerCase`/`toUpperCase`, and a code-point
 * order standing in for `localeCompare`.
 */
module Strings {

  /** The characters `String.prototype.trim` removes: ECMAScript WhiteSpace and LineTerminator. */
  predicate IsSpace(c: char)
  {
    || c == ' ' || c == '\t' || c == '\n' || c == '\r'
    || c == '\U{000B}' || c == '\U{000C}' || c == '\U{00A0}' || c == '\U{1680}'
    || ('\U{2000}' <= c <= '\U{200A}')
    || c == '\U{2028}' || c == '\U{2029}' || c == '\U{202F}' || c == '\U{205F}'
    || c == '\U{3000}' || c == '\U{FEFF}'
  }

  /** Neither end of `s` is white space. */
  predicate IsTrimmed(s: string)
  {
    |s| == 0 || (!IsSpace(s[0]) && !IsSpace(s[|s| - 1]))
  }

  /** `s` without its leading white space. */
  function TrimStart(s: string): (r: string)
    ensures |r| <= |s| && r == s[|s| - |r|..]
    ensures |r| == 0 || !IsSpace(r[0])
    ensures forall k :: 0 <= k < |s| - |r| ==> IsSpace(s[k])
  {
    if |s| > 0 && IsSpace(s[0]) then TrimStart(s[1..]) else s
  }

  /** `s` without its trailing white space. */
  function TrimEnd(s: string): (r: string)
    ensures r <= s
    ensures |r| == 0 || !IsSpace(r[|r| - 1])
    ensures forall k :: |r| <= k < |s| ==> IsSpace(s[k])
  {
    if |s| > 0 && IsSpace(s[|s| - 1]) then TrimEnd(s[..|s| - 1]) else s
  }

  /** `String.prototype.trim`. */
  function Trim(s: string): (r: string)
    ensures IsTrimmed(r)
    ensures IsTrimmed(s) ==> r == s
  {
    var t := TrimStart(s);
    var r := TrimEnd(t);
    assert |r| > 0 ==> r[0] == t[0];
    r
  }

  /** One leading blank before an already trimmed, non-empty string is removed by `trim`. */
  lemma TrimAfterBlank(s: string)
    requires IsTrimmed(s) && |s| > 0
    ensures Trim([' '] + s) == s
  {
    var b := [' '] + s;
    assert b[1..] == s;
    assert TrimStart(b) == TrimStart(s) == s;
  }

  /** ASCII `toLowerCase` of one character. */
  function LowerChar(c: char): char
  {
    if 'A' <= c <= 'Z' then (c as int + 32) as char else c
  }

  /** ASCII `toUpperCase` of one character. */
  function UpperChar(c: char): char
  {
    if 'a' <= c <= 'z' then (c as int - 32) as char else c
  }

  /** `String.prototype.toLowerCase`, restricted to ASCII letters. */
  function Lower(s: string): (r: string)
    ensures |r| == |s|
    ensures forall k :: 0 <= k < |s| ==> r[k] == LowerChar(s[k])
  {
    seq(|s|, k requires 0 <= k < |s| => LowerChar(s[k]))
  }

  /** `String.prototype.toUpperCase`, restricted to ASCII letters. */
  function Upper(s: string): (r: string)
    ensures |r| == |s|
    ensures forall k :: 0 <= k < |s| ==> r[k] == UpperChar(s[k])
  {
    seq(|s|, k requires 0 <= k < |s| => UpperChar(s[k]))
  }

  /** Lower-casing forgets the case a text was written in. */
  lemma LowerOfUpper(s: string)
    ensures Lower(Upper(s)) == Lower(s)
  {
    forall k | 0 <= k < |s| ensures Lower(Upper(s))[k] == Lower(s)[k] {
    }
  }

  /** `s.includes(q)`: `q` occurs in `s` as a contiguous substring. */
  predicate Contains(s: string, q: string)
  {
    q <= s || (|s| > 0 && Contains(s[1..], q))
  }

  /** `q` occurs in `s` starting at offset `k`. */
  predicate OccursAt(s: string, q: string, k: int)
  {
    0 <= k <= |s| - |q| && s[k..k + |q|] == q
  }

  /** `Contains` holds exactly when `q` sits at some offset of `s`. */
  lemma {:induction false} ContainsAt(s: string, q: string)
    ensures Contains(s, q) <==> exists k :: OccursAt(s, q, k)
  {
    if |s| > 0 {
      ContainsAt(s[1..], q);
      if q <= s {
        assert OccursAt(s, q, 0);
      } else if Contains(s[1..], q) {
        var k :| OccursAt(s[1..], q, k);
        assert s[k + 1..k + 1 + |q|] == s[1..][k..k + |q|];
        assert OccursAt(s, q, k + 1);
      }
      if exists k :: OccursAt(s, q, k) {
        var k :| OccursAt(s, q, k);
        if k > 0 {
          assert s[1..][k - 1..k - 1 + |q|] == s[k..k + |q|];
          assert OccursAt(s[1..], q, k - 1);
        } else {
          assert q <= s;
        }
      }
    } else {
      if q == [] {
        assert OccursAt(s, q, 0);
      }
    }
  }

  /** Every string contains the empty string. */
  lemma ContainsEmpty(s: string)
    ensures Contains(s, "")
  {
  }

  /** `"a,b".split(',')`: the pieces between separators, always at least one. */
  function Split(s: string, sep: char): (r: seq<string>)
    ensures |r| >= 1
    ensures forall k :: 0 <= k < |r| ==> sep !in r[k]
  {
    if |s| == 0 then [""]
    else
      var rest := Split(s[1..], sep);
      if s[0] == sep then [""] + rest
      else [[s[0]] + rest[0]] + rest[1..]
  }

  /** `parts.join(sep)`. */
  function Join(parts: seq<string>, sep: string): string
  {
    if |parts| == 0 then ""
    else if |parts| == 1 then parts[0]
    else parts[0] + sep + Join(parts[1..], sep)
  }

  /** Joining the pieces of a split with the separator gives the text back. */
  lemma {:induction false} JoinSplit(s: string, sep: char)
    ensures Join(Split(s, sep), [sep]) == s
  {
    if |s| > 0 {
      var rest := Split(s[1..], sep);
      JoinSplit(s[1..], sep);
      if s[0] == sep {
        assert Join([""] + rest, [sep]) == "" + [sep] + Join(rest, [sep]) by {
          assert ([""] + rest)[1..] == rest;
        }
        assert s == [sep] + s[1..];
      } else {
        var parts := [[s[0]] + rest[0]] + rest[1..];
        if |rest| == 1 {
          assert Join(parts, [sep]) == [s[0]] + rest[0];
          assert Join(rest, [sep]) == rest[0];
        } else {
          assert parts[1..] == rest[1..];
          assert Join(parts, [sep]) == [s[0]] + rest[0] + [sep] + Join(rest[1..], [sep]);
        }
        assert s == [s[0]] + s[1..];
      }
    }
  }

  /** A piece without separators followed by a separator splits off as one piece. */
  lemma {:induction false} SplitPiece(a: string, b: string, sep: char)
    requires sep !in a
    ensures Split(a + [sep] + b, sep) == [a] + Split(b, sep)
  {
    var s := a + [sep] + b;
    if |a| == 0 {
      assert s[1..] == b;
    } else {
      assert s[1..] == a[1..] + [sep] + b;
      SplitPiece(a[1..], b, sep);
      assert [a[0]] + a[1..] == a;
    }
  }

  /** A string without separators splits into itself. */
  lemma {:induction false} SplitNoSeparator(a: string, sep: char)
    requires sep !in a
    ensures Split(a, sep) == [a]
  {
    if |a| > 0 {
      SplitNoSeparator(a[1..], sep);
      assert [a[0]] + a[1..] == a;
    }
  }

  /** Splitting a join of separator-free pieces gives the pieces back. */
  lemma {:induction false} SplitJoin(parts: seq<string>, sep: char)
    requires |parts| >= 1
    requires forall k :: 0 <= k < |parts| ==> sep !in parts[k]
    ensures Split(Join(parts, [sep]), sep) == parts
  {
    if |parts| == 1 {
      SplitNoSeparator(parts[0], sep);
    } else {
      SplitJoin(parts[1..], sep);
      SplitPiece(parts[0], Join(parts[1..], [sep]), sep);
      assert [parts[0]] + parts[1..] == parts;
    }
  }

  /** Code-point lexicographic order, the model's stand-in for `localeCompare(...) <= 0`. */
  predicate StrLeq(a: string, b: string)
  {
    |a| == 0 || (|b| > 0 && (a[0] < b[0] || (a[0] == b[0] && StrLeq(a[1..], b[1..]))))
  }

  /** Any two strings are comparable. */
  lemma {:induction false} StrLeqTotal(a: string, b: string)
    ensures StrLeq(a, b) || StrLeq(b, a)
  {
    if |a| > 0 && |b| > 0 && a[0] == b[0] {
      StrLeqTotal(a[1..], b[1..]);
    }
  }

  /** The order is transitive. */
  lemma {:induction false} StrLeqTransitive(a: string, b: string, c: string)
    requires StrLeq(a, b) && StrLeq(b, c)
    ensures StrLeq(a, c)
  {
    if |a| > 0 && |b| > 0 && |c| > 0 && a[0] == b[0] && b[0] == c[0] {
      StrLeqTransitive(a[1..], b[1..], c[1..]);
    }
  }

  /** The order is antisymmetric. */
  lemma {:induction false} StrLeqAntisymmetric(a: string, b: string)
    requires StrLeq(a, b) && StrLeq(b, a)
    ensures a == b
  {
    if |a| > 0 && |b| > 0 {
      StrLeqAntisymmetric(a[1..], b[1..]);
      assert a == [a[0]] + a[1..];
      assert b == [b[0]] + b[1..];
    }
  }
}
