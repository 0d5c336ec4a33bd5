/** Strings as the pipeline handles them: `" ".join(...)` and lower-casing. */
module Text {

  datatype Option<T> = None | Some(value: T) {
    /** `dict.get(key, default)` on an optional field. */
    function GetOr(default: T): T {
      match this
      case Some(v) => v
      case None => default
    }
  }

  /** Sum of the lengths of the words. */
  function TotalLength(ws: seq<string>): nat {
    if |ws| == 0 then 0 else |ws[0]| + TotalLength(ws[1..])
  }

  /** `" ".join(ws)`: the words with one space between neighbours. */
  function Join(ws: seq<string>): (s: string)
    ensures |s| == TotalLength(ws) + (if |ws| == 0 then 0 else |ws| - 1)
  {
    if |ws| == 0 then ""
    else if |ws| == 1 then ws[0]
    else ws[0] + " " + Join(ws[1..])
  }

  /** `a` occurs in `b` starting at position `p`. */
  ghost predicate InfixAt(a: string, b: string, p: int) {
    0 <= p && p + |a| <= |b| && b[p..p + |a|] == a
  }

  /** `a in b` on Python strings. */
  ghost predicate IsInfix(a: string, b: string) {
    exists p :: InfixAt(a, b, p)
  }

  /** Every word joined is a substring of the joined text. */
  lemma {:induction false} JoinHasWord(ws: seq<string>, k: nat)
    requires k < |ws|
    ensures IsInfix(ws[k], Join(ws))
  {
    if |ws| == 1 {
      assert InfixAt(ws[k], Join(ws), 0);
    } else if k == 0 {
      assert Join(ws) == ws[0] + (" " + Join(ws[1..]));
      assert Join(ws)[0..|ws[0]|] == ws[0];
      assert InfixAt(ws[0], Join(ws), 0);
    } else {
      JoinHasWord(ws[1..], k - 1);
      var rest := Join(ws[1..]);
      var p :| InfixAt(ws[k], rest, p);
      var q := |ws[0]| + 1 + p;
      assert Join(ws) == (ws[0] + " ") + rest;
      assert Join(ws)[q..q + |ws[k]|] == rest[p..p + |ws[k]|];
      assert InfixAt(ws[k], Join(ws), q);
    }
  }

  /** ASCII lower-casing of one character. */
  function LowerChar(c: char): char {
    if 'A' <= c <= 'Z' then (c as int - 'A' as int + 'a' as int) as char else c
  }

  predicate IsLowerChar(c: char) {
    !('A' <= c <= 'Z')
  }

  /** No upper-case letter anywhere in `s`. */
  predicate IsLower(s: string) {
    forall i :: 0 <= i < |s| ==> IsLowerChar(s[i])
  }

  /** `s.lower()` on ASCII text. */
  function Lower(s: string): (r: string)
    ensures |r| == |s|
    ensures IsLower(r)
  {
    if |s| == 0 then "" else [LowerChar(s[0])] + Lower(s[1..])
  }

  /** Lower-casing leaves lower-case text as it is, so it is idempotent. */
  lemma {:induction false} LowerKeepsLower(s: string)
    requires IsLower(s)
    ensures Lower(s) == s
  {
    if |s| > 0 {
      assert IsLower(s[1..]) by {
        forall i | 0 <= i < |s[1..]| ensures IsLowerChar(s[1..][i]) {
          assert s[1..][i] == s[i + 1];
        }
      }
      LowerKeepsLower(s[1..]);
      assert IsLowerChar(s[0]);
    }
  }

  lemma LowerIdempotent(s: string)
    ensures Lower(Lower(s)) == Lower(s)
  {
    LowerKeepsLower(Lower(s));
  }

  /** Two texts that differ only in the case of ASCII letters lower-case alike. */
  lemma {:induction false} LowerIgnoresCase(a: string, b: string)
    requires |a| == |b|
    requires forall i :: 0 <= i < |a| ==> LowerChar(a[i]) == LowerChar(b[i])
    ensures Lower(a) == Lower(b)
  {
    if |a| > 0 {
      LowerIgnoresCase(a[1..], b[1..]);
    }
  }
}
