/**
 * The few Python `str` operations the support system relies on:
 * `lower`, `upper`, `strip`, `split()`, `sub in s`, `startswith`,
 * `replace(pat, "")` and `sep.join(parts)`.
 *
 * Case mapping covers ASCII letters only; whitespace is the set that
 * Python's `str.isspace` accepts.
 */
module Text {

  /** The characters Python's `str.split()` and `str.strip()` treat as whitespace. */
  predicate IsSpace(c: char)
  {
    || c == ' '
    || ('\t' <= c <= '\r')
    || ('\U{1c}' <= c <= '\U{1f}')
    || c == '\U{85}' || c == '\U{a0}' || c == '\U{1680}'
    || ('\U{2000}' <= c <= '\U{200a}')
    || c == '\U{2028}' || c == '\U{2029}' || c == '\U{202f}'
    || c == '\U{205f}' || c == '\U{3000}'
  }

  function LowerChar(c: char): char
  {
    if 'A' <= c <= 'Z' then (c as int + 32) as char else c
  }

  function UpperChar(c: char): char
  {
    if 'a' <= c <= 'z' then (c as int - 32) as char else c
  }

  /** `s.lower()` */
  function Lower(s: string): (r: string)
    ensures |r| == |s|
  {
    if s == [] then [] else [LowerChar(s[0])] + Lower(s[1..])
  }

  /** `s.upper()` */
  function Upper(s: string): (r: string)
    ensures |r| == |s|
  {
    if s == [] then [] else [UpperChar(s[0])] + Upper(s[1..])
  }

  lemma {:induction false} UpperAt(s: string, i: nat)
    requires i < |s|
    ensures Upper(s)[i] == UpperChar(s[i])
  {
    if i > 0 {
      UpperAt(s[1..], i - 1);
    }
  }

  lemma {:induction false} LowerAt(s: string, i: nat)
    requires i < |s|
    ensures Lower(s)[i] == LowerChar(s[i])
  {
    if i > 0 {
      LowerAt(s[1..], i - 1);
    }
  }

  /** `sub` is spelled by the window of `s` that starts at `i`. */
  predicate OccursAt(s: string, sub: string, i: int)
  {
    0 <= i && i + |sub| <= |s| && s[i..i + |sub|] == sub
  }

  /** `sub in s` (the empty string is in every string). */
  function Contains(s: string, sub: string): bool
    decreases |s|
  {
    if |sub| > |s| then false
    else sub <= s || Contains(s[1..], sub)
  }

  /** `sub in s` holds exactly when some window of `s` spells `sub`. */
  lemma {:induction false} ContainsIff(s: string, sub: string)
    ensures Contains(s, sub) <==> exists i :: OccursAt(s, sub, i)
    decreases |s|
  {
    if |sub| <= |s| {
      if sub <= s {
        assert OccursAt(s, sub, 0);
      } else {
        ContainsIff(s[1..], sub);
        if i :| OccursAt(s, sub, i) {
          assert i > 0;
          assert s[1..][i - 1..i - 1 + |sub|] == s[i..i + |sub|];
          assert OccursAt(s[1..], sub, i - 1);
        }
        if i :| OccursAt(s[1..], sub, i) {
          assert s[1..][i..i + |sub|] == s[i + 1..i + 1 + |sub|];
          assert OccursAt(s, sub, i + 1);
        }
      }
    } else {
      if i :| OccursAt(s, sub, i) {
        assert false;
      }
    }
  }

  lemma ContainsMiddle(a: string, b: string, c: string)
    ensures Contains(a + b + c, b)
  {
    assert (a + b + c)[|a|..|a| + |b|] == b;
    assert OccursAt(a + b + c, b, |a|);
    ContainsIff(a + b + c, b);
  }
  /** The second and fourth of five concatenated pieces occur in the whole. */
  lemma ContainsInFive(p1: string, p2: string, p3: string, p4: string, p5: string)
    ensures Contains(p1 + p2 + p3 + p4 + p5, p2)
    ensures Contains(p1 + p2 + p3 + p4 + p5, p4)
  {
    assert p1 + p2 + p3 + p4 + p5 == p1 + p2 + (p3 + p4 + p5);
    ContainsMiddle(p1, p2, p3 + p4 + p5);
    ContainsMiddle(p1 + p2 + p3, p4, p5);
  }

  /** The second and fourth of seven concatenated pieces occur in the whole. */
  lemma ContainsInSeven(p1: string, p2: string, p3: string, p4: string, p5: string, p6: string, p7: string)
    ensures Contains(p1 + p2 + p3 + p4 + p5 + p6 + p7, p2)
    ensures Contains(p1 + p2 + p3 + p4 + p5 + p6 + p7, p4)
  {
    assert p1 + p2 + p3 + p4 + p5 + p6 + p7 == p1 + p2 + p3 + p4 + (p5 + p6 + p7);
    ContainsInFive(p1, p2, p3, p4, p5 + p6 + p7);
  }

  /** The even-numbered pieces of eleven concatenated pieces occur in the whole. */
  lemma ContainsInEleven(p1: string, p2: string, p3: string, p4: string, p5: string, p6: string,
                         p7: string, p8: string, p9: string, p10: string, p11: string)
    ensures var w := p1 + p2 + p3 + p4 + p5 + p6 + p7 + p8 + p9 + p10 + p11;
      Contains(w, p2) && Contains(w, p4) && Contains(w, p6) && Contains(w, p8) && Contains(w, p10)
  {
    var w := p1 + p2 + p3 + p4 + p5 + p6 + p7 + p8 + p9 + p10 + p11;
    assert w == p1 + p2 + (p3 + p4 + p5 + p6 + p7 + p8 + p9 + p10 + p11);
    ContainsMiddle(p1, p2, p3 + p4 + p5 + p6 + p7 + p8 + p9 + p10 + p11);
    assert w == (p1 + p2 + p3) + p4 + (p5 + p6 + p7 + p8 + p9 + p10 + p11);
    ContainsMiddle(p1 + p2 + p3, p4, p5 + p6 + p7 + p8 + p9 + p10 + p11);
    assert w == (p1 + p2 + p3 + p4 + p5) + p6 + (p7 + p8 + p9 + p10 + p11);
    ContainsMiddle(p1 + p2 + p3 + p4 + p5, p6, p7 + p8 + p9 + p10 + p11);
    assert w == (p1 + p2 + p3 + p4 + p5 + p6 + p7) + p8 + (p9 + p10 + p11);
    ContainsMiddle(p1 + p2 + p3 + p4 + p5 + p6 + p7, p8, p9 + p10 + p11);
    ContainsMiddle(p1 + p2 + p3 + p4 + p5 + p6 + p7 + p8 + p9, p10, p11);
  }



  /** `s.lstrip()`: the suffix left after dropping leading whitespace. */
  function StripLeft(s: string): (r: string)
    ensures |r| <= |s|
  {
    if s != [] && IsSpace(s[0]) then StripLeft(s[1..]) else s
  }

  lemma {:induction false} StripLeftShape(s: string)
    ensures var r := StripLeft(s);
      && r == s[|s| - |r|..]
      && (forall k :: 0 <= k < |s| - |r| ==> IsSpace(s[k]))
      && (r == [] || !IsSpace(r[0]))
  {
    if s != [] && IsSpace(s[0]) {
      StripLeftShape(s[1..]);
    }
  }

  /** `s.rstrip()`: the prefix left after dropping trailing whitespace. */
  function StripRight(s: string): (r: string)
    ensures |r| <= |s|
  {
    if s != [] && IsSpace(s[|s| - 1]) then StripRight(s[..|s| - 1]) else s
  }

  lemma {:induction false} StripRightShape(s: string)
    ensures var r := StripRight(s);
      && r == s[..|r|]
      && (forall k :: |r| <= k < |s| ==> IsSpace(s[k]))
      && (r == [] || !IsSpace(r[|r| - 1]))
  {
    if s != [] && IsSpace(s[|s| - 1]) {
      StripRightShape(s[..|s| - 1]);
    }
  }

  /** `s.strip()` */
  function Strip(s: string): (r: string)
  {
    StripRight(StripLeft(s))
  }

  /** `strip` keeps a contiguous window of the text, starting where `lstrip` stopped. */
  lemma StripWindow(s: string)
    ensures var r, a := Strip(s), |s| - |StripLeft(s)|;
      a + |r| <= |s| && s[a..a + |r|] == r
  {
    var l := StripLeft(s);
    var r := StripRight(l);
    var a := |s| - |l|;
    StripLeftShape(s);
    StripRightShape(l);
    assert r == l[..|r|] && l == s[a..];
  }

  /** What `strip` removes is whitespace, and what it keeps neither starts nor ends with any. */
  lemma StripShape(s: string)
    ensures var r, a := Strip(s), |s| - |StripLeft(s)|;
      && a + |r| <= |s| && s[a..a + |r|] == r
      && (forall k :: 0 <= k < a ==> IsSpace(s[k]))
      && (forall k :: a + |r| <= k < |s| ==> IsSpace(s[k]))
      && (r == [] || (!IsSpace(r[0]) && !IsSpace(r[|r| - 1])))
  {
    var l := StripLeft(s);
    var r := StripRight(l);
    var a := |s| - |l|;
    StripWindow(s);
    StripLeftShape(s);
    StripRightShape(l);
    forall k | a + |r| <= k < |s|
      ensures IsSpace(s[k])
    {
      assert s[k] == l[k - a];
    }
    if r != [] {
      assert r[0] == l[0];
    }
  }

  /** Stripping twice is stripping once. */
  lemma StripIdempotent(s: string)
    ensures Strip(Strip(s)) == Strip(s)
  {
    StripShape(s);
    var r := Strip(s);
    if r != [] {
      assert StripLeft(r) == r;
      assert StripRight(r) == r;
    }
  }

  /** Length of the leading run of non-whitespace characters of `t`. */
  function WordEnd(t: string): (k: nat)
    ensures k <= |t|
    ensures t != [] && !IsSpace(t[0]) ==> k >= 1
  {
    if t == [] || IsSpace(t[0]) then 0 else 1 + WordEnd(t[1..])
  }

  /** `s.split()`: the maximal runs of non-whitespace characters, in order. */
  function Words(s: string): (ws: seq<string>)
    decreases |s|
  {
    if s == [] then []
    else if IsSpace(s[0]) then Words(s[1..])
    else
      var k := WordEnd(s);
      [s[..k]] + Words(s[k..])
  }

  /** The leading run stops at the first whitespace character, or at the end. */
  lemma {:induction false} WordEndSpec(t: string)
    ensures forall k :: 0 <= k < WordEnd(t) ==> !IsSpace(t[k])
    ensures WordEnd(t) < |t| ==> IsSpace(t[WordEnd(t)])
  {
    if t != [] && !IsSpace(t[0]) {
      WordEndSpec(t[1..]);
    }
  }

  /** What occurs in a suffix of `s` occurs in `s`. */
  lemma ContainsInSuffix(s: string, k: nat, w: string)
    requires k <= |s| && Contains(s[k..], w)
    ensures Contains(s, w)
  {
    ContainsIff(s[k..], w);
    var j :| OccursAt(s[k..], w, j);
    assert s[k + j..k + j + |w|] == s[k..][j..j + |w|];
    assert OccursAt(s, w, k + j);
    ContainsIff(s, w);
  }

  /** Every word of `s.split()` is a non-empty run of non-whitespace characters occurring in `s`. */
  lemma {:induction false} WordsSpec(s: string)
    ensures forall i :: 0 <= i < |Words(s)| ==>
      && Words(s)[i] != []
      && (forall k :: 0 <= k < |Words(s)[i]| ==> !IsSpace(Words(s)[i][k]))
      && Contains(s, Words(s)[i])
    decreases |s|
  {
    if s == [] {
    } else if IsSpace(s[0]) {
      WordsSpec(s[1..]);
      assert Words(s) == Words(s[1..]);
      forall i | 0 <= i < |Words(s)|
        ensures Contains(s, Words(s)[i])
      {
        assert Contains(s[1..], Words(s[1..])[i]);
        ContainsInSuffix(s, 1, Words(s)[i]);
      }
    } else {
      var k := WordEnd(s);
      WordEndSpec(s);
      WordsSpec(s[k..]);
      var ws := Words(s);
      assert ws == [s[..k]] + Words(s[k..]);
      forall i | 0 <= i < |ws|
        ensures ws[i] != [] && (forall m :: 0 <= m < |ws[i]| ==> !IsSpace(ws[i][m])) && Contains(s, ws[i])
      {
        if i == 0 {
          assert OccursAt(s, ws[0], 0);
          ContainsIff(s, ws[0]);
        } else {
          assert ws[i] == Words(s[k..])[i - 1];
          ContainsInSuffix(s, k, ws[i]);
        }
      }
    }
  }

  /** `set(ws)` */
  function SetOf(ws: seq<string>): (r: set<string>)
  {
    if ws == [] then {} else SetOf(ws[..|ws| - 1]) + {ws[|ws| - 1]}
  }

  /** `set(ws)` holds exactly the elements of `ws`. */
  lemma {:induction false} SetOfIff(ws: seq<string>, x: string)
    ensures x in SetOf(ws) <==> x in ws
    decreases |ws|
  {
    if ws != [] {
      SetOfIff(ws[..|ws| - 1], x);
      assert ws == ws[..|ws| - 1] + [ws[|ws| - 1]];
    }
  }

  /** `set(s.split())` */
  function WordSet(s: string): set<string>
  {
    SetOf(Words(s))
  }

  /** `s.replace(pat, "")`: every non-overlapping occurrence, scanned left to right, removed. */
  function RemoveAll(s: string, pat: string): (r: string)
    requires pat != []
    ensures |r| <= |s|
    ensures !Contains(s, pat) ==> r == s
    decreases |s|
  {
    if |s| < |pat| then s
    else if pat <= s then
      RemoveAll(s[|pat|..], pat)
    else
      [s[0]] + RemoveAll(s[1..], pat)
  }

  /** A text that starts with the pattern loses that occurrence. */
  lemma RemoveAllLeading(pat: string, rest: string)
    requires pat != []
    ensures RemoveAll(pat + rest, pat) == RemoveAll(rest, pat)
  {
    assert (pat + rest)[|pat|..] == rest;
  }

  /** `sep.join(parts)` */
  function Join(sep: string, parts: seq<string>): (r: string)
    decreases |parts|
  {
    if |parts| == 0 then ""
    else if |parts| == 1 then parts[0]
    else Join(sep, parts[..|parts| - 1]) + sep + parts[|parts| - 1]
  }

  /** Joining non-empty parts yields the empty string exactly when there are no parts. */
  lemma {:induction false} JoinEmptyIff(sep: string, parts: seq<string>)
    requires forall i :: 0 <= i < |parts| ==> parts[i] != []
    ensures Join(sep, parts) == "" <==> parts == []
  {
    if |parts| > 1 {
      assert |Join(sep, parts)| >= |parts[|parts| - 1]| > 0;
    }
  }
}
