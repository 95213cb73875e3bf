/** Searching and trimming text, as Go's strings package does it. */
module Text {

  predicate FirstAt(s: string, c: char, i: int) {
    0 <= i < |s| && s[i] == c && forall k | 0 <= k < i :: s[k] != c
  }

  lemma {:induction false} SomeFirst(s: string, c: char)
    requires c in s
    ensures exists i :: FirstAt(s, c, i)
    decreases |s|
  {
    var m := |s| - 1;
    if c in s[..m] {
      SomeFirst(s[..m], c);
      var i :| FirstAt(s[..m], c, i);
      assert FirstAt(s, c, i);
    } else {
      assert FirstAt(s, c, m);
    }
  }

  /** Where c first stands in s, or -1. */
  function IndexOf(s: string, c: char): (i: int)
    ensures if c in s then FirstAt(s, c, i) else i == -1
  {
    if c !in s then -1
    else
      SomeFirst(s, c);
      assert forall i, j | FirstAt(s, c, i) && FirstAt(s, c, j) :: !(i < j);
      var i :| 0 <= i < |s| && FirstAt(s, c, i);
      i
  }

  lemma {:induction false} IndexIs(s: string, c: char, i: nat)
    requires FirstAt(s, c, i)
    ensures IndexOf(s, c) == i
  {
    var k := IndexOf(s, c);
    assert !(i < k) && !(k < i);
  }

  /** Unicode white space, as strings.TrimSpace knows it. */
  predicate IsSpace(c: char) {
    || '\t' <= c <= '\r' || c == ' ' || c == '\U{85}' || c == '\U{A0}'
    || c == '\U{1680}' || '\U{2000}' <= c <= '\U{200A}' || c == '\U{2028}' || c == '\U{2029}'
    || c == '\U{202F}' || c == '\U{205F}' || c == '\U{3000}'
  }

  /** Drops a front, all of whose characters are cut. */
  function TrimLeft(s: string, cut: char -> bool): (t: string)
    ensures |t| <= |s| && t == s[|s| - |t|..] && forall i | 0 <= i < |s| - |t| :: cut(s[i])
    ensures t != "" ==> !cut(t[0])
  {
    s[Leading(s, cut, 0)..]
  }

  /** The end of the run of cut characters that starts at `from`. */
  function Leading(s: string, cut: char -> bool, from: nat): (n: nat)
    requires from <= |s|
    ensures from <= n <= |s| && (forall i | from <= i < n :: cut(s[i])) && (n < |s| ==> !cut(s[n]))
    decreases |s| - from
  {
    if from < |s| && cut(s[from]) then Leading(s, cut, from + 1) else from
  }

  /** Drops a tail, all of whose characters are cut. */
  function TrimRight(s: string, cut: char -> bool): (t: string)
    ensures t <= s && forall i | |t| <= i < |s| :: cut(s[i])
    ensures t != "" ==> !cut(t[|t| - 1])
  {
    if s != "" && cut(s[|s| - 1]) then TrimRight(s[..|s| - 1], cut) else s
  }

  function TrimSpace(s: string): string {
    TrimRight(TrimLeft(s, IsSpace), IsSpace)
  }

  lemma {:induction false} NothingToTrim(s: string, cut: char -> bool)
    requires s != "" && !cut(s[0])
    ensures TrimLeft(s, cut) == s
  {
    TrimLeftIs("", s, cut);
    assert "" + s == s;
  }

  lemma {:induction false} TrimLeftIs(left: string, t: string, cut: char -> bool)
    requires forall c | c in left :: cut(c)
    requires t != "" && !cut(t[0])
    ensures TrimLeft(left + t, cut) == t
  {
    hide TrimLeft;
    var s := left + t;
    var r := TrimLeft(s, cut);
    assert s[|left|] == t[0];
    assert forall i | 0 <= i < |left| :: s[i] == left[i] && left[i] in left;
    assert s[|left|..] == t;
  }

  lemma {:induction false} TrimRightIs(t: string, right: string, cut: char -> bool)
    requires forall c | c in right :: cut(c)
    requires t != "" && !cut(t[|t| - 1])
    ensures TrimRight(t + right, cut) == t
  {
    hide TrimRight;
    var s := t + right;
    var r := TrimRight(s, cut);
    assert s[|t| - 1] == t[|t| - 1];
    assert forall i | |t| <= i < |s| :: s[i] == right[i - |t|] && right[i - |t|] in right;
    assert s[..|t|] == t;
  }

  /** Trimming removes the white space around a text that has none at its ends. */
  lemma {:induction false} TrimSpaceOfPadded(left: string, s: string, right: string)
    requires forall c | c in left || c in right :: IsSpace(c)
    requires s != "" && !IsSpace(s[0]) && !IsSpace(s[|s| - 1])
    ensures TrimSpace(left + s + right) == s
  {
    hide IsSpace, TrimLeft, TrimRight;
    assert left + s + right == left + (s + right) && (s + right)[0] == s[0];
    TrimLeftIs(left, s + right, IsSpace);
    TrimRightIs(s, right, IsSpace);
  }

  lemma {:induction false} TrimRightKeepsTheFirst(s: string, cut: char -> bool)
    requires s != "" && !cut(s[0])
    ensures TrimRight(s, cut) != "" && TrimRight(s, cut)[0] == s[0]
  {
    assert TrimRight(s, cut) <= s;
    assert forall i | |TrimRight(s, cut)| <= i < |s| :: cut(s[i]);
  }
}
