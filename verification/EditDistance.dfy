/**
 Edit distance (pkg/yxc/validate.go). The reference is the cheapest edit script;
 `Dist` is the textbook recurrence; `Levenshtein` is the code's two rolling rows.
*/
module EditDistance {

  /** One step of a script, reading the source left to right. */
  datatype Edit = Keep(c: char) | Substitute(from: char, to: char) | Delete(c: char) | Insert(c: char)

  /** A script grows at its end. */
  datatype Script = Nil | Then(front: Script, last: Edit)

  function Source(s: Script): string {
    match s
    case Nil => ""
    case Then(front, Insert(_)) => Source(front)
    case Then(front, Keep(c)) => Source(front) + [c]
    case Then(front, Substitute(c, _)) => Source(front) + [c]
    case Then(front, Delete(c)) => Source(front) + [c]
  }

  function Target(s: Script): string {
    match s
    case Nil => ""
    case Then(front, Delete(_)) => Target(front)
    case Then(front, Keep(c)) => Target(front) + [c]
    case Then(front, Substitute(_, c)) => Target(front) + [c]
    case Then(front, Insert(c)) => Target(front) + [c]
  }

  function Cost(s: Script): nat {
    match s
    case Nil => 0
    case Then(front, e) => Cost(front) + if e.Keep? then 0 else 1
  }

  /** s turns a into b. */
  predicate Edits(s: Script, a: string, b: string) {
    Source(s) == a && Target(s) == b
  }

  function Min3(a: int, b: int, c: int): int {
    var m := if b < a then b else a;
    if c < m then c else m
  }

  /** The textbook table: entry (i, j) is about the first i characters of a and
      the first j of b. */
  function Cell(a: string, b: string, i: nat, j: nat): int
    requires i <= |a| && j <= |b|
  {
    if i == 0 then j
    else if j == 0 then i
    else
      Min3(
        Cell(a, b, i - 1, j) + 1,
        Cell(a, b, i, j - 1) + 1,
        Cell(a, b, i - 1, j - 1) + if a[i - 1] == b[j - 1] then 0 else 1)
  }

  function Dist(a: string, b: string): int {
    Cell(a, b, |a|, |b|)
  }

  // ----- the distance is the cheapest script ----------------------------------

  /** The edit that turns one character into another. */
  function Move(from: char, to: char): Edit {
    if from == to then Keep(from) else Substitute(from, to)
  }

  function CheapestScript(a: string, b: string, i: nat, j: nat): (s: Script)
    requires i <= |a| && j <= |b|
    ensures Edits(s, a[..i], b[..j]) && Cost(s) == Cell(a, b, i, j)
  {
    assert i > 0 ==> a[..i] == a[..i - 1] + [a[i - 1]];
    assert j > 0 ==> b[..j] == b[..j - 1] + [b[j - 1]];
    if i == 0 then
      if j == 0 then Nil else Then(CheapestScript(a, b, i, j - 1), Insert(b[j - 1]))
    else if j == 0 then Then(CheapestScript(a, b, i - 1, j), Delete(a[i - 1]))
    else
      CheaperOf(
        CheaperOf(
          Then(CheapestScript(a, b, i - 1, j), Delete(a[i - 1])),
          Then(CheapestScript(a, b, i, j - 1), Insert(b[j - 1]))),
        Then(CheapestScript(a, b, i - 1, j - 1), Move(a[i - 1], b[j - 1])))
  }

  function CheaperOf(s: Script, t: Script): Script {
    if Cost(t) < Cost(s) then t else s
  }

  function Cheapest(a: string, b: string): (s: Script)
    ensures Edits(s, a, b) && Cost(s) == Dist(a, b)
  {
    assert a[..|a|] == a && b[..|b|] == b;
    CheapestScript(a, b, |a|, |b|)
  }

  /** No script between two prefixes beats their entry of the table. */
  lemma {:induction false} EntryIsMinimal(s: Script, a: string, b: string, i: nat, j: nat)
    requires i <= |a| && j <= |b| && Edits(s, a[..i], b[..j])
    ensures Cell(a, b, i, j) <= Cost(s)
  {
    if s.Then? {
      var i' := if s.last.Insert? then i else i - 1;
      var j' := if s.last.Delete? then j else j - 1;
      assert Source(s.front) == a[..i'] && Target(s.front) == b[..j'] by {
        if !s.last.Insert? { assert a[..i] == a[..i - 1] + [a[i - 1]]; }
        if !s.last.Delete? { assert b[..j] == b[..j - 1] + [b[j - 1]]; }
      }
      EntryIsMinimal(s.front, a, b, i', j');
    }
  }

  lemma {:induction false} NoScriptIsCheaper(s: Script)
    ensures Dist(Source(s), Target(s)) <= Cost(s)
  {
    var a, b := Source(s), Target(s);
    assert a[..|a|] == a && b[..|b|] == b;
    EntryIsMinimal(s, a, b, |a|, |b|);
  }

  /** Dist(a, b) is the cost of a cheapest script from a to b. */
  lemma {:induction false} DistIsMinimal(a: string, b: string)
    ensures exists s :: Edits(s, a, b) && Cost(s) == Dist(a, b)
    ensures forall s :: Edits(s, a, b) ==> Dist(a, b) <= Cost(s)
  {
    var s := Cheapest(a, b);
    forall t | Edits(t, a, b) ensures Dist(a, b) <= Cost(t) {
      NoScriptIsCheaper(t);
    }
  }

  // ----- the distance is a metric ---------------------------------------------

  function Undo(s: Script): (t: Script)
    ensures Source(t) == Target(s) && Target(t) == Source(s) && Cost(t) == Cost(s)
  {
    match s
    case Nil => Nil
    case Then(front, Keep(c)) => Then(Undo(front), Keep(c))
    case Then(front, Substitute(c, d)) => Then(Undo(front), Substitute(d, c))
    case Then(front, Delete(c)) => Then(Undo(front), Insert(c))
    case Then(front, Insert(c)) => Then(Undo(front), Delete(c))
  }

  lemma {:induction false} Symmetric(a: string, b: string)
    ensures Dist(a, b) == Dist(b, a)
  {
    NoScriptIsCheaper(Undo(Cheapest(a, b)));
    NoScriptIsCheaper(Undo(Cheapest(b, a)));
  }

  lemma {:induction false} FreeScriptsKeep(s: Script)
    requires Cost(s) == 0
    ensures Source(s) == Target(s)
  {
    if s.Then? { FreeScriptsKeep(s.front); }
  }

  function KeepAll(a: string): (s: Script)
    ensures Edits(s, a, a) && Cost(s) == 0
  {
    if a == "" then Nil else
      assert a == a[..|a| - 1] + [a[|a| - 1]];
      Then(KeepAll(a[..|a| - 1]), Keep(a[|a| - 1]))
  }

  lemma {:induction false} ZeroOnlyOnEqual(a: string, b: string)
    ensures Dist(a, b) == 0 <==> a == b
  {
    var s := Cheapest(a, b);
    if a == b { NoScriptIsCheaper(KeepAll(a)); }
    if Dist(a, b) == 0 { FreeScriptsKeep(Cheapest(a, b)); }
  }

  function Reads(e: Edit): char
    requires !e.Insert?
  {
    if e.Substitute? then e.from else e.c
  }

  function Writes(e: Edit): char
    requires !e.Delete?
  {
    if e.Substitute? then e.to else e.c
  }

  /** s, then t, as one script that costs no more than both. */
  function Compose(s: Script, t: Script): (r: Script)
    requires Target(s) == Source(t)
    ensures Source(r) == Source(s) && Target(r) == Target(t)
    ensures Cost(r) <= Cost(s) + Cost(t)
    decreases s, t
  {
    if s.Then? && s.last.Delete? then Then(Compose(s.front, t), s.last)
    else if t.Then? && t.last.Insert? then Then(Compose(s, t.front), t.last)
    else if s.Nil? then Nil
    else
      assert Target(s) == Target(s.front) + [Writes(s.last)];
      assert t.Then?;
      assert Source(t) == Source(t.front) + [Reads(t.last)];
      assert Target(s.front) == Target(s)[..|Target(s)| - 1] == Source(t.front);
      var r := Compose(s.front, t.front);
      if s.last.Insert? && t.last.Delete? then r
      else if s.last.Insert? then Then(r, Insert(Writes(t.last)))
      else if t.last.Delete? then Then(r, Delete(Reads(s.last)))
      else Then(r, Move(Reads(s.last), Writes(t.last)))
  }

  lemma {:induction false} Triangle(a: string, b: string, c: string)
    ensures Dist(a, c) <= Dist(a, b) + Dist(b, c)
  {
    NoScriptIsCheaper(Compose(Cheapest(a, b), Cheapest(b, c)));
  }

  // ----- the rolling rows -----------------------------------------------------

  /** Two rows, overwritten in turn and swapped, the shorter word across. */
  method Levenshtein(a: string, b: string) returns (d: int)
    ensures d == Dist(a, b)
  {
    var ar, br := a, b;
    if |ar| < |br| {
      ar, br := br, ar;
      Symmetric(a, b);
    }
    if |br| == 0 {
      return |ar|;
    }
    var prev := new int[|br| + 1];
    var curr := new int[|br| + 1];
    for j := 0 to |br| + 1
      invariant forall k | 0 <= k < j :: prev[k] == k
    {
      prev[j] := j;
    }
    for i := 1 to |ar| + 1
      invariant prev != curr && prev.Length == curr.Length == |br| + 1
      invariant fresh(prev) && fresh(curr)
      invariant forall k {:trigger prev[k]} | 0 <= k <= |br| :: prev[k] == Cell(ar, br, i - 1, k)
    {
      curr[0] := i;
      for j := 1 to |br| + 1
        invariant forall k {:trigger curr[k]} | 0 <= k < j :: curr[k] == Cell(ar, br, i, k)
        modifies curr
      {
        var cost := 1;
        if ar[i - 1] == br[j - 1] {
          cost := 0;
        }
        var del, ins, sub := prev[j] + 1, curr[j - 1] + 1, prev[j - 1] + cost;
        assert Cell(ar, br, i, j) == Min3(del, ins, sub);
        curr[j] := Min3(del, ins, sub);
      }
      prev, curr := curr, prev;
    }
    return prev[|br|];
  }
}
