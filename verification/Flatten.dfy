/**
 Flattening a JSON object into dot-paths (internal/cli/watch.go), and when that
 loses nothing.

 Go visits the keys of a map in any order, so the loop takes the keys in any order.
 A leaf is anything that is not an object; it is kept as its text.
*/
module Flatten {

  datatype Json = Object(fields: map<string, Json>) | Leaf(text: string)

  type Path = seq<string>

  /** The key paths that lead to a leaf. */
  function Paths(t: Json): set<Path> {
    match t
    case Leaf(_) => {[]}
    case Object(f) => set k, q | k in f && q in Paths(f[k]) :: [k] + q
  }

  function TextAt(t: Json, q: Path): string
    requires q in Paths(t)
  {
    match t
    case Leaf(text) => text
    case Object(f) =>
      PathsDescend(t, q);
      TextAt(f[q[0]], q[1..])
  }

  lemma {:induction false} PathsDescend(t: Json, q: Path)
    requires t.Object?
    ensures q in Paths(t) <==> q != [] && q[0] in t.fields && q[1..] in Paths(t.fields[q[0]])
  {
    if q in Paths(t) {
      var k, r :| k in t.fields && r in Paths(t.fields[k]) && q == [k] + r;
      assert q[1..] == r;
    } else if q != [] {
      assert q == [q[0]] + q[1..];
    }
  }

  // ----- names ----------------------------------------------------------------

  function Under(prefix: string, key: string): string {
    if prefix == "" then key else prefix + "." + key
  }

  /** The name under which a leaf is stored. */
  function Name(prefix: string, q: Path): string
    decreases |q|
  {
    if q != [] then Name(Under(prefix, q[0]), q[1..])
    else if prefix == "" then "value"
    else prefix
  }

  /** Some leaf of t goes by this name, and this is its text. */
  ghost predicate Names(t: Json, prefix: string, name: string, text: string) {
    exists q :: q in Paths(t) && Name(prefix, q) == name && TextAt(t, q) == text
  }

  ghost predicate IsName(t: Json, prefix: string, name: string) {
    exists q :: q in Paths(t) && Name(prefix, q) == name
  }

  /** What flattening t into `before` may leave: every leaf is there under its name,
      where leaves share a name one of them wins, and nothing else changes. */
  ghost predicate FlattensInto(t: Json, prefix: string, before: map<string, string>, after: map<string, string>) {
    forall name :: Entry(t, prefix, before, after, name)
  }

  ghost predicate Entry(t: Json, prefix: string, before: map<string, string>, after: map<string, string>, name: string)
  {
    if IsName(t, prefix, name) then name in after && Names(t, prefix, name, after[name])
    else (name in after <==> name in before) && (name in before ==> after[name] == before[name])
  }

  class Flattener {
    var dst: map<string, string>

    constructor ()
      ensures dst == map[]
    {
      dst := map[];
    }

    method FlattenInto(prefix: string, v: Json)
      modifies this
      ensures FlattensInto(v, prefix, old(dst), dst)
      decreases v
    {
      match v {
        case Leaf(text) =>
          if prefix == "" {
            dst := dst["value" := text];
          } else {
            dst := dst[prefix := text];
          }
          assert forall name :: IsName(v, prefix, name) <==> name == Name(prefix, []);
          assert TextAt(v, []) == text;
        case Object(fields) =>
          var keys := fields.Keys;
          ghost var seen: map<string, Json> := map[];
          assert FlattensInto(Object(seen), prefix, old(dst), dst);
          while keys != {}
            invariant seen.Keys == fields.Keys - keys && keys <= fields.Keys
            invariant forall k | k in seen :: seen[k] == fields[k]
            invariant FlattensInto(Object(seen), prefix, old(dst), dst)
          {
            ghost var before := dst;
            var k :| k in keys;
            FlattenInto(Under(prefix, k), fields[k]);
            OneMoreKey(seen, k, fields[k], prefix, old(dst), before, dst);
            keys := keys - {k};
            seen := seen[k := fields[k]];
          }
          assert seen == fields;
      }
    }
  }

  lemma {:induction false} OneMoreKey(seen: map<string, Json>, k: string, sub: Json, prefix: string,
                   start: map<string, string>, before: map<string, string>, after: map<string, string>)
    requires k !in seen
    requires FlattensInto(Object(seen), prefix, start, before)
    requires FlattensInto(sub, Under(prefix, k), before, after)
    ensures FlattensInto(Object(seen[k := sub]), prefix, start, after)
  {
    var t, t' := Object(seen), Object(seen[k := sub]);
    forall name ensures Entry(t', prefix, start, after, name) {
      assert Entry(t, prefix, start, before, name) && Entry(sub, Under(prefix, k), before, after, name);
      forall text {
        NamesOfOneMore(seen, k, sub, prefix, name, text);
      }
      IsNameOfOneMore(seen, k, sub, prefix, name);
    }
  }

  lemma {:induction false} NamesOfOneMore(seen: map<string, Json>, k: string, sub: Json, prefix: string, name: string,
                                          text: string)
    requires k !in seen
    ensures Names(Object(seen[k := sub]), prefix, name, text)
       <==> Names(Object(seen), prefix, name, text) || Names(sub, Under(prefix, k), name, text)
  {
    var t, t' := Object(seen), Object(seen[k := sub]);
    forall q ensures q in Paths(t) ==> q in Paths(t') && TextAt(t', q) == TextAt(t, q) {
      PathsDescend(t, q);
      PathsDescend(t', q);
    }
    forall r ensures r in Paths(sub) ==>
      && [k] + r in Paths(t') && TextAt(t', [k] + r) == TextAt(sub, r)
      && Name(prefix, [k] + r) == Name(Under(prefix, k), r)
    {
      PathsDescend(t', [k] + r);
      assert ([k] + r)[1..] == r;
    }
    if Names(t', prefix, name, text) {
      var q :| q in Paths(t') && Name(prefix, q) == name && TextAt(t', q) == text;
      PathsDescend(t', q);
      PathsDescend(t, q);
    }
  }

  lemma {:induction false} IsNameOfOneMore(seen: map<string, Json>, k: string, sub: Json, prefix: string, name: string)
    requires k !in seen
    ensures IsName(Object(seen[k := sub]), prefix, name)
       <==> IsName(Object(seen), prefix, name) || IsName(sub, Under(prefix, k), name)
  {
    var t, t' := Object(seen), Object(seen[k := sub]);
    forall q | q in Paths(t') && Name(prefix, q) == name
      ensures IsName(t, prefix, name) || IsName(sub, Under(prefix, k), name)
    {
      NamesOfOneMore(seen, k, sub, prefix, name, TextAt(t', q));
    }
    forall q | q in Paths(t) && Name(prefix, q) == name ensures IsName(t', prefix, name) {
      NamesOfOneMore(seen, k, sub, prefix, name, TextAt(t, q));
    }
    forall q | q in Paths(sub) && Name(Under(prefix, k), q) == name ensures IsName(t', prefix, name) {
      NamesOfOneMore(seen, k, sub, prefix, name, TextAt(sub, q));
    }
  }

  method FlattenForWatch(m: map<string, Json>) returns (out: map<string, string>)
    ensures FlattensInto(Object(m), "", map[], out)
  {
    var f := new Flattener();
    f.FlattenInto("", Object(m));
    return f.dst;
  }

  // ----- dots -----------------------------------------------------------------

  predicate DotFree(q: Path) {
    forall i | 0 <= i < |q| :: '.' !in q[i]
  }

  function Join(q: Path): string
    requires q != []
  {
    if |q| == 1 then q[0] else q[0] + "." + Join(q[1..])
  }

  /** The text between the dots; there is always at least one piece. */
  function Split(s: string): (q: Path)
    ensures q != [] && DotFree(q) && Join(q) == s
  {
    if s == "" then [""]
    else
      var rest := Split(s[1..]);
      if s[0] == '.' then
        assert ([""] + rest)[1..] == rest;
        [""] + rest
      else
        assert ([[s[0]] + rest[0]] + rest[1..])[1..] == rest[1..];
        [[s[0]] + rest[0]] + rest[1..]
  }

  lemma {:induction false} SplitCons(c: char, s: string)
    ensures Split([c] + s) == if c == '.' then [""] + Split(s) else [[c] + Split(s)[0]] + Split(s)[1..]
  {
    assert ([c] + s)[1..] == s;
  }

  lemma {:induction false} SplitOne(key: string)
    requires '.' !in key
    ensures Split(key) == [key]
  {
    if key == "" {
    } else {
      SplitOne(key[1..]);
      assert [key[0]] + key[1..] == key;
    }
  }

  lemma {:induction false} SplitKey(key: string, s: string)
    requires '.' !in key
    ensures Split(key + "." + s) == [key] + Split(s)
  {
    if key == "" {
      SplitCons('.', s);
      assert key + "." + s == ['.'] + s;
    } else {
      var c, rest := key[0], key[1..];
      SplitKey(rest, s);
      SplitCons(c, rest + "." + s);
      assert [c] + rest == key && key + "." + s == [c] + (rest + "." + s);
    }
  }

  lemma {:induction false} SplitInvertsJoin(q: Path)
    requires q != [] && DotFree(q)
    ensures Split(Join(q)) == q
  {
    if |q| == 1 {
      SplitOne(q[0]);
    } else {
      SplitKey(q[0], Join(q[1..]));
      SplitInvertsJoin(q[1..]);
    }
  }

  /** Past its first non-empty key a path is named by joining it with dots. */
  lemma {:induction false} NameJoins(prefix: string, q: Path)
    requires prefix != ""
    ensures Name(prefix, q) == Join([prefix] + q)
    decreases |q|
  {
    if q == [] {
    } else {
      NameJoins(prefix + "." + q[0], q[1..]);
      JoinMerges(prefix, q[0], q[1..]);
      assert [prefix] + q == [prefix, q[0]] + q[1..];
    }
  }

  lemma {:induction false} JoinMerges(a: string, b: string, q: Path)
    ensures Join([a, b] + q) == Join([a + "." + b] + q)
  {
    assert ([a, b] + q)[1..] == [b] + q;
    if q != [] {
      assert ([b] + q)[1..] == q && ([a + "." + b] + q)[1..] == q;
    }
  }

  /** Splitting the name of a leaf gives back its path exactly when no key has a dot
      and the first is not empty. */
  lemma {:induction false} NameSplitsBack(q: Path)
    requires q != []
    ensures Split(Name("", q)) == q <==> DotFree(q) && q[0] != ""
    decreases |q|
  {
    if q[0] != "" {
      NameJoins(q[0], q[1..]);
      assert [q[0]] + q[1..] == q;
      if DotFree(q) {
        SplitInvertsJoin(q);
      }
    } else if DotFree(q) {
      NameNeverStartsEmpty(q);
    }
  }

  lemma {:induction false} NameNeverStartsEmpty(q: Path)
    requires DotFree(q)
    ensures Split(Name("", q))[0] != ""
    decreases |q|
  {
    if q == [] {
      SplitOne("value");
    } else if q[0] == "" {
      NameNeverStartsEmpty(q[1..]);
    } else {
      NameJoins(q[0], q[1..]);
      assert [q[0]] + q[1..] == q;
      SplitInvertsJoin(q);
    }
  }

  // ----- nothing is lost ------------------------------------------------------

  /** All leaves by their key paths. */
  function Leaves(t: Json): map<Path, string> {
    map q | q in Paths(t) :: TextAt(t, q)
  }

  /** A flat map with its keys split at the dots. */
  function SplitKeys(flat: map<string, string>): map<Path, string> {
    map s | s in flat :: Split(s) := flat[s]
  }

  /** No key on the way to a leaf has a dot, and no top-level one is empty. */
  predicate Clean(t: Json) {
    forall q | q in Paths(t) && q != [] :: DotFree(q) && q[0] != ""
  }

  /** Flattening is lossless exactly on clean objects: whatever the order of the keys,
      splitting the names at the dots gives all leaves back, one entry per leaf. */
  lemma {:induction false} LosslessExactlyWhenClean(t: Json, flat: map<string, string>)
    requires t.Object? && FlattensInto(t, "", map[], flat)
    ensures SplitKeys(flat) == Leaves(t) <==> Clean(t)
    ensures Clean(t) ==> forall q | q in Paths(t) :: Join(q) in flat && flat[Join(q)] == TextAt(t, q)
    ensures Clean(t) ==> forall name | name in flat :: Split(name) in Paths(t)
  {
    if Clean(t) {
      CleanIsLossless(t, flat);
    } else if SplitKeys(flat) == Leaves(t) {
      forall q | q in Paths(t) ensures DotFree(q) && q[0] != "" {
        assert q in SplitKeys(flat);
        var name :| name in flat && Split(name) == q;
        assert Entry(t, "", map[], flat, name);
        var r :| r in Paths(t) && Name("", r) == name;
        assert r in SplitKeys(flat);
        PathsDescend(t, r);
        NameNeverStartsEmpty(r);
      }
    }
  }

  lemma {:induction false} CleanIsLossless(t: Json, flat: map<string, string>)
    requires t.Object? && FlattensInto(t, "", map[], flat) && Clean(t)
    ensures SplitKeys(flat) == Leaves(t)
    ensures forall q | q in Paths(t) :: Join(q) in flat && flat[Join(q)] == TextAt(t, q)
    ensures forall name | name in flat :: Split(name) in Paths(t)
  {
    hide Paths, TextAt, Name, Join, Split;
    forall q | q in Paths(t) ensures q != [] && Split(Name("", q)) == q && Name("", q) == Join(q) {
      PathsDescend(t, q);
      NameSplitsBack(q);
    }
    forall name | name in flat ensures Split(name) in Paths(t) && TextAt(t, Split(name)) == flat[name] {
      assert Entry(t, "", map[], flat, name);
    }
    forall q | q in Paths(t) ensures Join(q) in flat && flat[Join(q)] == TextAt(t, q) {
      assert Entry(t, "", map[], flat, Name("", q));
      assert IsName(t, "", Name("", q));
    }
    assert SplitKeys(flat).Keys == Paths(t);
  }

  // ----- rebuilding the tree --------------------------------------------------

  /** The tree without the objects that lead to no leaf. */
  function Prune(t: Json): Json {
    match t
    case Leaf(_) => t
    case Object(f) => Object(map k | k in f && Paths(f[k]) != {} :: Prune(f[k]))
  }

  /** The keys that follow `at` in these leaves. */
  function Heads(leaves: map<Path, string>, at: Path): set<string> {
    set q | q in leaves && at < q :: q[|at|]
  }

  /** The tree at `at` with these leaves, none more than `depth` keys below. */
  function Rebuild(leaves: map<Path, string>, at: Path, depth: nat): Json
    decreases depth
  {
    if at in leaves then Leaf(leaves[at])
    else if depth == 0 then Object(map[])
    else Object(map k | k in Heads(leaves, at) :: Rebuild(leaves, at + [k], depth - 1))
  }

  /** No leaf of t lies more than `depth` keys deep. */
  predicate Within(t: Json, depth: nat) {
    t.Leaf? || forall k | k in t.fields && Paths(t.fields[k]) != {} :: depth > 0 && Within(t.fields[k], depth - 1)
  }

  /** These leaves hold those of t below `at`, and no others there. */
  ghost predicate Carries(leaves: map<Path, string>, at: Path, t: Json) {
    forall q :: LeafMatches(leaves, at, t, q)
  }

  predicate LeafMatches(leaves: map<Path, string>, at: Path, t: Json, q: Path) {
    (q in Paths(t) <==> at + q in leaves) && (q in Paths(t) ==> leaves[at + q] == TextAt(t, q))
  }

  lemma {:induction false} CarriesSubtree(leaves: map<Path, string>, at: Path, t: Json, k: string)
    requires Carries(leaves, at, t) && t.Object? && k in t.fields
    ensures Carries(leaves, at + [k], t.fields[k])
  {
    forall r ensures LeafMatches(leaves, at + [k], t.fields[k], r) {
      assert LeafMatches(leaves, at, t, [k] + r);
      PathsDescend(t, [k] + r);
      assert ([k] + r)[1..] == r;
      assert at + ([k] + r) == at + [k] + r;
    }
  }

  lemma {:induction false} HeadsOf(leaves: map<Path, string>, at: Path, t: Json)
    requires Carries(leaves, at, t) && t.Object?
    ensures Heads(leaves, at) == set k | k in t.fields && Paths(t.fields[k]) != {}
  {
    forall k | k in t.fields && Paths(t.fields[k]) != {} ensures k in Heads(leaves, at) {
      var r :| r in Paths(t.fields[k]);
      PathsDescend(t, [k] + r);
      assert ([k] + r)[1..] == r;
      assert LeafMatches(leaves, at, t, [k] + r);
      assert at < at + ([k] + r) && (at + ([k] + r))[|at|] == k;
    }
    forall k | k in Heads(leaves, at) ensures k in t.fields && Paths(t.fields[k]) != {} {
      var q :| q in leaves && at < q && q[|at|] == k;
      assert at + q[|at|..] == q;
      assert LeafMatches(leaves, at, t, q[|at|..]);
      PathsDescend(t, q[|at|..]);
    }
  }

  /** The tree can be read off its leaves, up to objects that hold none. */
  lemma {:induction false} RebuildInvertsLeaves(leaves: map<Path, string>, at: Path, t: Json, depth: nat)
    requires Carries(leaves, at, t) && Within(t, depth)
    ensures Rebuild(leaves, at, depth) == Prune(t)
    decreases depth, 1
  {
    LeafHere(leaves, at, t);
    if t.Object? {
      HeadsOf(leaves, at, t);
      forall k | k in Heads(leaves, at)
        ensures depth > 0 && Rebuild(leaves, at + [k], depth - 1) == Prune(t.fields[k])
      {
        RebuildInvertsSubtree(leaves, at, t, depth, k);
      }
      RebuiltByKey(leaves, at, depth, Prune(t).fields);
    }
  }

  lemma {:induction false} RebuildInvertsSubtree(leaves: map<Path, string>, at: Path, t: Json, depth: nat, k: string)
    requires Carries(leaves, at, t) && Within(t, depth)
    requires t.Object? && k in t.fields && Paths(t.fields[k]) != {}
    ensures depth > 0 && Rebuild(leaves, at + [k], depth - 1) == Prune(t.fields[k])
    decreases depth, 0
  {
    CarriesSubtree(leaves, at, t, k);
    RebuildInvertsLeaves(leaves, at + [k], t.fields[k], depth - 1);
  }

  lemma {:induction false} LeafHere(leaves: map<Path, string>, at: Path, t: Json)
    requires Carries(leaves, at, t)
    ensures at in leaves <==> t.Leaf?
    ensures t.Leaf? ==> leaves[at] == t.text
  {
    assert LeafMatches(leaves, at, t, []) && at + [] == at;
    if t.Object? {
      PathsDescend(t, []);
    }
  }

  lemma {:induction false} RebuiltByKey(leaves: map<Path, string>, at: Path, depth: nat, fields: map<string, Json>)
    requires at !in leaves && Heads(leaves, at) == fields.Keys
    requires forall k | k in fields :: depth > 0 && Rebuild(leaves, at + [k], depth - 1) == fields[k]
    ensures Rebuild(leaves, at, depth) == Object(fields)
  {
    if depth == 0 {
      assert fields == map[];
    } else {
      var built := map k | k in Heads(leaves, at) :: Rebuild(leaves, at + [k], depth - 1);
      assert built == fields;
    }
  }

  lemma {:induction false} DeeperIsWithin(t: Json, depth: nat, more: nat)
    requires Within(t, depth) && depth <= more
    ensures Within(t, more)
    decreases t
  {
    if t.Leaf? {
    } else {
      forall k | k in t.fields && Paths(t.fields[k]) != {} ensures more > 0 && Within(t.fields[k], more - 1) {
        DeeperIsWithin(t.fields[k], depth - 1, more - 1);
      }
    }
  }

  /** Every tree has a depth. */
  lemma {:induction false} SomeDepth(t: Json) returns (depth: nat)
    ensures Within(t, depth)
    decreases t
  {
    depth := 0;
    if t.Leaf? {
    } else {
      var keys := t.fields.Keys;
      while keys != {}
        invariant keys <= t.fields.Keys
        invariant forall k | k in t.fields.Keys - keys :: depth > 0 && Within(t.fields[k], depth - 1)
      {
        var k :| k in keys;
        var below := SomeDepth(t.fields[k]);
        var enough := if below + 1 < depth then depth else below + 1;
        forall j | j in t.fields.Keys - keys + {k} ensures Within(t.fields[j], enough - 1) {
          DeeperIsWithin(t.fields[j], if j == k then below else depth - 1, enough - 1);
        }
        keys := keys - {k};
        depth := enough;
      }
    }
  }

  /** A clean object is rebuilt from its flat form, at every depth that is enough. */
  lemma {:induction false} RebuiltFromFlatForm(t: Json, flat: map<string, string>, depth: nat)
    requires t.Object? && FlattensInto(t, "", map[], flat) && Clean(t) && Within(t, depth)
    ensures Rebuild(SplitKeys(flat), [], depth) == Prune(t)
  {
    CleanIsLossless(t, flat);
    forall q ensures LeafMatches(Leaves(t), [], t, q) {
      assert [] + q == q;
    }
    RebuildInvertsLeaves(Leaves(t), [], t, depth);
  }

  lemma {:induction false} PruneKeepsLeaves(t: Json)
    ensures Paths(Prune(t)) == Paths(t)
    ensures forall q | q in Paths(t) :: TextAt(Prune(t), q) == TextAt(t, q)
    decreases t
  {
    if t.Leaf? {
    } else {
      forall q
        ensures q in Paths(Prune(t)) <==> q in Paths(t)
        ensures q in Paths(t) ==> TextAt(Prune(t), q) == TextAt(t, q)
      {
        PathsDescend(t, q);
        PathsDescend(Prune(t), q);
        if q != [] && q[0] in t.fields {
          PruneKeepsLeaves(t.fields[q[0]]);
        }
      }
    }
  }

  lemma {:induction false} SamePrunedSameLeaves(t: Json, u: Json)
    requires Prune(t) == Prune(u)
    ensures Leaves(t) == Leaves(u)
  {
    hide Prune, Paths, TextAt;
    PruneKeepsLeaves(t);
    PruneKeepsLeaves(u);
  }

  lemma {:induction false} SplitKeysIsInjective(flat: map<string, string>, other: map<string, string>)
    requires SplitKeys(flat) == SplitKeys(other)
    ensures flat == other
  {
    forall s ensures s in flat <==> Split(s) in SplitKeys(flat) {
      if Split(s) in SplitKeys(flat) {
        var r :| r in flat && Split(r) == Split(s);
        assert Join(Split(r)) == r;
      }
    }
    forall s ensures s in other <==> Split(s) in SplitKeys(other) {
      if Split(s) in SplitKeys(other) {
        var r :| r in other && Split(r) == Split(s);
        assert Join(Split(r)) == r;
      }
    }
    forall s | s in flat ensures flat[s] == other[s] {
      assert SplitKeys(flat)[Split(s)] == flat[s] && SplitKeys(other)[Split(s)] == other[s];
    }
  }

  /** The flat form determines a clean object up to objects that hold no leaf, and
      nothing more than that: two clean objects have the same flat form if and only if
      they are the same once such objects are pruned. */
  lemma {:induction false} FlatFormDeterminesTheTree(t: Json, u: Json, flat: map<string, string>,
                                                     other: map<string, string>)
    requires t.Object? && FlattensInto(t, "", map[], flat) && Clean(t)
    requires u.Object? && FlattensInto(u, "", map[], other) && Clean(u)
    ensures flat == other <==> Prune(t) == Prune(u)
  {
    hide Clean, FlattensInto, Prune, Rebuild, SplitKeys, Leaves, Within;
    var d := SomeDepth(t);
    var e := SomeDepth(u);
    var depth := if d < e then e else d;
    DeeperIsWithin(t, d, depth);
    DeeperIsWithin(u, e, depth);
    RebuiltFromFlatForm(t, flat, depth);
    RebuiltFromFlatForm(u, other, depth);
    if Prune(t) == Prune(u) {
      SamePrunedSameLeaves(t, u);
      CleanIsLossless(t, flat);
      CleanIsLossless(u, other);
      SplitKeysIsInjective(flat, other);
    }
  }

  lemma {:induction false} OneLeafFlattens(t: Json, q: Path, text: string)
    requires Paths(t) == {q} && TextAt(t, q) == text
    ensures FlattensInto(t, "", map[], map[Name("", q) := text])
  {
    forall name ensures Entry(t, "", map[], map[Name("", q) := text], name) {
      assert IsName(t, "", name) <==> name == Name("", q);
      assert Names(t, "", Name("", q), text);
    }
  }

  /** A dotted key can pass for a nested one. */
  lemma {:induction false} DottedKeysCollide()
    ensures
      var dotted := Object(map["a.b" := Leaf("1")]);
      var nested := Object(map["a" := Object(map["b" := Leaf("1")])]);
      && Prune(dotted) != Prune(nested)
      && FlattensInto(dotted, "", map[], map["a.b" := "1"])
      && FlattensInto(nested, "", map[], map["a.b" := "1"])
  {
    var leaf := Leaf("1");
    var dotted, inner := Object(map["a.b" := leaf]), Object(map["b" := leaf]);
    var nested := Object(map["a" := inner]);
    assert Paths(leaf) == {[]} && ["a.b"] + [] == ["a.b"] && ["b"] + [] == ["b"] && ["a"] + ["b"] == ["a", "b"];
    assert Paths(dotted) == {["a.b"]} && Paths(inner) == {["b"]} && Paths(nested) == {["a", "b"]};
    OneLeafFlattens(dotted, ["a.b"], "1");
    OneLeafFlattens(nested, ["a", "b"], "1");
    assert Name("", ["a", "b"]) == Name("a", ["b"]) == "a" + "." + "b" == "a.b" == Name("", ["a.b"]);
    assert "a.b" in Prune(dotted).fields && "a.b" !in Prune(nested).fields;
  }
}
