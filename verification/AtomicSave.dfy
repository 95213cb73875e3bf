/**
 Saving a cache file (pkg/yxc/cache.go): write a uniquely named temporary file,
 sync it, close it, rename it over the cache path.

 Any number of savers share one directory. Their steps interleave freely; each
 step may fail, and each saver may crash between any two steps. A directory maps
 names to files and files hold text. A failed call has no effect; a failed write
 may have written part of the text.
*/
module AtomicSave {
  import opened Options

  type File = nat

  // ----- names ----------------------------------------------------------------

  const SUFFIX := "-features.json"
  const TEMP_PREFIX := "features-"
  const TEMP_SUFFIX := ".json.tmp"

  /** The cache file of a device. A device ID with a path separator is refused. */
  function PathFor(deviceId: string): Option<string> {
    if deviceId == "" || '/' in deviceId then None else Some(deviceId + SUFFIX)
  }

  predicate IsCachePath(name: string) {
    |name| >= |SUFFIX| && name[|name| - |SUFFIX|..] == SUFFIX
  }

  /** The names that CreateTemp makes up for the pattern of `save`. */
  predicate IsTempName(name: string) {
    |name| >= |TEMP_SUFFIX| && TEMP_PREFIX <= name && name[|name| - |TEMP_SUFFIX|..] == TEMP_SUFFIX
  }

  lemma {:induction false} TempNamesAreNotCachePaths(name: string)
    requires IsTempName(name)
    ensures !IsCachePath(name)
  {
    assert name[|name| - |TEMP_SUFFIX|..][|TEMP_SUFFIX| - 1] == name[|name| - 1] == 'p';
    if |name| >= |SUFFIX| {
      assert name[|name| - |SUFFIX|..][|SUFFIX| - 1] == name[|name| - 1];
    }
  }

  /** Every device whose ID has no separator has a cache file. It is a single name in the
      cache directory, and two devices never share one. */
  lemma {:induction false} PathsAreDistinct(a: string, b: string)
    ensures PathFor(a).Some? <==> a != "" && '/' !in a
    ensures PathFor(a).Some? ==> IsCachePath(PathFor(a).value) && '/' !in PathFor(a).value
    ensures PathFor(a).Some? && PathFor(a) == PathFor(b) ==> a == b
  {
    if PathFor(a).Some? && PathFor(b).Some? {
      assert PathFor(a).value[..|PathFor(a).value| - |SUFFIX|] == a;
      assert PathFor(b).value[..|PathFor(b).value| - |SUFFIX|] == b;
    }
  }

  // ----- savers ---------------------------------------------------------------

  datatype Phase = Waiting | Writing | Encoded | Synced | Closed | Dirty | Saved | Failed | Crashed

  datatype Saver = Saver(path: string, payload: string, phase: Phase, tmp: string, file: File, written: nat)

  datatype Event = Replaced(saver: nat, path: string, payload: string) | Dropped(path: string)

  datatype World = World(names: map<string, File>, content: map<File, string>, savers: seq<Saver>, log: seq<Event>)

  datatype Action =
    | Create(i: nat, tmp: string, file: File)
    | Write(i: nat, upTo: nat)
    | Encode(i: nat)
    | Sync(i: nat)
    | Close(i: nat)
    | Rename(i: nat)
    | Fault(i: nat)
    | Clean(i: nat, removed: bool)
    | Crash(i: nat)
    | Invalidate(path: string)

  /** Whether the saver has a temporary file of its own in the directory. */
  predicate Owns(s: Saver) {
    s.phase.Writing? || s.phase.Encoded? || s.phase.Synced? || s.phase.Closed? || s.phase.Dirty?
  }

  /** CreateTemp opens a name that is not taken, as a file that did not exist. */
  predicate Enabled(w: World, a: Action) {
    match a
    case Invalidate(path) => IsCachePath(path) && path in w.names
    case _ =>
      && a.i < |w.savers|
      && var s := w.savers[a.i];
         match a
         case Create(_, tmp, file) => s.phase.Waiting? && IsTempName(tmp) && tmp !in w.names && file !in w.content
         case Write(_, upTo) => s.phase.Writing? && s.written <= upTo <= |s.payload|
         case Encode(_) => s.phase.Writing? && s.written == |s.payload|
         case Sync(_) => s.phase.Encoded?
         case Close(_) => s.phase.Synced?
         case Rename(_) => s.phase.Closed?
         case Fault(_) => s.phase.Waiting? || (Owns(s) && !s.phase.Dirty?)
         case Clean(_, _) => s.phase.Dirty?
         case Crash(_) => s.phase.Waiting? || Owns(s)
         case Invalidate(_) => true
  }

  function Advanced(w: World, i: nat, phase: Phase): World
    requires i < |w.savers|
  {
    w.(savers := w.savers[i := w.savers[i].(phase := phase)])
  }

  function Step(w: World, a: Action): World
    requires Enabled(w, a)
  {
    match a
    case Create(i, tmp, file) =>
      w.(names := w.names[tmp := file], content := w.content[file := ""],
         savers := w.savers[i := w.savers[i].(phase := Writing, tmp := tmp, file := file, written := 0)])
    case Write(i, upTo) =>
      var s := w.savers[i];
      w.(content := w.content[s.file := s.payload[..upTo]], savers := w.savers[i := s.(written := upTo)])
    case Encode(i) => Advanced(w, i, Encoded)
    case Sync(i) => Advanced(w, i, Synced)
    case Close(i) => Advanced(w, i, Closed)
    case Rename(i) =>
      var s := w.savers[i];
      Advanced(w, i, Saved).(names := (w.names - {s.tmp})[s.path := s.file],
                             log := w.log + [Replaced(i, s.path, s.payload)])
    case Fault(i) => Advanced(w, i, if w.savers[i].phase.Waiting? then Failed else Dirty)
    case Clean(i, removed) =>
      var after := Advanced(w, i, Failed);
      if removed then after.(names := w.names - {w.savers[i].tmp}) else after
    case Crash(i) => Advanced(w, i, Crashed)
    case Invalidate(path) => w.(names := w.names - {path}, log := w.log + [Dropped(path)])
  }

  /** Whether the actions can happen in this order. */
  predicate Possible(w: World, actions: seq<Action>)
    decreases |actions|, 0
  {
    actions == [] ||
    var m := |actions| - 1;
    Possible(w, actions[..m]) && Enabled(Run(w, actions[..m]), actions[m])
  }

  function Run(w: World, actions: seq<Action>): World
    requires Possible(w, actions)
    decreases |actions|, 1
  {
    if actions == [] then w
    else var m := |actions| - 1; Step(Run(w, actions[..m]), actions[m])
  }

  // ----- what a reader of the cache path sees ---------------------------------

  function View(w: World, path: string): Option<string>
    requires Sound(w)
  {
    if path in w.names then Some(w.content[w.names[path]]) else None
  }

  /** What an atomic register would hold after these events. */
  function Register(before: Option<string>, log: seq<Event>, path: string): Option<string> {
    if log == [] then before
    else
      var m := |log| - 1;
      match log[m]
      case Replaced(_, p, payload) => if p == path then Some(payload) else Register(before, log[..m], path)
      case Dropped(p) => if p == path then None else Register(before, log[..m], path)
  }

  /** Every name has a file, and no file has two names. */
  predicate Sound(w: World) {
    && (forall n | n in w.names :: w.names[n] in w.content)
    && (forall n, m | n in w.names && m in w.names && w.names[n] == w.names[m] :: n == m)
  }

  /** A saver's temporary file is its own, and holds what it has written so far. */
  predicate Holds(w: World, s: Saver) {
    && IsCachePath(s.path)
    && (Owns(s) ==>
      && IsTempName(s.tmp) && s.tmp in w.names && w.names[s.tmp] == s.file
      && s.file in w.content
      && s.written <= |s.payload| && w.content[s.file] == s.payload[..s.written]
      && (s.phase.Encoded? || s.phase.Synced? || s.phase.Closed? ==> s.written == |s.payload|))
  }

  predicate Separate(w: World) {
    forall i, j | 0 <= i < j < |w.savers| && Owns(w.savers[i]) && Owns(w.savers[j]) ::
      w.savers[i].tmp != w.savers[j].tmp
  }

  predicate Inv(w: World) {
    Sound(w) && Separate(w) && forall i | 0 <= i < |w.savers| :: Holds(w, w.savers[i])
  }

  /** Nobody has begun. Old cache files and litter may be there. */
  predicate Start(w: World) {
    && Sound(w) && w.log == []
    && forall i | 0 <= i < |w.savers| :: w.savers[i].phase.Waiting? && IsCachePath(w.savers[i].path)
  }

  /** The saver that acts keeps its own file. */
  lemma {:induction false} ActorHolds(w: World, a: Action)
    requires Inv(w) && Enabled(w, a) && !a.Invalidate?
    ensures Holds(Step(w, a), Step(w, a).savers[a.i])
  {
    assert Holds(w, w.savers[a.i]);
    if Owns(w.savers[a.i]) {
      TempNamesAreNotCachePaths(w.savers[a.i].tmp);
    }
  }

  /** And leaves the others theirs. */
  lemma {:induction false} OthersHold(w: World, a: Action, j: nat)
    requires Inv(w) && Enabled(w, a) && j < |w.savers| && (a.Invalidate? || a.i != j)
    ensures Step(w, a).savers[j] == w.savers[j] && Holds(Step(w, a), w.savers[j])
  {
    var s := w.savers[j];
    assert Holds(w, s);
    if Owns(s) {
      TempNamesAreNotCachePaths(s.tmp);
      if !a.Invalidate? {
        assert Holds(w, w.savers[a.i]);
      }
    }
  }

  lemma {:induction false} StepKeepsNames(w: World, a: Action)
    requires Inv(w) && Enabled(w, a)
    ensures Sound(Step(w, a))
  {
    if !a.Invalidate? {
      assert Holds(w, w.savers[a.i]);
    }
  }

  lemma {:induction false} StepKeepsApart(w: World, a: Action)
    requires Inv(w) && Enabled(w, a)
    ensures Separate(Step(w, a))
  {
    var after := Step(w, a);
    forall i, j | 0 <= i < j < |after.savers| && Owns(after.savers[i]) && Owns(after.savers[j])
      ensures after.savers[i].tmp != after.savers[j].tmp
    {
      assert Holds(w, w.savers[i]) && Holds(w, w.savers[j]);
    }
  }

  lemma {:induction false} StepKeepsInv(w: World, a: Action)
    requires Inv(w) && Enabled(w, a)
    ensures Inv(Step(w, a))
  {
    StepKeepsNames(w, a);
    StepKeepsApart(w, a);
    forall j: nat | j < |w.savers| ensures Holds(Step(w, a), Step(w, a).savers[j]) {
      if !a.Invalidate? && a.i == j {
        ActorHolds(w, a);
      } else {
        OthersHold(w, a, j);
      }
    }
  }

  lemma {:induction false} StepIsAtomic(w: World, a: Action, path: string)
    requires Inv(w) && Enabled(w, a) && IsCachePath(path)
    ensures Inv(Step(w, a))
    ensures View(Step(w, a), path) ==
      match a
      case Rename(i) => if w.savers[i].path == path then Some(w.savers[i].payload) else View(w, path)
      case Invalidate(p) => if p == path then None else View(w, path)
      case _ => View(w, path)
  {
    StepKeepsInv(w, a);
    if !a.Invalidate? {
      var s := w.savers[a.i];
      assert Holds(w, s);
      if Owns(s) {
        TempNamesAreNotCachePaths(s.tmp);
        assert s.payload[..|s.payload|] == s.payload;
      }
      if a.Create? {
        TempNamesAreNotCachePaths(a.tmp);
      }
    }
  }

  lemma {:induction false} RunKeepsInv(w: World, actions: seq<Action>)
    requires Start(w) && Possible(w, actions)
    ensures Inv(Run(w, actions))
    decreases |actions|
  {
    if actions == [] {
    } else {
      var m := |actions| - 1;
      RunKeepsInv(w, actions[..m]);
      StepKeepsInv(Run(w, actions[..m]), actions[m]);
    }
  }

  /** Whatever savers do, fail or crash, a cache path reads at all times like an
      atomic register: the last complete payload renamed over it. */
  lemma {:induction false} SaveIsAtomic(w: World, actions: seq<Action>, path: string)
    requires Start(w) && Possible(w, actions) && IsCachePath(path)
    ensures Inv(Run(w, actions))
    ensures View(Run(w, actions), path) == Register(View(w, path), Run(w, actions).log, path)
    decreases |actions|
  {
    RunKeepsInv(w, actions);
    if actions == [] {
    } else {
      var m := |actions| - 1;
      SaveIsAtomic(w, actions[..m], path);
      StepIsAtomic(Run(w, actions[..m]), actions[m], path);
      var before, after := Run(w, actions[..m]).log, Run(w, actions).log;
      if after != before {
        assert after[..|after| - 1] == before;
      }
    }
  }

  /** Each event of a run is one saver's rename of its own complete payload, or an
      explicit removal. */
  lemma {:induction false} EventsAreWholePayloads(w: World, actions: seq<Action>, k: nat)
    requires Start(w) && Possible(w, actions) && k < |Run(w, actions).log|
    ensures match Run(w, actions).log[k]
      case Dropped(_) => true
      case Replaced(i, path, payload) =>
        i < |w.savers| && path == w.savers[i].path && payload == w.savers[i].payload
    decreases |actions|
  {
    if actions == [] {
    } else {
      var m := |actions| - 1;
      var before := Run(w, actions[..m]);
      hide Step, Enabled;
      SaversKeepTheirPayload(w, actions[..m]);
      NewEvent(before, actions[m]);
      if k < |before.log| {
        EventsAreWholePayloads(w, actions[..m], k);
      }
    }
  }

  lemma {:induction false} NewEvent(w: World, a: Action)
    requires Enabled(w, a)
    ensures w.log <= Step(w, a).log
    ensures forall k | |w.log| <= k < |Step(w, a).log| ::
      match Step(w, a).log[k]
      case Dropped(_) => true
      case Replaced(i, path, payload) =>
        i < |w.savers| && path == w.savers[i].path && payload == w.savers[i].payload
  {
  }

  /** Saver i synced its file, and has not written to it since. */
  ghost predicate SyncedSince(actions: seq<Action>, i: nat) {
    exists j | 0 <= j < |actions| :: actions[j] == Sync(i) && NotWritten(actions, i, j)
  }

  predicate NotWritten(actions: seq<Action>, i: nat, from: nat) {
    forall k | from < k < |actions| && actions[k].Write? :: actions[k].i != i
  }

  lemma {:induction false} StillSynced(actions: seq<Action>, i: nat, a: Action)
    requires SyncedSince(actions, i) && (a.Write? ==> a.i != i)
    ensures SyncedSince(actions + [a], i)
  {
    var j :| 0 <= j < |actions| && actions[j] == Sync(i) && NotWritten(actions, i, j);
    assert (actions + [a])[j] == Sync(i) && NotWritten(actions + [a], i, j);
  }

  lemma {:induction false} PastItsSync(w: World, actions: seq<Action>, i: nat)
    requires Start(w) && Possible(w, actions) && i < |Run(w, actions).savers|
    requires Run(w, actions).savers[i].phase.Synced? || Run(w, actions).savers[i].phase.Closed?
    ensures SyncedSince(actions, i)
    decreases |actions|
  {
    if actions != [] {
      var m := |actions| - 1;
      var before := Run(w, actions[..m]);
      assert actions == actions[..m] + [actions[m]];
      StepKeepsPayloads(before, actions[m]);
      if actions[m] == Sync(i) {
        assert NotWritten(actions, i, m);
      } else {
        WasSynced(before, actions[m], i);
        PastItsSync(w, actions[..m], i);
        StillSynced(actions[..m], i, actions[m]);
      }
    }
  }

  lemma {:induction false} WasSynced(w: World, a: Action, i: nat)
    requires Enabled(w, a) && i < |w.savers| == |Step(w, a).savers| && a != Sync(i)
    requires Step(w, a).savers[i].phase.Synced? || Step(w, a).savers[i].phase.Closed?
    ensures w.savers[i].phase.Synced? || w.savers[i].phase.Closed?
    ensures a.Write? ==> a.i != i
  {
  }

  /** In every run a file is renamed over a cache path only after it was synced, with
      nothing written to it in between. */
  lemma {:induction false} RenameFollowsSync(w: World, actions: seq<Action>, i: nat)
    requires Start(w) && Possible(w, actions + [Rename(i)])
    ensures SyncedSince(actions, i)
  {
    assert (actions + [Rename(i)])[..|actions|] == actions;
    PastItsSync(w, actions, i);
  }

  /** How often saver i replaced its cache file. */
  function Renames(log: seq<Event>, i: nat): nat {
    if log == [] then 0
    else
      var m := |log| - 1;
      Renames(log[..m], i) + if log[m].Replaced? && log[m].saver == i then 1 else 0
  }

  lemma {:induction false} RenamesOneMore(log: seq<Event>, e: Event, i: nat)
    ensures Renames(log + [e], i) == Renames(log, i) + if e.Replaced? && e.saver == i then 1 else 0
  {
    assert (log + [e])[..|log|] == log;
  }

  /** In every run a saver has replaced its cache file once if it succeeded, and not at
      all otherwise. */
  lemma {:induction false} ReplacesExactlyOnSuccess(w: World, actions: seq<Action>, i: nat)
    requires Start(w) && Possible(w, actions) && i < |w.savers|
    ensures ReplacedIfSaved(Run(w, actions), i)
    decreases |actions|
  {
    if actions == [] {
    } else {
      var m := |actions| - 1;
      ReplacesExactlyOnSuccess(w, actions[..m], i);
      StepReplaces(Run(w, actions[..m]), actions[m], i);
    }
  }

  predicate ReplacedIfSaved(w: World, i: nat) {
    i < |w.savers| && Renames(w.log, i) == if w.savers[i].phase.Saved? then 1 else 0
  }

  /** A rename is what makes a saver succeed, and it happens to no other saver. */
  lemma {:induction false} StepPhases(w: World, a: Action, i: nat)
    requires Enabled(w, a) && i < |w.savers|
    ensures |Step(w, a).savers| == |w.savers|
    ensures Step(w, a).savers[i].phase.Saved? <==> w.savers[i].phase.Saved? || (a.Rename? && a.i == i)
    ensures a.Rename? && a.i == i ==> !w.savers[i].phase.Saved?
  {
    if a.Invalidate? {
    } else if a.i != i {
      assert Step(w, a).savers[i] == w.savers[i];
    }
  }

  lemma {:induction false} StepReplaces(w: World, a: Action, i: nat)
    requires Enabled(w, a) && ReplacedIfSaved(w, i)
    ensures ReplacedIfSaved(Step(w, a), i)
  {
    hide Renames;
    StepPhases(w, a, i);
    if a.Rename? {
      RenamesOneMore(w.log, Replaced(a.i, w.savers[a.i].path, w.savers[a.i].payload), i);
    } else if a.Invalidate? {
      RenamesOneMore(w.log, Dropped(a.path), i);
    }
  }

  lemma {:induction false} StepKeepsPayloads(w: World, a: Action)
    requires Enabled(w, a)
    ensures |Step(w, a).savers| == |w.savers|
    ensures forall i | 0 <= i < |w.savers| ::
      Step(w, a).savers[i].payload == w.savers[i].payload && Step(w, a).savers[i].path == w.savers[i].path
  {
  }

  lemma {:induction false} SaversKeepTheirPayload(w: World, actions: seq<Action>)
    requires Possible(w, actions)
    ensures |Run(w, actions).savers| == |w.savers|
    ensures forall i | 0 <= i < |w.savers| ::
      Run(w, actions).savers[i].payload == w.savers[i].payload && Run(w, actions).savers[i].path == w.savers[i].path
    decreases |actions|
  {
    if actions == [] {
    } else {
      hide Step, Enabled;
      var m := |actions| - 1;
      SaversKeepTheirPayload(w, actions[..m]);
      StepKeepsPayloads(Run(w, actions[..m]), actions[m]);
    }
  }

  /** Nobody crashed, and no cleanup failed. */
  predicate Tidy(actions: seq<Action>) {
    forall i | 0 <= i < |actions| :: TidyStep(actions[i])
  }

  predicate OwnedBy(w: World, name: string, i: nat) {
    i < |w.savers| && Owns(w.savers[i]) && w.savers[i].tmp == name
  }

  predicate TidyStep(a: Action) {
    !a.Crash? && (a.Clean? ==> a.removed)
  }

  lemma {:induction false} StillOwned(w: World, a: Action, name: string, i: nat)
    requires Inv(w) && Enabled(w, a) && TidyStep(a)
    requires OwnedBy(w, name, i) && name in Step(w, a).names
    ensures OwnedBy(Step(w, a), name, i)
  {
    assert Holds(w, w.savers[i]);
    TempNamesAreNotCachePaths(name);
  }

  lemma {:induction false} NewNameIsOwned(w: World, a: Action, name: string)
    requires Inv(w) && Enabled(w, a) && IsTempName(name)
    requires name !in w.names && name in Step(w, a).names
    ensures !a.Invalidate? && OwnedBy(Step(w, a), name, a.i)
  {
    TempNamesAreNotCachePaths(name);
    if !a.Invalidate? {
      assert Holds(w, w.savers[a.i]);
    }
  }

  /** Without crashes and failed removals, every new temporary name belongs to a
      saver still at work; so once all are finished, no litter is left. */
  lemma {:induction false} NoLitter(w: World, actions: seq<Action>, name: string)
    requires Start(w) && Possible(w, actions) && Tidy(actions)
    requires IsTempName(name) && name in Run(w, actions).names && name !in w.names
    ensures exists i: nat :: OwnedBy(Run(w, actions), name, i)
    decreases |actions|
  {
    var m := |actions| - 1;
    var before, a := Run(w, actions[..m]), actions[m];
    RunKeepsInv(w, actions[..m]);
    if name in before.names {
      assert forall k | 0 <= k < m :: TidyStep(actions[..m][k]) by {
        assert forall k | 0 <= k < m :: actions[..m][k] == actions[k];
      }
      NoLitter(w, actions[..m], name);
      var i: nat :| OwnedBy(before, name, i);
      StillOwned(before, a, name, i);
    } else {
      NewNameIsOwned(before, a, name);
    }
  }

  lemma {:induction false} OneMoreAction(w: World, actions: seq<Action>, a: Action)
    requires Possible(w, actions) && Enabled(Run(w, actions), a)
    ensures Possible(w, actions + [a]) && Run(w, actions + [a]) == Step(Run(w, actions), a)
  {
    assert (actions + [a])[..|actions|] == actions;
  }

  lemma {:induction false} LogGrows(w: World, a: Action)
    requires Enabled(w, a)
    ensures w.log <= Step(w, a).log
  {
  }

  // ----- one saver's code -----------------------------------------------------

  class Disk {
    var world: World
    // What the other savers will try to do, batch by batch.
    var meanwhile: seq<seq<Action>>
    // All that happened to the directory so far.
    ghost var actions: seq<Action>
    ghost const initial: World

    ghost predicate Valid()
      reads this
    {
      Start(initial) && Possible(initial, actions) && world == Run(initial, actions)
    }

    constructor (world: World, meanwhile: seq<seq<Action>>)
      requires Start(world)
      ensures Valid() && this.world == initial == world && actions == []
    {
      this.world, this.initial, this.meanwhile := world, world, meanwhile;
      actions := [];
    }

    method Do(a: Action)
      requires Valid() && Enabled(world, a)
      modifies this`world, this`actions
      ensures Valid() && world == Step(old(world), a)
      ensures old(world.log) <= world.log
    {
      hide Step, Enabled, Start;
      OneMoreAction(initial, actions, a);
      LogGrows(world, a);
      world := Step(world, a);
      actions := actions + [a];
    }

    /** Whatever the other savers get done meanwhile. */
    method Others(i: nat)
      requires Valid() && i < |world.savers|
      modifies this
      ensures Valid() && |world.savers| == |old(world.savers)| && world.savers[i] == old(world.savers[i])
      ensures old(world.log) <= world.log
      ensures old(meanwhile) == [] ==> world == old(world)
    {
      hide Run, Possible, Start;
      if meanwhile == [] {
        return;
      }
      var batch := meanwhile[0];
      meanwhile := meanwhile[1..];
      for n := 0 to |batch|
        invariant Valid() && |world.savers| == |old(world.savers)| && world.savers[i] == old(world.savers[i])
        invariant old(world.log) <= world.log
      {
        if (batch[n].Invalidate? || batch[n].i != i) && Enabled(world, batch[n]) {
          Do(batch[n]);
        }
      }
    }

    /** The failed call, then the best-effort removal of the temporary file. */
    method GiveUp(i: nat)
      requires Valid() && i < |world.savers| && Owns(world.savers[i])
      modifies this
      ensures Valid() && |world.savers| == |old(world.savers)| && world.savers[i].phase.Failed?
      ensures old(world.log) <= world.log
    {
      hide Run, Possible, Start;
      if !world.savers[i].phase.Dirty? {
        Do(Fault(i));
      }
      Others(i);
      var removed: bool := *;
      Do(Clean(i, removed));
    }

    /** One file operation of the saver: it may fail, others run before it. */
    method Try(a: Action, lucky: bool) returns (ok: bool)
      requires Valid() && !a.Invalidate? && Enabled(world, a) && Owns(world.savers[a.i])
      requires a.Encode? || a.Sync? || a.Close? || a.Rename?
      modifies this
      ensures Valid() && |world.savers| == |old(world.savers)| && old(world.log) <= world.log
      ensures ok && !a.Rename? ==> world.savers[a.i] == Step(old(world), a).savers[a.i]
      ensures ok && a.Rename? ==> world.savers[a.i] == old(world.savers[a.i]).(phase := Saved)
      ensures ok && a.Rename? ==>
        old(world.log) < world.log
        && world.log[|world.log| - 1] == Replaced(a.i, world.savers[a.i].path, world.savers[a.i].payload)
      ensures lucky ==> ok
      ensures !ok ==> world.savers[a.i].phase.Failed?
    {
      hide Run, Possible, Start;
      Others(a.i);
      ok := *;
      ok := ok || lucky;
      if ok {
        Do(a);
      } else {
        GiveUp(a.i);
      }
    }

    /** The encoder's write, which may stop short. */
    method WritePayload(i: nat, lucky: bool) returns (ok: bool)
      requires Valid() && i < |world.savers| && world.savers[i].phase.Writing?
      requires world.savers[i].written <= |world.savers[i].payload|
      modifies this
      ensures Valid() && |world.savers| == |old(world.savers)| && old(world.log) <= world.log
      ensures lucky ==> ok
      ensures world.savers[i].phase == if ok then Encoded else Failed
      ensures ok ==> world.savers[i].payload == old(world.savers[i].payload)
      ensures ok ==> world.savers[i].path == old(world.savers[i].path)
    {
      hide Run, Possible, Start;
      Others(i);
      var full := |world.savers[i].payload|;
      var upTo: int := *;
      if lucky || upTo < world.savers[i].written || upTo > full {
        upTo := full;
      }
      Do(Write(i, upTo));
      if upTo < full {
        GiveUp(i);
        return false;
      }
      ok := Try(Encode(i), lucky);
    }

    /** The operations of a save, in turn. */
    method SaveSteps(i: nat, tmp: string, file: File, lucky: bool) returns (ok: bool)
      requires Valid() && i < |world.savers| && world.savers[i].phase.Waiting?
      modifies this
      ensures Valid() && |world.savers| == |old(world.savers)|
      ensures world.savers[i].phase == if ok then Saved else Failed
      ensures ok ==>
        var mine := old(world.savers[i]);
        exists k :: |old(world.log)| <= k < |world.log| && world.log[k] == Replaced(i, mine.path, mine.payload)
      ensures lucky && old(meanwhile) == [] && old(Enabled(world, Create(i, tmp, file))) ==> ok
    {
      hide Run, Possible, Start;
      Others(i);
      var created: bool := *;
      if (!created && !lucky) || !Enabled(world, Create(i, tmp, file)) {
        Do(Fault(i));
        return false;
      }
      Do(Create(i, tmp, file));
      ok := WritePayload(i, lucky);
      if ok {
        ok := Try(Sync(i), lucky);
      }
      if ok {
        ok := Try(Close(i), lucky);
      }
      if ok {
        ok := Try(Rename(i), lucky);
      }
    }

    /** Saves the payload of saver i, every operation in turn, while others run.
        Success means that its own complete payload was renamed over the cache path
        during the call, and failure that it never was. CreateTemp comes up with `tmp`
        and `file`. When no call fails and no other saver takes that name, it works. */
    method Save(i: nat, tmp: string, file: File, lucky: bool) returns (ok: bool)
      requires Valid() && i < |world.savers| && world.savers[i].phase.Waiting?
      modifies this
      ensures Valid() && |world.savers| == |old(world.savers)|
      ensures world.savers[i].phase == if ok then Saved else Failed
      ensures ok ==>
        var mine := old(world.savers[i]);
        exists k :: |old(world.log)| <= k < |world.log| && world.log[k] == Replaced(i, mine.path, mine.payload)
      ensures Renames(world.log, i) == if ok then 1 else 0
      ensures lucky && old(meanwhile) == [] && old(Enabled(world, Create(i, tmp, file))) ==> ok
    {
      ok := SaveSteps(i, tmp, file, lucky);
      SaversKeepTheirPayload(initial, actions);
      ReplacesExactlyOnSuccess(initial, actions, i);
    }
  }
}
