/**
 The features of a receiver: a memo in the process, a file per device on disk, and
 the device itself (pkg/yxc/cache.go, internal/cli/features.go).

 A file holds features or is corrupt, and carries the time it was written. `Luck`
 says how the calls into the world turn out: the clock, the file system, the
 device. A failed save leaves the file as it was (module AtomicSave).
*/
module FeaturesCache {

  import opened AtomicSave
  import opened Options
  import Suggestions

  // The lists of names a receiver accepts, by kind ("input", ...) and zone.
  datatype Features = Features(lists: map<(string, string), seq<string>>)

  function Names(f: Features, kind: string, zone: string): seq<string> {
    if (kind, zone) in f.lists then f.lists[(kind, zone)] else []
  }

  datatype Entry = Entry(written: int, body: Option<Features>)

  const HOUR := 3_600_000_000_000
  const DEFAULT_TTL := 7 * 24 * HOUR

  datatype Luck = Luck(info: Option<string>, wait: nat, statFails: bool, readFails: bool,
                       answer: Option<Features>, latency: nat, saveFails: bool)

  datatype Result = Ok(features: Features) | LoadFailed

  datatype Verdict = Accepted(features: Features) | Rejected(features: Features, suggestions: seq<string>) | NoVerdict

  datatype State = State(deviceId: string, memo: Option<Features>, disk: map<string, Entry>, now: int, fetches: nat)

  /** The memo is what the device's cache file holds. */
  predicate Agree(s: State) {
    s.memo.Some? ==> s.deviceId != "" && s.deviceId in s.disk && s.disk[s.deviceId].body == s.memo
  }

  /** The device is settled once, and time goes forward. */
  predicate Later(s: State, t: State) {
    (s.deviceId != "" ==> t.deviceId == s.deviceId) && s.now <= t.now
  }

  /** The file was no older than `ttl` when the call began, and stays. */
  predicate FromDisk(s: State, t: State, ttl: int, f: Features) {
    && t.disk == s.disk && t.fetches == s.fetches
    && t.deviceId in s.disk && s.disk[t.deviceId].body == Some(f)
    && s.now - s.disk[t.deviceId].written <= ttl
  }

  /** The device was asked, once, and its answer stored during the call. */
  predicate FromDevice(s: State, t: State, f: Features) {
    && t.fetches == s.fetches + 1
    && t.deviceId in t.disk && t.disk[t.deviceId].body == Some(f) && s.now <= t.disk[t.deviceId].written <= t.now
    && t.disk == s.disk[t.deviceId := t.disk[t.deviceId]]
  }

  /** What loading features may do. */
  predicate Loads(s: State, refresh: bool, ttl: int, r: Result, t: State) {
    && Later(s, t)
    && match r
       case Ok(f) =>
         && t.deviceId != "" && t.memo == Some(f)
         && (|| (!refresh && t == s)
             || (!refresh && s.memo.None? && FromDisk(s, t, ttl, f))
             || ((refresh || s.memo.None?) && FromDevice(s, t, f)))
       case LoadFailed =>
         t.memo == s.memo && t.disk == s.disk && s.fetches <= t.fetches <= s.fetches + 1
  }

  /** The verdict when the first list that was loaded, if any, is this one. */
  predicate Judged(v: Verdict, kind: string, zone: string, value: string, list: Option<Features>, second: Luck) {
    if list.None? then v.NoVerdict?
    else if value in Names(list.value, kind, zone) then v == Accepted(list.value)
    else SecondOpinion(v, kind, zone, value, second)
  }

  /** The verdict after a first list without the value: it rests on what the device says
      now, and there is none exactly if the device does not answer or the answer cannot be
      saved. */
  predicate SecondOpinion(v: Verdict, kind: string, zone: string, value: string, second: Luck) {
    && (v.NoVerdict? <==> second.answer.None? || second.saveFails)
    && (v.Accepted? ==> second.answer == Some(v.features) && value in Names(v.features, kind, zone))
    && (v.Rejected? ==> second.answer == Some(v.features) && value !in Names(v.features, kind, zone))
  }

  /** One process: the memo of its feature loader, the files, the clock. */
  class Loader {
    var deviceId: string
    var memo: Option<Features>
    var disk: map<string, Entry>
    var now: int
    var fetches: nat
    // The device ID in the configuration; empty when there is none.
    const configured: string
    const ttlOption: int

    function View(): State
      reads this
    {
      State(deviceId, memo, disk, now, fetches)
    }

    predicate Valid()
      reads this
    {
      Agree(View())
    }

    function Ttl(): (t: int)
      ensures t > 0 && (ttlOption > 0 ==> t == ttlOption) && (ttlOption <= 0 ==> t == 604_800_000_000_000)
    {
      if ttlOption > 0 then ttlOption else DEFAULT_TTL
    }

    /** What a cache file offers at a given time. */
    function Fresh(path: string, at: int): (hit: Option<Features>)
      reads this
      ensures hit.Some? <==> path in disk && disk[path].body.Some? && at - disk[path].written <= Ttl()
      ensures hit.Some? ==> hit == disk[path].body
    {
      if path in disk && at - disk[path].written <= Ttl() then disk[path].body else None
    }

    /** Looking for a file at a given time fails: its age cannot be had, or it is young
        enough and cannot be read. */
    predicate Unreadable(path: string, luck: Luck, at: int)
      reads this
    {
      luck.statFails || (luck.readFails && path in disk && at - disk[path].written <= Ttl())
    }

    constructor (disk: map<string, Entry>, now: int, configured: string, ttl: int)
      ensures Valid() && View() == State("", None, disk, now, 0)
      ensures this.configured == configured && this.ttlOption == ttl
    {
      deviceId, memo, fetches := "", None, 0;
      this.disk, this.now, this.configured, this.ttlOption := disk, now, configured, ttl;
    }

    /** The memo's device, else the configured one, else the one that answers. */
    method ResolveDeviceId(luck: Luck) returns (ok: bool)
      modifies this`deviceId
      ensures ok == (deviceId != "")
      ensures old(deviceId) != "" ==> deviceId == old(deviceId)
      ensures old(deviceId) == "" && configured != "" ==> deviceId == configured
      ensures old(deviceId) == "" && configured == "" ==>
        deviceId == if luck.info.Some? then luck.info.value else ""
    {
      if deviceId == "" {
        if configured != "" {
          deviceId := configured;
        } else if luck.info.Some? {
          deviceId := luck.info.value;
        }
      }
      return deviceId != "";
    }

    /** A fresh, readable cache file; a stale, missing or corrupt one is a miss. */
    method TryLoad(path: string, luck: Luck) returns (ok: bool, hit: Option<Features>)
      modifies this`now
      ensures now == old(now) + luck.wait
      ensures ok ==> hit == Fresh(path, now)
      ensures !ok ==> hit.None?
      ensures !ok <==> luck.statFails || (luck.readFails && path in disk && now - disk[path].written <= Ttl())
    {
      now := now + luck.wait;
      if luck.statFails {
        return false, None;
      }
      if path !in disk {
        return true, None;
      }
      if now - disk[path].written > Ttl() {
        return true, None;
      }
      if luck.readFails {
        return false, None;
      }
      return true, disk[path].body;
    }

    /** The cached features, or the device's answer once it is saved. Cache files are
        kept by device: `id` stands for the path of its file. */
    method LoadOrFetch(id: string, luck: Luck, refresh: bool) returns (r: Result)
      modifies this`now, this`fetches, this`disk
      ensures old(now) <= now
      ensures r.Ok? ==>
        || (&& !refresh && disk == old(disk) && fetches == old(fetches)
            && id in disk && disk[id].body == Some(r.features) && old(now) - disk[id].written <= Ttl())
        || (&& fetches == old(fetches) + 1 && luck.answer == Some(r.features)
            && id in disk && disk[id].body == luck.answer && old(now) <= disk[id].written <= now
            && disk == old(disk)[id := disk[id]])
      ensures r.LoadFailed? ==> disk == old(disk) && old(fetches) <= fetches <= old(fetches) + 1
      ensures PathFor(id).None? ==> r.LoadFailed? && fetches == old(fetches)
      ensures PathFor(id).Some? && !refresh ==>
        var file := old(Fresh(id, now + luck.wait));
        && (old(Unreadable(id, luck, now + luck.wait)) ==> r.LoadFailed? && fetches == old(fetches))
        && (!old(Unreadable(id, luck, now + luck.wait)) ==>
             && (file.Some? ==> r == Ok(file.value) && fetches == old(fetches))
             && (file.None? ==> (r.Ok? <==> luck.answer.Some? && !luck.saveFails) && fetches == old(fetches) + 1))
      ensures PathFor(id).Some? && refresh ==>
        (r.Ok? <==> luck.answer.Some? && !luck.saveFails) && fetches == old(fetches) + 1
    {
      if PathFor(id).None? {
        return LoadFailed;
      }
      if !refresh {
        var ok, hit := TryLoad(id, luck);
        if !ok {
          return LoadFailed;
        }
        if hit.Some? {
          return Ok(hit.value);
        }
      }
      fetches := fetches + 1;
      now := now + luck.latency;
      if luck.answer.None? {
        return LoadFailed;
      }
      if luck.saveFails {
        return LoadFailed;
      }
      disk := disk[id := Entry(now, luck.answer)];
      return Ok(luck.answer.value);
    }

    /** The features of the active device; the memo answers unless a refresh is asked for. */
    method LoadFeatures(luck: Luck, refresh: bool) returns (r: Result)
      requires Valid()
      modifies this
      ensures Valid()
      ensures Loads(old(View()), refresh, Ttl(), r, View())
      ensures !refresh && old(memo).Some? ==> r == Ok(old(memo).value) && View() == old(View())
      ensures r.Ok? && fetches > old(fetches) ==> luck.answer == Some(r.features)
      ensures deviceId == "" ==> r.LoadFailed? && fetches == old(fetches)
      ensures PathFor(deviceId).None? && (refresh || old(memo).None?) ==> r.LoadFailed?
      ensures PathFor(deviceId).Some? && refresh ==>
        r == if luck.answer.Some? && !luck.saveFails then Ok(luck.answer.value) else LoadFailed
      ensures PathFor(deviceId).Some? && !refresh && old(memo).None? ==>
        var id := deviceId;
        var file := old(Fresh(id, now + luck.wait));
        if old(Unreadable(id, luck, now + luck.wait)) then r.LoadFailed? && fetches == old(fetches)
        else if file.Some? then r == Ok(file.value) && fetches == old(fetches)
        else
          && r == (if luck.answer.Some? && !luck.saveFails then Ok(luck.answer.value) else LoadFailed)
          && fetches == old(fetches) + 1
    {
      var resolved := ResolveDeviceId(luck);
      if !resolved {
        return LoadFailed;
      }
      if !refresh && memo.Some? {
        return Ok(memo.value);
      }
      r := LoadOrFetch(deviceId, luck, refresh);
      if r.Ok? {
        memo := Some(r.features);
      }
    }

    /**
     Checks a name against the receiver's list, asking the device again before it
     says no. A rejection always rests on a list that the device gave during this
     very call, and at most two answers are asked for.
    */
    method ValidateAgainstFeatures(kind: string, zone: string, value: string, refresh: bool, first: Luck, second: Luck)
      returns (v: Verdict)
      requires Valid()
      modifies this
      ensures Valid()
      ensures fetches <= old(fetches) + 2
      ensures v.Accepted? ==> value in Names(v.features, kind, zone) && memo == Some(v.features)
      ensures v.Rejected? ==>
        && value !in Names(v.features, kind, zone)
        && second.answer == Some(v.features) && fetches > old(fetches)
        && memo == Some(v.features) && disk[deviceId].body == memo && old(now) <= disk[deviceId].written
        && v.suggestions == Suggestions.Suggest(value, Names(v.features, kind, zone), 3)
      ensures !refresh && old(memo).Some? && value in Names(old(memo).value, kind, zone) ==>
        v == Accepted(old(memo).value) && View() == old(View())
      ensures !refresh && old(memo).Some? && value !in Names(old(memo).value, kind, zone) && PathFor(deviceId).Some? ==>
        SecondOpinion(v, kind, zone, value, second)
      ensures PathFor(deviceId).Some? && !refresh && old(memo).None? ==>
        var id := deviceId;
        var file := old(Fresh(id, now + first.wait));
        if old(Unreadable(id, first, now + first.wait)) then v.NoVerdict?
        else if file.Some? then
          && Judged(v, kind, zone, value, file, second)
          && (value in Names(file.value, kind, zone) ==> fetches == old(fetches))
        else Judged(v, kind, zone, value, if first.saveFails then None else first.answer, second)
      ensures PathFor(deviceId).Some? && refresh ==>
        Judged(v, kind, zone, value, if first.saveFails then None else first.answer, second)
        && (first.answer.Some? && !first.saveFails && value in Names(first.answer.value, kind, zone) ==>
             fetches == old(fetches) + 1)
      ensures PathFor(deviceId).None? && (refresh || old(memo).None?) ==> v.NoVerdict?
    {
      var r := LoadFeatures(first, refresh);
      if r.LoadFailed? {
        return NoVerdict;
      }
      if value in Names(r.features, kind, zone) {
        return Accepted(r.features);
      }
      r := LoadFeatures(second, true);
      if r.LoadFailed? {
        return NoVerdict;
      }
      if value in Names(r.features, kind, zone) {
        return Accepted(r.features);
      }
      var suggestions := Suggestions.DidYouMean(value, Names(r.features, kind, zone), 3);
      return Rejected(r.features, suggestions);
    }
  }

  // ----- whole runs -----------------------------------------------------------

  datatype Call = Call(refresh: bool, result: Result)

  /** The states a process goes through by loading features again and again. */
  predicate History(states: seq<State>, calls: seq<Call>, ttl: int) {
    && |states| == |calls| + 1
    && states[0].memo.None?
    && forall i | 0 <= i < |calls| :: Loads(states[i], calls[i].refresh, ttl, calls[i].result, states[i + 1])
  }

  /** In every run the memo and the file agree, and a successful load returns what
      both hold. */
  lemma {:induction false} MemoAgreesWithDisk(states: seq<State>, calls: seq<Call>, ttl: int, k: nat)
    requires History(states, calls, ttl) && k <= |calls|
    ensures Agree(states[k])
    ensures k > 0 && calls[k - 1].result.Ok? ==>
      states[k].memo == Some(calls[k - 1].result.features) == states[k].disk[states[k].deviceId].body
  {
    if k == 0 {
    } else {
      MemoAgreesWithDisk(states, calls, ttl, k - 1);
      assert Loads(states[k - 1], calls[k - 1].refresh, ttl, calls[k - 1].result, states[k]);
    }
  }

  /** Call j of the run got these features from a fresh file, or from the device. */
  predicate Source(states: seq<State>, calls: seq<Call>, ttl: int, j: nat, f: Features) {
    && j < |calls| && |states| == |calls| + 1
    && (|| (!calls[j].refresh && FromDisk(states[j], states[j + 1], ttl, f))
        || FromDevice(states[j], states[j + 1], f))
  }

  lemma {:induction false} MemoHasASource(states: seq<State>, calls: seq<Call>, ttl: int, k: nat)
    requires History(states, calls, ttl) && k <= |calls| && states[k].memo.Some?
    ensures exists j: nat :: j < k && Source(states, calls, ttl, j, states[k].memo.value)
  {
    assert Loads(states[k - 1], calls[k - 1].refresh, ttl, calls[k - 1].result, states[k]);
    if states[k - 1].memo == states[k].memo && !Source(states, calls, ttl, k - 1, states[k].memo.value) {
      MemoHasASource(states, calls, ttl, k - 1);
    } else {
      assert Source(states, calls, ttl, k - 1, states[k].memo.value);
    }
  }

  /** Every result was read from a file that was fresh at the time, or came from the
      device, in this call or an earlier one of the run; a refresh always asks. */
  lemma {:induction false} EveryResultHasASource(states: seq<State>, calls: seq<Call>, ttl: int, k: nat)
    requires History(states, calls, ttl) && k < |calls| && calls[k].result.Ok?
    ensures exists j: nat :: j <= k && Source(states, calls, ttl, j, calls[k].result.features)
    ensures calls[k].refresh ==> FromDevice(states[k], states[k + 1], calls[k].result.features)
  {
    assert Loads(states[k], calls[k].refresh, ttl, calls[k].result, states[k + 1]);
    MemoHasASource(states, calls, ttl, k + 1);
  }
}
