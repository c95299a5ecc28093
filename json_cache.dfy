/**
 * `JSONCache`: named JSON mappings loaded from `<storage><name>.json`, each
 * with a hook run on the mapping just before the mapping is written back.
 * The current bot stores under "/storage/", the earlier one under "storage/".
 */
module JsonCache {
  import opened Wrappers
  import opened Json
  import AuthFlows

  const CurrentStorage: string := "/storage/"
  const LegacyStorage: string := "storage/"

  /**
   * The pre-save hooks the bot registers: the no-op that stands in for a
   * missing hook, and the trackers' `prune_auth_flows`.
   */
  datatype Hook = NoOp | PruneExpired

  /** `if not do_before_save: _do_before_save = lambda _: None`. */
  function HookOrNoOp(doBeforeSave: Option<Hook>): (h: Hook)
    ensures doBeforeSave.None? ==> h == NoOp
    ensures doBeforeSave.Some? ==> h == doBeforeSave.value
  {
    doBeforeSave.GetOr(NoOp)
  }

  /** What a hook leaves in the mapping it is run on at time `now`. */
  function RunHook(hook: Hook, entries: map<string, Json>, now: real): (r: map<string, Json>)
    requires hook.PruneExpired? ==> AuthFlows.AllStamped(entries)
  {
    match hook
    case NoOp => entries
    case PruneExpired => AuthFlows.Unexpired(entries, now)
  }

  /** With no hook given, saving leaves the mapping as it is. */
  lemma MissingHookIsNoOp(entries: map<string, Json>, now: real)
    ensures RunHook(HookOrNoOp(None), entries, now) == entries
  {
  }

  /** `<storage><name>.json` names a different file for every cache name. */
  lemma {:induction false} PathInjective(storage: string, a: string, b: string)
    requires storage + a + ".json" == storage + b + ".json"
    ensures a == b
  {
    var s := storage + a + ".json";
    assert |a| == |b|;
    assert a == s[|storage|..|storage| + |a|];
    assert b == (storage + b + ".json")[|storage|..|storage| + |b|];
  }

  datatype Registration = Registration(hook: Hook, cache: Mapping)

  class JsonCache {
    const storage: string
    const disk: Disk
    var caches: map<string, Registration>
    /** Whether `save_data_loop` has been started and not cancelled. */
    var looping: bool

    function Path(name: string): string {
      storage + name + ".json"
    }

    ghost function Paths(): set<string>
      reads this
    {
      set name | name in caches :: Path(name)
    }

    ghost function Mappings(): set<Mapping>
      reads this
    {
      set name | name in caches :: caches[name].cache
    }

    /** Two names never share one mapping object. */
    ghost predicate Valid()
      reads this
    {
      forall a, b :: a in caches && b in caches && a != b ==> caches[a].cache != caches[b].cache
    }

    constructor (disk: Disk, storage: string)
      ensures this.disk == disk && this.storage == storage
      ensures caches == map[] && !looping
      ensures Valid()
    {
      this.disk := disk;
      this.storage := storage;
      caches := map[];
      looping := false;
    }

    /**
     * `register_cache`: load the named file (a missing file is `{}`), record
     * the hook and the loaded mapping under the name, replacing an earlier
     * registration, and return that very mapping. `None` stands for a file
     * that does not decode (`orjson.loads` raises) or decodes to something
     * other than a JSON object; the source raises `TypeError` at `len` on a
     * number, boolean or null, and keeps a top-level array or string, which
     * this model does not (its caches are mappings).
     */
    method RegisterCache(name: string, doBeforeSave: Option<Hook>) returns (cache: Option<Mapping>)
      requires Valid()
      modifies this`caches
      ensures Valid()
      ensures cache.None? <==> LoadObject(disk.files, Path(name)).None?
      ensures cache.None? ==> caches == old(caches)
      ensures cache.Some? ==> fresh(cache.value)
      ensures cache.Some? ==> cache.value.entries == LoadObject(disk.files, Path(name)).value
      ensures cache.Some? ==> caches == old(caches)[name := Registration(HookOrNoOp(doBeforeSave), cache.value)]
    {
      var loaded := LoadObject(disk.files, Path(name));
      if loaded.None? {
        return None;
      }
      var m := new Mapping(loaded.value);
      caches := caches[name := Registration(HookOrNoOp(doBeforeSave), m)];
      cache := Some(m);
    }

    /**
     * How far a run of `save_data` has got: the caches in `done` have run
     * their hooks and been written, the others are as they were.
     */
    ghost predicate SavedSoFar(done: set<string>, before: map<string, map<string, Json>>,
                               after: map<string, map<string, Json>>, files: map<string, Blob>)
      reads this, Mappings(), disk
    {
      HookedSoFar(done, before, after) && WrittenSoFar(done, after, files)
    }

    /** The caches in `done` hold what their hooks made of them, the others what they held. */
    ghost predicate HookedSoFar(done: set<string>, before: map<string, map<string, Json>>,
                                after: map<string, map<string, Json>>)
      reads this, Mappings()
    {
      && done <= caches.Keys
      && (forall name :: name in caches ==> name in before && name in after)
      && (forall name :: name in caches && name !in done ==> caches[name].cache.entries == before[name])
      && (forall name :: name in done ==> caches[name].cache.entries == after[name])
    }

    /** The files of the caches in `done` are written; every other file is as it was. */
    ghost predicate WrittenSoFar(done: set<string>, after: map<string, map<string, Json>>, files: map<string, Blob>)
      reads this, disk
    {
      && (forall name :: name in done ==> name in after && Path(name) in disk.files && disk.files[Path(name)] == Dumps(JObj(after[name])))
      && (forall p :: p in files && (forall name :: name in done ==> p != Path(name)) ==> p in disk.files && disk.files[p] == files[p])
      && (forall p :: p in disk.files ==> p in files || exists name :: name in done && p == Path(name))
    }

    /** One iteration of `save_data`: run the hook of `name`, then write its file. */
    method SaveOne(name: string, now: real, ghost done: set<string>, ghost before: map<string, map<string, Json>>,
                   ghost after: map<string, map<string, Json>>, ghost files: map<string, Blob>)
      requires Valid()
      requires name in caches && name !in done
      requires SavedSoFar(done, before, after, files)
      requires caches[name].hook.PruneExpired? ==> AuthFlows.AllStamped(before[name])
      requires after[name] == RunHook(caches[name].hook, before[name], now)
      modifies disk, caches[name].cache
      ensures SavedSoFar(done + {name}, before, after, files)
    {
      HookOne(name, now, done, before, after);
      WriteOne(name, done, after, files);
    }

    /** The hook step: only the mapping of `name` changes. */
    method HookOne(name: string, now: real, ghost done: set<string>, ghost before: map<string, map<string, Json>>,
                   ghost after: map<string, map<string, Json>>)
      requires Valid()
      requires name in caches && name !in done
      requires HookedSoFar(done, before, after)
      requires caches[name].hook.PruneExpired? ==> AuthFlows.AllStamped(before[name])
      requires after[name] == RunHook(caches[name].hook, before[name], now)
      modifies caches[name].cache
      ensures HookedSoFar(done + {name}, before, after)
    {
      var registration := caches[name];
      if registration.hook.PruneExpired? {
        AuthFlows.PruneInPlace(registration.cache, now);
      }
    }

    /** The write step: only the file of `name` changes. */
    method WriteOne(name: string, ghost done: set<string>, ghost after: map<string, map<string, Json>>,
                    ghost files: map<string, Blob>)
      requires name in caches && name in after && caches[name].cache.entries == after[name]
      requires WrittenSoFar(done, after, files)
      modifies disk
      ensures WrittenSoFar(done + {name}, after, files)
    {
      forall other | other in done
        ensures Path(other) != Path(name) || other == name
      {
        if Path(other) == Path(name) {
          PathInjective(storage, other, name);
        }
      }
      disk.files := disk.files[Path(name) := Dumps(JObj(caches[name].cache.entries))];
    }

    /**
     * `save_data`: for every cache, run its hook on the live mapping, then
     * overwrite its file with the mapping as the hook left it. A prune hook
     * needs timestamped entries (the source raises on any other).
     */
    method SaveData(now: real)
      requires Valid()
      requires forall name :: name in caches && caches[name].hook.PruneExpired? ==>
                 AuthFlows.AllStamped(caches[name].cache.entries)
      modifies disk, Mappings()
      ensures forall name :: name in caches ==>
                caches[name].cache.entries == RunHook(caches[name].hook, old(caches[name].cache.entries), now)
      ensures forall name :: name in caches ==>
                Path(name) in disk.files && disk.files[Path(name)] == Dumps(JObj(caches[name].cache.entries))
      ensures forall p :: p in old(disk.files) && p !in Paths() ==> p in disk.files && disk.files[p] == old(disk.files)[p]
      ensures forall p :: p in disk.files ==> p in old(disk.files) || p in Paths()
    {
      ghost var before := map name | name in caches :: caches[name].cache.entries;
      ghost var after := map name | name in caches :: RunHook(caches[name].hook, before[name], now);
      ghost var files := disk.files;
      var todo := caches.Keys;
      ghost var done: set<string> := {};
      while todo != {}
        invariant todo !! done && todo + done == caches.Keys
        invariant SavedSoFar(done, before, after, files)
        decreases todo
      {
        var name :| name in todo;
        SaveOne(name, now, done, before, after, files);
        done := done + {name};
        todo := todo - {name};
      }
    }

    /** `on_connect` starts the save loop; starting a running loop raises. */
    method OnConnect() returns (r: Outcome)
      modifies this`looping
      ensures r == (if old(looping) then Fail("RuntimeError") else Pass)
      ensures looping
    {
      if looping {
        return Fail("RuntimeError");
      }
      looping := true;
      r := Pass;
    }

    /**
     * `cog_unload` cancels the loop; the cancelled loop's `after_loop`
     * (`save_data_on_shutdown`) still saves once. A loop never started has
     * nothing to cancel.
     */
    method CogUnload(now: real)
      requires Valid()
      requires forall name :: name in caches && caches[name].hook.PruneExpired? ==>
                 AuthFlows.AllStamped(caches[name].cache.entries)
      modifies this`looping, disk, Mappings()
      ensures !looping
      ensures !old(looping) ==> disk.files == old(disk.files)
      ensures !old(looping) ==> forall name :: name in caches ==>
                caches[name].cache.entries == old(caches[name].cache.entries)
      ensures old(looping) ==> forall name :: name in caches ==>
                caches[name].cache.entries == RunHook(caches[name].hook, old(caches[name].cache.entries), now) &&
                Path(name) in disk.files && disk.files[Path(name)] == Dumps(JObj(caches[name].cache.entries))
      ensures old(looping) ==> forall p :: p in old(disk.files) && p !in Paths() ==>
                p in disk.files && disk.files[p] == old(disk.files)[p]
      ensures old(looping) ==> forall p :: p in disk.files ==> p in old(disk.files) || p in Paths()
    {
      if looping {
        looping := false;
        SaveData(now);
      }
    }
  }
}
