/** writeAuthFileAtomic: a temp file, then a rename, seen system call by system call. */
module AuthFile {
  import opened Common

  type Bytes = seq<bv8>

  /** A file; until it is synced a crash may leave anything in it. */
  datatype File = File(data: Bytes, synced: bool)

  type Dir = map<string, File>

  datatype Syscall = Marshal | Create | Write | Sync | Close | Rename

  /** The outside of one write: the temp name, the call that fails if any, how much of the data had reached
      the temp file while or until Write was under way, and whether the clean-up works. */
  datatype Faults = Faults(tmp: string, failing: Option<Syscall>, partial: nat, removeOk: bool)

  /** The target holds either what it held before or the whole new contents, synced; nothing but the
      temp file differs besides. */
  ghost predicate OldOrNew(before: Dir, d: Dir, path: string, tmp: string, raw: Bytes) {
    && (Same(before, d, path) || (path in d && d[path] == File(raw, true)))
    && forall name | name != path && name != tmp :: Same(before, d, name)
  }

  ghost predicate Same(before: Dir, d: Dir, name: string) {
    (name in d <==> name in before) && (name in d ==> d[name] == before[name])
  }

  /** What a reboot may find of the directory as it was in state d. */
  ghost predicate FoundOf(d: Dir, found: map<string, Bytes>) {
    found.Keys == d.Keys && forall name | name in d && d[name].synced :: found[name] == d[name].data
  }

  /** No directory update is durable until the directory is synced, and it never is: a reboot after a crash may
      find any of the states so far. */
  ghost predicate AfterCrash(states: seq<Dir>, found: map<string, Bytes>) {
    exists n | 0 <= n < |states| :: FoundOf(states[n], found)
  }

  /** In each of these states the target is synced and one of the versions. */
  ghost predicate Whole(states: seq<Dir>, path: string, versions: set<Bytes>) {
    forall n | 0 <= n < |states| && path in states[n] :: states[n][path].synced && states[n][path].data in versions
  }

  /** The temp file of a write that failed: as far as it was written, and synced only if Sync had succeeded. */
  function LeftOver(raw: Bytes, io: Faults): File {
    if io.failing == Some(Write) && io.partial < |raw| then File(raw[..io.partial], false)
    else File(raw, io.failing != Some(Write) && io.failing != Some(Sync))
  }

  class Disk {
    var dir: Dir
    ghost var history: seq<Dir>  // every state so far, up to the present one

    ghost predicate Valid()
      reads this
    {
      history != [] && history[|history| - 1] == dir
    }

    constructor (dir: Dir)
      ensures Valid() && this.dir == dir && history == [dir]
    {
      this.dir, history := dir, [dir];
    }

    method Become(d: Dir)
      modifies this
      ensures Valid() && dir == d && history == old(history) + [d]
    {
      dir := d;
      history := history + [d];
    }

    /** Success leaves the new contents and no temp file; a handled error leaves the old contents, and no
        temp file if it can be removed; at every instant between, the target is whole. */
    method WriteAuthFileAtomic(path: string, raw: Bytes, io: Faults) returns (err: Option<Syscall>)
      requires Valid() && io.tmp !in dir && io.tmp != path
      modifies this
      ensures Valid() && err == io.failing
      ensures err.None? ==> dir == old(dir)[path := File(raw, true)]
      ensures err.Some? && (io.removeOk || err == Some(Marshal) || err == Some(Create)) ==> dir == old(dir)
      ensures err.Some? && !io.removeOk ==> dir - {io.tmp} == old(dir)
      ensures err.Some? && !io.removeOk && err != Some(Marshal) && err != Some(Create) ==>
                io.tmp in dir && dir[io.tmp] == LeftOver(raw, io)
      ensures old(history) <= history
      ensures forall n | |old(history)| <= n < |history| :: OldOrNew(old(dir), history[n], path, io.tmp, raw)
    {
      if io.failing == Some(Marshal) || io.failing == Some(Create) {
        return io.failing;
      }
      ghost var before := dir;
      var tmp := io.tmp;
      Become(dir[tmp := File([], false)]);
      err := FillAndRename(path, raw, io);
      forall n | |old(history)| < n < |history| ensures OldOrNew(before, history[n], path, tmp, raw) {
        TempDoesNotCount(before, File([], false), history[n], path, tmp, raw);
      }
      if err.Some? && io.removeOk {
        Become(dir - {tmp});
        assert dir == before;
      }
    }

    method FillAndRename(path: string, raw: Bytes, io: Faults) returns (err: Option<Syscall>)
      requires Valid() && io.tmp in dir && io.tmp != path
      requires io.failing != Some(Marshal) && io.failing != Some(Create)
      modifies this
      ensures Valid() && err == io.failing
      ensures err.None? ==> dir == (old(dir) - {io.tmp})[path := File(raw, true)]
      ensures err.Some? ==> io.tmp in dir && dir - {io.tmp} == old(dir) - {io.tmp} && dir[io.tmp] == LeftOver(raw, io)
      ensures old(history) <= history
      ensures forall n | |old(history)| <= n < |history| :: OldOrNew(old(dir), history[n], path, io.tmp, raw)
    {
      var tmp := io.tmp;
      Become(dir[tmp := File(raw[..if io.partial < |raw| then io.partial else |raw|], false)]);
      if io.failing == Some(Write) {
        return io.failing;
      }
      Become(dir[tmp := File(raw, false)]);
      if io.failing == Some(Sync) {
        return io.failing;
      }
      Become(dir[tmp := dir[tmp].(synced := true)]);
      if io.failing != None {
        return io.failing;  // Close or Rename
      }
      Become((dir - {tmp})[path := dir[tmp]]);
      return None;
    }
  }

  lemma TempDoesNotCount(before: Dir, temp: File, d: Dir, path: string, tmp: string, raw: Bytes)
    requires path != tmp && OldOrNew(before[tmp := temp], d, path, tmp, raw)
    ensures OldOrNew(before, d, path, tmp, raw)
  {
    forall name | name != tmp ensures Same(before, d, name) <==> Same(before[tmp := temp], d, name) {
    }
  }

  /** Hence a crash at any instant of the write, losing any of its directory updates and all that was not synced,
      leaves the target entirely old or entirely new, and loses no other file. */
  lemma CrashFindsOldOrNew(before: Dir, states: seq<Dir>, path: string, tmp: string, raw: Bytes, found: map<string, Bytes>)
    requires forall n | 0 <= n < |states| :: OldOrNew(before, states[n], path, tmp, raw)
    requires AfterCrash(states, found) && (path in before ==> before[path].synced)
    ensures path in found ==> found[path] == raw || (path in before && found[path] == before[path].data)
    ensures path in before ==> path in found
    ensures forall name | name in before && name != tmp && before[name].synced ::
              name in found && (name != path ==> found[name] == before[name].data)
  {
    var n :| 0 <= n < |states| && FoundOf(states[n], found);
    forall name | name in before && name != tmp && before[name].synced
      ensures name in found && (name != path ==> found[name] == before[name].data)
    {
      if name != path { assert Same(before, states[n], name); }
    }
  }

  /** One write after another: a crash at any time finds one of the versions written so far, entirely. */
  method WriteAgain(disk: Disk, path: string, raw: Bytes, io: Faults, ghost versions: set<Bytes>) returns (err: Option<Syscall>)
    requires disk.Valid() && io.tmp !in disk.dir && io.tmp != path && Whole(disk.history, path, versions)
    modifies disk
    ensures disk.Valid() && err == io.failing && old(disk.history) <= disk.history
    ensures Whole(disk.history, path, versions + {raw})
    ensures forall found | AfterCrash(disk.history, found) && path in found :: found[path] in versions + {raw}
    ensures err.None? ==> path in disk.dir && disk.dir[path] == File(raw, true)
  {
    err := disk.WriteAuthFileAtomic(path, raw, io);
    forall n | 0 <= n < |disk.history| && path in disk.history[n]
      ensures disk.history[n][path].synced && disk.history[n][path].data in versions + {raw}
    {
      if n >= |old(disk.history)| {
        assert OldOrNew(old(disk.dir), disk.history[n], path, io.tmp, raw);
      }
    }
  }
}
