/**
 Snapshots, restores and imports: what is on disk, and whether the database handle is open,
 at every point of an operation any step of which may throw.

 A rename and an unlink either happen or do not; a copy or a snapshot that throws may leave
 debris at its target. A database is its file together with its write-ahead log; both are bytes,
 and what the store reads out of them is a parameter.
 */
module Swap {
  import opened Collections
  import opened Wrappers
  import opened Retention

  type Bytes = seq<int>

  datatype Path = Live | Wal | Shm | Incoming | Snapshot(id: string) | Upload(token: string)

  datatype World = World(files: map<Path, Bytes>, open: bool)

  /** The steps of an operation that can throw. */
  datatype Site =
    | Inspect | MakeDir | TakeSnapshot | DropPartial | ReadSettings
    | ReadAdmin | ReadViewer | Stage | DropStaged
    | CloseHandle | DropWal | DropShm | Promote | Reopen | ReopenAgain
    | RereadAdmin | RereadViewer | DropUpload

  /**
   What an operation meets: the steps that throw, what a failed write leaves behind, whether
   there is room, what `inspect` says of a file, what a file and a log read together amount to and
   whether a close merges them, what `VACUUM INTO` writes, and the two password hashes a database
   carries.
   */
  datatype Env = Env(
    faults: set<Site>,
    debris: Option<Bytes>,
    room: bool,
    fit: Bytes -> bool,
    merge: (Bytes, Bytes) -> Bytes,
    merges: bool,
    vacuum: Bytes -> Bytes,
    admin: Bytes -> Option<string>,
    viewer: Bytes -> Option<string>)

  datatype Refusal = NoSuchFile | TooLarge | Unfit | Conflict | NoRoom | Threw(site: Site) | PruneThrew

  datatype Outcome =
    | Restored(undo: string, adminChanged: bool, viewerChanged: bool)
    | Refused(why: Refusal)
    | SwapFailed(undo: string, reopened: bool)

  predicate Same(a: map<Path, Bytes>, b: map<Path, Bytes>, p: Path) {
    (p in a <==> p in b) && (p in a ==> a[p] == b[p])
  }

  /** The two disks agree except on some paths. */
  ghost predicate SameBut(a: map<Path, Bytes>, b: map<Path, Bytes>, except: set<Path>) {
    forall p :: p !in except ==> Same(a, b, p)
  }

  lemma {:induction false} SameButOn(a: map<Path, Bytes>, b: map<Path, Bytes>, c: map<Path, Bytes>, d: set<Path>,
                                     e: set<Path>)
    requires SameBut(a, b, d) && SameBut(b, c, e)
    ensures SameBut(a, c, d + e)
  {
    forall p | p !in d + e
      ensures Same(a, c, p)
    {
      assert Same(a, b, p) && Same(b, c, p);
    }
  }

  lemma {:induction false} SameButMore(a: map<Path, Bytes>, b: map<Path, Bytes>, except: set<Path>, more: set<Path>)
    ensures SameBut(a, b, except) ==> SameBut(a, b, except + more)
  {
  }

  /** The database as whoever opens it finds it: the live file, with the log if there is one. */
  function Database(env: Env, files: map<Path, Bytes>): Bytes {
    if Live !in files then []
    else if Wal in files then env.merge(files[Live], files[Wal])
    else files[Live]
  }

  // ---------------------------------------------------------------- what must hold throughout

  /** What is at stake in a swap: what it meets, the state before it, the candidate, and where its undo goes. */
  datatype Stake = Stake(env: Env, was: World, incoming: Bytes, undo: Path)

  function Before(k: Stake): Bytes {
    Database(k.env, k.was.files)
  }

  predicate HasUndo(files: map<Path, Bytes>, k: Stake) {
    k.undo in files && files[k.undo] == k.env.vacuum(Before(k))
  }

  /**
   Whoever opens the database finds the whole old one or the whole candidate; and once the handle or
   the database is not what it was, the undo copy exists.
   */
  predicate Safe(w: World, k: Stake) {
    && Live in w.files
    && (Database(k.env, w.files) == Before(k) || Database(k.env, w.files) == k.incoming)
    && (w.open != k.was.open || Database(k.env, w.files) != Before(k) ==> HasUndo(w.files, k))
  }

  ghost predicate Extends(before: seq<World>, after: seq<World>) {
    |before| <= |after| && after[..|before|] == before
  }

  /** The history went on from `before` to `after` through safe states only. */
  ghost predicate Safely(before: seq<World>, after: seq<World>, k: Stake) {
    Extends(before, after) && forall i :: |before| <= i < |after| ==> Safe(after[i], k)
  }

  lemma {:induction false} SafelyOn(a: seq<World>, b: seq<World>, c: seq<World>, k: Stake)
    requires Extends(a, b) && Extends(b, c)
    ensures Extends(a, c) && (Safely(a, c, k) <==> Safely(a, b, k) && Safely(b, c, k))
  {
    assert c[..|a|] == c[..|b|][..|a|];
    assert forall i :: 0 <= i < |b| ==> c[i] == c[..|b|][i];
    if Safely(a, b, k) && Safely(b, c, k) {
      forall i | |a| <= i < |c|
        ensures Safe(c[i], k)
      {
        assert i < |b| ==> c[i] == b[i];
      }
    }
    if Safely(a, c, k) {
      forall i | |a| <= i < |b|
        ensures Safe(b[i], k)
      {
        assert c[i] == b[i];
      }
    }
  }

  lemma {:induction false} SafeStep(a: seq<World>, b: seq<World>, w: World, k: Stake)
    requires Extends(a, b)
    ensures Extends(a, b + [w]) && (Safely(a, b + [w], k) <==> Safely(a, b, k) && Safe(w, k))
  {
    assert (b + [w])[..|b|] == b;
    SafelyOn(a, b, b + [w], k);
    assert (b + [w])[|b|] == w;
  }

  /** The live file and its log are as they were. */
  predicate Intact(files: map<Path, Bytes>, k: Stake) {
    Live in k.was.files && Same(files, k.was.files, Live) && Same(files, k.was.files, Wal)
  }

  // ---------------------------------------------------------------- when each part goes through

  /** The undo snapshot gets written. */
  predicate SnapshotTaken(env: Env, was: World, id: string) {
    && MakeDir !in env.faults && Snapshot(id) !in was.files && env.room
    && was.open && TakeSnapshot !in env.faults
  }

  /** Everything before the close goes through. */
  predicate Prepared(env: Env, was: World, candidate: Path, undo: string) {
    && candidate in was.files && Inspect !in env.faults && env.fit(was.files[candidate])
    && SnapshotTaken(env, was, undo)
    && ReadAdmin !in env.faults && ReadViewer !in env.faults && Stage !in env.faults
  }

  /** The candidate reaches the live path. */
  predicate Moved(env: Env, was: map<Path, Bytes>) {
    Cleared(env, was) && Promote !in env.faults
  }

  /** The handle is closed and the old database's side files are gone. */
  predicate Cleared(env: Env, was: map<Path, Bytes>) {
    && CloseHandle !in env.faults
    && (DropWal in env.faults ==> Wal !in was || env.merges)
    && (DropShm in env.faults ==> Shm !in was)
  }

  /** The disk with the log merged into the file. */
  function Merged(env: Env, files: map<Path, Bytes>): map<Path, Bytes>
    requires Live in files
  {
    if Wal in files then (files - {Wal})[Live := env.merge(files[Live], files[Wal])] else files
  }

  lemma {:induction false} MovedExactly(was: map<Path, Bytes>, cleared: map<Path, Bytes>, incoming: Bytes)
    requires SameBut(cleared, was, {Live, Wal, Shm}) && Wal !in cleared && Shm !in cleared
    ensures (cleared - {Incoming})[Live := incoming] == (was - {Wal, Shm, Incoming})[Live := incoming]
  {
    var a, b := (cleared - {Incoming})[Live := incoming], (was - {Wal, Shm, Incoming})[Live := incoming];
    forall p: Path
      ensures p in a <==> p in b
      ensures p in a ==> a[p] == b[p]
    {
      assert p !in {Live, Wal, Shm} ==> Same(cleared, was, p);
    }
  }

  /** The log is unlinked although the close had not merged it. */
  predicate LogLost(env: Env, was: map<Path, Bytes>) {
    CloseHandle !in env.faults && Wal in was && !env.merges && DropWal !in env.faults
  }

  /** The close, the clearing, the move and the reopen all go through. */
  predicate Exchanged(env: Env, was: map<Path, Bytes>) {
    Moved(env, was) && Reopen !in env.faults
  }

  predicate Reread(env: Env) {
    RereadAdmin !in env.faults && RereadViewer !in env.faults
  }

  /** A state on the way holds neither the old database nor the candidate. */
  predicate Exposed(env: Env, was: World, candidate: Path, undo: string) {
    && Prepared(env, was, candidate, undo) && LogLost(env, was.files)
    && Live in was.files
    && was.files[Live] != Database(env, was.files) && was.files[Live] != was.files[candidate]
  }

  /** The files once the candidate is live. */
  function AfterMove(env: Env, was: map<Path, Bytes>, candidate: Path, consume: bool, undo: string): map<Path, Bytes>
    requires candidate in was
  {
    ((if consume then was - {candidate} else was) - {Wal, Shm, Incoming})
    [Snapshot(undo) := env.vacuum(Database(env, was))][Live := was[candidate]]
  }

  /**
   What a swap of one candidate comes to, whichever of its steps throw: its outcome, the database it
   leaves, the undo, the candidate, and what it reports.
   */
  ghost predicate SwapEffect(env: Env, was: World, now: World, candidate: Path, consume: bool, undo: string,
                             out: Outcome)
    requires candidate in was.files && Live in was.files
  {
    var prepared := Prepared(env, was, candidate, undo);
    && (out.SwapFailed? <==> prepared && !Exchanged(env, was.files))
    && (out.Restored? <==> prepared && Exchanged(env, was.files) && Reread(env))
    && (!prepared ==>
        && now.open == was.open
        && SameBut(now.files, was.files, {Incoming, Snapshot(undo)} + if consume then {candidate} else {}))
    && (Snapshot(undo) in was.files ==> SameBut(now.files, was.files, if consume then {candidate} else {}))
    && (prepared ==>
        && Snapshot(undo) in now.files && now.files[Snapshot(undo)] == env.vacuum(Database(env, was.files))
        && (if consume then candidate !in now.files else Same(now.files, was.files, candidate))
        && Live in now.files && Database(env, now.files) ==
           if Moved(env, was.files) then was.files[candidate]
           else if LogLost(env, was.files) then was.files[Live]
           else Database(env, was.files))
    && (prepared && Moved(env, was.files) ==> now.files == AfterMove(env, was.files, candidate, consume, undo))
    && (out.SwapFailed? ==> out.undo == undo && out.reopened == now.open == (ReopenAgain !in env.faults))
    && (out.Restored? ==>
        && now.open && out.undo == undo
        && out.adminChanged == (env.admin(was.files[candidate]) != env.admin(Database(env, was.files)))
        && out.viewerChanged == (env.viewer(was.files[candidate]) != env.viewer(Database(env, was.files))))
  }

  /** Once everything before the close has gone through, the rest of the swap comes to its effect. */
  lemma {:induction false} SwapComesTo(env: Env, was: World, staged: map<Path, Bytes>, now: World, candidate: Path,
                                       consume: bool, undo: string, out: Outcome)
    requires Live in was.files && candidate in was.files && (candidate.Snapshot? || candidate.Upload?)
    requires Prepared(env, was, candidate, undo)
    requires staged == (if consume then was.files - {candidate} else was.files)
                       [Snapshot(undo) := env.vacuum(Database(env, was.files))][Incoming := was.files[candidate]]
    requires out.SwapFailed? == !Exchanged(env, staged) && out.Restored? == (Exchanged(env, staged) && Reread(env))
    requires Moved(env, staged) ==> now.files == (staged - {Wal, Shm, Incoming})[Live := was.files[candidate]]
    requires !Moved(env, staged) ==>
               && SameBut(now.files, staged, {Live, Wal, Shm}) && Live in now.files
               && Database(env, now.files) ==
                  if LogLost(env, staged) then staged[Live] else Database(env, was.files)
    requires out.SwapFailed? ==> out.undo == undo && out.reopened == now.open == (ReopenAgain !in env.faults)
    requires out.Restored? ==>
               && now.open && out.undo == undo
               && out.adminChanged == (env.admin(was.files[candidate]) != env.admin(Database(env, was.files)))
               && out.viewerChanged == (env.viewer(was.files[candidate]) != env.viewer(Database(env, was.files)))
    ensures SwapEffect(env, was, now, candidate, consume, undo, out)
  {
    if !Moved(env, staged) {
      assert Same(now.files, staged, candidate) && Same(now.files, staged, Snapshot(undo));
    } else {
      assert now.files == AfterMove(env, was.files, candidate, consume, undo);
    }
  }

  // ---------------------------------------------------------------- retention on the disk

  /** The policy, the instant it is applied at, and how a file name is read. */
  datatype Policy = Policy(keepLatest: int, maxAgeDays: int, now: int, parse: NameParser)

  ghost predicate Listing(names: seq<string>, files: map<Path, Bytes>) {
    && (forall i, j :: 0 <= i < j < |names| ==> names[i] != names[j])
    && forall id :: id in names <==> Snapshot(id) in files
  }

  /** What retention unlinks of a directory listing, in order. */
  function Doomed(policy: Policy, names: seq<string>): seq<Info> {
    Removed(Parsed(policy.parse, names), policy.keepLatest, Cutoff(policy.maxAgeDays, policy.now))
  }

  function Paths(list: seq<Info>): set<Path> {
    set x | x in list :: Snapshot(x.id)
  }

  lemma {:induction false} PathsGrow(list: seq<Info>, n: nat)
    requires n < |list|
    ensures Paths(list[..n + 1]) == Paths(list[..n]) + {Snapshot(list[n].id)}
  {
    assert list[..n + 1] == list[..n] + [list[n]];
  }

  /** The first `n` of the doomed snapshots of a listing are gone, and nothing else is. */
  ghost predicate Pruned(policy: Policy, was: map<Path, Bytes>, files: map<Path, Bytes>, names: seq<string>, n: nat) {
    Listing(names, was) && n <= |Doomed(policy, names)| && files == was - Paths(Doomed(policy, names)[..n])
  }

  /**
   Why the undo is written with `force`: were retention run after it, the snapshot about to be
   restored would be unlinked exactly when it is outside either bound (unless it is the newest,
   or itself the newest undo).
   */
  lemma {:induction false} UnforcedDoomsCandidate(policy: Policy, names: seq<string>, i: nat)
    requires forall a, b :: 0 <= a < b < |names| ==> names[a] != names[b]
    requires 0 < i < |NewestFirst(Parsed(policy.parse, names))|
    requires Some(NewestFirst(Parsed(policy.parse, names))[i].id) != UndoOf(NewestFirst(Parsed(policy.parse, names)))
    ensures var candidate := NewestFirst(Parsed(policy.parse, names))[i];
            candidate in Doomed(policy, names)
            <==> i >= policy.keepLatest || policy.now - candidate.createdAt > policy.maxAgeDays * 24 * 60 * 60 * 1000
  {
    var list, cutoff := Parsed(policy.parse, names), Cutoff(policy.maxAgeDays, policy.now);
    ParsedDistinct(policy.parse, names);
    SortMeans(list);
    var candidate := NewestFirst(list)[i];
    assert candidate in NewestFirst(list);
    OthersByBothBounds(list, policy.keepLatest, cutoff, i);
    EverySnapshotIsDecided(list, policy.keepLatest, cutoff, candidate);
  }

  class Installation {
    var files: map<Path, Bytes>
    var open: bool
    /** The label of the whole-database operation that is running, if one is. */
    var exclusive: Option<string>
    /** Every state the disk and the handle have been in. */
    ghost var seen: seq<World>

    ghost function Now(): World
      reads this
    {
      World(files, open)
    }

    constructor Holding(initial: map<Path, Bytes>)
      ensures files == initial && open && exclusive == None && seen == [World(initial, true)]
    {
      files, open, exclusive := initial, true, None;
      seen := [World(initial, true)];
    }

    // -------------------------------------------------------------- single steps

    /** A path that is not there is no error. */
    method Unlink(p: Path, fault: bool) returns (ok: bool)
      modifies `files, `seen
      ensures ok == !(fault && p in old(files))
      ensures files == if ok then old(files) - {p} else old(files)
      ensures seen == old(seen) + [Now()]
    {
      ok := !(fault && p in files);
      if ok {
        files := files - {p};
      }
      seen := seen + [Now()];
    }

    /** Atomic; a source that is not there is an error. */
    method Rename(from: Path, to: Path, fault: bool) returns (ok: bool)
      requires from != to
      modifies `files, `seen
      ensures ok == (!fault && from in old(files))
      ensures files == if ok then (old(files) - {from})[to := old(files)[from]] else old(files)
      ensures seen == old(seen) + [Now()]
    {
      ok := !fault && from in files;
      if ok {
        files := (files - {from})[to := files[from]];
      }
      seen := seen + [Now()];
    }

    /** A copy or a snapshot; one that throws may leave debris at its target. */
    method Write(p: Path, content: Bytes, fault: bool, debris: Option<Bytes>) returns (ok: bool)
      modifies `files, `seen
      ensures ok == !fault
      ensures files == if ok then old(files)[p := content]
                       else if debris.Some? then old(files)[p := debris.value]
                       else old(files)
      ensures seen == old(seen) + [Now()]
    {
      ok := !fault;
      if ok {
        files := files[p := content];
      } else if debris.Some? {
        files := files[p := debris.value];
      }
      seen := seen + [Now()];
    }

    /** A close may merge the log into the file; one that throws leaves everything as it was. */
    method ShutHandle(env: Env) returns (ok: bool)
      requires Live in files
      modifies `files, `open, `seen
      ensures ok == (CloseHandle !in env.faults) && open == (!ok && old(open))
      ensures Live in files && files == if ok && env.merges then Merged(env, old(files)) else old(files)
      ensures seen == old(seen) + [Now()]
    {
      ok := CloseHandle !in env.faults;
      if ok {
        open := false;
        if env.merges && Wal in files {
          files := (files - {Wal})[Live := env.merge(files[Live], files[Wal])];
        }
      }
      seen := seen + [Now()];
    }

    /** Closes what is open, then opens; a throw leaves it shut. */
    method OpenHandle(fault: bool) returns (ok: bool)
      modifies `open, `seen
      ensures ok == !fault && open == ok
      ensures seen == old(seen) + [Now()]
    {
      ok := !fault;
      open := ok;
      seen := seen + [Now()];
    }

    // -------------------------------------------------------------- the undo snapshot

    /** The part of `writeSnapshot` that writes: nothing but the new file is touched. */
    method TakeCopy(id: string, env: Env, ghost k: Stake) returns (r: Result<string, Refusal>)
      requires Intact(files, k) && open == k.was.open
      modifies `files, `seen
      ensures Safely(old(seen), seen, k)
      ensures r.Ok? == SnapshotTaken(env, old(Now()), id)
      ensures r.Ok? ==> r.value == id && files == old(files)[Snapshot(id) := env.vacuum(Database(env, old(files)))]
      ensures SameBut(files, old(files), {Snapshot(id)})
      ensures Snapshot(id) in old(files) ==> files == old(files)
    {
      ghost var before := seen;
      if MakeDir in env.faults {
        return Err(Threw(MakeDir));
      }
      if Snapshot(id) in files {
        return Err(Conflict);
      }
      if !env.room {
        return Err(NoRoom);
      }
      var ok := Write(Snapshot(id), env.vacuum(Database(env, files)), TakeSnapshot in env.faults || !open, env.debris);
      SafeStep(before, before, Now(), k);
      if !ok {
        ghost var partial := seen;
        var dropped := Unlink(Snapshot(id), DropPartial in env.faults);
        SafeStep(before, partial, Now(), k);
        return Err(Threw(if dropped then TakeSnapshot else DropPartial));
      }
      return Ok(id);
    }

    /** Every snapshot name in the directory, once, in whatever order. */
    method ReadDir() returns (names: seq<string>)
      ensures Listing(names, files)
    {
      names := [];
      var rest := files.Keys;
      while rest != {}
        invariant rest <= files.Keys
        invariant forall i, j :: 0 <= i < j < |names| ==> names[i] != names[j]
        invariant forall id :: id in names <==> Snapshot(id) in files && Snapshot(id) !in rest
        decreases rest
      {
        var p := Any(rest);
        rest := rest - {p};
        if p.Snapshot? {
          names := names + [p.id];
        }
      }
    }

    /** One unlink after another, stopping at the first that throws; `n` is how many were done. */
    method UnlinkAll(removed: seq<Info>, stuck: set<string>, ghost k: Stake) returns (n: nat)
      requires Intact(files, k) && open == k.was.open
      modifies `files, `seen
      ensures Safely(old(seen), seen, k)
      ensures n <= |removed| && files == old(files) - Paths(removed[..n])
    {
      ghost var before, was := seen, files;
      n := 0;
      while n < |removed|
        invariant n <= |removed| && files == was - Paths(removed[..n])
        invariant Intact(files, k) && Safely(before, seen, k)
      {
        ghost var soFar := seen;
        PathsGrow(removed, n);
        var ok := Unlink(Snapshot(removed[n].id), removed[n].id in stuck);
        SafeStep(before, soFar, Now(), k);
        if !ok {
          return;
        }
        n := n + 1;
      }
    }

    /** Retention over whatever order the directory is listed in. */
    method Prune(policy: Policy, stuck: set<string>, ghost k: Stake) returns (ok: bool)
      requires Intact(files, k) && open == k.was.open
      modifies `files, `seen
      ensures Safely(old(seen), seen, k)
      ensures Intact(files, k)
      ensures exists names, n: nat ::
                Pruned(policy, old(files), files, names, n) && (ok ==> n == |Doomed(policy, names)|)
    {
      var names := ReadDir();
      var removed, kept := ApplyRetention(policy.parse, names, policy.keepLatest, policy.maxAgeDays, policy.now);
      var n := UnlinkAll(removed, stuck, k);
      ok := n == |removed|;
      assert Pruned(policy, old(files), files, names, n);
    }

    /** `writeSnapshot`: with `force`, retention is not run. */
    method WriteSnapshot(id: string, force: bool, policy: Policy, stuck: set<string>, env: Env, ghost k: Stake)
      returns (r: Result<string, Refusal>)
      requires Intact(files, k) && open == k.was.open
      modifies `files, `seen
      ensures Safely(old(seen), seen, k)
      ensures Intact(files, k)
      ensures force ==> r.Ok? == SnapshotTaken(env, old(Now()), id)
      ensures force && r.Ok? ==> files == old(files)[Snapshot(id) := env.vacuum(Database(env, old(files)))]
      ensures !SnapshotTaken(env, old(Now()), id) || force ==> SameBut(files, old(files), {Snapshot(id)})
      ensures Snapshot(id) in old(files) ==> files == old(files)
      ensures r.Ok? ==> r.value == id && SnapshotTaken(env, old(Now()), id)
      ensures !force && r.Ok? ==>
                var written := old(files)[Snapshot(id) := env.vacuum(Database(env, old(files)))];
                exists names :: Listing(names, written) && files == written - Paths(Doomed(policy, names))
    {
      ghost var before := seen;
      r := TakeCopy(id, env, k);
      assert Same(files, old(files), Live) && Same(files, old(files), Wal);
      if r.Err? || force {
        return;
      }
      if ReadSettings in env.faults {
        return Err(Threw(ReadSettings));
      }
      ghost var written, withCopy := seen, files;
      var ok := Prune(policy, stuck, k);
      SafelyOn(before, written, seen, k);
      if !ok {
        return Err(PruneThrew);
      }
      ghost var names, n: nat :| Pruned(policy, withCopy, files, names, n) && (ok ==> n == |Doomed(policy, names)|);
      assert Doomed(policy, names)[..n] == Doomed(policy, names);
    }

    // -------------------------------------------------------------- the swap

    /** The candidate beside the live file, under a name nothing reads. */
    method StageCandidate(candidate: Path, consume: bool, env: Env, ghost k: Stake) returns (ok: bool)
      requires candidate.Snapshot? || candidate.Upload?
      requires candidate in files && Intact(files, k) && open == k.was.open
      modifies `files, `seen
      ensures Safely(old(seen), seen, k)
      ensures ok == (Stage !in env.faults)
      ensures ok ==>
                files == (if consume then old(files) - {candidate} else old(files))[Incoming := old(files)[candidate]]
      ensures !ok ==> SameBut(files, old(files), {Incoming})
    {
      ghost var before := seen;
      if consume {
        ok := Rename(candidate, Incoming, Stage in env.faults);
      } else {
        ok := Write(Incoming, files[candidate], Stage in env.faults, env.debris);
      }
      SafeStep(before, before, Now(), k);
      if !ok {
        ghost var partial := seen;
        var dropped := Unlink(Incoming, DropStaged in env.faults);
        SafeStep(before, partial, Now(), k);
      }
    }

    /** Everything before the close: the judgement, the undo, the two password hashes, the staging. */
    method Prepare(candidate: Path, consume: bool, undo: string, policy: Policy, env: Env, ghost k: Stake)
      returns (r: Result<(Option<string>, Option<string>), Refusal>)
      requires Live in files && candidate in files && (candidate.Snapshot? || candidate.Upload?)
      requires k == Stake(env, Now(), files[candidate], Snapshot(undo))
      modifies `files, `seen
      ensures Safely(old(seen), seen, k)
      ensures r.Ok? == Prepared(env, old(Now()), candidate, undo)
      ensures r.Ok? ==> r.value == (env.admin(Database(env, old(files))), env.viewer(Database(env, old(files))))
      ensures r.Ok? ==>
                files == (if consume then old(files) - {candidate} else old(files))
                         [Snapshot(undo) := env.vacuum(Database(env, old(files)))][Incoming := old(files)[candidate]]
      ensures r.Err? ==> SameBut(files, old(files), {Incoming, Snapshot(undo)})
      ensures Snapshot(undo) in old(files) ==> files == old(files)
    {
      if Inspect in env.faults {
        return Err(Threw(Inspect));
      }
      if !env.fit(files[candidate]) {
        return Err(Unfit);
      }
      ghost var before, was := seen, files;
      var taken := WriteSnapshot(undo, true, policy, {}, env, k);
      if taken.Err? {
        return Err(taken.error);
      }
      if ReadAdmin in env.faults {
        return Err(Threw(ReadAdmin));
      }
      var adminHash := env.admin(Database(env, files));
      if ReadViewer in env.faults {
        return Err(Threw(ReadViewer));
      }
      var viewerHash := env.viewer(Database(env, files));
      ghost var snapped, withUndo := seen, files;
      var staged := StageCandidate(candidate, consume, env, k);
      SafelyOn(before, snapped, seen, k);
      if !staged {
        SameButOn(files, withUndo, was, {Incoming}, {Snapshot(undo)});
        assert {Incoming} + {Snapshot(undo)} == {Incoming, Snapshot(undo)};
        return Err(Threw(Stage));
      }
      return Ok((adminHash, viewerHash));
    }

    /** The handle closed and the log gone, merged or not. */
    method DropLog(env: Env, ghost k: Stake) returns (ok: bool)
      requires env == k.env && Intact(files, k) && k.undo.Snapshot? && HasUndo(files, k)
      modifies `files, `open, `seen
      ensures Extends(old(seen), seen)
      ensures Safely(old(seen), seen, k) <==>
              !(LogLost(env, old(files)) && old(files)[Live] != Before(k) && old(files)[Live] != k.incoming)
      ensures ok == (CloseHandle !in env.faults && (DropWal in env.faults ==> Wal !in old(files) || env.merges))
      ensures SameBut(files, old(files), {Live, Wal}) && Live in files
      ensures ok ==> Wal !in files
      ensures Database(env, files) == if LogLost(env, old(files)) then old(files)[Live] else Before(k)
    {
      ghost var before := seen;
      ok := ShutHandle(env);
      SafeStep(before, before, Now(), k);
      if !ok {
        return;
      }
      ghost var shut := seen;
      ok := Unlink(Wal, DropWal in env.faults);
      SafeStep(before, shut, Now(), k);
    }

    /** The handle closed and the old database's side files gone. */
    method ClearAway(env: Env, ghost k: Stake) returns (ok: bool)
      requires env == k.env && Intact(files, k) && k.undo.Snapshot? && HasUndo(files, k)
      modifies `files, `open, `seen
      ensures Extends(old(seen), seen)
      ensures Safely(old(seen), seen, k) <==>
              !(LogLost(env, old(files)) && old(files)[Live] != Before(k) && old(files)[Live] != k.incoming)
      ensures ok == Cleared(env, old(files))
      ensures SameBut(files, old(files), {Live, Wal, Shm}) && Live in files
      ensures ok ==> Wal !in files && Shm !in files
      ensures Database(env, files) == if LogLost(env, old(files)) then old(files)[Live] else Before(k)
    {
      ghost var before := seen;
      ok := DropLog(env, k);
      assert Same(files, old(files), k.undo) && Same(files, old(files), Shm);
      if !ok {
        return;
      }
      ghost var noLog := seen;
      ok := Unlink(Shm, DropShm in env.faults);
      SafeStep(before, noLog, Now(), k);
    }

    /** From the close to the reopen. */
    method Exchange(env: Env, ghost k: Stake) returns (ok: bool)
      requires env == k.env && Intact(files, k) && k.undo.Snapshot? && HasUndo(files, k)
      requires Incoming in files && files[Incoming] == k.incoming
      modifies `files, `open, `seen
      ensures Extends(old(seen), seen)
      ensures Safely(old(seen), seen, k) <==>
              !(LogLost(env, old(files)) && old(files)[Live] != Before(k) && old(files)[Live] != k.incoming)
      ensures ok == Exchanged(env, old(files))
      ensures ok ==> open
      ensures Moved(env, old(files)) ==> files == (old(files) - {Wal, Shm, Incoming})[Live := k.incoming]
      ensures !Moved(env, old(files)) ==>
                && SameBut(files, old(files), {Live, Wal, Shm}) && Live in files
                && Database(env, files) == if LogLost(env, old(files)) then old(files)[Live] else Before(k)
    {
      ghost var before := seen;
      ok := ClearAway(env, k);
      assert Same(files, old(files), k.undo) && Same(files, old(files), Incoming);
      if !ok {
        return;
      }
      ghost var cleared, was := seen, files;
      ok := Rename(Incoming, Live, Promote in env.faults);
      SafeStep(before, cleared, Now(), k);
      if !ok {
        return;
      }
      MovedExactly(old(files), was, k.incoming);
      ghost var moved := seen;
      ok := OpenHandle(Reopen in env.faults);
      SafeStep(before, moved, Now(), k);
    }

    /** From the close to the answer, with the password hashes read before it. */
    method Conclude(undo: string, hashes: (Option<string>, Option<string>), env: Env, ghost k: Stake)
      returns (out: Outcome)
      requires env == k.env && Intact(files, k) && k.undo.Snapshot? && HasUndo(files, k)
      requires Incoming in files && files[Incoming] == k.incoming
      modifies `files, `open, `seen
      ensures Extends(old(seen), seen)
      ensures Safely(old(seen), seen, k) <==>
              !(LogLost(env, old(files)) && old(files)[Live] != Before(k) && old(files)[Live] != k.incoming)
      ensures out.SwapFailed? == !Exchanged(env, old(files))
      ensures out.Restored? == (Exchanged(env, old(files)) && Reread(env))
      ensures Moved(env, old(files)) ==> files == (old(files) - {Wal, Shm, Incoming})[Live := k.incoming]
      ensures !Moved(env, old(files)) ==>
                && SameBut(files, old(files), {Live, Wal, Shm}) && Live in files
                && Database(env, files) == if LogLost(env, old(files)) then old(files)[Live] else Before(k)
      ensures out.SwapFailed? ==> out.undo == undo && out.reopened == open == (ReopenAgain !in env.faults)
      ensures out.Restored? ==>
                && open && out.undo == undo
                && out.adminChanged == (env.admin(k.incoming) != hashes.0)
                && out.viewerChanged == (env.viewer(k.incoming) != hashes.1)
    {
      ghost var before := seen;
      var swapped := Exchange(env, k);
      assert !Moved(env, old(files)) ==> Same(files, old(files), k.undo);
      if !swapped {
        ghost var failed := seen;
        var reopened := OpenHandle(ReopenAgain in env.faults);
        SafeStep(before, failed, Now(), k);
        return SwapFailed(undo, reopened);
      }
      if RereadAdmin in env.faults {
        return Refused(Threw(RereadAdmin));
      }
      if RereadViewer in env.faults {
        return Refused(Threw(RereadViewer));
      }
      // The rollup rebuild and the plugin schema are swallowed when they throw.
      var after := Database(env, files);
      return Restored(undo, env.admin(after) != hashes.0, env.viewer(after) != hashes.1);
    }

    /** Puts the candidate in place of the live database. */
    method SwapIn(candidate: Path, consume: bool, undo: string, policy: Policy, env: Env) returns (out: Outcome)
      requires Live in files && (candidate.Snapshot? || candidate.Upload?)
      modifies `files, `open, `seen
      ensures candidate !in old(files) ==> out.Refused? && Now() == old(Now()) && seen == old(seen)
      ensures candidate in old(files) ==> SwapEffect(env, old(Now()), Now(), candidate, consume, undo, out)
      ensures candidate in old(files) ==> Extends(old(seen), seen)
      ensures candidate in old(files) ==>
                (Safely(old(seen), seen, Stake(env, old(Now()), old(files)[candidate], Snapshot(undo)))
                 <==> !Exposed(env, old(Now()), candidate, undo))
      ensures candidate in old(files) && !Prepared(env, old(Now()), candidate, undo) ==>
                SameBut(files, old(files), {Incoming, Snapshot(undo)})
    {
      if candidate !in files {
        return Refused(Threw(Inspect));
      }
      ghost var k := Stake(env, Now(), files[candidate], Snapshot(undo));
      ghost var before := seen;
      var prepared := Prepare(candidate, consume, undo, policy, env, k);
      if prepared.Err? {
        SameButMore(files, k.was.files, {Incoming, Snapshot(undo)}, {candidate});
        SameButMore(files, k.was.files, {}, {candidate});
        return Refused(prepared.error);
      }
      ghost var ready, staged := seen, files;
      out := Conclude(undo, prepared.value, env, k);
      SafelyOn(before, ready, seen, k);
      SwapComesTo(env, k.was, staged, Now(), candidate, consume, undo, out);
    }

    // -------------------------------------------------------------- the operations

    /** A snapshot under the exclusive lock, with retention unless it is forced. */
    method CreateSnapshot(id: string, force: bool, policy: Policy, stuck: set<string>, env: Env)
      returns (r: Result<string, Refusal>)
      requires Live in files
      modifies `files, `exclusive, `seen
      ensures exclusive == old(exclusive)
      ensures old(exclusive).Some? ==> r == Err(Conflict) && files == old(files)
      ensures Same(files, old(files), Live) && Same(files, old(files), Wal)
      ensures force && old(exclusive).None? ==> r.Ok? == SnapshotTaken(env, old(Now()), id)
      ensures r.Ok? ==>
                var written := old(files)[Snapshot(id) := env.vacuum(Database(env, old(files)))];
                if force then files == written
                else exists names :: Listing(names, written) && files == written - Paths(Doomed(policy, names))
    {
      if exclusive.Some? {
        return Err(Conflict);
      }
      exclusive := Some("a snapshot");
      ghost var k := Stake(env, Now(), files[Live], Snapshot(id));
      ghost var before := seen;
      r := WriteSnapshot(id, force, policy, stuck, env, k);
      exclusive := None;
    }

    /**
     Restores a snapshot this installation took. Whatever happens, the snapshot is still there. A
     failure that is not a failed swap left the database alone exactly when it was not one of the two
     reads after the swap had succeeded.
     */
    method RestoreSnapshot(id: string, undo: string, policy: Policy, env: Env) returns (out: Outcome)
      requires Live in files
      modifies `files, `open, `exclusive, `seen
      ensures exclusive == old(exclusive)
      ensures policy.parse(id).None? || Snapshot(id) !in old(files) || old(exclusive).Some? ==>
                out.Refused? && Now() == old(Now()) && seen == old(seen)
      ensures Same(files, old(files), Snapshot(id))
      ensures policy.parse(id).Some? && Snapshot(id) in old(files) && old(exclusive).None? ==>
                && SwapEffect(env, old(Now()), Now(), Snapshot(id), false, undo, out)
                && (Safely(old(seen), seen, Stake(env, old(Now()), old(files)[Snapshot(id)], Snapshot(undo)))
                    <==> !Exposed(env, old(Now()), Snapshot(id), undo))
      ensures policy.parse(id).Some? && Snapshot(id) in old(files) && old(exclusive).None? && out.Refused? ==>
                Live in files && Database(env, files) ==
                  if Prepared(env, old(Now()), Snapshot(id), undo) then old(files)[Snapshot(id)]
                  else Database(env, old(files))
    {
      if policy.parse(id).None? || Snapshot(id) !in files {
        return Refused(NoSuchFile);
      }
      if exclusive.Some? {
        return Refused(Conflict);
      }
      exclusive := Some("a restore");
      ghost var was := Now();
      out := SwapIn(Snapshot(id), false, undo, policy, env);
      assert id == undo ==> Same(files, was.files, Snapshot(id));
      assert !Prepared(env, was, Snapshot(id), undo) ==> Same(files, was.files, Live) && Same(files, was.files, Wal);
      exclusive := None;
    }

    /**
     Restores a file the operator supplied, with the guarantees of a restore. The file stays behind
     exactly when it was refused before the swap consumed it and its unlink then threw.
     */
    method ImportSnapshot(token: string, undo: string, policy: Policy, env: Env) returns (out: Outcome)
      requires Live in files
      modifies `files, `open, `exclusive, `seen
      ensures exclusive == old(exclusive)
      ensures old(exclusive).Some? ==> out == Refused(Conflict) && Now() == old(Now()) && seen == old(seen)
      ensures old(exclusive).None? ==>
                (Upload(token) in files <==>
                 && Upload(token) in old(files) && DropUpload in env.faults
                 && (|old(files)[Upload(token)]| > 2 * 1024 * 1024 * 1024
                     || !Prepared(env, old(Now()), Upload(token), undo)))
      ensures Upload(token) !in old(files) ==> out.Refused? && Now() == old(Now())
      ensures old(exclusive).None? && Upload(token) !in old(files) ==> out == Refused(NoSuchFile)
      ensures old(exclusive).None? && Upload(token) in old(files)
              && |old(files)[Upload(token)]| > 2 * 1024 * 1024 * 1024 && DropUpload !in env.faults ==>
                out == Refused(TooLarge)
      ensures Upload(token) in old(files) && |old(files)[Upload(token)]| > 2 * 1024 * 1024 * 1024 ==>
                out.Refused? && open == old(open) && SameBut(files, old(files), {Upload(token)})
      ensures old(exclusive).None? && Upload(token) in old(files)
              && |old(files)[Upload(token)]| <= 2 * 1024 * 1024 * 1024 ==>
                && SwapEffect(env, old(Now()), Now(), Upload(token), true, undo, out)
                && (Safely(old(seen), seen, Stake(env, old(Now()), old(files)[Upload(token)], Snapshot(undo)))
                    <==> !Exposed(env, old(Now()), Upload(token), undo))
      ensures old(exclusive).None? && Upload(token) in old(files)
              && |old(files)[Upload(token)]| <= 2 * 1024 * 1024 * 1024 && out.Refused? ==>
                Live in files && Database(env, files) ==
                  if Prepared(env, old(Now()), Upload(token), undo) then old(files)[Upload(token)]
                  else Database(env, old(files))
    {
      if exclusive.Some? {
        return Refused(Conflict);
      }
      exclusive := Some("an import");
      if Upload(token) !in files {
        out := Refused(NoSuchFile);
      } else if TooBig(files[Upload(token)]) {
        var ok := Unlink(Upload(token), DropUpload in env.faults);
        out := Refused(if ok then TooLarge else Threw(DropUpload));
      } else {
        out := SwapAndDrop(token, undo, policy, env);
      }
      exclusive := None;
    }

    /** The swap of an upload, and the unlink of what a failed one left. */
    method SwapAndDrop(token: string, undo: string, policy: Policy, env: Env) returns (out: Outcome)
      requires Live in files && Upload(token) in files
      modifies `files, `open, `seen
      ensures Upload(token) in files <==> DropUpload in env.faults && !Prepared(env, old(Now()), Upload(token), undo)
      ensures SwapEffect(env, old(Now()), Now(), Upload(token), true, undo, out)
      ensures Safely(old(seen), seen, Stake(env, old(Now()), old(files)[Upload(token)], Snapshot(undo)))
              <==> !Exposed(env, old(Now()), Upload(token), undo)
      ensures !Prepared(env, old(Now()), Upload(token), undo) ==>
                Same(files, old(files), Live) && Same(files, old(files), Wal)
    {
      ghost var was, before := Now(), seen;
      out := SwapIn(Upload(token), true, undo, policy, env);
      ghost var k, swapped, left := Stake(env, was, was.files[Upload(token)], Snapshot(undo)), seen, files;
      assert !Prepared(env, was, Upload(token), undo) ==> Same(files, was.files, Live) && Same(files, was.files, Wal);
      if !out.Restored? {
        var ok := Unlink(Upload(token), DropUpload in env.faults);
        SafeStep(before, swapped, Now(), k);
        if !ok {
          out := Refused(Threw(DropUpload));
        }
        DroppedToo(was.files, left, files, Upload(token), undo);
      }
    }
  }

  /** Over the ceiling on an import. */
  predicate TooBig(upload: Bytes) {
    |upload| > 2147483648
  }

  lemma {:induction false} DroppedToo(was: map<Path, Bytes>, left: map<Path, Bytes>, files: map<Path, Bytes>,
                                      upload: Path,
                                      undo: string)
    requires upload.Upload? && (files == left || files == left - {upload})
    ensures forall except :: SameBut(left, was, except) ==> SameBut(files, was, except + {upload})
  {
    forall except | SameBut(left, was, except)
      ensures SameBut(files, was, except + {upload})
    {
      forall p | p !in except + {upload}
        ensures Same(files, was, p)
      {
        assert Same(left, was, p);
      }
    }
  }

  /**
   An ordinary failure can follow a swap that succeeded: a hash read that throws after the reopen
   is reported like a refusal, although the candidate is live.
   */
  method OrdinaryFailureAfterSwap() returns (out: Outcome, live: Bytes)
    ensures out.Refused? && live == [2]
  {
    var disk := new Installation.Holding(map[Live := [1], Snapshot("s") := [2]]);
    out := disk.RestoreSnapshot("s", "u", EVERY_NAME, Quiet({RereadAdmin}, true));
    live := disk.files[Live];
  }

  /** An upload that is refused as unfit stays behind when its unlink throws. */
  method UploadStaysBehind() returns (out: Outcome, left: bool)
    ensures out.Refused? && left
  {
    var disk := new Installation.Holding(map[Live := [1], Upload("t") := [2]]);
    out := disk.ImportSnapshot("t", "u", EVERY_NAME, Quiet({Inspect, DropUpload}, true));
    left := Upload("t") in disk.files;
  }

  /** A close that does not merge the log, and a rename that then throws, lose what the log held. */
  method UnmergedLogIsLost() returns (out: Outcome, before: Bytes, after: Bytes)
    ensures out.SwapFailed? && before == [1, 7] && after == [1]
  {
    var disk := new Installation.Holding(map[Live := [1], Wal := [7], Snapshot("s") := [2]]);
    var env := Quiet({Promote}, false);
    before := Database(env, disk.files);
    out := disk.RestoreSnapshot("s", "u", EVERY_NAME, env);
    after := Database(env, disk.files);
  }

  /** A policy under which every name is a snapshot's. */
  const EVERY_NAME: Policy := Policy(1, 1, 0, name => Some((0, "manual")))

  /** An environment with some failing steps and nothing else of note. */
  function Quiet(faults: set<Site>, merges: bool): Env {
    Env(faults, None, true, b => true, (live, log) => live + log, merges, b => b, b => None, b => None)
  }
}
