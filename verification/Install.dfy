/**
 The staged plugin installer: the payload is judged in memory, written beside the target, and
 renamed over it. Any filesystem step may throw; a removal and a rename happen whole or not at all.

 Fetching the payload, and parsing and printing JSON, are parameters.
 */
module Install {
  import Paths
  import opened Wrappers

  type Bytes = seq<int>
  /** The names along the way from a plugin's directory to a file in it. */
  type Place = seq<string>
  type Tree = map<Place, Bytes>

  datatype Dir = Target(id: string) | Staging(id: string)

  datatype Manifest = Manifest(id: string, name: string, version: string)

  /** A file of a payload: its name, the place that joining the name onto a directory leads to, and its bytes. */
  datatype File = File(name: string, place: Place, bytes: Bytes)

  /** The files of the payload in the order it lists them, and the id its directory claims, if any. */
  datatype Payload = Payload(files: seq<File>, claimedId: Option<string>)

  datatype Site =
    | ClearStage
    | MakeParent(path: string)
    | WriteFile(path: string)
    | MakeStage
    | WriteRecord
    | DropTarget
    | Promote
    | Cleanup

  /**
   What an install meets: the steps that throw, what a failed write leaves at its path, how the
   manifest is read, and the record this install writes.
   */
  datatype Env = Env(
    faults: set<Site>,
    debris: Option<Bytes>,
    parse: Bytes -> Option<Manifest>,
    record: Manifest -> Bytes)

  datatype Outcome =
    | Installed(id: string, replaced: bool)
    | NoManifest
    | BadManifest
    | IdMismatch
    | UnexpectedId
    | Threw(site: Site)

  const MANIFEST_FILE: string := "omni-plugin.json"
  const RECORD_FILE: string := ".omni-install.json"
  const RECORD_PLACE: Place := [RECORD_FILE]

  // ---------------------------------------------------------------- names and places

  /** The file that joining a name onto a directory leads to: `./x`, `x` and `.//x` are one file. */
  function PlaceOf(name: string): Place {
    Paths.Walk([], Paths.Split(name, '/'), '.')
  }

  predicate EndsInSlash(name: string) {
    name != "" && name[|name| - 1] == '/'
  }

  /**
   What the two loaders give: every place is where its name leads, and no name climbs. The archive reader
   refuses `..`, and a directory's own entries are never called that.
   */
  predicate Loaded(files: seq<File>) {
    forall i :: 0 <= i < |files| ==> Joined(files[i])
  }

  predicate Joined(file: File) {
    file.place == PlaceOf(file.name) && ".." !in Paths.Split(file.name, '/')
  }

  /** The payload by name; a later entry of a name wins. */
  function Named(files: seq<File>): map<string, Bytes> {
    if files == [] then map[] else Named(files[..|files| - 1])[files[|files| - 1].name := files[|files| - 1].bytes]
  }

  /** The tree that writing a list of files makes; of those that lead to one place the last stays. */
  function TreeOf(files: seq<File>): Tree {
    if files == [] then map[] else TreeOf(files[..|files| - 1])[files[|files| - 1].place := files[|files| - 1].bytes]
  }

  /** One of the two would have to be a file and a directory at once. */
  predicate Clash(p: Place, q: Place) { p < q || q < p }

  /** Nothing in a tree stands in the way of a file at a place. */
  predicate Fits(tree: Tree, p: Place) {
    forall q :: q in tree ==> !Clash(p, q)
  }

  // ---------------------------------------------------------------- before anything is touched

  /** The manifest the payload installs under, or why it is refused. */
  function Judge(payload: Payload, expectId: Option<string>, env: Env): Result<Manifest, Outcome> {
    var files := Named(payload.files);
    if MANIFEST_FILE !in files then Err(NoManifest)
    else
      var parsed := env.parse(files[MANIFEST_FILE]);
      if parsed.None? then Err(BadManifest)
      else
        var targetId := if payload.claimedId.Some? then payload.claimedId.value else parsed.value.id;
        if parsed.value.id != targetId then Err(IdMismatch)
        else if expectId.Some? && targetId != expectId.value then Err(UnexpectedId)
        else Ok(parsed.value)
  }

  /** What the target holds once it is installed. */
  function NewTree(payload: Payload, env: Env, manifest: Manifest): Tree {
    TreeOf(payload.files)[RECORD_PLACE := env.record(manifest)]
  }

  // ---------------------------------------------------------------- when the parts go through

  /** Every file can be written: no step throws, and no name needs a file to be a directory or the other way round. */
  predicate Writable(files: seq<File>, faults: set<Site>) {
    && (forall i :: 0 <= i < |files| ==> NameWritable(files[i].name, faults))
    && (forall i, j :: 0 <= i < j < |files| ==> !Clash(files[i].place, files[j].place))
  }

  predicate NameWritable(name: string, faults: set<Site>) {
    MakeParent(name) !in faults && WriteFile(name) !in faults && (name != "" ==> name[|name| - 1] != '/')
  }

  /** Every file and the record are written. */
  predicate StageWritten(payload: Payload, env: Env) {
    && Writable(payload.files, env.faults) && MakeStage !in env.faults && WriteRecord !in env.faults
    && Fits(TreeOf(payload.files), RECORD_PLACE)
  }

  /** The whole new tree is staged. */
  predicate Staged(payload: Payload, env: Env, was: map<Dir, Tree>, id: string) {
    (ClearStage in env.faults ==> Staging(id) !in was) && StageWritten(payload, env)
  }

  /** The old tree is gone from the target. */
  predicate TargetCleared(payload: Payload, env: Env, was: map<Dir, Tree>, id: string) {
    Staged(payload, env, was, id) && (DropTarget in env.faults ==> Target(id) !in was)
  }

  /** Staging this file first creates something at the stage's path: its directory, or a file or debris in its place. */
  predicate Begins(file: File, env: Env) {
    && MakeParent(file.name) !in env.faults
    && (file.place == [] ==>
          && (file.name != "" ==> file.name[|file.name| - 1] != '/')
          && (WriteFile(file.name) in env.faults ==> env.debris.Some?))
  }

  /**
   A stage is left on exit: an old one could not be cleared, or the new one was begun, did not become
   the target, and could not be cleaned up.
   */
  predicate StageStays(payload: Payload, env: Env, was: map<Dir, Tree>, id: string) {
    if ClearStage in env.faults && Staging(id) in was then true
    else
      && Cleanup in env.faults && payload.files != [] && Begins(payload.files[0], env)
      && !(TargetCleared(payload, env, was, id) && Promote !in env.faults)
  }

  function TreeAt(dirs: map<Dir, Tree>, d: Dir): Tree {
    if d in dirs then dirs[d] else map[]
  }

  /** There is a file at the place, or nothing: a directory that exists has files below it, or is the root. */
  predicate Room(dirs: map<Dir, Tree>, d: Dir, p: Place) {
    Fits(TreeAt(dirs, d), p) && (d in dirs && p == [] ==> [] in dirs[d])
  }

  /** Whether a write to a place is taken: not with a slash at the end of its name, and not where a directory is. */
  predicate Takes(dirs: map<Dir, Tree>, d: Dir, p: Place, slash: bool) {
    !slash && (forall q :: q in TreeAt(dirs, d) ==> !(p < q)) && (d in dirs && p == [] ==> [] in dirs[d])
  }

  predicate Same(a: map<Dir, Tree>, b: map<Dir, Tree>, d: Dir) {
    (d in a <==> d in b) && (d in a ==> a[d] == b[d])
  }

  /** The state before an install, its id, and the tree it is to leave. */
  datatype Plan = Plan(was: map<Dir, Tree>, id: string, tree: Tree)

  /** At any moment the target is the old tree, nothing, or the new tree; no other plugin is touched. */
  predicate Whole(dirs: map<Dir, Tree>, plan: Plan) {
    && (Same(dirs, plan.was, Target(plan.id)) || Target(plan.id) !in dirs || dirs[Target(plan.id)] == plan.tree)
    && SameElsewhere(dirs, plan)
  }

  predicate SameElsewhere(dirs: map<Dir, Tree>, plan: Plan) {
    dirs - {Target(plan.id), Staging(plan.id)} == plan.was - {Target(plan.id), Staging(plan.id)}
  }

  ghost predicate AlwaysWhole(before: seq<map<Dir, Tree>>, after: seq<map<Dir, Tree>>, plan: Plan) {
    |before| <= |after| && after[..|before|] == before
    && forall i :: |before| <= i < |after| ==> Whole(after[i], plan)
  }

  /** What an install of an agreed manifest comes to, whichever of its steps throw. */
  ghost predicate Effect(payload: Payload, env: Env, m: Manifest, was: map<Dir, Tree>, before: seq<map<Dir, Tree>>,
                         dirs: map<Dir, Tree>, after: seq<map<Dir, Tree>>, out: Outcome) {
    var plan := Plan(was, m.id, NewTree(payload, env, m));
    && AlwaysWhole(before, after, plan) && SameElsewhere(dirs, plan)
    && (out.Installed? <==> TargetCleared(payload, env, was, m.id) && Promote !in env.faults)
    && (out.Installed? ==>
        && out.id == m.id && out.replaced == (Target(m.id) in was)
        && Staging(m.id) !in dirs && Target(m.id) in dirs && dirs[Target(m.id)] == plan.tree)
    && (!out.Installed? ==> out.Threw?)
    && (!out.Installed? ==>
        if TargetCleared(payload, env, was, m.id) then Target(m.id) !in dirs
        else Same(dirs, was, Target(m.id)))
    && (Staging(m.id) in dirs <==> StageStays(payload, env, was, m.id))
  }

  /** The last file of a name. */
  ghost predicate IsLastNamed(files: seq<File>, at: int, name: string) {
    0 <= at < |files| && files[at].name == name && forall i :: at < i < |files| ==> files[i].name != name
  }

  lemma {:induction false} NamedByLast(files: seq<File>, name: string)
    ensures name in Named(files) <==> exists i :: 0 <= i < |files| && files[i].name == name
    ensures forall at :: IsLastNamed(files, at, name) ==> name in Named(files) && Named(files)[name] == files[at].bytes
  {
    if files != [] {
      var front, last := files[..|files| - 1], files[|files| - 1];
      NamedByLast(front, name);
      assert forall i :: 0 <= i < |front| ==> front[i] == files[i];
      forall at | IsLastNamed(files, at, name)
        ensures name in Named(files) && Named(files)[name] == files[at].bytes
      {
        if at < |front| {
          assert IsLastNamed(front, at, name);
        }
      }
    }
  }

  /** The judgement, from the last file with the manifest's name. */
  lemma {:induction false} JudgedByLast(payload: Payload, expectId: Option<string>, env: Env)
    ensures (forall i :: 0 <= i < |payload.files| ==> payload.files[i].name != MANIFEST_FILE) ==>
              Judge(payload, expectId, env) == Err(NoManifest)
    ensures forall at :: IsLastNamed(payload.files, at, MANIFEST_FILE) ==>
              var parsed := env.parse(payload.files[at].bytes);
              Judge(payload, expectId, env) ==
              if parsed.None? then Err(BadManifest)
              else if payload.claimedId.Some? && payload.claimedId.value != parsed.value.id then Err(IdMismatch)
              else if expectId.Some? && expectId.value != parsed.value.id then Err(UnexpectedId)
              else Ok(parsed.value)
  {
    NamedByLast(payload.files, MANIFEST_FILE);
  }

  lemma {:induction false} StageOnly(a: map<Dir, Tree>, b: map<Dir, Tree>, plan: Plan)
    requires a - {Staging(plan.id)} == b - {Staging(plan.id)}
    requires SameElsewhere(a, plan) && Same(a, plan.was, Target(plan.id))
    ensures SameElsewhere(b, plan) && Same(b, plan.was, Target(plan.id))
  {
    var stage, both := {Staging(plan.id)}, {Target(plan.id), Staging(plan.id)};
    assert a - both == (a - stage) - both && b - both == (b - stage) - both;
    assert Target(plan.id) in a <==> Target(plan.id) in a - stage;
    assert Target(plan.id) in b <==> Target(plan.id) in b - stage;
  }

  lemma {:induction false} WholeStep(a: seq<map<Dir, Tree>>, b: seq<map<Dir, Tree>>, dirs: map<Dir, Tree>, plan: Plan)
    requires AlwaysWhole(a, b, plan) && Whole(dirs, plan)
    ensures AlwaysWhole(a, b + [dirs], plan)
  {
    assert (b + [dirs])[..|a|] == b[..|a|];
  }

  lemma {:induction false} WholeOn(a: seq<map<Dir, Tree>>, b: seq<map<Dir, Tree>>, c: seq<map<Dir, Tree>>, plan: Plan)
    requires AlwaysWhole(a, b, plan) && AlwaysWhole(b, c, plan)
    ensures AlwaysWhole(a, c, plan)
  {
    assert c[..|a|] == c[..|b|][..|a|];
    forall i | |a| <= i < |c|
      ensures Whole(c[i], plan)
    {
      if i < |b| {
        assert c[i] == c[..|b|][i];
      }
    }
  }

  class PluginRoot {
    var dirs: map<Dir, Tree>
    /** Every state the plugins directory has been in. */
    ghost var seen: seq<map<Dir, Tree>>

    constructor Holding(initial: map<Dir, Tree>)
      ensures dirs == initial && seen == [initial]
    {
      dirs := initial;
      seen := [initial];
    }

    /** Removes a whole tree; one that is not there is no error. */
    method Remove(d: Dir, fault: bool) returns (ok: bool)
      modifies this
      ensures ok == !(fault && d in old(dirs))
      ensures dirs == (if ok then old(dirs) - {d} else old(dirs)) && seen == old(seen) + [dirs]
    {
      ok := !(fault && d in dirs);
      if ok {
        dirs := dirs - {d};
      }
      seen := seen + [dirs];
    }

    /** Creates the directory a place is in, and those above it; above the whole tree there is nothing to do. */
    method MakeDir(d: Dir, p: Place, fault: bool) returns (ok: bool)
      modifies this
      ensures ok == (!fault && forall q :: q in TreeAt(old(dirs), d) ==> !(q < p))
      ensures dirs == if ok && p != [] && d !in old(dirs) then old(dirs)[d := map[]] else old(dirs)
      ensures seen == old(seen) + [dirs]
    {
      ok := !fault && forall q :: q in TreeAt(dirs, d) ==> !(q < p);
      if ok && p != [] && d !in dirs {
        dirs := dirs[d := map[]];
      }
      seen := seen + [dirs];
    }

    /** A write that throws may leave debris at its place, unless it was refused for what is there. */
    method Write(d: Dir, p: Place, slash: bool, bytes: Bytes, fault: bool, debris: Option<Bytes>) returns (ok: bool)
      modifies this
      ensures ok == (!fault && Takes(old(dirs), d, p, slash)) && dirs - {d} == old(dirs) - {d}
      ensures ok ==> dirs == old(dirs)[d := TreeAt(old(dirs), d)[p := bytes]]
      ensures d in dirs <==> d in old(dirs) || (Takes(old(dirs), d, p, slash) && (fault ==> debris.Some?))
      ensures seen == old(seen) + [dirs]
    {
      ok := !fault && Takes(dirs, d, p, slash);
      if ok {
        dirs := dirs[d := TreeAt(dirs, d)[p := bytes]];
      } else if debris.Some? && Takes(dirs, d, p, slash) {
        dirs := dirs[d := TreeAt(dirs, d)[p := debris.value]];
      }
      seen := seen + [dirs];
    }

    method Rename(from: Dir, to: Dir, fault: bool) returns (ok: bool)
      requires from in dirs && from != to
      modifies this
      ensures ok == !fault
      ensures dirs == if ok then (old(dirs) - {from})[to := old(dirs)[from]] else old(dirs)
      ensures seen == old(seen) + [dirs]
    {
      ok := !fault;
      if ok {
        dirs := (dirs - {from})[to := dirs[from]];
      }
      seen := seen + [dirs];
    }

    /** Writes the payload into the stage, file by file. */
    method StageFiles(files: seq<File>, env: Env, ghost plan: Plan, id: string)
      returns (failed: Option<Site>)
      requires id == plan.id && Staging(id) !in dirs && Same(dirs, plan.was, Target(id)) && SameElsewhere(dirs, plan)
      modifies this
      ensures AlwaysWhole(old(seen), seen, plan) && SameElsewhere(dirs, plan) && Same(dirs, plan.was, Target(id))
      ensures failed.None? == Writable(files, env.faults)
      ensures files != [] ==> (Staging(id) in dirs <==> Begins(files[0], env))
      ensures failed.None? ==> dirs == if files == [] then old(dirs) else old(dirs)[Staging(id) := TreeOf(files)]
    {
      failed := None;
      ghost var start, before := dirs, seen;
      for n := 0 to |files|
        invariant failed.None? && Writable(files[..n], env.faults)
        invariant n > 0 ==> Staging(id) in dirs && Begins(files[0], env)
        invariant dirs == if n == 0 then start else start[Staging(id) := TreeOf(files[..n])]
        invariant AlwaysWhole(before, seen, plan) && SameElsewhere(dirs, plan) && Same(dirs, plan.was, Target(id))
      {
        TreeOfNext(files, n);
        NextWritable(files, n, env.faults);
        RoomIsFit(dirs, Staging(id), files[..n], files[n].place);
        failed := StageFile(files[n], env, plan, id, before);
        if failed.Some? {
          WritableBefore(files, n + 1, env.faults);
          return;
        }
        assert dirs == start[Staging(id) := TreeOf(files[..n + 1])];
      }
      assert files[..|files|] == files;
    }

    /** One file of the payload: its directory, then its bytes. */
    method StageFile(file: File, env: Env, ghost plan: Plan, id: string,
                     ghost before: seq<map<Dir, Tree>>)
      returns (failed: Option<Site>)
      requires id == plan.id && Same(dirs, plan.was, Target(id)) && SameElsewhere(dirs, plan)
      requires AlwaysWhole(before, seen, plan)
      modifies this
      ensures AlwaysWhole(before, seen, plan) && SameElsewhere(dirs, plan) && Same(dirs, plan.was, Target(id))
      ensures failed.None? == (NameWritable(file.name, env.faults) && Room(old(dirs), Staging(id), file.place))
      ensures Staging(id) in dirs <==> Staging(id) in old(dirs) || Begins(file, env)
      ensures failed.None? ==>
                dirs == old(dirs)[Staging(id) := TreeAt(old(dirs), Staging(id))[file.place := file.bytes]]
    {
      ghost var s1 := seen;
      var ok := MakeDir(Staging(id), file.place, MakeParent(file.name) in env.faults);
      assert SameElsewhere(dirs, plan);
      WholeStep(before, s1, dirs, plan);
      if !ok {
        return Some(MakeParent(file.name));
      }
      ghost var s2 := seen;
      ghost var made := dirs;
      var fault := WriteFile(file.name) in env.faults;
      ok := Write(Staging(id), file.place, EndsInSlash(file.name), file.bytes, fault, env.debris);
      StageOnly(made, dirs, plan);
      WholeStep(before, s2, dirs, plan);
      failed := if ok then None else Some(WriteFile(file.name));
    }

    /** The `try` block: the payload, the record, and the swap of directories. */
    method StageAndSwap(payload: Payload, env: Env, manifest: Manifest, ghost plan: Plan) returns (failed: Option<Site>)
      requires payload.files != [] && Staging(manifest.id) !in dirs
      requires plan.id == manifest.id && plan.tree == NewTree(payload, env, manifest)
      requires Same(dirs, plan.was, Target(plan.id)) && SameElsewhere(dirs, plan)
      modifies this
      ensures AlwaysWhole(old(seen), seen, plan) && SameElsewhere(dirs, plan)
      ensures failed.Some? ==> (Staging(plan.id) in dirs <==> Begins(payload.files[0], env))
      ensures !StageWritten(payload, env) ==> failed.Some? && Same(dirs, plan.was, Target(plan.id))
      ensures StageWritten(payload, env) ==>
                if DropTarget in env.faults && Target(plan.id) in plan.was then
                  failed == Some(DropTarget) && Same(dirs, plan.was, Target(plan.id))
                else if Promote in env.faults then failed == Some(Promote) && Target(plan.id) !in dirs
                else
                  && failed == None && Staging(plan.id) !in dirs
                  && Target(plan.id) in dirs && dirs[Target(plan.id)] == plan.tree
    {
      var id := manifest.id;
      ghost var before := seen;
      failed := StageFiles(payload.files, env, plan, id);
      if failed.Some? {
        return;
      }
      failed := StageRecord(env, manifest, plan, before);
      if failed.Some? {
        return;
      }
      assert dirs[Staging(id)] == plan.tree;
      ghost var s1 := seen;
      var ok := Remove(Target(id), DropTarget in env.faults);
      assert SameElsewhere(dirs, plan);
      WholeStep(before, s1, dirs, plan);
      if !ok {
        return Some(DropTarget);
      }
      ghost var s2 := seen;
      ok := Rename(Staging(id), Target(id), Promote in env.faults);
      assert SameElsewhere(dirs, plan);
      WholeStep(before, s2, dirs, plan);
      failed := if ok then None else Some(Promote);
    }

    /** The install record, written last so that it overwrites one the payload carries. */
    method StageRecord(env: Env, manifest: Manifest, ghost plan: Plan, ghost before: seq<map<Dir, Tree>>)
      returns (failed: Option<Site>)
      requires plan.id == manifest.id && Staging(plan.id) in dirs
      requires Same(dirs, plan.was, Target(plan.id)) && SameElsewhere(dirs, plan) && AlwaysWhole(before, seen, plan)
      modifies this
      ensures AlwaysWhole(before, seen, plan) && SameElsewhere(dirs, plan) && Same(dirs, plan.was, Target(plan.id))
      ensures Staging(plan.id) in dirs
      ensures failed.None? == (MakeStage !in env.faults && WriteRecord !in env.faults
                               && Fits(old(dirs)[Staging(plan.id)], RECORD_PLACE))
      ensures failed.None? ==>
                dirs == old(dirs)[Staging(plan.id) :=
                                    old(dirs)[Staging(plan.id)][RECORD_PLACE := env.record(manifest)]]
    {
      var id := manifest.id;
      ghost var s1 := seen;
      var ok := MakeDir(Staging(id), RECORD_PLACE, MakeStage in env.faults);
      WholeStep(before, s1, dirs, plan);
      if !ok {
        return Some(MakeStage);
      }
      ghost var s2 := seen;
      ghost var made := dirs;
      ok := Write(Staging(id), RECORD_PLACE, false, env.record(manifest), WriteRecord in env.faults, env.debris);
      StageOnly(made, dirs, plan);
      WholeStep(before, s2, dirs, plan);
      failed := if ok then None else Some(WriteRecord);
    }

    /**
     The whole install. Without a manifest, with one that does not parse, or when its id is not the one its
     directory claims or not the one expected, it is refused, in that order, and nothing is touched. Otherwise
     at every moment the target is the old tree, nothing, or the new tree. Success leaves exactly what the
     payload's names lead to, overlaid with the record, and no stage. A failure leaves the old tree as it was,
     unless it is the last rename that threw: then the target is gone, old tree and all.
     */
    method InstallPlugin(payload: Payload, expectId: Option<string>, env: Env) returns (out: Outcome)
      modifies this
      ensures (forall i :: 0 <= i < |payload.files| ==> payload.files[i].name != MANIFEST_FILE) ==>
                out == NoManifest && dirs == old(dirs) && seen == old(seen)
      ensures forall at :: IsLastNamed(payload.files, at, MANIFEST_FILE) ==>
                var parsed := env.parse(payload.files[at].bytes);
                if parsed.None? then out == BadManifest && dirs == old(dirs) && seen == old(seen)
                else if payload.claimedId.Some? && payload.claimedId.value != parsed.value.id then
                  out == IdMismatch && dirs == old(dirs) && seen == old(seen)
                else if expectId.Some? && expectId.value != parsed.value.id then
                  out == UnexpectedId && dirs == old(dirs) && seen == old(seen)
                else Effect(payload, env, parsed.value, old(dirs), old(seen), dirs, seen, out)
    {
      var judged := Judge(payload, expectId, env);
      JudgedByLast(payload, expectId, env);
      if judged.Err? {
        return judged.error;
      }
      out := InstallAgreed(payload, env, judged.value);
    }

    /** From the agreed manifest on. */
    method InstallAgreed(payload: Payload, env: Env, manifest: Manifest) returns (out: Outcome)
      requires payload.files != []
      modifies this
      ensures Effect(payload, env, manifest, old(dirs), old(seen), dirs, seen, out)
    {
      var id := manifest.id;
      ghost var plan := Plan(dirs, id, NewTree(payload, env, manifest));
      ghost var before := seen;
      var replaced := Target(id) in dirs;
      var ok := Remove(Staging(id), ClearStage in env.faults);
      assert SameElsewhere(dirs, plan);
      WholeStep(before, before, dirs, plan);
      if !ok {
        return Threw(ClearStage);
      }
      ghost var s1 := seen;
      var failed := StageAndSwap(payload, env, manifest, plan);
      WholeOn(before, s1, seen, plan);
      ghost var s2, ended := seen, dirs;
      ok := Remove(Staging(id), Cleanup in env.faults);
      assert Same(dirs, ended, Target(id));
      assert SameElsewhere(dirs, plan);
      WholeStep(before, s2, dirs, plan);
      if !ok {
        out := Threw(Cleanup);
      } else if failed.Some? {
        out := Threw(failed.value);
      } else {
        out := Installed(id, replaced);
      }
    }
  }

  // ---------------------------------------------------------------- what the new tree holds

  /** The last file that leads to a place; -1 when none does. */
  function LastTo(files: seq<File>, p: Place): int {
    if files == [] then -1
    else if files[|files| - 1].place == p then |files| - 1
    else LastTo(files[..|files| - 1], p)
  }

  lemma {:induction false} LastToIsLast(files: seq<File>, p: Place)
    ensures -1 <= LastTo(files, p) < |files|
    ensures LastTo(files, p) >= 0 ==> files[LastTo(files, p)].place == p
    ensures forall i :: LastTo(files, p) < i < |files| ==> files[i].place != p
  {
    if files != [] {
      var front := files[..|files| - 1];
      LastToIsLast(front, p);
      assert forall i :: 0 <= i < |front| ==> front[i] == files[i];
    }
  }

  /** A place holds the bytes of the last file that leads to it, and nothing when none does. */
  lemma {:induction false} TreeHoldsLast(files: seq<File>, p: Place)
    ensures p in TreeOf(files) <==> LastTo(files, p) >= 0
    ensures LastTo(files, p) >= 0 ==> LastTo(files, p) < |files| && TreeOf(files)[p] == files[LastTo(files, p)].bytes
  {
    if files != [] {
      var front := files[..|files| - 1];
      TreeHoldsLast(front, p);
      assert forall i :: 0 <= i < |front| ==> front[i] == files[i];
    }
  }

  /** Files that lead to one place, other than the record's, agree on its bytes. */
  ghost predicate OneVersion(files: seq<File>) {
    forall i, j | 0 <= i < |files| && 0 <= j < |files| && SharePlace(files[i], files[j]) ::
      files[i].bytes == files[j].bytes
  }

  predicate SharePlace(a: File, b: File) {
    a.place == b.place != RECORD_PLACE
  }

  ghost predicate HoldsEveryFile(tree: Tree, files: seq<File>) {
    forall i :: 0 <= i < |files| && files[i].place != RECORD_PLACE ==> Holds(tree, files[i])
  }

  predicate Holds(tree: Tree, file: File) {
    file.place in tree && tree[file.place] == file.bytes
  }

  /**
   The installed tree has a file exactly where the payload or the record leads. It holds the bytes of every
   file of the payload if and only if no two of them lead to one place with different bytes.
   */
  lemma {:induction false} InstalledTree(payload: Payload, env: Env, manifest: Manifest, p: Place)
    ensures p in NewTree(payload, env, manifest) <==> p == RECORD_PLACE || LastTo(payload.files, p) >= 0
    ensures HoldsEveryFile(NewTree(payload, env, manifest), payload.files) <==> OneVersion(payload.files)
  {
    var files, tree := payload.files, NewTree(payload, env, manifest);
    TreeHoldsLast(files, p);
    if HoldsEveryFile(tree, files) {
      forall i, j | 0 <= i < |files| && 0 <= j < |files| && SharePlace(files[i], files[j])
        ensures files[i].bytes == files[j].bytes
      {
        assert Holds(tree, files[i]) && Holds(tree, files[j]);
      }
    }
    if OneVersion(files) {
      forall i | 0 <= i < |files| && files[i].place != RECORD_PLACE
        ensures Holds(tree, files[i])
      {
        TreeHoldsLast(files, files[i].place);
        LastToIsLast(files, files[i].place);
      }
    }
  }

  /** A name that leads to itself: no slash in it, and not one of the two that name directories. */
  predicate Plain(name: string) {
    '/' !in name && name != "" && name != "." && name != ".."
  }

  lemma {:induction false} ManifestName()
    ensures Plain(MANIFEST_FILE) && MANIFEST_FILE != RECORD_FILE
  {
    assert MANIFEST_FILE[0] == 'o' && RECORD_FILE[0] == '.';
  }

  /** The last entry of a name. */
  lemma {:induction false} NamedIsLast(files: seq<File>, name: string) returns (k: nat)
    requires name in Named(files)
    ensures k < |files| && files[k].name == name && files[k].bytes == Named(files)[name]
    ensures forall i :: k < i < |files| ==> files[i].name != name
  {
    k := |files| - 1;
    if files[k].name != name {
      var front := files[..k];
      k := NamedIsLast(front, name);
      assert forall i :: 0 <= i < |front| ==> front[i] == files[i];
    }
  }

  /** Whatever is called by the name leads to the file of that name. */
  predicate LeadsToItself(files: seq<File>, name: string) {
    forall i :: 0 <= i < |files| && files[i].name == name ==> files[i].place == [name]
  }

  lemma {:induction false} PlainNamesLead(files: seq<File>, name: string)
    requires Loaded(files) && Plain(name)
    ensures LeadsToItself(files, name)
  {
    forall i | 0 <= i < |files| && files[i].name == name
      ensures files[i].place == [name]
    {
      assert Joined(files[i]);
      Paths.PlainLeadsToItself(name, '/', '.');
    }
  }

  /**
   What is installed under a plain name other than the record's is what the payload holds by that name if and
   only if the last file that leads there has those bytes.
   */
  lemma {:induction false} InstalledUnder(payload: Payload, env: Env, manifest: Manifest, name: string)
    requires LeadsToItself(payload.files, name) && name != RECORD_FILE && name in Named(payload.files)
    ensures var files, tree := payload.files, NewTree(payload, env, manifest);
            var last := LastTo(files, [name]);
            && 0 <= last < |files| && [name] in tree
            && (tree[[name]] == Named(files)[name] <==> files[last].bytes == Named(files)[name])
  {
    var files := payload.files;
    TreeHoldsLast(files, [name]);
    LastToIsLast(files, [name]);
    var k := NamedIsLast(files, name);
    assert files[k].place == [name];
  }

  /** So it is when no other spelling of the name leads there. */
  lemma {:induction false} OneSpellingIsInstalled(payload: Payload, env: Env, manifest: Manifest, name: string)
    requires LeadsToItself(payload.files, name) && name != RECORD_FILE && name in Named(payload.files)
    requires forall i :: 0 <= i < |payload.files| && payload.files[i].place == [name] ==> payload.files[i].name == name
    ensures [name] in NewTree(payload, env, manifest)
    ensures NewTree(payload, env, manifest)[[name]] == Named(payload.files)[name]
  {
    InstalledUnder(payload, env, manifest, name);
    LastToIsLast(payload.files, [name]);
    var k := NamedIsLast(payload.files, name);
  }

  /** The manifest that is installed is the one that was judged, under that condition. */
  lemma {:induction false} InstalledManifest(payload: Payload, expectId: Option<string>, env: Env)
    requires LeadsToItself(payload.files, MANIFEST_FILE) && Judge(payload, expectId, env).Ok?
    ensures var files, m := payload.files, Judge(payload, expectId, env).value;
            var last := LastTo(files, [MANIFEST_FILE]);
            && 0 <= last < |files| && [MANIFEST_FILE] in NewTree(payload, env, m)
            && (NewTree(payload, env, m)[[MANIFEST_FILE]] == Named(files)[MANIFEST_FILE]
                <==> files[last].bytes == Named(files)[MANIFEST_FILE])
            && (files[last].bytes == Named(files)[MANIFEST_FILE] ==>
                  env.parse(NewTree(payload, env, m)[[MANIFEST_FILE]]) == Some(m))
  {
    ManifestName();
    InstalledUnder(payload, env, Judge(payload, expectId, env).value, MANIFEST_FILE);
  }

  // ---------------------------------------------------------------- staging, step by step

  lemma {:induction false} TreeOfNext(files: seq<File>, n: nat)
    requires n < |files|
    ensures TreeOf(files[..n + 1]) == TreeOf(files[..n])[files[n].place := files[n].bytes]
  {
    assert files[..n + 1][..n] == files[..n];
  }

  lemma {:induction false} WritableBefore(files: seq<File>, n: nat, faults: set<Site>)
    requires n <= |files|
    ensures Writable(files, faults) ==> Writable(files[..n], faults)
  {
    assert forall i :: 0 <= i < n ==> files[..n][i] == files[i];
  }

  /** A file fits into the tree of others if and only if it clashes with none of them. */
  lemma {:induction false} FitsExactly(files: seq<File>, p: Place)
    ensures Fits(TreeOf(files), p) <==> forall i :: 0 <= i < |files| ==> !Clash(files[i].place, p)
  {
    if files != [] {
      var front, last := files[..|files| - 1], files[|files| - 1];
      FitsExactly(front, p);
      assert forall i :: 0 <= i < |front| ==> front[i] == files[i];
      assert last.place in TreeOf(files);
      assert forall q :: q in TreeOf(front) ==> q in TreeOf(files);
    }
  }

  lemma {:induction false} NextWritable(files: seq<File>, n: nat, faults: set<Site>)
    requires n < |files| && Writable(files[..n], faults)
    ensures Writable(files[..n + 1], faults)
            <==> NameWritable(files[n].name, faults) && Fits(TreeOf(files[..n]), files[n].place)
  {
    var done, next := files[..n], files[..n + 1];
    FitsExactly(done, files[n].place);
    assert next == done + [files[n]];
  }

  /** In a stage that holds some files there is room for another exactly where it fits. */
  lemma {:induction false} RoomIsFit(dirs: map<Dir, Tree>, d: Dir, files: seq<File>, p: Place)
    requires if files == [] then d !in dirs else d in dirs && dirs[d] == TreeOf(files)
    ensures Room(dirs, d, p) <==> Fits(TreeOf(files), p)
  {
    if files != [] {
      assert files[|files| - 1].place in TreeOf(files);
    }
  }

  // ---------------------------------------------------------------- failures

  function OneFile(name: string, bytes: Bytes): seq<File> {
    [File(name, [name], bytes)]
  }

  function TwoSpellings(name: string, first: Bytes, second: Bytes): seq<File> {
    [File(name, [name], first), File("." + ("/" + name), [name], second)]
  }

  /** Both are what a loader gives, for every plain name; the manifest's is one. */
  lemma {:induction false} SpellingsAreLoaded(name: string, first: Bytes, second: Bytes)
    requires Plain(name)
    ensures Loaded(OneFile(name, first)) && Loaded(TwoSpellings(name, first, second))
  {
    Paths.SplitPlain(name, '/');
    Paths.PlainLeadsToItself(name, '/', '.');
    Paths.DottedLeadsAlike(name, '/', '.');
    assert ".." !in [".", name];
  }

  lemma {:induction false} OneFileFits(name: string, bytes: Bytes)
    requires Plain(name) && name != RECORD_FILE
    ensures var files := OneFile(name, bytes);
            && Named(files) == map[name := bytes] && TreeOf(files) == map[[name] := bytes]
            && Fits(TreeOf(files), RECORD_PLACE) && !EndsInSlash(name)
  {
    var files := OneFile(name, bytes);
    assert files[..0] == [] && name[|name| - 1] in name;
  }

  /** Two spellings of one name make one file, with the bytes of the second. */
  lemma {:induction false} TwoSpellingsFit(name: string, first: Bytes, second: Bytes)
    requires Plain(name) && name != RECORD_FILE
    ensures var files := TwoSpellings(name, first, second);
            && name in Named(files) && Named(files)[name] == first && TreeOf(files) == map[[name] := second]
            && Fits(TreeOf(files), RECORD_PLACE) && !EndsInSlash(files[0].name) && !EndsInSlash(files[1].name)
  {
    var files := TwoSpellings(name, first, second);
    OneFileFits(name, first);
    assert files[..1] == OneFile(name, first) && |files[1].name| == |name| + 2;
    assert files[1].name[|name| + 1] == name[|name| - 1];
  }

  /** No staging tree is to remain, and here one does: a write throws, and then so does the clean-up. */
  method StageStaysBehind() returns (payload: Payload, out: Outcome, left: bool)
    ensures payload.files == OneFile(MANIFEST_FILE, [1]) && out.Threw? && left
  {
    ManifestName();
    OneFileFits(MANIFEST_FILE, [1]);
    payload := Payload(OneFile(MANIFEST_FILE, [1]), None);
    var env := Env({WriteFile(MANIFEST_FILE), Cleanup}, None, b => Some(Manifest("p", "P", "2")), m => [9]);
    var root := new PluginRoot.Holding(map[]);
    out := root.InstallPlugin(payload, None, env);
    left := Staging("p") in root.dirs;
  }

  /** The documented promise fails here: the old version is removed, the rename throws, and neither is left. */
  method RenameFailureLosesBoth() returns (payload: Payload, out: Outcome, serving: bool)
    ensures payload.files == OneFile(MANIFEST_FILE, [1]) && out.Threw? && !serving
  {
    ManifestName();
    OneFileFits(MANIFEST_FILE, [1]);
    payload := Payload(OneFile(MANIFEST_FILE, [1]), None);
    var env := Env({Promote}, None, b => Some(Manifest("p", "P", "2")), m => [9]);
    var root := new PluginRoot.Holding(map[Target("p") := map[["old"] := [0]]]);
    out := root.InstallPlugin(payload, None, env);
    serving := Target("p") in root.dirs;
  }

  /**
   Two spellings of the manifest's name: the first is judged, the second overwrites it in the stage, and what
   is installed is not what was judged, nor even a manifest.
   */
  method SecondSpellingReplacesManifest() returns (payload: Payload, out: Outcome, installed: Bytes)
    ensures payload.files == TwoSpellings(MANIFEST_FILE, [1], [2]) && out.Installed? && installed == [2]
  {
    ManifestName();
    TwoSpellingsFit(MANIFEST_FILE, [1], [2]);
    payload := Payload(TwoSpellings(MANIFEST_FILE, [1], [2]), None);
    var env := Env({}, None, b => if b == [1] then Some(Manifest("p", "P", "2")) else None, m => [9]);
    var root := new PluginRoot.Holding(map[]);
    out := root.InstallPlugin(payload, None, env);
    installed := root.dirs[Target("p")][[MANIFEST_FILE]];
  }
}
