/**
 * The `deploy` driver of the current deployer. It keeps the run status
 * `STATE` (pending, running, done) and shows a snapshot of it at every
 * `updateState` call. It then takes the targets of the repository one at a
 * time. For each target it:
 *   - loads the descriptor, and skips the target when there is none;
 *   - stages a copy without the descriptor and overwrites the files the
 *     descriptor redacts;
 *   - scans the copy for the flag;
 *   - builds the challenge record;
 *   - creates or patches the challenge on the platform;
 *   - replaces the challenge's files with the archive of the staged copy.
 * One `try` wraps the whole loop, so the first error ends the run. The
 * targets after the failing one are not processed.
 */
module Deployment {
  import opened Js
  import opened Config
  import opened FileTree
  import opened Scanner
  import opened Record
  import opened Platform

  /** `STATE.state`. */
  datatype Phase = Pending | Running | Done

  /** `STATE.data`: what is being worked on, for which target, at which step. */
  datatype StateData = StateData(detail: Value, target: Value, step: Value)

  /** `STATE`. */
  datatype Status = Status(phase: Phase, data: Option<StateData>)

  /** What the driver relies on and does not interpret: the text codecs,
      SHA-1 of a name as hex, the docker build, `encodeURIComponent`, and the
      repository and packaging directories. */
  datatype Env = Env(
    codec: Codec,
    sha1: string -> string,
    docker: DockerBuild,
    uriEncode: string -> string,
    problemDir: string,
    packagingDir: string)

  const ConfigName := ".ctfdx.cfg"

  /** How one target ends: skipped for want of a descriptor, failed with the
      message of the error thrown, or deployed to the challenge `id`, leaving
      the platform as `store`. */
  datatype Outcome = Skipped | Failed(message: string) | Deployed(store: Store, id: nat)

  /** The descriptor text of a target, when `existsSync` finds one. A plain file
      in the repository has no descriptor below it; a directory in the
      descriptor's place fails `readFileSync`. */
  function ConfigText(t: Node, codec: Codec): (r: Result<Option<string>>)
    ensures r == Ok(None) <==> t.File? || LookupFile(t.children, ConfigName).Missing?
    ensures r.Error? <==> t.Dir? && LookupFile(t.children, ConfigName).IsDirectory?
  {
    if t.File? then Ok(None)
    else
      match LookupFile(t.children, ConfigName)
      case Missing => Ok(None)
      case IsDirectory => Error("EISDIR: illegal operation on a directory, read")
      case Contents(d) => Ok(Some(codec.decode(Utf8, d)))
  }

  /** The entries of a target directory. */
  function Tree(t: Node): seq<Node>
  {
    if t.Dir? then t.children else []
  }

  /** The writes of "[REDACTED]" at each listed path, in order; the first
      failing write ends them. */
  function WriteAll(entries: seq<Node>, paths: seq<string>, data: Bytes): Result<seq<Node>>
    decreases |paths|
  {
    if paths == [] then Ok(entries)
    else
      match WriteAt(entries, Segments(paths[0]), data)
      case Error(e) => Error(e)
      case Ok(next) => WriteAll(next, paths[1..], data)
  }

  /** The staged copy after the `REDACTED_FILE` step: nothing for a falsy
      value, one write for a string, one per item for a list. */
  function Redacted(staged: seq<Node>, redacted: Value, codec: Codec): Result<seq<Node>>
  {
    if !Truthy(redacted) then Ok(staged)
    else if redacted.Str? then WriteAt(staged, Segments(redacted.s), codec.utf8(Redaction))
    else if redacted.Arr? then WriteAll(staged, redacted.items, codec.utf8(Redaction))
    else Ok(staged)
  }

  /** A target's work before anything is sent to the platform: it has no
      descriptor, it failed, or it is ready with its descriptor, the staged
      copy as scanned and its challenge record. */
  datatype Prep = NoConfig | PrepFailed(message: string) | Ready(cfg: Cfg, staged: seq<Node>, rec: ChallengeRecord)

  /** Staging, scanning and record building for a target whose descriptor
      parsed to `cfg`. */
  function Packaged(t: Node, cfg: Cfg, env: Env): (r: Prep)
    ensures !r.NoConfig?
  {
    match Redacted(Remove(Tree(t), ConfigName), Get(cfg, "REDACTED_FILE"), env.codec)
    case Error(e) => PrepFailed(e)
    case Ok(staged) =>
      var scan := ScanEntries(JoinPath(env.packagingDir, t.name), staged, Get(cfg, "FLAG"),
                              SafeFilesOf(Get(cfg, "SAFE_FLAG_FILE")), Get(cfg, "REPLACE_FLAG") == Str("true"), env.codec);
      match FailureOf(scan.1)
      case Some(e) => PrepFailed(e)
      case None =>
        match BuildRecord(cfg, t.name, env.sha1(t.name), scan.0, env.problemDir, env.codec, env.docker)
        case Error(e) => PrepFailed(e)
        case Ok(rec) => Ready(cfg, scan.0, rec)
  }

  function Prepared(t: Node, env: Env): (r: Prep)
    ensures r.NoConfig? <==> t.File? || LookupFile(t.children, ConfigName).Missing?
  {
    match ConfigText(t, env.codec)
    case Error(e) => PrepFailed(e)
    case Ok(None) => NoConfig
    case Ok(Some(text)) => Packaged(t, ParseLines(Lines(text)), env)
  }

  /** What processing target `t` does, given the platform `store` and the
      challenge `listing` fetched before the loop. */
  function TargetOutcome(t: Node, store: Store, listing: seq<Challenge>, env: Env): (r: Outcome)
    ensures r.Skipped? <==> t.File? || LookupFile(t.children, ConfigName).Missing?
  {
    match Prepared(t, env)
    case NoConfig => Skipped
    case PrepFailed(e) => Failed(e)
    case Ready(cfg, staged, rec) =>
      var hash := env.sha1(t.name);
      var (s1, id) := Upserted(store, listing, IdentityTag(hash), rec, Get(cfg, "FLAG"));
      Deployed(Reconciled(s1, id, env.uriEncode(t.name) + ".zip", staged), id)
  }

  /** The target loop: the platform afterwards and the error that ended it,
      if one did. */
  function RunAll(targets: seq<Node>, store: Store, listing: seq<Challenge>, env: Env): (Store, Option<string>)
  {
    if targets == [] then (store, None)
    else
      match TargetOutcome(targets[0], store, listing, env)
      case Failed(e) => (store, Some(e))
      case Skipped => RunAll(targets[1..], store, listing, env)
      case Deployed(s1, _) => RunAll(targets[1..], s1, listing, env)
  }

  /** The `data` shown once the run is over. */
  const Cleared := StateData(Null, Null, Null)

  /** `notices` extends `base` with running statuses about target `name`. */
  predicate Extends(notices: seq<Status>, base: seq<Status>, name: string)
  {
    |base| <= |notices| && notices[..|base|] == base &&
    forall i :: |base| <= i < |notices| ==>
      notices[i].phase == Running && notices[i].data.Some? && notices[i].data.value.target == Str(name)
  }

  lemma ExtendsAppend(notices: seq<Status>, base: seq<Status>, name: string, s: Status)
    requires Extends(notices, base, name)
    requires s.phase == Running && s.data.Some? && s.data.value.target == Str(name)
    ensures Extends(notices + [s], base, name)
  {
    assert (notices + [s])[..|base|] == notices[..|base|];
  }

  /** One unfolding of the target loop at position `i`. */
  lemma RunStep(targets: seq<Node>, i: nat, store: Store, listing: seq<Challenge>, env: Env)
    requires i < |targets|
    ensures var o := TargetOutcome(targets[i], store, listing, env);
            RunAll(targets[i..], store, listing, env) ==
            if o.Failed? then (store, Some(o.message))
            else RunAll(targets[i + 1..], if o.Deployed? then o.store else store, listing, env)
  {
    assert targets[i..][1..] == targets[i + 1..];
  }

  /** The writes of the `REDACTED_FILE` step. */
  method Redact(staged: seq<Node>, redacted: Value, codec: Codec) returns (r: Result<seq<Node>>)
    ensures r == Redacted(staged, redacted, codec)
  {
    if !Truthy(redacted) {
      return Ok(staged);
    }
    if redacted.Str? {
      return WriteAt(staged, Segments(redacted.s), codec.utf8(Redaction));
    }
    var tree := staged;
    if redacted.Arr? {
      var paths := redacted.items;
      var j := 0;
      while j < |paths|
        invariant 0 <= j <= |paths|
        invariant WriteAll(tree, paths[j..], codec.utf8(Redaction)) == WriteAll(staged, paths, codec.utf8(Redaction))
      {
        match WriteAt(tree, Segments(paths[j]), codec.utf8(Redaction))
        case Error(e) =>
          return Error(e);
        case Ok(next) =>
          assert paths[j..][1..] == paths[j + 1..];
          tree := next;
        j := j + 1;
      }
    }
    return Ok(tree);
  }

  class Deployer {
    const env: Env
    /** `STATE`. */
    var status: Status
    /** The statuses shown so far, one per `updateState` call. */
    var notices: seq<Status>
    /** The platform as the deployer's requests leave it. */
    var store: Store

    constructor(env: Env, store: Store)
      ensures this.env == env && this.store == store
      ensures status == Status(Pending, None) && notices == []
    {
      this.env := env;
      this.store := store;
      status := Status(Pending, None);
      notices := [];
    }

    /** `updateState`: shows the current status. */
    method Notify()
      modifies this
      ensures notices == old(notices) + [status]
      ensures status == old(status) && store == old(store)
    {
      notices := notices + [status];
    }

    /** Sets `STATE.data` and shows it. */
    method Show(data: StateData)
      modifies this
      ensures status == old(status).(data := Some(data))
      ensures notices == old(notices) + [status]
      ensures store == old(store)
    {
      status := status.(data := Some(data));
      Notify();
    }

    /** The create-or-patch of one challenge, request by request. */
    method Sync(listing: seq<Challenge>, tag: string, rec: ChallengeRecord, flag: Value) returns (id: nat)
      modifies this
      ensures (store, id) == Upserted(old(store), listing, tag, rec, flag)
      ensures status == old(status) && notices == old(notices)
    {
      var found := FindTagged(listing, tag);
      if found.Some? {
        id := listing[found.value].id;
        store := PatchChallenge(store, id, rec);
        var existing := FlagsFor(store.flags, id);
        if |existing| == 0 {
          store := PostFlag(store, id, flag);
        } else {
          store := PatchFlag(store, existing[0].id, id, flag);
        }
      } else {
        var created := PostChallenge(store, rec);
        store, id := created.0, created.1;
        store := PostTag(store, id, tag);
        store := PostFlag(store, id, flag);
      }
    }

    /** Deletes every file of the challenge, then uploads the archive. */
    method ReplaceFiles(id: nat, name: string, archive: seq<Node>)
      modifies this
      ensures store == Reconciled(old(store), id, name, archive)
      ensures status == old(status) && notices == old(notices)
    {
      var attached := FilesFor(store.files, id);
      ghost var before := store;
      WithoutNothing(before.files);
      assert IdsOf(attached[..0]) == {};
      var i := 0;
      while i < |attached|
        invariant 0 <= i <= |attached|
        invariant store == before.(files := Without(before.files, IdsOf(attached[..i])))
        invariant status == old(status) && notices == old(notices)
      {
        WithoutTwice(before.files, IdsOf(attached[..i]), attached[i].id);
        IdsOfSnoc(attached, i);
        store := DeleteFile(store, attached[i].id);
        i := i + 1;
      }
      assert attached[..i] == attached;
      store := UploadFile(store, id, name, archive);
    }

    /** Sets the step of the status shown for target `name` and shows it. */
    method ShowStep(data: StateData, ghost base: seq<Status>, ghost name: string)
      modifies this
      requires status.phase == Running && data.target == Str(name)
      requires Extends(notices, base, name)
      ensures status == old(status).(data := Some(data)) && store == old(store)
      ensures notices == old(notices) + [status]
      ensures Extends(notices, base, name)
    {
      Show(data);
      ExtendsAppend(old(notices), base, name, status);
    }

    /** The steps of one target before the platform is contacted: the
        redaction writes, the flag scan, the archive and the record. */
    method Package(t: Node, cfg: Cfg, data: StateData, ghost base: seq<Status>) returns (p: Prep, data': StateData)
      modifies this
      requires status.phase == Running && data.target == Str(t.name)
      requires Extends(notices, base, t.name)
      ensures p == Packaged(t, cfg, env)
      ensures store == old(store) && status.phase == Running && status.data == Some(data')
      ensures data'.target == Str(t.name)
      ensures p.Ready? ==> data' == data.(detail := Str("uploading problems"), step := Str("building configuration"))
      ensures Extends(notices, base, t.name) && |notices| >= |old(notices)|
    {
      data' := data.(step := Str("replacing redacted files"));
      ShowStep(data', base, t.name);
      var staged := Remove(Tree(t), ConfigName);
      var written := Redact(staged, Get(cfg, "REDACTED_FILE"), env.codec);
      if written.Error? {
        return PrepFailed(written.message), data';
      }

      data' := data'.(step := Str("searching flags"));
      ShowStep(data', base, t.name);
      var scanned, scan := SearchFlag(JoinPath(env.packagingDir, t.name), written.value, Get(cfg, "FLAG"),
                                      Get(cfg, "SAFE_FLAG_FILE"), Get(cfg, "REPLACE_FLAG"), env.codec);
      if FailureOf(scan).Some? {
        return PrepFailed(FailureOf(scan).value), data';
      }

      data' := data'.(step := Str("compressing"));
      ShowStep(data', base, t.name);

      data' := data'.(detail := Str("uploading problems"), step := Str("building configuration"));
      ShowStep(data', base, t.name);
      var rec := BuildRecord(cfg, t.name, env.sha1(t.name), scanned, env.problemDir, env.codec, env.docker);
      if rec.Error? {
        return PrepFailed(rec.message), data';
      }
      p := Ready(cfg, scanned, rec.value);
    }

    /** One iteration of the target loop. */
    method ProcessTarget(t: Node, listing: seq<Challenge>) returns (outcome: Outcome)
      modifies this
      requires status.phase == Running && status.data.Some?
      ensures outcome == TargetOutcome(t, old(store), listing, env)
      ensures outcome.Deployed? ==> store == outcome.store
      ensures !outcome.Deployed? ==> store == old(store)
      ensures status.phase == Running && status.data.Some? && status.data.value.target == Str(t.name)
      ensures |notices| >= |old(notices)| + 2 && Extends(notices, old(notices), t.name)
      ensures outcome.Skipped? ==> notices == old(notices) + [
                Status(Running, Some(StateData(Str("packaging"), Str(t.name), old(status).data.value.step))),
                Status(Running, Some(StateData(Str("packaging"), Str(t.name), Str("loading configuration"))))]
      ensures outcome.Deployed? ==> status.data.value == StateData(Str("uploading problems"), Str(t.name), Null)
    {
      ghost var base := notices;
      assert Extends(notices, base, t.name) by { assert notices[..|base|] == base; }
      var data := status.data.value.(detail := Str("packaging"), target := Str(t.name));
      ShowStep(data, base, t.name);
      data := data.(step := Str("loading configuration"));
      ShowStep(data, base, t.name);
      var text := ConfigText(t, env.codec);
      if text.Error? {
        return Failed(text.message);
      }
      var loaded := LoadCfg(text.value);
      if loaded.None? {
        return Skipped;
      }
      var p;
      p, data := Package(t, loaded.value, data, base);
      if !p.Ready? {
        return Failed(p.message);
      }

      var id := Publish(t, listing, p, data, base);
      outcome := Deployed(store, id);
    }

    /** The steps of one packaged target that talk to the platform: the
        create-or-patch of the challenge and the replacement of its files. */
    method Publish(t: Node, listing: seq<Challenge>, p: Prep, data: StateData, ghost base: seq<Status>) returns (id: nat)
      modifies this
      requires p.Ready? && status.phase == Running && data.target == Str(t.name)
      requires Extends(notices, base, t.name)
      ensures var (s1, created) := Upserted(old(store), listing, IdentityTag(env.sha1(t.name)), p.rec, Get(p.cfg, "FLAG"));
              id == created && store == Reconciled(s1, created, env.uriEncode(t.name) + ".zip", p.staged)
      ensures status == Status(Running, Some(data.(step := Null)))
      ensures Extends(notices, base, t.name) && |notices| >= |old(notices)|
    {
      var shown := data.(step := Str("creating/patching problem to ctfd"));
      ShowStep(shown, base, t.name);
      id := Sync(listing, IdentityTag(env.sha1(t.name)), p.rec, Get(p.cfg, "FLAG"));

      // `!!(config("POST_FILE_FOR_USER") || true)` always holds.
      shown := shown.(step := Str("uploading for user file to ctfd"));
      ShowStep(shown, base, t.name);
      ReplaceFiles(id, env.uriEncode(t.name) + ".zip", p.staged);

      status := status.(data := Some(shown.(step := Null)));
    }

    /** The target loop inside the `try`: the first error ends it. */
    method RunTargets(targets: seq<Node>, listing: seq<Challenge>) returns (error: Option<string>)
      modifies this
      requires status.phase == Running && status.data.Some?
      ensures (store, error) == RunAll(targets, old(store), listing, env)
      ensures status.phase == Running && status.data.Some?
      ensures RunningAfter(notices, old(notices))
    {
      ghost var shown := notices;
      ghost var start := store;
      error := None;
      var i := 0;
      while i < |targets| && error.None?
        invariant 0 <= i <= |targets|
        invariant error.None? ==> RunAll(targets[i..], store, listing, env) == RunAll(targets, start, listing, env)
        invariant error.Some? ==> (store, error) == RunAll(targets, start, listing, env)
        invariant status.phase == Running && status.data.Some?
        invariant RunningAfter(notices, shown)
      {
        RunStep(targets, i, store, listing, env);
        ghost var seen := notices;
        var outcome := ProcessTarget(targets[i], listing);
        RunningExtends(seen, shown, notices, targets[i].name);
        if outcome.Failed? {
          error := Some(outcome.message);
        }
        i := i + 1;
      }
      if error.None? {
        assert targets[i..] == [];
      }
    }

    /** `deploy`, from the point the repository is unpacked: the status goes
        to running, the targets are processed in listing order against the
        challenge listing fetched once before the loop, the first error ends
        the loop, and the status goes to done and then back to pending. */
    method Deploy(targets: seq<Node>) returns (error: Option<string>)
      modifies this
      ensures (store, error) == RunAll(targets, old(store), old(store).challenges, env)
      ensures status == Status(Pending, Some(Cleared))
      ensures |notices| >= |old(notices)| + 4
      ensures RunningAfter(notices[..|notices| - 2], old(notices))
      ensures notices[|notices| - 2] == Status(Done, Some(Cleared))
      ensures notices[|notices| - 1] == Status(Pending, Some(Cleared))
    {
      ghost var shown := notices;
      status := Status(Running, Some(StateData(Str("fetching problems"), Undefined, Undefined)));
      Notify();
      Show(Cleared);
      assert RunningAfter(notices, shown) by {
        assert notices[..|shown|] == shown;
      }
      ghost var started := notices;
      var listing := store.challenges;
      error := RunTargets(targets, listing);
      RunningTrans(notices, started, shown);
      ghost var ran := notices;
      status := Status(Done, Some(Cleared));
      Notify();
      status := status.(phase := Pending);
      Notify();
      assert notices[..|notices| - 2] == ran;
    }
  }

  /** `notices` extends `base` with running statuses only. */
  predicate RunningAfter(notices: seq<Status>, base: seq<Status>)
  {
    |base| <= |notices| && notices[..|base|] == base &&
    forall i :: |base| <= i < |notices| ==> notices[i].phase == Running
  }

  lemma RunningExtends(seen: seq<Status>, base: seq<Status>, notices: seq<Status>, name: string)
    requires RunningAfter(seen, base)
    requires Extends(notices, seen, name)
    ensures RunningAfter(notices, base)
  {
    assert notices[..|base|] == seen[..|base|];
  }

  lemma RunningTrans(notices: seq<Status>, mid: seq<Status>, base: seq<Status>)
    requires RunningAfter(mid, base) && RunningAfter(notices, mid)
    ensures RunningAfter(notices, base)
  {
    assert notices[..|base|] == mid[..|base|];
  }

  // ---------------------------------------------------------------------
  // Properties of the run

  /** The first error ends the run: targets after a failing prefix are never
      processed. */
  lemma {:induction false} ErrorStopsRun(targets: seq<Node>, rest: seq<Node>, store: Store, listing: seq<Challenge>, env: Env)
    requires RunAll(targets, store, listing, env).1.Some?
    ensures RunAll(targets + rest, store, listing, env) == RunAll(targets, store, listing, env)
  {
    assert (targets + rest)[1..] == targets[1..] + rest;
    match TargetOutcome(targets[0], store, listing, env)
    case Failed(_) =>
    case Skipped => ErrorStopsRun(targets[1..], rest, store, listing, env);
    case Deployed(s1, _) => ErrorStopsRun(targets[1..], rest, s1, listing, env);
  }

  /** A run that gets through a prefix goes on with the rest from where the
      prefix left the platform. */
  lemma {:induction false} RunSplits(targets: seq<Node>, rest: seq<Node>, store: Store, listing: seq<Challenge>, env: Env)
    requires RunAll(targets, store, listing, env).1.None?
    ensures RunAll(targets + rest, store, listing, env) == RunAll(rest, RunAll(targets, store, listing, env).0, listing, env)
  {
    if targets == [] {
      assert targets + rest == rest;
    } else {
      assert (targets + rest)[1..] == targets[1..] + rest;
      match TargetOutcome(targets[0], store, listing, env)
      case Failed(_) =>
      case Skipped => RunSplits(targets[1..], rest, store, listing, env);
      case Deployed(s1, _) => RunSplits(targets[1..], rest, s1, listing, env);
    }
  }

  /** A target without a descriptor is passed over before anything is copied,
      scanned or sent: the run goes on with the platform untouched. */
  lemma MissingConfigSkipped(t: Node, rest: seq<Node>, store: Store, listing: seq<Challenge>, env: Env)
    requires t.File? || LookupFile(t.children, ConfigName).Missing?
    ensures RunAll([t] + rest, store, listing, env) == RunAll(rest, store, listing, env)
  {
    assert ([t] + rest)[1..] == rest;
  }

  /** A failing target leaves the platform as it was. */
  lemma FailureTouchesNothing(t: Node, rest: seq<Node>, store: Store, listing: seq<Challenge>, env: Env)
    requires TargetOutcome(t, store, listing, env).Failed?
    ensures RunAll([t] + rest, store, listing, env) == (store, Some(TargetOutcome(t, store, listing, env).message))
  {
  }

  /** A deployed target's challenge carries its identity tag, its first flag
      is the descriptor's FLAG, and its only file is the archive of the staged
      copy. */
  lemma DeployedChallenge(t: Node, store: Store, listing: seq<Challenge>, env: Env)
    requires Valid(store)
    requires TargetOutcome(t, store, listing, env).Deployed?
    ensures var o := TargetOutcome(t, store, listing, env);
            var flags := FlagsFor(o.store.flags, o.id);
            var files := FilesFor(o.store.files, o.id);
            flags != [] && flags[0].kind == "static" &&
            |files| == 1 && files[0].name == env.uriEncode(t.name) + ".zip"
  {
    var p := Prepared(t, env);
    var (s1, id) := Upserted(store, listing, IdentityTag(env.sha1(t.name)), p.rec, Get(p.cfg, "FLAG"));
    FirstFlagHoldsFlag(store, listing, IdentityTag(env.sha1(t.name)), p.rec, Get(p.cfg, "FLAG"));
    ReconciledFiles(s1, id, env.uriEncode(t.name) + ".zip", p.staged);
  }

  /** Deploying a target again against the platform its first deployment
      left finds the challenge by its identity tag: the same challenge is
      patched, and no challenge and no flag is created. */
  lemma RedeployCreatesNothing(t: Node, store: Store, env: Env)
    requires Valid(store)
    requires TargetOutcome(t, store, store.challenges, env).Deployed?
    ensures var o1 := TargetOutcome(t, store, store.challenges, env);
            var o2 := TargetOutcome(t, o1.store, o1.store.challenges, env);
            o2.Deployed? && o2.id == o1.id && |o2.store.challenges| == |o1.store.challenges| &&
            |FlagsFor(o2.store.flags, o2.id)| == |FlagsFor(o1.store.flags, o1.id)|
  {
    var p := Prepared(t, env);
    var tag, flag := IdentityTag(env.sha1(t.name)), Get(p.cfg, "FLAG");
    var (u1, id1) := Upserted(store, store.challenges, tag, p.rec, flag);
    UpsertTags(store, tag, p.rec, flag);
    UpsertValid(store, store.challenges, tag, p.rec, flag);
    FirstFlagHoldsFlag(store, store.challenges, tag, p.rec, flag);
    var s1 := Reconciled(u1, id1, env.uriEncode(t.name) + ".zip", p.staged);
    ReconciledValid(u1, id1, env.uriEncode(t.name) + ".zip", p.staged);
    assert s1.challenges == u1.challenges && s1.flags == u1.flags;
    UpsertFoundPatches(s1, s1.challenges, tag, p.rec, flag);
    UpsertFoundFlags(s1, s1.challenges, tag, p.rec, flag);
  }

  /** A run keeps the platform's ids below its counter. */
  lemma {:induction false} RunValid(targets: seq<Node>, store: Store, listing: seq<Challenge>, env: Env)
    requires Valid(store) && Known(store, listing)
    ensures Valid(RunAll(targets, store, listing, env).0)
    ensures Known(RunAll(targets, store, listing, env).0, listing)
  {
    if targets != [] {
      match TargetOutcome(targets[0], store, listing, env)
      case Failed(_) =>
      case Skipped => RunValid(targets[1..], store, listing, env);
      case Deployed(s2, _) =>
        TargetValid(targets[0], store, listing, env);
        RunValid(targets[1..], s2, listing, env);
    }
  }

  lemma TargetValid(t: Node, store: Store, listing: seq<Challenge>, env: Env)
    requires Valid(store) && Known(store, listing)
    requires TargetOutcome(t, store, listing, env).Deployed?
    ensures Valid(TargetOutcome(t, store, listing, env).store)
    ensures Known(TargetOutcome(t, store, listing, env).store, listing)
  {
    var p := Prepared(t, env);
    var (s1, id) := Upserted(store, listing, IdentityTag(env.sha1(t.name)), p.rec, Get(p.cfg, "FLAG"));
    UpsertValid(store, listing, IdentityTag(env.sha1(t.name)), p.rec, Get(p.cfg, "FLAG"));
    assert id < s1.nextId;
    ReconciledValid(s1, id, env.uriEncode(t.name) + ".zip", p.staged);
  }

  /** A written redaction path reads back as "[REDACTED]". */
  lemma RedactedFileReads(staged: seq<Node>, path: string, codec: Codec)
    requires path != ""
    requires Redacted(staged, Str(path), codec).Ok?
    ensures ReadAt(Redacted(staged, Str(path), codec).value, Segments(path)) == Some(codec.utf8(Redaction))
  {
    WriteThenRead(staged, Segments(path), codec.utf8(Redaction));
  }
}
