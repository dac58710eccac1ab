/**
 * The `deploy` loop of the older deployer. It keeps no run status, talks to
 * no platform and never redacts. Each target is processed in this order:
 *   - its directory is copied to the packaging directory;
 *   - its docker image is built from the target directory, named by the
 *     base32 encoding of the target's name;
 *   - its descriptor is loaded, and a missing descriptor throws;
 *   - the redacted files are overwritten;
 *   - the copy is scanned for the flag.
 * No `try` surrounds the loop, so the first error ends the whole run.
 */
module Legacy {
  import opened Js
  import opened Config
  import opened FileTree
  import opened Scanner
  import opened Record
  import opened Deployment

  /** What the older driver relies on and does not interpret. */
  datatype LegacyEnv = LegacyEnv(
    codec: Codec,
    base32: string -> string,
    docker: DockerBuild,
    problemDir: string,
    packagingDir: string)

  /** A docker build started: its working directory and image name. */
  datatype Build = Build(cwd: string, image: string)

  function BuildOf(t: Node, env: LegacyEnv): Build
  {
    Build(JoinPath(env.problemDir, t.name), env.base32(t.name))
  }

  /** The error one iteration throws, if it throws one. The build comes
      first, so a target without a descriptor is still built. */
  function LegacyFailure(t: Node, env: LegacyEnv): Option<string>
  {
    var b := BuildOf(t, env);
    match env.docker(b.cwd, b.image)
    case Some(e) => Some(e)
    case None =>
      match ConfigText(t, env.codec)
      case Error(e) => Some(e)
      case Ok(None) => Some("Could not find file")
      case Ok(Some(text)) =>
        var cfg := ParseLines(Lines(text));
        match Redacted(Remove(Tree(t), ConfigName), Get(cfg, "REDACTED_FILE"), env.codec)
        case Error(e) => Some(e)
        case Ok(staged) =>
          FailureOf(ScanEntries(JoinPath(env.packagingDir, t.name), staged, Get(cfg, "FLAG"),
                                SafeFilesOf(Get(cfg, "SAFE_FLAG_FILE")), false, env.codec).1)
  }

  /** What one iteration does: the build it starts, and the error it throws
      if it throws one. */
  datatype Step = Step(build: Build, failure: Option<string>)

  /** The iteration of every target, as if each one ran. */
  function Steps(targets: seq<Node>, env: LegacyEnv): (r: seq<Step>)
    ensures |r| == |targets|
    ensures forall i :: 0 <= i < |r| ==> r[i] == Step(BuildOf(targets[i], env), LegacyFailure(targets[i], env))
  {
    seq(|targets|, i requires 0 <= i < |targets| => Step(BuildOf(targets[i], env), LegacyFailure(targets[i], env)))
  }

  /** The builds started up to and including the first failing iteration,
      and that iteration's error. */
  function StopAtFirst(steps: seq<Step>): (r: (seq<Build>, Option<string>))
    ensures |r.0| <= |steps|
    ensures r.1.None? ==> |r.0| == |steps|
  {
    if steps == [] then ([], None)
    else if steps[0].failure.Some? then ([steps[0].build], steps[0].failure)
    else
      var rest := StopAtFirst(steps[1..]);
      ([steps[0].build] + rest.0, rest.1)
  }

  /** The builds the loop starts, in order, and the error that ended it. */
  function LegacyRun(targets: seq<Node>, env: LegacyEnv): (r: (seq<Build>, Option<string>))
    ensures |r.0| <= |targets|
    ensures r.1.None? ==> |r.0| == |targets|
  {
    StopAtFirst(Steps(targets, env))
  }

  /** One iteration of the older loop. */
  method LegacyTarget(t: Node, env: LegacyEnv) returns (failure: Option<string>)
    ensures failure == LegacyFailure(t, env)
  {
    var built := env.docker(JoinPath(env.problemDir, t.name), env.base32(t.name));
    if built.Some? {
      return built;
    }
    var text := ConfigText(t, env.codec);
    if text.Error? {
      return Some(text.message);
    }
    var loaded := LoadCfgLegacy(text.value);
    if loaded.Error? {
      return Some(loaded.message);
    }
    var cfg := loaded.value;
    var written := Redact(Remove(Tree(t), ConfigName), Get(cfg, "REDACTED_FILE"), env.codec);
    if written.Error? {
      return Some(written.message);
    }
    var scan := SearchFlagLegacy(JoinPath(env.packagingDir, t.name), written.value, Get(cfg, "FLAG"),
                                 Get(cfg, "SAFE_FLAG_FILE"), env.codec);
    failure := FailureOf(scan);
  }

  /** The older `deploy` loop: the builds started, and the error that ended
      the run. */
  method DeployLegacy(targets: seq<Node>, env: LegacyEnv) returns (builds: seq<Build>, error: Option<string>)
    ensures (builds, error) == LegacyRun(targets, env)
  {
    ghost var steps := Steps(targets, env);
    builds, error := [], None;
    var i := 0;
    assert steps[0..] == steps;
    assert builds + StopAtFirst(steps).0 == StopAtFirst(steps).0;
    while i < |targets| && error.None?
      invariant 0 <= i <= |targets|
      invariant error.None? ==> Midway(steps, i, builds)
      invariant error.Some? ==> (builds, error) == StopAtFirst(steps)
    {
      var failure := LegacyTarget(targets[i], env);
      StopStep(steps, i, builds);
      builds := builds + [BuildOf(targets[i], env)];
      if failure.Some? {
        error := failure;
      }
      i := i + 1;
    }
    if error.None? {
      assert steps[i..] == [];
      assert builds + [] == builds;
    }
  }

  /** The whole run is the builds of the first `i` iterations followed by the
      run over the rest. */
  predicate Midway(steps: seq<Step>, i: nat, builds: seq<Build>)
    requires i <= |steps|
  {
    StopAtFirst(steps) == (builds + StopAtFirst(steps[i..]).0, StopAtFirst(steps[i..]).1)
  }

  /** One iteration of the older loop at position `i`: a failing iteration
      ends the run with its build, any other one moves the run on. */
  lemma StopStep(steps: seq<Step>, i: nat, builds: seq<Build>)
    requires i < |steps| && Midway(steps, i, builds)
    ensures var b := builds + [steps[i].build];
            if steps[i].failure.Some? then StopAtFirst(steps) == (b, steps[i].failure) else Midway(steps, i + 1, b)
  {
    var here := steps[i..];
    assert here[0] == steps[i];
    if steps[i].failure.Some? {
      assert StopAtFirst(here) == ([steps[i].build], steps[i].failure);
    } else {
      assert here[1..] == steps[i + 1..];
      var rest := StopAtFirst(steps[i + 1..]);
      assert StopAtFirst(here) == ([steps[i].build] + rest.0, rest.1);
      assert builds + [steps[i].build] + rest.0 == builds + ([steps[i].build] + rest.0);
    }
  }

  /** A target without a descriptor is still built, and then the run stops
      with "Could not find file": no later target is built. */
  lemma MissingConfigStops(t: Node, rest: seq<Node>, env: LegacyEnv)
    requires t.File? || LookupFile(t.children, ConfigName).Missing?
    requires env.docker(JoinPath(env.problemDir, t.name), env.base32(t.name)).None?
    ensures LegacyRun([t] + rest, env) == ([BuildOf(t, env)], Some("Could not find file"))
  {
    assert ConfigText(t, env.codec) == Ok(None);
  }

  /** A failed build ends the run before the descriptor is even read. */
  lemma BuildFailureStops(t: Node, rest: seq<Node>, env: LegacyEnv)
    requires env.docker(JoinPath(env.problemDir, t.name), env.base32(t.name)).Some?
    ensures LegacyRun([t] + rest, env) == ([BuildOf(t, env)], env.docker(JoinPath(env.problemDir, t.name), env.base32(t.name)))
  {
  }

  /** The run completes exactly when no target fails, and then every target
      has been built, in order. */
  lemma LegacyRunCompletes(targets: seq<Node>, env: LegacyEnv)
    ensures LegacyRun(targets, env).1.None? <==> forall i :: 0 <= i < |targets| ==> LegacyFailure(targets[i], env).None?
    ensures LegacyRun(targets, env).1.None? ==>
              forall i :: 0 <= i < |targets| ==> LegacyRun(targets, env).0[i] == BuildOf(targets[i], env)
  {
    var steps := Steps(targets, env);
    StopCompletes(steps);
    if StopAtFirst(steps).1.None? {
      StopBuildsAll(steps);
    }
  }

  lemma {:induction false} StopCompletes(steps: seq<Step>)
    ensures StopAtFirst(steps).1.None? <==> forall i :: 0 <= i < |steps| ==> steps[i].failure.None?
  {
    if steps != [] {
      StopCompletes(steps[1..]);
      if forall i :: 0 <= i < |steps| ==> steps[i].failure.None? {
        assert forall i :: 0 <= i < |steps[1..]| ==> steps[1..][i] == steps[i + 1];
      } else if steps[0].failure.None? {
        var i :| 0 <= i < |steps| && steps[i].failure.Some?;
        assert steps[i] == steps[1..][i - 1];
      }
    }
  }

  lemma {:induction false} StopBuildsAll(steps: seq<Step>)
    requires StopAtFirst(steps).1.None?
    ensures forall i :: 0 <= i < |steps| ==> StopAtFirst(steps).0[i] == steps[i].build
  {
    if steps != [] {
      StopBuildsAll(steps[1..]);
      forall i | 0 <= i < |steps| ensures StopAtFirst(steps).0[i] == steps[i].build {
        if i > 0 {
          assert steps[i] == steps[1..][i - 1];
        }
      }
    }
  }

  /** With a string flag and a safe-list array, a target whose build and
      redaction succeed passes exactly when every file the list does not
      cover is free of the flag; any match throws, since nothing is redacted. */
  lemma LegacyScanPassesIffClean(t: Node, env: LegacyEnv, text: string, flag: string, safes: seq<string>)
    requires env.docker(JoinPath(env.problemDir, t.name), env.base32(t.name)).None?
    requires ConfigText(t, env.codec) == Ok(Some(text))
    requires Get(ParseLines(Lines(text)), "FLAG") == Str(flag)
    requires SafeFilesOf(Get(ParseLines(Lines(text)), "SAFE_FLAG_FILE")) == Entries(safes)
    requires Redacted(Remove(Tree(t), ConfigName), Get(ParseLines(Lines(text)), "REDACTED_FILE"), env.codec).Ok?
    ensures var staged := Redacted(Remove(Tree(t), ConfigName), Get(ParseLines(Lines(text)), "REDACTED_FILE"), env.codec).value;
            LegacyFailure(t, env).None? <==> Clean(JoinPath(env.packagingDir, t.name), staged, flag, safes, env.codec)
  {
    var staged := Redacted(Remove(Tree(t), ConfigName), Get(ParseLines(Lines(text)), "REDACTED_FILE"), env.codec).value;
    PlainScanPassesIffClean(JoinPath(env.packagingDir, t.name), staged, flag, safes, env.codec);
  }
}
