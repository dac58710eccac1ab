/**
 * The challenge record (`register_config`) built from a descriptor: a name
 * that defaults to the directory name, a description taken from a staged
 * `readme.md` or else `CHALLENGE_MESSAGE`, a category defaulting to "" and a
 * state defaulting to "hidden"; then, by `CHALLENGE_TYPE`, the fields of a
 * `standard`, `container` or `dynamic` challenge. Any other type adds nothing,
 * not even a `type` field. A container challenge first builds its image, and a
 * build error aborts the target.
 */
module Record {
  import opened Js
  import opened Config
  import opened FileTree

  /** The fields a record can carry. */
  datatype Field =
    | Name | Description | Category | State | Type | ScoreValue
    | ConnectionInfo | Initial | Minimum | Decay | Ctype | Port | Command | Image | DecayFunction

  /** The key a field is sent under. */
  function WireName(f: Field): string
  {
    match f
    case Name => "name"
    case Description => "description"
    case Category => "category"
    case State => "state"
    case Type => "type"
    case ScoreValue => "value"
    case ConnectionInfo => "connection_info"
    case Initial => "initial"
    case Minimum => "minimum"
    case Decay => "decay"
    case Ctype => "ctype"
    case Port => "port"
    case Command => "command"
    case Image => "image"
    case DecayFunction => "function"
  }

  /** The record as sent to the platform: field to value. */
  type ChallengeRecord = map<Field, Value>

  /** `docker build . -t "<tag>"` run in a directory: the error the
      callback receives, if any. */
  type DockerBuild = (string, string) -> Option<string>

  const BaseKeys: set<Field> := {Name, Description, Category, State}
  const StandardKeys: set<Field> := {Type, ScoreValue}
  const ContainerKeys: set<Field> := {Type, ConnectionInfo, Initial, Minimum, Decay, Ctype, Port, Command, Image}
  const DynamicKeys: set<Field> := {Type, Initial, Minimum, Decay, DecayFunction}

  /** The fields a record of a given `CHALLENGE_TYPE` has besides the base ones. */
  function TypeKeys(kind: Value): set<Field>
  {
    if kind == Str("standard") then StandardKeys
    else if kind == Str("container") then ContainerKeys
    else if kind == Str("dynamic") then DynamicKeys
    else {}
  }

  predicate KnownType(kind: Value)
  {
    kind in {Str("standard"), Str("container"), Str("dynamic")}
  }

  /** The directory the image is built in: the target's own directory, or
      `DOCKER_LOCATION` below it; `path.join` rejects a list. */
  function BuildContext(problemDir: string, file: string, cfg: Cfg): Result<string>
  {
    var location := Get(cfg, "DOCKER_LOCATION");
    if !Truthy(location) then Ok(JoinPath(problemDir, file))
    else if location.Str? then Ok(JoinPath(JoinPath(problemDir, file), location.s))
    else Error(PathTypeMessage(location))
  }

  /** The message of the `TypeError` `path.join` throws for an argument that
      is not a string. */
  function PathTypeMessage(arg: Value): string
  {
    "The \"path\" argument must be of type string. Received " +
    match arg
    case Arr(_) => "an instance of Array"
    case Bool(b) => if b then "type boolean (true)" else "type boolean (false)"
    case Null => "null"
    case Undefined => "undefined"
    case Str(s) => "type string ('" + s + "')"
  }

  /** `description`: the staged `readme.md` when it exists, else `CHALLENGE_MESSAGE`. */
  function DescriptionOf(staged: seq<Node>, cfg: Cfg, codec: Codec): Result<Value>
  {
    match LookupFile(staged, "readme.md")
    case Missing => Ok(Get(cfg, "CHALLENGE_MESSAGE"))
    case IsDirectory => Error("EISDIR: illegal operation on a directory, read")
    case Contents(d) => Ok(Str(codec.decode(Utf8, d)))
  }

  /** The build of a container challenge's image, tagged with the identity hash. */
  function DockerOutcome(problemDir: string, file: string, hash: string, cfg: Cfg, docker: DockerBuild): Option<string>
  {
    match BuildContext(problemDir, file, cfg)
    case Error(e) => Some(e)
    case Ok(cwd) => docker(cwd, hash)
  }

  /** The fields every record has. */
  function BaseFields(cfg: Cfg, file: string, description: Value): (m: ChallengeRecord)
    ensures m.Keys == BaseKeys
  {
    map[
      Name := OrElse(Get(cfg, "CHALLENGE_NAME"), file),
      Description := description,
      Category := OrElse(Get(cfg, "CHALLENGE_CATEGORY"), ""),
      State := OrElse(Get(cfg, "CHALLENGE_STATE"), "hidden")]
  }

  /** The fields of a `standard` challenge. */
  function StandardFields(cfg: Cfg): (m: ChallengeRecord)
    ensures m.Keys == StandardKeys && m[Type] == Str("standard")
  {
    map[Type := Str("standard"), ScoreValue := OrElse(Get(cfg, "CHALLENGE_SCORE"), "")]
  }

  /** The fields of a `container` challenge whose image is tagged `hash`. */
  function ContainerFields(cfg: Cfg, hash: string): (m: ChallengeRecord)
    ensures m.Keys == ContainerKeys && m[Type] == Str("container")
  {
    map[
      Type := Str("container"),
      ConnectionInfo := Str("Container"),
      Initial := OrElse(Get(cfg, "CHALLENGE_SCORE"), ""),
      Minimum := OrElse(Get(cfg, "DECAYED_MINIMUM"), ""),
      Decay := OrElse(Get(cfg, "DECAY_LIMIT"), ""),
      Ctype := OrElse(Get(cfg, "DOCKER_CONNECT_TYPE"), ""),
      Port := OrElse(Get(cfg, "DOCKER_PORT"), ""),
      Command := OrElse(Get(cfg, "DOCKER_COMMAND"), ""),
      Image := Str(hash + ":latest")]
  }

  /** The fields of a `dynamic` challenge. */
  function DynamicFields(cfg: Cfg): (m: ChallengeRecord)
    ensures m.Keys == DynamicKeys && m[Type] == Str("dynamic")
  {
    map[
      Type := Str("dynamic"),
      Initial := OrElse(Get(cfg, "CHALLENGE_SCORE"), ""),
      Minimum := OrElse(Get(cfg, "DECAYED_MINIMUM"), ""),
      Decay := OrElse(Get(cfg, "DECAY_VALUE"), ""),
      DecayFunction := OrElse(Get(cfg, "DECAY_FUNCTION"), "")]
  }

  /** The fields a record of the descriptor's `CHALLENGE_TYPE` carries besides
      the base ones; an unknown type adds none. */
  function TypedFields(cfg: Cfg, hash: string): (m: ChallengeRecord)
    ensures m.Keys == TypeKeys(Get(cfg, "CHALLENGE_TYPE"))
    ensures Type in m ==> m[Type] == Get(cfg, "CHALLENGE_TYPE")
  {
    var kind := Get(cfg, "CHALLENGE_TYPE");
    if kind == Str("standard") then StandardFields(cfg)
    else if kind == Str("container") then ContainerFields(cfg, hash)
    else if kind == Str("dynamic") then DynamicFields(cfg)
    else map[]
  }

  /** `register_config` for the target `file` with identity hash `hash`,
      whose staged tree is `staged`, or the error that aborts the target. The
      description is read before a container image is built. */
  function BuildRecord(cfg: Cfg, file: string, hash: string, staged: seq<Node>, problemDir: string, codec: Codec, docker: DockerBuild)
    : (r: Result<ChallengeRecord>)
    ensures r.Error? <==> LookupFile(staged, "readme.md").IsDirectory?
                          || (Get(cfg, "CHALLENGE_TYPE") == Str("container") && DockerOutcome(problemDir, file, hash, cfg, docker).Some?)
    ensures r.Ok? ==> r.value.Keys == BaseKeys + TypeKeys(Get(cfg, "CHALLENGE_TYPE"))
    ensures r.Ok? ==> (Type in r.value <==> KnownType(Get(cfg, "CHALLENGE_TYPE")))
    ensures r.Ok? && Type in r.value ==> r.value[Type] == Get(cfg, "CHALLENGE_TYPE")
  {
    match DescriptionOf(staged, cfg, codec)
    case Error(e) => Error(e)
    case Ok(description) =>
      if Get(cfg, "CHALLENGE_TYPE") == Str("container") && DockerOutcome(problemDir, file, hash, cfg, docker).Some? then
        Error(DockerOutcome(problemDir, file, hash, cfg, docker).value)
      else Ok(BaseFields(cfg, file, description) + TypedFields(cfg, hash))
  }

  /** The type-specific fields never override a base field. */
  lemma KeepsBase(base: ChallengeRecord, cfg: Cfg, hash: string)
    requires base.Keys == BaseKeys
    ensures forall f :: f in BaseKeys ==> f in base + TypedFields(cfg, hash) && (base + TypedFields(cfg, hash))[f] == base[f]
  {
    var typed := TypedFields(cfg, hash);
    BaseKeysApart(Get(cfg, "CHALLENGE_TYPE"));
    forall f | f in BaseKeys ensures f in base + typed && (base + typed)[f] == base[f] {
      assert f !in typed.Keys;
    }
  }

  /** No type adds a base field. */
  lemma BaseKeysApart(kind: Value)
    ensures forall f :: f in BaseKeys ==> f !in TypeKeys(kind)
  {
  }

  /** The name defaults to the target's directory name. */
  lemma NameDefault(cfg: Cfg, file: string, hash: string, staged: seq<Node>, problemDir: string, codec: Codec, docker: DockerBuild, rec: ChallengeRecord)
    requires BuildRecord(cfg, file, hash, staged, problemDir, codec, docker) == Ok(rec)
    ensures Name in rec
    ensures !Truthy(Get(cfg, "CHALLENGE_NAME")) ==> rec[Name] == Str(file)
    ensures Truthy(Get(cfg, "CHALLENGE_NAME")) ==> rec[Name] == Get(cfg, "CHALLENGE_NAME")
  {
    var base := BaseFields(cfg, file, DescriptionOf(staged, cfg, codec).value);
    KeepsBase(base, cfg, hash);
    assert rec == base + TypedFields(cfg, hash);
  }

  /** The category defaults to "" and the state to "hidden". */
  lemma CategoryStateDefaults(cfg: Cfg, file: string, hash: string, staged: seq<Node>, problemDir: string, codec: Codec, docker: DockerBuild, rec: ChallengeRecord)
    requires BuildRecord(cfg, file, hash, staged, problemDir, codec, docker) == Ok(rec)
    ensures Category in rec && State in rec
    ensures !Truthy(Get(cfg, "CHALLENGE_CATEGORY")) ==> rec[Category] == Str("")
    ensures !Truthy(Get(cfg, "CHALLENGE_STATE")) ==> rec[State] == Str("hidden")
    ensures Truthy(Get(cfg, "CHALLENGE_STATE")) ==> rec[State] == Get(cfg, "CHALLENGE_STATE")
  {
    var base := BaseFields(cfg, file, DescriptionOf(staged, cfg, codec).value);
    KeepsBase(base, cfg, hash);
    assert rec == base + TypedFields(cfg, hash);
  }

  /** Only a container challenge runs the image build: for any other type the
      record does not depend on the build. */
  lemma BuildOnlyForContainer(cfg: Cfg, file: string, hash: string, staged: seq<Node>, problemDir: string, codec: Codec, d1: DockerBuild, d2: DockerBuild)
    requires Get(cfg, "CHALLENGE_TYPE") != Str("container")
    ensures BuildRecord(cfg, file, hash, staged, problemDir, codec, d1) == BuildRecord(cfg, file, hash, staged, problemDir, codec, d2)
  {
  }

  /** A container image is built from the target directory, or from
      `DOCKER_LOCATION` below it, under the identity hash, and the record
      names that image. */
  lemma ContainerImage(cfg: Cfg, file: string, hash: string, staged: seq<Node>, problemDir: string, codec: Codec, docker: DockerBuild)
    requires Get(cfg, "CHALLENGE_TYPE") == Str("container")
    requires BuildRecord(cfg, file, hash, staged, problemDir, codec, docker).Ok?
    ensures BuildContext(problemDir, file, cfg).Ok?
    ensures docker(BuildContext(problemDir, file, cfg).value, hash).None?
    ensures BuildRecord(cfg, file, hash, staged, problemDir, codec, docker).value[Image] == Str(hash + ":latest")
    ensures !Truthy(Get(cfg, "DOCKER_LOCATION")) ==> BuildContext(problemDir, file, cfg).value == JoinPath(problemDir, file)
  {
  }
}
