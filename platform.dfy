/**
 * The CTFd instance the deployer talks to, as a value: challenges carrying
 * tags, flags and attached files, each with an id drawn from one counter. The
 * REST calls the deployer makes are functions on that value, and `Upserted`
 * and `Reconciled` are what one target's create-or-patch and file replacement
 * do to it. A challenge is recognised across runs by its identity tag
 * `ctfdx_<hash>`, where the hash is the SHA-1 of the target's directory name.
 */
module Platform {
  import opened Js
  import opened FileTree
  import opened Record

  datatype Challenge = Challenge(id: nat, fields: ChallengeRecord, tags: seq<string>)

  /** A flag: `kind` is its CTFd `type`. */
  datatype Flag = Flag(id: nat, challenge: nat, content: Value, kind: string, data: string)

  /** A file attached to a challenge: the uploaded archive under a file name. */
  datatype Attachment = Attachment(id: nat, challenge: nat, name: string, archive: seq<Node>)

  datatype Store = Store(challenges: seq<Challenge>, flags: seq<Flag>, files: seq<Attachment>, nextId: nat)

  /** Every id in the store, and every challenge a flag or file points at,
      lies below the next id the server hands out, and no two flags share an
      id. */
  predicate Valid(s: Store)
  {
    DistinctFlagIds(s.flags) &&
    (forall i :: 0 <= i < |s.challenges| ==> s.challenges[i].id < s.nextId) &&
    (forall i :: 0 <= i < |s.flags| ==> s.flags[i].id < s.nextId && s.flags[i].challenge < s.nextId) &&
    (forall i :: 0 <= i < |s.files| ==> s.files[i].id < s.nextId && s.files[i].challenge < s.nextId)
  }

  predicate DistinctFlagIds(flags: seq<Flag>)
  {
    forall i, j :: 0 <= i < j < |flags| ==> flags[i].id != flags[j].id
  }

  /** A listing fetched from the store names only challenges it has handed out. */
  predicate Known(s: Store, listing: seq<Challenge>)
  {
    forall i :: 0 <= i < |listing| ==> listing[i].id < s.nextId
  }

  /** The tag that marks the challenge deployed from a target. */
  function IdentityTag(hash: string): string
  {
    "ctfdx_" + hash
  }

  /** The first challenge of a listing that carries `tag`. */
  function FindTagged(listing: seq<Challenge>, tag: string): (r: Option<nat>)
    ensures r.Some? ==> r.value < |listing| && tag in listing[r.value].tags
    ensures r.Some? ==> forall i :: 0 <= i < r.value ==> tag !in listing[i].tags
    ensures r.None? ==> forall i :: 0 <= i < |listing| ==> tag !in listing[i].tags
  {
    if listing == [] then None
    else if tag in listing[0].tags then Some(0)
    else
      match FindTagged(listing[1..], tag)
      case None => None
      case Some(k) => Some(k + 1)
  }

  /** How many challenges carry `tag`. */
  function CountTagged(cs: seq<Challenge>, tag: string): nat
  {
    if cs == [] then 0
    else (if tag in cs[0].tags then 1 else 0) + CountTagged(cs[1..], tag)
  }

  /** `POST /challenges`: a new challenge with the record's fields and no tags. */
  function PostChallenge(s: Store, rec: ChallengeRecord): (r: (Store, nat))
  {
    (s.(challenges := s.challenges + [Challenge(s.nextId, rec, [])], nextId := s.nextId + 1), s.nextId)
  }

  /** `PATCH /challenges/<id>`: the fields sent replace those of the same name. */
  function PatchChallenge(s: Store, id: nat, rec: ChallengeRecord): (r: Store)
  {
    s.(challenges := seq(|s.challenges|, i requires 0 <= i < |s.challenges| =>
      if s.challenges[i].id == id then s.challenges[i].(fields := s.challenges[i].fields + rec) else s.challenges[i]))
  }

  /** `POST /tags`. */
  function PostTag(s: Store, id: nat, value: string): (r: Store)
  {
    s.(challenges := seq(|s.challenges|, i requires 0 <= i < |s.challenges| =>
      if s.challenges[i].id == id then s.challenges[i].(tags := s.challenges[i].tags + [value]) else s.challenges[i]))
  }

  /** The flags of a challenge, in store order (`GET /flags?challenge_id=<id>`). */
  function FlagsFor(flags: seq<Flag>, id: nat): (r: seq<Flag>)
    ensures forall i :: 0 <= i < |r| ==> r[i].challenge == id
    ensures forall f :: f in r <==> f in flags && f.challenge == id
  {
    if flags == [] then []
    else if flags[0].challenge == id then [flags[0]] + FlagsFor(flags[1..], id)
    else FlagsFor(flags[1..], id)
  }

  /** The flag record the deployer sends: a static flag with empty data. */
  function StaticFlag(id: nat, challenge: nat, content: Value): Flag
  {
    Flag(id, challenge, content, "static", "")
  }

  /** `POST /flags`. */
  function PostFlag(s: Store, id: nat, content: Value): (r: Store)
  {
    s.(flags := s.flags + [StaticFlag(s.nextId, id, content)], nextId := s.nextId + 1)
  }

  /** The flags after `PATCH /flags/<fid>` with a static flag for `challenge`. */
  function PatchedFlags(flags: seq<Flag>, fid: nat, challenge: nat, content: Value): (r: seq<Flag>)
    ensures |r| == |flags|
    ensures forall i :: 0 <= i < |r| ==> r[i] == if flags[i].id == fid then StaticFlag(fid, challenge, content) else flags[i]
  {
    if flags == [] then []
    else [if flags[0].id == fid then StaticFlag(fid, challenge, content) else flags[0]]
         + PatchedFlags(flags[1..], fid, challenge, content)
  }

  function PatchFlag(s: Store, fid: nat, challenge: nat, content: Value): (r: Store)
  {
    s.(flags := PatchedFlags(s.flags, fid, challenge, content))
  }

  /** The files of a challenge (`GET /challenges/<id>/files`). */
  function FilesFor(files: seq<Attachment>, id: nat): (r: seq<Attachment>)
    ensures forall i :: 0 <= i < |r| ==> r[i].challenge == id
  {
    if files == [] then []
    else if files[0].challenge == id then [files[0]] + FilesFor(files[1..], id)
    else FilesFor(files[1..], id)
  }

  /** The files left after deleting those whose id is in `ids`. */
  function Without(files: seq<Attachment>, ids: set<nat>): (r: seq<Attachment>)
    ensures forall f :: f in r <==> f in files && f.id !in ids
  {
    if files == [] then []
    else if files[0].id in ids then Without(files[1..], ids)
    else [files[0]] + Without(files[1..], ids)
  }

  /** `DELETE /files/<fid>`. */
  function DeleteFile(s: Store, fid: nat): (r: Store)
  {
    s.(files := Without(s.files, {fid}))
  }

  /** The multipart `POST /files` of an archive for a challenge. */
  function UploadFile(s: Store, id: nat, name: string, archive: seq<Node>): (r: Store)
  {
    s.(files := s.files + [Attachment(s.nextId, id, name, archive)], nextId := s.nextId + 1)
  }

  function IdsOf(files: seq<Attachment>): set<nat>
  {
    set i | 0 <= i < |files| :: files[i].id
  }

  /** One target's create-or-patch: with the identity tag found in the listing
      fetched before the run, that challenge is patched and its first flag
      patched (or a flag created when it has none); otherwise a challenge is
      created, tagged and given a flag. The id of the challenge comes back. */
  function Upserted(s: Store, listing: seq<Challenge>, tag: string, rec: ChallengeRecord, flag: Value): (Store, nat)
  {
    match FindTagged(listing, tag)
    case Some(k) =>
      var id := listing[k].id;
      var s1 := PatchChallenge(s, id, rec);
      var existing := FlagsFor(s1.flags, id);
      if existing == [] then (PostFlag(s1, id, flag), id)
      else (PatchFlag(s1, existing[0].id, id, flag), id)
    case None =>
      var (s1, id) := PostChallenge(s, rec);
      (PostFlag(PostTag(s1, id, tag), id, flag), id)
  }

  /** The file replacement: every file of the challenge deleted, then the
      archive uploaded under `name`. */
  function Reconciled(s: Store, id: nat, name: string, archive: seq<Node>): Store
  {
    UploadFile(s.(files := Without(s.files, IdsOf(FilesFor(s.files, id)))), id, name, archive)
  }

  // ---------------------------------------------------------------------
  // Properties of the upsert

  /** With the tag found, no challenge is created: the tagged challenge's
      fields are patched with the record, and ids and tags stay as they were. */
  lemma UpsertFoundPatches(s: Store, listing: seq<Challenge>, tag: string, rec: ChallengeRecord, flag: Value)
    requires FindTagged(listing, tag).Some?
    ensures var (s', id) := Upserted(s, listing, tag, rec, flag);
            id == listing[FindTagged(listing, tag).value].id &&
            |s'.challenges| == |s.challenges| &&
            (forall i :: 0 <= i < |s.challenges| ==>
               s'.challenges[i].id == s.challenges[i].id && s'.challenges[i].tags == s.challenges[i].tags) &&
            (forall i :: 0 <= i < |s.challenges| && s.challenges[i].id == id ==>
               s'.challenges[i].fields == s.challenges[i].fields + rec)
  {
    var id := listing[FindTagged(listing, tag).value].id;
    var s1 := PatchChallenge(s, id, rec);
    assert Upserted(s, listing, tag, rec, flag).0.challenges == s1.challenges;
  }

  /** With the tag not found, exactly one challenge is created: it carries the
      record, exactly the identity tag and exactly one flag, a static one
      holding the flag. */
  lemma UpsertNewCreates(s: Store, listing: seq<Challenge>, tag: string, rec: ChallengeRecord, flag: Value)
    requires Valid(s)
    requires FindTagged(listing, tag).None?
    ensures var (s', id) := Upserted(s, listing, tag, rec, flag);
            id == s.nextId &&
            s'.challenges == s.challenges + [Challenge(id, rec, [tag])] &&
            FlagsFor(s'.flags, id) == [StaticFlag(s.nextId + 1, id, flag)]
  {
    var (s1, id) := PostChallenge(s, rec);
    var s2 := PostTag(s1, id, tag);
    assert |s2.challenges| == |s.challenges| + 1;
    assert forall i :: 0 <= i < |s.challenges| ==> s2.challenges[i] == s.challenges[i];
    assert s2.challenges[|s.challenges|] == Challenge(id, rec, [tag]);
    assert s2.challenges == s.challenges + [Challenge(id, rec, [tag])];
    FlagsForFresh(s2.flags, id);
    FlagsForAppend(s2.flags, StaticFlag(s2.nextId, id, flag), id);
  }

  /** After the upsert, the first flag of the challenge is a static flag holding
      the descriptor's FLAG. */
  lemma FirstFlagHoldsFlag(s: Store, listing: seq<Challenge>, tag: string, rec: ChallengeRecord, flag: Value)
    requires Valid(s)
    ensures var (s', id) := Upserted(s, listing, tag, rec, flag);
            FlagsFor(s'.flags, id) != [] &&
            FlagsFor(s'.flags, id)[0].content == flag && FlagsFor(s'.flags, id)[0].kind == "static"
  {
    match FindTagged(listing, tag)
    case None =>
      UpsertNewCreates(s, listing, tag, rec, flag);
    case Some(k) =>
      var id := listing[k].id;
      var s1 := PatchChallenge(s, id, rec);
      var existing := FlagsFor(s1.flags, id);
      if existing == [] {
        FlagsForAppend(s1.flags, StaticFlag(s1.nextId, id, flag), id);
      } else {
        PatchFirst(s1.flags, id, existing[0].id, flag);
      }
  }

  /** A flag list with no flag for a challenge gains exactly the one appended. */
  lemma {:induction false} FlagsForAppend(flags: seq<Flag>, f: Flag, id: nat)
    ensures FlagsFor(flags + [f], id) == FlagsFor(flags, id) + (if f.challenge == id then [f] else [])
  {
    if flags == [] {
      assert [f][1..] == [];
    } else {
      FlagsForAppend(flags[1..], f, id);
      assert (flags + [f])[1..] == flags[1..] + [f];
    }
  }

  /** No flag points at an id at or above the counter. */
  lemma {:induction false} FlagsForFresh(flags: seq<Flag>, id: nat)
    requires forall i :: 0 <= i < |flags| ==> flags[i].challenge < id
    ensures FlagsFor(flags, id) == []
  {
    if flags != [] {
      FlagsForFresh(flags[1..], id);
    }
  }

  /** Patching the first flag of a challenge makes it the patched flag, and it
      stays the first. */
  lemma {:induction false} PatchFirst(flags: seq<Flag>, id: nat, fid: nat, content: Value)
    requires FlagsFor(flags, id) != [] && FlagsFor(flags, id)[0].id == fid
    ensures FlagsFor(PatchedFlags(flags, fid, id, content), id) != []
    ensures FlagsFor(PatchedFlags(flags, fid, id, content), id)[0] == StaticFlag(fid, id, content)
  {
    var r := PatchedFlags(flags, fid, id, content);
    assert r[1..] == PatchedFlags(flags[1..], fid, id, content);
    if flags[0].id != fid {
      assert flags[0].challenge != id;
      PatchFirst(flags[1..], id, fid, content);
    }
  }

  /** The upsert keeps the store's ids below the counter, given a listing
      fetched from the same store. */
  lemma UpsertValid(s: Store, listing: seq<Challenge>, tag: string, rec: ChallengeRecord, flag: Value)
    requires Valid(s) && Known(s, listing)
    ensures Valid(Upserted(s, listing, tag, rec, flag).0)
    ensures Upserted(s, listing, tag, rec, flag).0.nextId >= s.nextId
    ensures Known(Upserted(s, listing, tag, rec, flag).0, listing)
  {
    match FindTagged(listing, tag)
    case None =>
      var (s1, id) := PostChallenge(s, rec);
      assert Valid(s1);
      var s2 := PostTag(s1, id, tag);
      assert Valid(s2);
      PostFlagValid(s2, id, flag);
    case Some(k) =>
      var id := listing[k].id;
      var s1 := PatchChallenge(s, id, rec);
      assert Valid(s1);
      PatchedValid(s1, id, flag);
  }

  /** Posting or patching the flag of a known challenge keeps the store valid. */
  lemma PatchedValid(s: Store, id: nat, flag: Value)
    requires Valid(s) && id < s.nextId
    ensures var existing := FlagsFor(s.flags, id);
            Valid(if existing == [] then PostFlag(s, id, flag) else PatchFlag(s, existing[0].id, id, flag))
  {
    var existing := FlagsFor(s.flags, id);
    if existing != [] {
      PatchFlagValid(s, existing[0].id, id, flag);
    } else {
      PostFlagValid(s, id, flag);
    }
  }

  /** A patched flag keeps its id and points at a known challenge. */
  lemma PatchFlagValid(s: Store, fid: nat, id: nat, flag: Value)
    requires Valid(s) && id < s.nextId
    ensures Valid(PatchFlag(s, fid, id, flag))
  {
    var r := PatchedFlags(s.flags, fid, id, flag);
    assert forall i :: 0 <= i < |r| ==> r[i].id == s.flags[i].id && r[i].challenge < s.nextId;
  }

  /** A posted flag takes a fresh id. */
  lemma PostFlagValid(s: Store, id: nat, flag: Value)
    requires Valid(s) && id < s.nextId
    ensures Valid(PostFlag(s, id, flag))
  {
    var r := PostFlag(s, id, flag).flags;
    forall i, j | 0 <= i < j < |r| ensures r[i].id != r[j].id {
      if j == |s.flags| {
        assert r[i] == s.flags[i];
      } else {
        assert r[i] == s.flags[i] && r[j] == s.flags[j];
      }
    }
  }

  // ---------------------------------------------------------------------
  // Flags of the patched and of the other challenges

  /** Patching a flag that belongs to challenge `id` keeps the number of flags
      of `id` and the flags of every other challenge. */
  lemma {:induction false} PatchedFlagsFor(flags: seq<Flag>, fid: nat, id: nat, content: Value)
    requires forall i :: 0 <= i < |flags| && flags[i].id == fid ==> flags[i].challenge == id
    ensures |FlagsFor(PatchedFlags(flags, fid, id, content), id)| == |FlagsFor(flags, id)|
    ensures forall c :: c != id ==> FlagsFor(PatchedFlags(flags, fid, id, content), c) == FlagsFor(flags, c)
  {
    if flags != [] {
      PatchedFlagsFor(flags[1..], fid, id, content);
      var r := PatchedFlags(flags, fid, id, content);
      assert r[1..] == PatchedFlags(flags[1..], fid, id, content);
    }
  }

  /** With distinct flag ids, the id of a challenge's first flag belongs to
      that challenge alone. */
  lemma FirstFlagOwner(flags: seq<Flag>, id: nat)
    requires DistinctFlagIds(flags) && FlagsFor(flags, id) != []
    ensures forall i :: 0 <= i < |flags| && flags[i].id == FlagsFor(flags, id)[0].id ==> flags[i].challenge == id
  {
    var f := FlagsFor(flags, id)[0];
    assert f in FlagsFor(flags, id);
    var k :| 0 <= k < |flags| && flags[k] == f;
    forall i | 0 <= i < |flags| && flags[i].id == f.id ensures flags[i].challenge == id {
      SameIdSameFlag(flags, i, k);
    }
  }

  lemma SameIdSameFlag(flags: seq<Flag>, i: nat, k: nat)
    requires DistinctFlagIds(flags) && i < |flags| && k < |flags|
    ensures flags[i].id == flags[k].id ==> i == k
  {
  }

  /** With the tag found, the challenge's flag is patched when it has one and
      posted when it has none: it never gains a second flag from the upsert. */
  lemma UpsertFoundFlags(s: Store, listing: seq<Challenge>, tag: string, rec: ChallengeRecord, flag: Value)
    requires Valid(s) && FindTagged(listing, tag).Some?
    ensures var (s', id) := Upserted(s, listing, tag, rec, flag);
            (FlagsFor(s.flags, id) != [] ==> |FlagsFor(s'.flags, id)| == |FlagsFor(s.flags, id)|) &&
            (FlagsFor(s.flags, id) == [] ==> |FlagsFor(s'.flags, id)| == 1)
  {
    var id := listing[FindTagged(listing, tag).value].id;
    var s1 := PatchChallenge(s, id, rec);
    assert s1.flags == s.flags;
    var existing := FlagsFor(s1.flags, id);
    if existing == [] {
      FlagsForAppend(s1.flags, StaticFlag(s1.nextId, id, flag), id);
    } else {
      FirstFlagOwner(s1.flags, id);
      PatchedFlagsFor(s1.flags, existing[0].id, id, flag);
    }
  }

  /** The upsert touches no file, and the flags of every other challenge stay
      as they were. */
  lemma UpsertLeavesOthers(s: Store, listing: seq<Challenge>, tag: string, rec: ChallengeRecord, flag: Value)
    requires Valid(s)
    ensures var (s', id) := Upserted(s, listing, tag, rec, flag);
            s'.files == s.files &&
            forall c :: c != id ==> FlagsFor(s'.flags, c) == FlagsFor(s.flags, c)
  {
    var (s', id) := Upserted(s, listing, tag, rec, flag);
    match FindTagged(listing, tag)
    case None =>
      var s2 := PostTag(PostChallenge(s, rec).0, id, tag);
      assert s2.flags == s.flags;
      forall c | c != id ensures FlagsFor(s'.flags, c) == FlagsFor(s.flags, c) {
        FlagsForAppend(s2.flags, StaticFlag(s2.nextId, id, flag), c);
      }
    case Some(k) =>
      var s1 := PatchChallenge(s, id, rec);
      assert s1.flags == s.flags;
      var existing := FlagsFor(s1.flags, id);
      if existing == [] {
        forall c | c != id ensures FlagsFor(s'.flags, c) == FlagsFor(s.flags, c) {
          FlagsForAppend(s1.flags, StaticFlag(s1.nextId, id, flag), c);
        }
      } else {
        FirstFlagOwner(s1.flags, id);
        PatchedFlagsFor(s1.flags, existing[0].id, id, flag);
      }
  }

  // ---------------------------------------------------------------------
  // Idempotence across runs

  /** Listings that agree on tags agree on where a tag is found and how often. */
  lemma {:induction false} SameTags(a: seq<Challenge>, b: seq<Challenge>, tag: string)
    requires |a| == |b|
    requires forall i :: 0 <= i < |a| ==> a[i].tags == b[i].tags
    ensures FindTagged(a, tag) == FindTagged(b, tag)
    ensures CountTagged(a, tag) == CountTagged(b, tag)
  {
    if a != [] {
      SameTags(a[1..], b[1..], tag);
    }
  }

  lemma {:induction false} CountTaggedAppend(cs: seq<Challenge>, c: Challenge, tag: string)
    ensures CountTagged(cs + [c], tag) == CountTagged(cs, tag) + (if tag in c.tags then 1 else 0)
  {
    if cs == [] {
      assert [c][1..] == [];
    } else {
      CountTaggedAppend(cs[1..], c, tag);
      assert (cs + [c])[1..] == cs[1..] + [c];
    }
  }

  lemma {:induction false} CountTaggedFound(cs: seq<Challenge>, tag: string)
    requires FindTagged(cs, tag).Some?
    ensures CountTagged(cs, tag) > 0
  {
    if tag !in cs[0].tags {
      CountTaggedFound(cs[1..], tag);
    }
  }

  lemma {:induction false} CountTaggedNone(cs: seq<Challenge>, tag: string)
    requires FindTagged(cs, tag).None?
    ensures CountTagged(cs, tag) == 0
  {
    if cs != [] {
      CountTaggedNone(cs[1..], tag);
    }
  }

  /** After one upsert against the store's own listing, the identity tag is on
      the challenge it returned, and the tag count is what it was, or one when
      no challenge had the tag. */
  lemma UpsertTags(s: Store, tag: string, rec: ChallengeRecord, flag: Value)
    requires Valid(s)
    ensures var (s', id) := Upserted(s, s.challenges, tag, rec, flag);
            FindTagged(s'.challenges, tag).Some? &&
            s'.challenges[FindTagged(s'.challenges, tag).value].id == id &&
            CountTagged(s'.challenges, tag) == (if CountTagged(s.challenges, tag) == 0 then 1 else CountTagged(s.challenges, tag))
  {
    var (s', id) := Upserted(s, s.challenges, tag, rec, flag);
    match FindTagged(s.challenges, tag)
    case Some(k) =>
      UpsertFoundPatches(s, s.challenges, tag, rec, flag);
      SameTags(s'.challenges, s.challenges, tag);
      CountTaggedFound(s.challenges, tag);
    case None =>
      UpsertNewCreates(s, s.challenges, tag, rec, flag);
      CountTaggedNone(s.challenges, tag);
      CountTaggedAppend(s.challenges, Challenge(id, rec, [tag]), tag);
      FindTaggedAppend(s.challenges, Challenge(id, rec, [tag]), tag);
  }

  lemma {:induction false} FindTaggedAppend(cs: seq<Challenge>, c: Challenge, tag: string)
    requires FindTagged(cs, tag).None? && tag in c.tags
    ensures FindTagged(cs + [c], tag) == Some(|cs|)
  {
    if cs != [] {
      FindTaggedAppend(cs[1..], c, tag);
      assert (cs + [c])[1..] == cs[1..] + [c];
    }
  }

  /** Deploying the same target twice creates its challenge at most once: the
      second upsert finds the first one's challenge, returns the same id,
      creates no challenge and no flag, and leaves the tag count alone. */
  lemma UpsertIdempotent(s: Store, tag: string, rec: ChallengeRecord, flag: Value)
    requires Valid(s)
    ensures var (s1, id1) := Upserted(s, s.challenges, tag, rec, flag);
            var (s2, id2) := Upserted(s1, s1.challenges, tag, rec, flag);
            id2 == id1 &&
            |s2.challenges| == |s1.challenges| &&
            CountTagged(s2.challenges, tag) == CountTagged(s1.challenges, tag) &&
            |FlagsFor(s2.flags, id2)| == |FlagsFor(s1.flags, id1)|
  {
    var (s1, id1) := Upserted(s, s.challenges, tag, rec, flag);
    UpsertTags(s, tag, rec, flag);
    UpsertValid(s, s.challenges, tag, rec, flag);
    FirstFlagHoldsFlag(s, s.challenges, tag, rec, flag);
    var (s2, id2) := Upserted(s1, s1.challenges, tag, rec, flag);
    UpsertFoundPatches(s1, s1.challenges, tag, rec, flag);
    UpsertFoundFlags(s1, s1.challenges, tag, rec, flag);
    SameTags(s2.challenges, s1.challenges, tag);
  }

  // ---------------------------------------------------------------------
  // File replacement

  /** After the replacement the challenge has exactly one file: the archive
      just uploaded. */
  lemma ReconciledFiles(s: Store, id: nat, name: string, archive: seq<Node>)
    ensures FilesFor(Reconciled(s, id, name, archive).files, id)
            == [Attachment(Reconciled(s, id, name, archive).nextId - 1, id, name, archive)]
  {
    var kept := Without(s.files, IdsOf(FilesFor(s.files, id)));
    WithoutOwnFiles(s.files, id);
    FilesForAppend(kept, Attachment(s.nextId, id, name, archive), id);
  }

  /** Deleting every file of a challenge leaves it none. */
  lemma {:induction false} WithoutOwnFiles(files: seq<Attachment>, id: nat)
    ensures FilesFor(Without(files, IdsOf(FilesFor(files, id))), id) == []
  {
    FilesForIds(files, id);
    WithoutCovered(files, IdsOf(FilesFor(files, id)), id);
  }

  lemma {:induction false} FilesForIds(files: seq<Attachment>, id: nat)
    ensures forall i :: 0 <= i < |files| && files[i].challenge == id ==> files[i].id in IdsOf(FilesFor(files, id))
  {
    if files != [] {
      FilesForIds(files[1..], id);
      var own := FilesFor(files, id);
      var rest := FilesFor(files[1..], id);
      forall i | 0 <= i < |files| && files[i].challenge == id ensures files[i].id in IdsOf(own) {
        if i == 0 {
          assert own[0] == files[0];
        } else {
          assert files[i] == files[1..][i - 1];
          var j :| 0 <= j < |rest| && rest[j].id == files[i].id;
          if files[0].challenge == id {
            assert own[j + 1] == rest[j];
          } else {
            assert own[j] == rest[j];
          }
        }
      }
    }
  }

  lemma {:induction false} WithoutCovered(files: seq<Attachment>, ids: set<nat>, id: nat)
    requires forall i :: 0 <= i < |files| && files[i].challenge == id ==> files[i].id in ids
    ensures FilesFor(Without(files, ids), id) == []
  {
    if files != [] {
      WithoutCovered(files[1..], ids, id);
    }
  }

  lemma {:induction false} FilesForAppend(files: seq<Attachment>, f: Attachment, id: nat)
    ensures FilesFor(files + [f], id) == FilesFor(files, id) + (if f.challenge == id then [f] else [])
  {
    if files == [] {
      assert [f][1..] == [];
    } else {
      FilesForAppend(files[1..], f, id);
      assert (files + [f])[1..] == files[1..] + [f];
    }
  }

  /** Deleting one id and then another removes both. */
  lemma {:induction false} WithoutTwice(files: seq<Attachment>, ids: set<nat>, fid: nat)
    ensures Without(Without(files, ids), {fid}) == Without(files, ids + {fid})
  {
    if files != [] {
      WithoutTwice(files[1..], ids, fid);
    }
  }

  /** Deleting no id changes nothing. */
  lemma {:induction false} WithoutNothing(files: seq<Attachment>)
    ensures Without(files, {}) == files
  {
    if files != [] {
      WithoutNothing(files[1..]);
      assert files == [files[0]] + files[1..];
    }
  }

  /** The ids of one more file. */
  lemma IdsOfSnoc(files: seq<Attachment>, i: nat)
    requires i < |files|
    ensures IdsOf(files[..i + 1]) == IdsOf(files[..i]) + {files[i].id}
  {
    assert forall k :: 0 <= k < i ==> files[..i + 1][k] == files[..i][k];
    assert files[..i + 1][i] == files[i];
  }

  /** The replacement keeps the store's ids below the counter. */
  lemma ReconciledValid(s: Store, id: nat, name: string, archive: seq<Node>)
    requires Valid(s) && id < s.nextId
    ensures Valid(Reconciled(s, id, name, archive))
    ensures Reconciled(s, id, name, archive).nextId == s.nextId + 1
  {
    WithoutBelow(s.files, IdsOf(FilesFor(s.files, id)), s.nextId);
  }

  lemma {:induction false} WithoutBelow(files: seq<Attachment>, ids: set<nat>, bound: nat)
    requires forall i :: 0 <= i < |files| ==> files[i].id < bound && files[i].challenge < bound
    ensures var r := Without(files, ids);
            forall i :: 0 <= i < |r| ==> r[i].id < bound && r[i].challenge < bound
  {
    if files != [] {
      WithoutBelow(files[1..], ids, bound);
    }
  }
}
