/**
 * The leak scanner `searchFlag`. It walks a staged challenge directory in
 * listing order, recursing into every subdirectory, and reads every regular
 * file that no safe-list entry covers under five encodings. When the NFC form
 * of a decoding contains the NFC form of the flag it either rewrites the file
 * with every occurrence of the (unnormalised) flag replaced by "[REDACTED]",
 * which only the top-level call can do (`replace === "true"`), or throws
 * "Unsafe hardcoded flag found in <path>". The recursive call does not pass
 * `replace` on, so a match below the top level always throws.
 */
module Scanner {
  import opened Js
  import opened FileTree

  const SearchEncodings: seq<Encoding> := [Ascii, Utf8, Utf16le, Ucs2, Latin1]

  const Redaction := "[REDACTED]"

  /** `safeFiles` after `Array.isArray(safes) ? safes : safes || []`: an array
      of entries, or a truthy non-array value, which has no `find` method. */
  datatype SafeList = Entries(items: seq<string>) | NotArray

  /** How a scan ends: it returns `true`, or it throws; `TypeFault` carries
      the message of the `TypeError` thrown. */
  datatype ScanResult = Passed | LeakFound(path: string) | TypeFault(message: string)

  /** The message of the error thrown for a leak. */
  function LeakMessage(path: string): string
  {
    "Unsafe hardcoded flag found in " + path
  }

  /** The message a scan result carries to the caller, if it threw. */
  function FailureOf(r: ScanResult): Option<string>
  {
    match r
    case Passed => None
    case LeakFound(p) => Some(LeakMessage(p))
    case TypeFault(m) => Some(m)
  }

  /** The message of the `TypeError` that `flag.normalize("NFC")` throws when
      the flag is not a string: a property read on `null` or `undefined`, or a
      call of a missing method on any other value. */
  function NormalizeFault(flag: Value): (m: string)
  {
    match flag
    case Null => "Cannot read properties of null (reading 'normalize')"
    case Undefined => "Cannot read properties of undefined (reading 'normalize')"
    case _ => "flag.normalize is not a function"
  }

  /** `Array.isArray(safes) ? safes : safes || []`. */
  function SafeFilesOf(safes: Value): SafeList
  {
    if safes.Arr? then Entries(safes.items)
    else if Truthy(safes) then NotArray
    else Entries([])
  }

  /** A safe entry after slash trimming: a leading "/" is dropped by
      `slice(1, dir.length)` and then a trailing "/" by
      `slice(0, dir.length - 1)`; both slices also cut the entry short. */
  function TrimSafe(dir: string, safe: string): string
  {
    var withoutSlashStart := if StartsWith(safe, "/") then Slice(safe, 1, |dir|) else safe;
    if EndsWith(withoutSlashStart, "/") then Slice(withoutSlashStart, 0, |dir| - 1) else withoutSlashStart
  }

  /** The callback given to `find`: the joined path contains the trimmed entry. */
  predicate SafeMatch(dir: string, item: string, safe: string)
  {
    Contains(JoinPath(dir, item), TrimSafe(dir, safe))
  }

  /** `safeFiles.find(...)`: the first entry whose callback holds. */
  function FindSafe(dir: string, item: string, safes: seq<string>): (r: Option<string>)
    ensures r.Some? ==> r.value in safes && SafeMatch(dir, item, r.value)
    ensures r.None? <==> forall s :: s in safes ==> !SafeMatch(dir, item, s)
  {
    if safes == [] then None
    else if SafeMatch(dir, item, safes[0]) then Some(safes[0])
    else FindSafe(dir, item, safes[1..])
  }

  /** The file is skipped: `find` returned a truthy entry. An empty entry is
      falsy, so when it is the first one that matches the file is not skipped. */
  predicate IsSafe(dir: string, item: string, safes: seq<string>)
  {
    match FindSafe(dir, item, safes)
    case None => false
    case Some(s) => s != ""
  }

  /** A decoding matches the flag after normalisation. */
  predicate Matches(codec: Codec, text: string, flag: string)
  {
    Contains(codec.nfc(text), codec.nfc(flag))
  }

  /** The encoding loop over one file from encoding `j` on: the file's
      contents after it and how it ended. A redacting scan writes the
      redacted text back, and the later encodings read what was written. */
  function ScanForms(path: string, data: Bytes, flag: string, redact: bool, codec: Codec, j: nat): (Bytes, ScanResult)
    decreases |SearchEncodings| - j
  {
    if j >= |SearchEncodings| then (data, Passed)
    else
      var strings := codec.decode(SearchEncodings[j], data);
      if Matches(codec, strings, flag) then
        if redact then ScanForms(path, codec.utf8(ReplaceAll(strings, flag, Redaction)), flag, redact, codec, j + 1)
        else (data, LeakFound(path))
      else ScanForms(path, data, flag, redact, codec, j + 1)
  }

  /** One listing entry: a directory is scanned recursively without
      redaction; a non-array safe list fails at the first regular file, and a
      flag that is not a string at the first file that is not skipped. */
  function Visit(dir: string, e: Node, flag: Value, safes: SafeList, redact: bool, codec: Codec): (r: (Node, ScanResult))
    decreases e
  {
    match e
    case Dir(name, children) =>
      var sub := ScanEntries(JoinPath(dir, name), children, flag, safes, false, codec);
      (Dir(name, sub.0), sub.1)
    case File(name, data) =>
      if safes.NotArray? then (e, TypeFault("safeFiles.find is not a function"))
      else if IsSafe(dir, name, safes.items) then (e, Passed)
      else if !flag.Str? then (e, TypeFault(NormalizeFault(flag)))
      else
        var file := ScanForms(JoinPath(dir, name), data, flag.s, redact, codec, 0);
        (File(name, file.0), file.1)
  }

  /** The scan of a directory's entries in listing order: the entries
      afterwards and how the scan ended; the first failure stops it. */
  function ScanEntries(dir: string, entries: seq<Node>, flag: Value, safes: SafeList, redact: bool, codec: Codec): (r: (seq<Node>, ScanResult))
    decreases entries
  {
    if entries == [] then ([], Passed)
    else
      var v := Visit(dir, entries[0], flag, safes, redact, codec);
      if v.1 != Passed then ([v.0] + entries[1..], v.1)
      else
        var tail := ScanEntries(dir, entries[1..], flag, safes, redact, codec);
        ([v.0] + tail.0, tail.1)
  }

  /** Puts processed entries in front of the scan of the remaining ones. */
  function Prefixed(done: seq<Node>, r: (seq<Node>, ScanResult)): (seq<Node>, ScanResult)
  {
    (done + r.0, r.1)
  }

  /** The encoding loop for one file that is not skipped. */
  method ScanFile(path: string, data: Bytes, flag: string, redact: bool, codec: Codec) returns (data': Bytes, r: ScanResult)
    ensures (data', r) == ScanForms(path, data, flag, redact, codec, 0)
    ensures !redact ==> data' == data
    ensures redact ==> r == Passed
  {
    data' := data;
    var j := 0;
    while j < |SearchEncodings|
      invariant 0 <= j <= |SearchEncodings|
      invariant ScanForms(path, data, flag, redact, codec, 0) == ScanForms(path, data', flag, redact, codec, j)
      invariant !redact ==> data' == data
    {
      var strings := codec.decode(SearchEncodings[j], data');
      if Matches(codec, strings, flag) {
        if redact {
          data' := codec.utf8(ReplaceAll(strings, flag, Redaction));
        } else {
          return data', LeakFound(path);
        }
      }
      j := j + 1;
    }
    r := Passed;
    RedactingFormsPass(path, data, flag, codec, 0);
  }

  /** The body of the listing loop for one entry. */
  method VisitEntry(dir: string, e: Node, flag: Value, safeFiles: SafeList, redact: bool, codec: Codec)
    returns (e': Node, r: ScanResult)
    ensures (e', r) == Visit(dir, e, flag, safeFiles, redact, codec)
    decreases e, 1
  {
    match e {
      case Dir(name, children) =>
        var children', sub := Walk(JoinPath(dir, name), children, flag, safeFiles, false, codec);
        e', r := Dir(name, children'), sub;
      case File(name, data) =>
        if safeFiles.NotArray? {
          return e, TypeFault("safeFiles.find is not a function");
        }
        if IsSafe(dir, name, safeFiles.items) {
          return e, Passed;
        }
        if !flag.Str? {
          return e, TypeFault(NormalizeFault(flag));
        }
        var data', res := ScanFile(JoinPath(dir, name), data, flag.s, redact, codec);
        e', r := File(name, data'), res;
    }
  }

  /** The loop over one directory listing; `redact` is `replace === "true"`
      at the top level and false in every recursive call. */
  method Walk(dir: string, entries: seq<Node>, flag: Value, safeFiles: SafeList, redact: bool, codec: Codec)
    returns (entries': seq<Node>, r: ScanResult)
    ensures (entries', r) == ScanEntries(dir, entries, flag, safeFiles, redact, codec)
    decreases entries, 0
  {
    var done: seq<Node> := [];
    var i := 0;
    assert entries[0..] == entries;
    ghost var whole := ScanEntries(dir, entries, flag, safeFiles, redact, codec);
    assert done + whole.0 == whole.0;
    while i < |entries|
      invariant 0 <= i <= |entries|
      invariant whole == Prefixed(done, ScanEntries(dir, entries[i..], flag, safeFiles, redact, codec))
    {
      var e', res := VisitEntry(dir, entries[i], flag, safeFiles, redact, codec);
      ScanStep(dir, entries, i, done, flag, safeFiles, redact, codec);
      if res != Passed {
        return done + [e'] + entries[i + 1..], res;
      }
      done := done + [e'];
      i := i + 1;
    }
    assert entries[i..] == [];
    assert done + [] == done;
    entries', r := done, Passed;
  }

  /** One turn of the listing loop, as the scan of the remaining entries. */
  lemma ScanStep(dir: string, entries: seq<Node>, i: nat, done: seq<Node>, flag: Value, safes: SafeList, redact: bool, codec: Codec)
    requires i < |entries|
    ensures var v := Visit(dir, entries[i], flag, safes, redact, codec);
            Prefixed(done, ScanEntries(dir, entries[i..], flag, safes, redact, codec))
            == if v.1 != Passed then (done + [v.0] + entries[i + 1..], v.1)
               else Prefixed(done + [v.0], ScanEntries(dir, entries[i + 1..], flag, safes, redact, codec))
  {
    assert entries[i..][0] == entries[i] && entries[i..][1..] == entries[i + 1..];
    var v := Visit(dir, entries[i], flag, safes, redact, codec);
    var tail := ScanEntries(dir, entries[i + 1..], flag, safes, redact, codec);
    assert done + ([v.0] + entries[i + 1..]) == done + [v.0] + entries[i + 1..];
    assert done + ([v.0] + tail.0) == (done + [v.0]) + tail.0;
  }

  /** `searchFlag(dir, flag, safes, replace)` of the current deployer over the
      listing `entries` of `dir`: the entries afterwards (redacted files
      rewritten) and whether it returned `true` or threw. */
  method SearchFlag(dir: string, entries: seq<Node>, flag: Value, safes: Value, replace: Value, codec: Codec)
    returns (entries': seq<Node>, r: ScanResult)
    ensures (entries', r) == ScanEntries(dir, entries, flag, SafeFilesOf(safes), replace == Str("true"), codec)
    ensures replace != Str("true") ==> entries' == entries
  {
    entries', r := Walk(dir, entries, flag, SafeFilesOf(safes), replace == Str("true"), codec);
    if replace != Str("true") {
      NoRedactKeepsTree(dir, entries, flag, SafeFilesOf(safes), codec);
    }
  }

  /** `searchFlag(dir, flag, safes)` of the older deployer, which never
      redacts: the tree is left as it is. */
  method SearchFlagLegacy(dir: string, entries: seq<Node>, flag: Value, safes: Value, codec: Codec)
    returns (r: ScanResult)
    ensures r == ScanEntries(dir, entries, flag, SafeFilesOf(safes), false, codec).1
  {
    var _, res := Walk(dir, entries, flag, SafeFilesOf(safes), false, codec);
    r := res;
  }

  /** A redacting encoding loop never throws. */
  lemma {:induction false} RedactingFormsPass(path: string, data: Bytes, flag: string, codec: Codec, j: nat)
    ensures ScanForms(path, data, flag, true, codec, j).1 == Passed
    decreases |SearchEncodings| - j
  {
    if j < |SearchEncodings| {
      var strings := codec.decode(SearchEncodings[j], data);
      if Matches(codec, strings, flag) {
        RedactingFormsPass(path, codec.utf8(ReplaceAll(strings, flag, Redaction)), flag, codec, j + 1);
      } else {
        RedactingFormsPass(path, data, flag, codec, j + 1);
      }
    }
  }

  /** Without redaction the encoding loop passes exactly when no decoding
      from `j` on matches, and never changes the file. */
  lemma {:induction false} PlainFormsPassIffNoMatch(path: string, data: Bytes, flag: string, codec: Codec, j: nat)
    ensures ScanForms(path, data, flag, false, codec, j).0 == data
    ensures ScanForms(path, data, flag, false, codec, j).1 == Passed
        <==> forall k :: j <= k < |SearchEncodings| ==> !Matches(codec, codec.decode(SearchEncodings[k], data), flag)
    ensures ScanForms(path, data, flag, false, codec, j).1 in {Passed, LeakFound(path)}
    decreases |SearchEncodings| - j
  {
    if j < |SearchEncodings| {
      PlainFormsPassIffNoMatch(path, data, flag, codec, j + 1);
    }
  }

  /** A scan that cannot redact leaves every file as it was. */
  lemma {:induction false} NoRedactKeepsTree(dir: string, entries: seq<Node>, flag: Value, safes: SafeList, codec: Codec)
    ensures ScanEntries(dir, entries, flag, safes, false, codec).0 == entries
    decreases entries
  {
    if entries != [] {
      assert entries == [entries[0]] + entries[1..];
      match entries[0]
      case Dir(name, children) =>
        NoRedactKeepsTree(JoinPath(dir, name), children, flag, safes, codec);
        NoRedactKeepsTree(dir, entries[1..], flag, safes, codec);
      case File(name, data) =>
        NoRedactKeepsTree(dir, entries[1..], flag, safes, codec);
        if flag.Str? {
          PlainFormsPassIffNoMatch(JoinPath(dir, name), data, flag.s, codec, 0);
        }
    }
  }

  /** No decoding of the file matches the flag. */
  predicate NoMatch(codec: Codec, data: Bytes, flag: string)
  {
    forall k :: 0 <= k < |SearchEncodings| ==> !Matches(codec, codec.decode(SearchEncodings[k], data), flag)
  }

  /** Every file of the tree that the safe list does not cover, at any depth,
      is free of the flag under every decoding. */
  predicate Clean(dir: string, entries: seq<Node>, flag: string, safes: seq<string>, codec: Codec)
    decreases entries
  {
    entries != [] ==>
      (match entries[0]
       case Dir(name, children) => Clean(JoinPath(dir, name), children, flag, safes, codec)
       case File(name, data) => IsSafe(dir, name, safes) || NoMatch(codec, data, flag))
      && Clean(dir, entries[1..], flag, safes, codec)
  }

  /** Without redaction, a scan with a string flag and a safe-list array
      returns `true` exactly when the whole tree is clean, and otherwise
      throws a leak error. */
  lemma {:induction false} PlainScanPassesIffClean(dir: string, entries: seq<Node>, flag: string, safes: seq<string>, codec: Codec)
    ensures var r := ScanEntries(dir, entries, Str(flag), Entries(safes), false, codec).1;
            (r == Passed <==> Clean(dir, entries, flag, safes, codec)) && (r.Passed? || r.LeakFound?)
    decreases entries
  {
    if entries != [] {
      match entries[0]
      case Dir(name, children) =>
        PlainScanPassesIffClean(JoinPath(dir, name), children, flag, safes, codec);
        PlainScanPassesIffClean(dir, entries[1..], flag, safes, codec);
      case File(name, data) =>
        PlainScanPassesIffClean(dir, entries[1..], flag, safes, codec);
        PlainFormsPassIffNoMatch(JoinPath(dir, name), data, flag, codec, 0);
    }
  }

  /** With redaction, a top-level match is redacted instead of reported: the
      scan returns `true` exactly when every subdirectory is clean. */
  lemma {:induction false} RedactingScanPassesIffSubdirsClean(dir: string, entries: seq<Node>, flag: string, safes: seq<string>, codec: Codec)
    ensures ScanEntries(dir, entries, Str(flag), Entries(safes), true, codec).1 == Passed
        <==> forall i :: 0 <= i < |entries| && entries[i].Dir? ==>
               Clean(JoinPath(dir, entries[i].name), entries[i].children, flag, safes, codec)
    decreases entries
  {
    if entries != [] {
      var rest := entries[1..];
      RedactingScanPassesIffSubdirsClean(dir, rest, flag, safes, codec);
      assert forall i :: 1 <= i < |entries| ==> entries[i] == rest[i - 1];
      match entries[0]
      case Dir(name, children) =>
        PlainScanPassesIffClean(JoinPath(dir, name), children, flag, safes, codec);
      case File(name, data) =>
        RedactingFormsPass(JoinPath(dir, name), data, flag, codec, 0);
    }
  }

  /** An entry after the scan has the name and kind it had, and a file the
      scan skipped as safe is unchanged. */
  predicate EntryShape(o: Node, e: Node, safe: bool)
  {
    o.name == e.name && o.Dir? == e.Dir? && (e.File? && safe ==> o == e)
  }

  predicate ShapeKept(dir: string, out: seq<Node>, entries: seq<Node>, safes: seq<string>)
  {
    |out| == |entries| &&
    forall i :: 0 <= i < |entries| ==> EntryShape(out[i], entries[i], IsSafe(dir, entries[i].name, safes))
  }

  lemma ShapeCons(dir: string, o: Node, out: seq<Node>, e: Node, entries: seq<Node>, safes: seq<string>)
    requires EntryShape(o, e, IsSafe(dir, e.name, safes)) && ShapeKept(dir, out, entries, safes)
    ensures ShapeKept(dir, [o] + out, [e] + entries, safes)
  {
    var o', e' := [o] + out, [e] + entries;
    forall i | 0 <= i < |e'| ensures EntryShape(o'[i], e'[i], IsSafe(dir, e'[i].name, safes)) {
      if i > 0 { assert o'[i] == out[i - 1] && e'[i] == entries[i - 1]; }
    }
  }

  /** The scan keeps the listing's shape: the same number of entries with the
      same names and kinds, and every file it skips as safe unchanged. */
  lemma {:induction false} ScanKeepsShape(dir: string, entries: seq<Node>, flag: Value, safes: seq<string>, redact: bool, codec: Codec)
    ensures ShapeKept(dir, ScanEntries(dir, entries, flag, Entries(safes), redact, codec).0, entries, safes)
    decreases entries
  {
    if entries != [] {
      var rest := entries[1..];
      assert entries == [entries[0]] + rest;
      ScanKeepsShape(dir, rest, flag, safes, redact, codec);
      ShapeRefl(dir, rest, safes);
      var tail := ScanEntries(dir, rest, flag, Entries(safes), redact, codec).0;
      var v := Visit(dir, entries[0], flag, Entries(safes), redact, codec);
      VisitShape(dir, entries[0], flag, safes, redact, codec);
      ShapeCons(dir, v.0, if v.1 == Passed then tail else rest, entries[0], rest, safes);
    }
  }

  lemma ShapeRefl(dir: string, entries: seq<Node>, safes: seq<string>)
    ensures ShapeKept(dir, entries, entries, safes)
  {
  }

  /** One entry keeps its name and kind, and a safe file is left as it is. */
  lemma VisitShape(dir: string, e: Node, flag: Value, safes: seq<string>, redact: bool, codec: Codec)
    ensures EntryShape(Visit(dir, e, flag, Entries(safes), redact, codec).0, e, IsSafe(dir, e.name, safes))
  {
  }

  /** A file the safe list covers is passed over: it is not decoded, not
      rewritten and cannot make the scan throw, whatever it holds. */
  lemma SafeFileSkipped(dir: string, name: string, data: Bytes, rest: seq<Node>, flag: Value, safes: seq<string>, redact: bool, codec: Codec)
    requires IsSafe(dir, name, safes)
    ensures var tail := ScanEntries(dir, rest, flag, Entries(safes), redact, codec);
            ScanEntries(dir, [File(name, data)] + rest, flag, Entries(safes), redact, codec) == ([File(name, data)] + tail.0, tail.1)
  {
    assert ([File(name, data)] + rest)[1..] == rest;
  }

  /** A safe-list entry "/" trims to the empty string, which every path
      contains: it makes every file safe. */
  lemma RootEntryCoversEverything(dir: string, item: string, rest: seq<string>)
    ensures IsSafe(dir, item, ["/"] + rest)
  {
    assert StartsWith("/", "/");
    assert TrimSafe(dir, "/") == "";
    ContainsEmpty(JoinPath(dir, item));
  }

  /** An empty entry matches every path, but `find` returns it and it is
      falsy: an empty first entry makes no file safe. */
  lemma EmptyFirstEntryDisablesList(dir: string, item: string, rest: seq<string>)
    ensures !IsSafe(dir, item, [""] + rest)
  {
    ContainsEmpty(JoinPath(dir, item));
    assert TrimSafe(dir, "") == "";
  }

  /** An entry without a leading or trailing "/" is used as it is. */
  lemma PlainEntryUntrimmed(dir: string, safe: string)
    requires !StartsWith(safe, "/") && !EndsWith(safe, "/")
    ensures TrimSafe(dir, safe) == safe
  {
  }

  /** Trimming a slash also cuts the entry to less than the directory path's
      length. */
  lemma TrimmingTruncates(dir: string, safe: string)
    requires |dir| >= 1
    requires StartsWith(safe, "/") || EndsWith(safe, "/")
    ensures |TrimSafe(dir, safe)| < |dir|
  {
  }

  /** Under a directory path longer than the entry the slices cut nothing:
      a leading "/" is removed, but a trailing "/" stays. */
  lemma LongDirTrim(dir: string, safe: string)
    requires |dir| > |safe|
    ensures TrimSafe(dir, safe) == if StartsWith(safe, "/") then safe[1..] else safe
  {
    var w := if StartsWith(safe, "/") then Slice(safe, 1, |dir|) else safe;
    if StartsWith(safe, "/") {
      SliceDropsFirst(safe, |dir|);
    }
    if EndsWith(w, "/") {
      SliceInRange(w, 0, |w|);
      assert w[0..|w|] == w;
    }
  }

  /** A `SAFE_FLAG_FILE` holding one entry is a string, which has no `find`:
      the scan throws at the first regular file it meets. */
  lemma NonArraySafeListFails(dir: string, name: string, data: Bytes, rest: seq<Node>, flag: Value, safes: Value, redact: bool, codec: Codec)
    requires Truthy(safes) && !safes.Arr?
    ensures ScanEntries(dir, [File(name, data)] + rest, flag, SafeFilesOf(safes), redact, codec).1
            == TypeFault("safeFiles.find is not a function")
  {
    assert ([File(name, data)] + rest)[0] == File(name, data);
  }

  /** Without a `FLAG` line the flag is `null`, and the first file that is not
      skipped makes `flag.normalize` throw. */
  lemma MissingFlagFails(dir: string, name: string, data: Bytes, rest: seq<Node>, safes: seq<string>, redact: bool, codec: Codec)
    requires !IsSafe(dir, name, safes)
    ensures ScanEntries(dir, [File(name, data)] + rest, Null, Entries(safes), redact, codec).1
            == TypeFault("Cannot read properties of null (reading 'normalize')")
  {
    assert ([File(name, data)] + rest)[0] == File(name, data);
  }
}
