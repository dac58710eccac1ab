/**
 * The directory trees the deployer copies, rewrites and scans, as values: a
 * directory lists its entries in `readdirSync` order. Paths are joined with
 * "/" (`path.join` of a directory and a plain entry name). The foreign text
 * codecs (decoding bytes under an encoding, NFC normalisation, and the UTF-8
 * encoding `writeFileSync` applies to a string) are parameters.
 */
module FileTree {
  import opened Js

  type Bytes = seq<bv8>

  datatype Node = File(name: string, data: Bytes) | Dir(name: string, children: seq<Node>)

  /** The encodings a file is decoded under, in the order they are tried. */
  datatype Encoding = Ascii | Utf8 | Utf16le | Ucs2 | Latin1

  /** The text codecs, which this model does not interpret. */
  datatype Codec = Codec(decode: (Encoding, Bytes) -> string, nfc: string -> string, utf8: string -> Bytes)

  /** `path.join(dir, item)` for a plain entry name. */
  function JoinPath(dir: string, item: string): string
  {
    dir + "/" + item
  }

  /** The position of the first entry called `name`. */
  function Find(entries: seq<Node>, name: string): (r: Option<nat>)
    ensures r.Some? ==> r.value < |entries| && entries[r.value].name == name
    ensures r.Some? ==> forall i :: 0 <= i < r.value ==> entries[i].name != name
    ensures r.None? ==> forall i :: 0 <= i < |entries| ==> entries[i].name != name
  {
    if entries == [] then None
    else if entries[0].name == name then Some(0)
    else
      match Find(entries[1..], name)
      case None => None
      case Some(k) => Some(k + 1)
  }

  /** What `existsSync` and `readFileSync` see at a name in a directory. */
  datatype Lookup = Missing | IsDirectory | Contents(data: Bytes)

  function LookupFile(entries: seq<Node>, name: string): Lookup
  {
    match Find(entries, name)
    case None => Missing
    case Some(k) => if entries[k].Dir? then IsDirectory else Contents(entries[k].data)
  }

  /** `rmSync(path, { recursive: true, force: true })` of an entry: removed if
      present, nothing happens otherwise. */
  function Remove(entries: seq<Node>, name: string): (r: seq<Node>)
    ensures Find(r, name).None?
    ensures forall n :: n != name ==> LookupFile(r, n) == LookupFile(entries, n)
    ensures forall e :: e in r <==> e in entries && e.name != name
  {
    if entries == [] then []
    else
      var rest := Remove(entries[1..], name);
      assert entries == [entries[0]] + entries[1..];
      LookupCons(entries[0], entries[1..]);
      if entries[0].name == name then rest
      else
        LookupCons(entries[0], rest);
        [entries[0]] + rest
  }

  /** Removal works entry by entry: it distributes over concatenation, so
      the entries that stay keep their listing order. */
  lemma {:induction false} RemoveAppend(a: seq<Node>, b: seq<Node>, name: string)
    ensures Remove(a + b, name) == Remove(a, name) + Remove(b, name)
  {
    if a == [] {
      assert a + b == b;
    } else {
      assert (a + b)[0] == a[0];
      assert (a + b)[1..] == a[1..] + b;
      RemoveAppend(a[1..], b, name);
    }
  }

  /** On a single entry, removal drops it exactly when it has the name. */
  lemma RemoveOne(e: Node, name: string)
    ensures Remove([e], name) == if e.name == name then [] else [e]
  {
    assert [e][1..] == [];
  }

  /** With `force`, removing a name that is not there changes nothing. */
  lemma {:induction false} RemoveAbsent(entries: seq<Node>, name: string)
    requires forall i :: 0 <= i < |entries| ==> entries[i].name != name
    ensures Remove(entries, name) == entries
  {
    if entries != [] {
      RemoveAbsent(entries[1..], name);
      assert entries == [entries[0]] + entries[1..];
    }
  }

  /** Entries after the first only matter for other names. */
  lemma LookupCons(e: Node, rest: seq<Node>)
    ensures forall n :: n != e.name ==> LookupFile([e] + rest, n) == LookupFile(rest, n)
    ensures Find([e] + rest, e.name) == Some(0)
  {
    forall n | n != e.name ensures LookupFile([e] + rest, n) == LookupFile(rest, n) {
      assert ([e] + rest)[1..] == rest;
      match Find(rest, n)
      case None =>
      case Some(k) => assert ([e] + rest)[k + 1] == rest[k];
    }
  }

  /** The path segments of a relative path: `path.join` drops empty segments
      and "." segments. */
  function Segments(rel: string): seq<string>
  {
    Filter(Split(rel, '/'))
  }

  function Filter(pieces: seq<string>): (r: seq<string>)
    ensures forall i :: 0 <= i < |r| ==> r[i] != "" && r[i] != "."
  {
    if pieces == [] then []
    else if pieces[0] == "" || pieces[0] == "." then Filter(pieces[1..])
    else [pieces[0]] + Filter(pieces[1..])
  }

  /** `writeFileSync` of `data` at the relative path `segs`: an existing file
      is overwritten, a missing last segment is created at the end of its
      directory; a path naming a directory, running through a file, or
      through a missing directory throws. */
  function WriteAt(entries: seq<Node>, segs: seq<string>, data: Bytes): Result<seq<Node>>
    decreases |segs|
  {
    if segs == [] then Error("EISDIR: illegal operation on a directory")
    else
      match Find(entries, segs[0])
      case None =>
        if |segs| == 1 then Ok(entries + [File(segs[0], data)])
        else Error("ENOENT: no such file or directory")
      case Some(k) =>
        match entries[k]
        case File(n, _) =>
          if |segs| == 1 then Ok(entries[k := File(n, data)])
          else Error("ENOTDIR: not a directory")
        case Dir(n, children) =>
          if |segs| == 1 then Error("EISDIR: illegal operation on a directory")
          else
            match WriteAt(children, segs[1..], data)
            case Error(e) => Error(e)
            case Ok(children') => Ok(entries[k := Dir(n, children')])
  }

  /** The contents of the file at a relative path, if there is one. */
  function ReadAt(entries: seq<Node>, segs: seq<string>): Option<Bytes>
    decreases |segs|
  {
    if segs == [] then None
    else
      match Find(entries, segs[0])
      case None => None
      case Some(k) =>
        match entries[k]
        case File(_, data) => if |segs| == 1 then Some(data) else None
        case Dir(_, children) => if |segs| == 1 then None else ReadAt(children, segs[1..])
  }

  /** A write that succeeds leaves the written data at that path. */
  lemma {:induction false} WriteThenRead(entries: seq<Node>, segs: seq<string>, data: Bytes)
    requires WriteAt(entries, segs, data).Ok?
    ensures ReadAt(WriteAt(entries, segs, data).value, segs) == Some(data)
    decreases |segs|
  {
    match Find(entries, segs[0])
    case None =>
      var r := entries + [File(segs[0], data)];
      assert Find(r, segs[0]) == Some(|entries|) by {
        FindAppend(entries, File(segs[0], data));
      }
    case Some(k) =>
      match entries[k]
      case File(n, _) =>
        FindUpdate(entries, k, File(n, data));
      case Dir(n, children) =>
        WriteThenRead(children, segs[1..], data);
        FindUpdate(entries, k, Dir(n, WriteAt(children, segs[1..], data).value));
  }

  /** Appending an entry with a name not yet present makes it the one found. */
  lemma {:induction false} FindAppend(entries: seq<Node>, e: Node)
    requires Find(entries, e.name).None?
    ensures Find(entries + [e], e.name) == Some(|entries|)
  {
    if entries != [] {
      FindAppend(entries[1..], e);
      assert (entries + [e])[1..] == entries[1..] + [e];
    }
  }

  /** Replacing the first entry of a name by one of the same name keeps it first. */
  lemma {:induction false} FindUpdate(entries: seq<Node>, k: nat, e: Node)
    requires Find(entries, e.name) == Some(k)
    ensures Find(entries[k := e], e.name) == Some(k)
  {
    if k > 0 {
      FindUpdate(entries[1..], k - 1, e);
      assert entries[k := e][1..] == entries[1..][k - 1 := e];
    }
  }
}
