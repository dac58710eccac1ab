/**
 * The slice of JavaScript semantics the deployer relies on: the dynamic values
 * a descriptor lookup can hand back, their truthiness and string coercion, and
 * the `String.prototype` operations the deployer calls (`split` on one
 * character, `startsWith`, `endsWith`, `indexOf`, `slice` and `replaceAll`).
 */
module Js {

  /** A dynamic value as the deployer sees it: `null`, `undefined`, a string,
      an array of strings (what `split(",")` produces) or a boolean. */
  datatype Value = Null | Undefined | Str(s: string) | Arr(items: seq<string>) | Bool(b: bool)

  datatype Option<T> = None | Some(value: T)

  /** A completed call, or the message of the `Error` it threw. */
  datatype Result<T> = Ok(value: T) | Error(message: string)

  /** JavaScript truthiness: `null`, `undefined`, `""` and `false` are falsy,
      every array (even an empty one) is truthy. */
  predicate Truthy(v: Value)
  {
    match v
    case Null => false
    case Undefined => false
    case Str(s) => s != ""
    case Arr(_) => true
    case Bool(b) => b
  }

  /** `v || d` for a string default `d`: one of its two operands, and truthy
      exactly when one of them is. */
  function OrElse(v: Value, d: string): (r: Value)
    ensures r == v || r == Str(d)
    ensures Truthy(r) <==> Truthy(v) || d != ""
  {
    if Truthy(v) then v else Str(d)
  }

  /** String coercion (`"" + v`): arrays join their items with ",". */
  function ToString(v: Value): string
  {
    match v
    case Null => "null"
    case Undefined => "undefined"
    case Str(s) => s
    case Arr(items) => Join(items, ',')
    case Bool(b) => if b then "true" else "false"
  }

  predicate StartsWith(s: string, prefix: string)
  {
    |prefix| <= |s| && s[..|prefix|] == prefix
  }

  predicate EndsWith(s: string, suffix: string)
  {
    |suffix| <= |s| && s[|s| - |suffix|..] == suffix
  }

  /** `s.split(c)` for a one-character separator: the pieces between the
      occurrences of `c`, always at least one. */
  function Split(s: string, c: char): (r: seq<string>)
    ensures |r| >= 1
  {
    if s == [] then [""]
    else if s[0] == c then [""] + Split(s[1..], c)
    else
      var rest := Split(s[1..], c);
      [[s[0]] + rest[0]] + rest[1..]
  }

  /** `pieces.join(c)`. */
  function Join(pieces: seq<string>, c: char): string
  {
    if |pieces| == 0 then ""
    else if |pieces| == 1 then pieces[0]
    else pieces[0] + [c] + Join(pieces[1..], c)
  }

  /** Joining the pieces of a split back with the separator gives the
      original string. */
  lemma {:induction false} SplitJoin(s: string, c: char)
    ensures Join(Split(s, c), c) == s
  {
    if s == [] {
    } else if s[0] == c {
      SplitJoin(s[1..], c);
      var rest := Split(s[1..], c);
      assert Split(s, c) == [""] + rest;
      if |rest| == 1 {
        assert Join(Split(s, c), c) == "" + [c] + rest[0];
      } else {
        assert ([""] + rest)[1..] == rest;
      }
      assert s == [s[0]] + s[1..];
    } else {
      SplitJoin(s[1..], c);
      var rest := Split(s[1..], c);
      var r := [[s[0]] + rest[0]] + rest[1..];
      assert Split(s, c) == r;
      if |rest| == 1 {
        assert Join(r, c) == [s[0]] + rest[0];
      } else {
        assert r[1..] == rest[1..];
        assert Join(rest, c) == rest[0] + [c] + Join(rest[1..], c);
      }
      assert s == [s[0]] + s[1..];
    }
  }

  /** No piece of a split contains the separator. */
  lemma {:induction false} SplitPieces(s: string, c: char)
    ensures forall i :: 0 <= i < |Split(s, c)| ==> c !in Split(s, c)[i]
  {
    if s != [] {
      SplitPieces(s[1..], c);
      var rest := Split(s[1..], c);
      if s[0] != c {
        var r := [[s[0]] + rest[0]] + rest[1..];
        assert Split(s, c) == r;
        forall i | 0 <= i < |r| ensures c !in r[i] {
          if i > 0 { assert r[i] == rest[i]; }
        }
      }
    }
  }

  /** Splitting a join of separator-free pieces gives the pieces back. */
  lemma {:induction false} JoinSplit(pieces: seq<string>, c: char)
    requires |pieces| >= 1
    requires forall i :: 0 <= i < |pieces| ==> c !in pieces[i]
    ensures Split(Join(pieces, c), c) == pieces
  {
    if |pieces| == 1 {
      SplitNoSeparator(pieces[0], c);
    } else {
      JoinSplit(pieces[1..], c);
      SplitAfter(pieces[0], Join(pieces[1..], c), c);
      assert pieces == [pieces[0]] + pieces[1..];
    }
  }

  /** A string without the separator splits into itself. */
  lemma {:induction false} SplitNoSeparator(s: string, c: char)
    requires c !in s
    ensures Split(s, c) == [s]
  {
    if s != [] {
      SplitNoSeparator(s[1..], c);
      assert s == [s[0]] + s[1..];
    }
  }

  /** Splitting `a + [c] + b`, with no separator in `a`, puts `a` first. */
  lemma {:induction false} SplitAfter(a: string, b: string, c: char)
    requires c !in a
    ensures Split(a + [c] + b, c) == [a] + Split(b, c)
  {
    if a == [] {
      assert a + [c] + b == [c] + b;
      assert ([c] + b)[1..] == b;
    } else {
      SplitAfter(a[1..], b, c);
      assert (a + [c] + b)[1..] == a[1..] + [c] + b;
      assert a == [a[0]] + a[1..];
    }
  }

  /** `needle` occurs in `hay` starting at position `i`. */
  predicate OccursAt(hay: string, needle: string, i: int)
  {
    0 <= i && i + |needle| <= |hay| && hay[i..i + |needle|] == needle
  }

  /** `hay.indexOf(needle)`: the first position of `needle` in `hay`, or -1. */
  function IndexOf(hay: string, needle: string): (r: int)
    ensures r == -1 || 0 <= r <= |hay| - |needle|
    ensures r >= 0 ==> OccursAt(hay, needle, r)
    ensures r >= 0 ==> forall i :: 0 <= i < r ==> !OccursAt(hay, needle, i)
    ensures r == -1 <==> forall i :: !OccursAt(hay, needle, i)
    decreases |hay|
  {
    if |needle| > |hay| then -1
    else if hay[..|needle|] == needle then assert OccursAt(hay, needle, 0); 0
    else
      var k := IndexOf(hay[1..], needle);
      ShiftOccurrence(hay, needle);
      assert !OccursAt(hay, needle, 0);
      if k == -1 then -1 else k + 1
  }

  /** An occurrence past the first character is an occurrence in the tail. */
  lemma ShiftOccurrence(hay: string, needle: string)
    requires hay != []
    ensures forall i :: 0 <= i ==> (OccursAt(hay, needle, i + 1) <==> OccursAt(hay[1..], needle, i))
    ensures forall j :: 1 <= j ==> (OccursAt(hay, needle, j) <==> OccursAt(hay[1..], needle, j - 1))
  {
    forall i | 0 <= i ensures OccursAt(hay, needle, i + 1) <==> OccursAt(hay[1..], needle, i) {
      if i + 1 + |needle| <= |hay| {
        var tail, a := hay[1..], hay[i + 1..i + 1 + |needle|];
        var b := tail[i..i + |needle|];
        assert forall k :: 0 <= k < |needle| ==> a[k] == b[k];
        assert a == b;
      }
    }
    forall j | 1 <= j ensures OccursAt(hay, needle, j) <==> OccursAt(hay[1..], needle, j - 1) {
      assert OccursAt(hay, needle, (j - 1) + 1) <==> OccursAt(hay[1..], needle, j - 1);
    }
  }

  /** `hay.indexOf(needle) !== -1`. */
  predicate Contains(hay: string, needle: string)
  {
    IndexOf(hay, needle) != -1
  }

  /** The empty string occurs in every string. */
  lemma ContainsEmpty(hay: string)
    ensures Contains(hay, "")
  {
    assert OccursAt(hay, "", 0);
  }

  /** A string occurs in anything that extends it on either side. */
  lemma ContainsInfix(a: string, b: string, c: string)
    ensures Contains(a + b + c, b)
  {
    var s := a + b + c;
    assert s[|a|..|a| + |b|] == b;
    assert OccursAt(s, b, |a|);
  }

  /** Resolves a `slice` bound against the length: negative bounds count from
      the end, and every bound is clamped into [0, len]. */
  function ClampIndex(i: int, len: nat): (r: nat)
    ensures r <= len
  {
    if i < 0 then (if len + i > 0 then len + i else 0)
    else if i > len then len
    else i
  }

  /** `s.slice(start, end)`: always a piece of `s`. */
  function Slice(s: string, start: int, end: int): (r: string)
    ensures |r| <= |s|
    ensures Contains(s, r)
  {
    var from, to := ClampIndex(start, |s|), ClampIndex(end, |s|);
    assert OccursAt(s, if from < to then s[from..to] else "", if from < to then from else 0);
    if from < to then s[from..to] else ""
  }

  /** Bounds inside the text select exactly the characters between them. */
  lemma SliceInRange(s: string, start: int, end: int)
    requires 0 <= start <= end <= |s|
    ensures Slice(s, start, end) == s[start..end]
  {
  }

  /** A negative start counts from the end: `s.slice(-k)` is the last `k`
      characters. */
  lemma SliceFromEnd(s: string, k: int)
    requires 0 < k <= |s|
    ensures Slice(s, -k, |s|) == s[|s| - k..]
  {
  }

  /** An end past the text is the end of the text: `s.slice(1, n)` with
      `n >= |s|` drops exactly the first character. */
  lemma SliceDropsFirst(s: string, end: int)
    requires 1 <= |s| <= end
    ensures Slice(s, 1, end) == s[1..]
  {
  }

  /** Two adjacent slices make up the whole text. */
  lemma SliceSplit(s: string, k: int)
    requires 0 <= k <= |s|
    ensures Slice(s, 0, k) + Slice(s, k, |s|) == s
  {
    if 0 < k < |s| {
      assert s[0..k] + s[k..|s|] == s;
    } else if k == 0 {
      assert s[0..|s|] == s;
    } else {
      assert s[0..k] == s;
    }
  }

  /** `s.replaceAll(pattern, replacement)` with a string pattern: the
      occurrences are replaced left to right without overlap; an empty pattern
      matches before every character and at the end. */
  function ReplaceAll(s: string, pattern: string, replacement: string): string
    decreases |s|
  {
    if pattern == [] then
      if s == [] then replacement else replacement + [s[0]] + ReplaceAll(s[1..], pattern, replacement)
    else if |s| < |pattern| then s
    else if s[..|pattern|] == pattern then replacement + ReplaceAll(s[|pattern|..], pattern, replacement)
    else [s[0]] + ReplaceAll(s[1..], pattern, replacement)
  }

  /** A string in which the pattern does not occur is left as it is. */
  lemma {:induction false} ReplaceAllAbsent(s: string, pattern: string, replacement: string)
    requires !Contains(s, pattern)
    ensures ReplaceAll(s, pattern, replacement) == s
    decreases |s|
  {
    if pattern == [] {
      ContainsEmpty(s);
    } else if |s| < |pattern| {
    } else {
      assert !OccursAt(s, pattern, 0);
      ShiftOccurrence(s, pattern);
      assert !Contains(s[1..], pattern);
      ReplaceAllAbsent(s[1..], pattern, replacement);
      assert s == [s[0]] + s[1..];
    }
  }
}
