/**
 * The `.ctfdx.cfg` descriptor parser (`loadCfg`) of both deployer versions and
 * the lookup closure it returns. The text is split on "\n"; a line starting
 * with "#" and a line that is exactly `__proto__` or `prototype` are skipped;
 * every other line is split on "=" and assigns its second piece to its first,
 * as a list when that piece holds a ",". Later lines overwrite earlier ones.
 * The result is a plain object, so an assignment to `__proto__` goes to the
 * prototype setter and stores no key of its own.
 */
module Config {
  import opened Js

  /** The parsed descriptor: key to stored value (never `null`). */
  type Cfg = map<string, Value>

  /** Lines rejected outright when they are exactly one of these. */
  const Denylist: seq<string> := ["__proto__", "prototype"]

  /** A line that stores nothing. */
  predicate Skipped(line: string)
  {
    StartsWith(line, "#") || line in Denylist
  }

  /** `entry[0]`: the text before the first "=". */
  function KeyOf(line: string): string
  {
    Split(line, '=')[0]
  }

  /** What `result[entry[0]]` is set to: `undefined` without an "=", the
      comma-separated parts when `entry[1]` is non-empty and holds a ",", and
      `entry[1]` (the text up to a second "=") otherwise. */
  function ValueOf(line: string): (v: Value)
    ensures v.Undefined? || v.Str? || v.Arr?
  {
    var entry := Split(line, '=');
    if |entry| < 2 then Undefined
    else if entry[1] != "" && Contains(entry[1], ",") then Arr(Split(entry[1], ','))
    else Str(entry[1])
  }

  /** The key whose assignment a plain object hands to its prototype setter. */
  const ProtoKey := "__proto__"

  /** `result[key] = v` on a plain object. */
  function Assign(cfg: Cfg, key: string, v: Value): (r: Cfg)
    ensures key != ProtoKey ==> key in r && r[key] == v
    ensures forall k :: k != key ==> (k in r <==> k in cfg) && (k in r ==> r[k] == cfg[k])
    ensures ProtoKey in r <==> ProtoKey in cfg
  {
    if key == ProtoKey then cfg else cfg[key := v]
  }

  /** A line that stores `key`. */
  predicate Defines(line: string, key: string)
  {
    !Skipped(line) && KeyOf(line) == key && key != ProtoKey
  }

  /** The mapping after the lines have been processed in order. */
  function ParseLines(lines: seq<string>): Cfg
  {
    if lines == [] then map[]
    else
      var cfg := ParseLines(lines[..|lines| - 1]);
      var line := lines[|lines| - 1];
      if Skipped(line) then cfg else Assign(cfg, KeyOf(line), ValueOf(line))
  }

  /** The lines of a descriptor text. */
  function Lines(text: string): seq<string>
  {
    Split(text, '\n')
  }

  /** The getter closure: the stored value, or `null` for a key no line stored. */
  function Get(cfg: Cfg, key: string): Value
  {
    if key in cfg then cfg[key] else Null
  }

  /** The loop of `loadCfg` over the lines of an existing descriptor. */
  method ParseText(text: string) returns (cfg: Cfg)
    ensures cfg == ParseLines(Lines(text))
  {
    var perLine := Split(text, '\n');
    cfg := map[];
    var i := 0;
    while i < |perLine|
      invariant 0 <= i <= |perLine|
      invariant cfg == ParseLines(perLine[..i])
    {
      var target := perLine[i];
      assert perLine[..i + 1][..i] == perLine[..i];
      if StartsWith(target, "#") {
        i := i + 1;
        continue;
      }
      if target in Denylist {
        i := i + 1;
        continue;
      }
      var entry := Split(target, '=');
      if |entry| >= 2 && entry[1] != "" && Contains(entry[1], ",") {
        cfg := Assign(cfg, entry[0], Arr(Split(entry[1], ',')));
      } else {
        cfg := Assign(cfg, entry[0], if |entry| >= 2 then Str(entry[1]) else Undefined);
      }
      i := i + 1;
    }
    assert perLine[..i] == perLine;
  }

  /** `loadCfg` of the current deployer: `null` when the file does not exist,
      otherwise the parsed mapping behind the getter. `contents` is the file's
      text when it exists. */
  method LoadCfg(contents: Option<string>) returns (cfg: Option<Cfg>)
    ensures contents.None? <==> cfg.None?
    ensures contents.Some? ==> cfg == Some(ParseLines(Lines(contents.value)))
  {
    if contents.None? {
      return None;
    }
    var parsed := ParseText(contents.value);
    cfg := Some(parsed);
  }

  /** `loadCfg` of the older deployer: a missing file throws instead. */
  method LoadCfgLegacy(contents: Option<string>) returns (r: Result<Cfg>)
    ensures contents.None? <==> r == Error("Could not find file")
    ensures contents.Some? ==> r == Ok(ParseLines(Lines(contents.value)))
  {
    if contents.None? {
      return Error("Could not find file");
    }
    var parsed := ParseText(contents.value);
    r := Ok(parsed);
  }

  /** A key is present exactly when some non-skipped line stores it; in
      particular comment lines and denylisted lines add no key. */
  lemma {:induction false} KeyPresence(lines: seq<string>, key: string)
    ensures key in ParseLines(lines) <==> exists i :: 0 <= i < |lines| && Defines(lines[i], key)
  {
    if lines != [] {
      var init := lines[..|lines| - 1];
      KeyPresence(init, key);
      if key in ParseLines(lines) && !Defines(lines[|lines| - 1], key) {
        var i :| 0 <= i < |init| && Defines(init[i], key);
        assert lines[i] == init[i];
      }
      if exists i :: 0 <= i < |lines| && Defines(lines[i], key) {
        var i :| 0 <= i < |lines| && Defines(lines[i], key);
        if i < |init| {
          assert Defines(init[i], key);
        }
      }
    }
  }

  /** The value of a key is the one stored by the last line that stores it. */
  lemma {:induction false} LastWriteWins(lines: seq<string>, i: nat, key: string)
    requires i < |lines| && Defines(lines[i], key)
    requires forall j :: i < j < |lines| ==> !Defines(lines[j], key)
    ensures key in ParseLines(lines) && ParseLines(lines)[key] == ValueOf(lines[i])
  {
    var init := lines[..|lines| - 1];
    if i < |lines| - 1 {
      assert !Defines(lines[|lines| - 1], key);
      forall j | i < j < |init| ensures !Defines(init[j], key) {
        assert init[j] == lines[j];
      }
      LastWriteWins(init, i, key);
    }
  }

  /** The getter returns `null` exactly for a key that no line stores, and
      otherwise the stored value, even when that is `undefined` or "". */
  lemma GetNullIffAbsent(lines: seq<string>, key: string)
    ensures Get(ParseLines(lines), key) == Null <==> !exists i :: 0 <= i < |lines| && Defines(lines[i], key)
  {
    KeyPresence(lines, key);
    NoNullStored(lines);
  }

  /** No stored value is `null`. */
  lemma {:induction false} NoNullStored(lines: seq<string>)
    ensures forall k :: k in ParseLines(lines) ==> ParseLines(lines)[k] != Null
  {
    if lines != [] {
      NoNullStored(lines[..|lines| - 1]);
    }
  }

  /** A line `key=value` with no "=" in the value: the key is what precedes
      the "=" and the value is a list exactly when it holds a ",". */
  lemma KeyValueLine(key: string, value: string)
    requires '=' !in key && '=' !in value
    ensures KeyOf(key + "=" + value) == key
    ensures ',' in value ==> ValueOf(key + "=" + value) == Arr(Split(value, ','))
    ensures ',' !in value ==> ValueOf(key + "=" + value) == Str(value)
  {
    KeyValuePieces(key, value);
    CommaContained(value);
  }

  lemma KeyValuePieces(key: string, value: string)
    requires '=' !in key && '=' !in value
    ensures Split(key + "=" + value, '=') == [key, value]
  {
    SplitAfter(key, value, '=');
    SplitNoSeparator(value, '=');
    assert key + "=" + value == key + ['='] + value;
  }

  /** `value.indexOf(",") !== -1` is membership of the character. */
  lemma CommaContained(value: string)
    ensures Contains(value, ",") <==> ',' in value
  {
    if ',' in value {
      var k :| 0 <= k < |value| && value[k] == ',';
      assert OccursAt(value, ",", k);
    } else {
      CharAbsent(value, ',');
    }
  }

  /** A character that is not in a string does not occur in it. */
  lemma CharAbsent(s: string, c: char)
    requires c !in s
    ensures !Contains(s, [c])
  {
    forall i | 0 <= i && i + 1 <= |s| ensures !OccursAt(s, [c], i) {
      assert s[i..i + 1] == [s[i]];
    }
  }

  /** Only the text between the first and the second "=" is kept. */
  lemma SecondEqualsTruncates(key: string, value: string, rest: string)
    requires '=' !in key && '=' !in value && ',' !in value
    ensures ValueOf(key + "=" + value + "=" + rest) == Str(value)
  {
    SplitAfter(value, rest, '=');
    SplitAfter(key, value + "=" + rest, '=');
    assert key + "=" + value + "=" + rest == key + ['='] + (value + ['='] + rest);
    CharAbsent(value, ',');
  }

  /** The line filter skips only a line that is exactly `__proto__`;
      `__proto__=x` gets past it but stores nothing, while `prototype=x` is an
      ordinary assignment. */
  lemma ProtoOnlyDroppedAlone()
    ensures Skipped("__proto__") && !Skipped("__proto__=x")
    ensures ParseLines(["__proto__"]) == map[]
    ensures ParseLines(["__proto__=x"]) == map[]
    ensures ParseLines(["prototype=x"]) == map["prototype" := Str("x")]
  {
    assert ["__proto__"][..0] == [];
    assert ["__proto__=x"][..0] == [];
    ProtoAssignLine();
    PrototypeAssignLine();
    SingleLine("prototype=x");
  }

  lemma ProtoAssignLine()
    ensures !Skipped("__proto__=x") && KeyOf("__proto__=x") == ProtoKey
  {
    NotComment("__proto__=x");
    KeyValueLine("__proto__", "x");
    assert "__proto__" + "=" + "x" == "__proto__=x";
  }

  lemma PrototypeAssignLine()
    ensures !Skipped("prototype=x") && KeyOf("prototype=x") == "prototype" && ValueOf("prototype=x") == Str("x")
  {
    NotComment("prototype=x");
    KeyValueLine("prototype", "x");
    assert "prototype" + "=" + "x" == "prototype=x";
  }

  /** Whatever the descriptor says, the getter finds no `__proto__` key. */
  lemma {:induction false} ProtoNeverStored(lines: seq<string>)
    ensures ProtoKey !in ParseLines(lines)
    ensures Get(ParseLines(lines), ProtoKey) == Null
  {
    if lines != [] {
      ProtoNeverStored(lines[..|lines| - 1]);
    }
  }

  /** A line whose first character is not "#" is not a comment. */
  lemma NotComment(line: string)
    requires line != [] && line[0] != '#'
    ensures !StartsWith(line, "#")
  {
    assert line[..1] == [line[0]];
  }

  /** A line `FOO=a,b,c` stores the list ["a", "b", "c"]. */
  lemma CommaValueIsList()
    ensures ParseLines(["FOO=a,b,c"]) == map["FOO" := Arr(["a", "b", "c"])]
  {
    CommaLine();
    SingleLine("FOO=a,b,c");
  }

  /** The line of `CommaValueIsList` on its own. */
  lemma CommaLine()
    ensures !Skipped("FOO=a,b,c")
    ensures KeyOf("FOO=a,b,c") == "FOO" && ValueOf("FOO=a,b,c") == Arr(["a", "b", "c"])
  {
    assert "FOO=a,b,c" == "FOO" + "=" + "a,b,c";
    assert "a,b,c"[1] == ',';
    KeyValueLine("FOO", "a,b,c");
    SplitThree();
    NotComment("FOO=a,b,c");
  }

  /** A descriptor of one line that is not skipped stores that line alone. */
  lemma SingleLine(line: string)
    requires !Skipped(line) && KeyOf(line) != ProtoKey
    ensures ParseLines([line]) == map[KeyOf(line) := ValueOf(line)]
  {
    assert [line][..0] == [];
  }

  /** "a,b,c" splits into its three letters. */
  lemma SplitThree()
    ensures Split("a,b,c", ',') == ["a", "b", "c"]
  {
    var pieces := ["a", "b", "c"];
    assert Join(pieces, ',') == "a,b,c";
    JoinSplit(pieces, ',');
  }

  /** A text ending in "\n" stores `undefined` under the empty key: its last
      line is empty and is not skipped. */
  lemma TrailingNewlineStoresEmptyKey(text: string)
    ensures var lines := Lines(text + "\n");
            "" in ParseLines(lines) && ParseLines(lines)[""] == Undefined
  {
    var lines := Lines(text + "\n");
    SplitJoin(text + "\n", '\n');
    TrailingSeparatorSplit(text, '\n');
    assert lines[|lines| - 1] == "";
    assert !StartsWith("", "#");
    assert Split("", '=') == [""];
  }

  /** Splitting a string that ends in the separator gives an empty last piece. */
  lemma {:induction false} TrailingSeparatorSplit(s: string, c: char)
    ensures var r := Split(s + [c], c); |r| >= 2 && r[|r| - 1] == ""
    decreases |s|
  {
    if s == [] {
      assert Split([c], c) == [""] + Split([], c);
    } else {
      TrailingSeparatorSplit(s[1..], c);
      assert (s + [c])[1..] == s[1..] + [c];
    }
  }
}
