/**
 * The own-field bookkeeping of `EmbedManager`, the embed builder the deployer
 * uses for its status and error messages. It mirrors title, description,
 * message and the groups of fields it was given in fields of its own. The
 * calls it forwards to the embed builder it extends are not modelled. Every
 * builder method returns the manager itself.
 */
module Embeds {
  import opened Js

  /** One field object: `{ name, value, inline }`. */
  datatype EmbedField = EmbedField(name: Value, value: Value, inline: Value)

  /** `this.fields[x][y]` after a `changeField(name, value, inline, newName)`
      visit. A field whose name is `name` gets `newName` (or keeps `name` when
      `newName` is falsy) and the new value. Its inline flag changes only when
      `inline` is given, and becomes the flag's truthiness. Any other field is
      left alone. */
  function Changed(f: EmbedField, name: Value, value: Value, inline: Value, newName: Value): (r: EmbedField)
  {
    if f.name == name then
      EmbedField(if Truthy(newName) then newName else name, value, if inline != Undefined then Bool(Truthy(inline)) else f.inline)
    else f
  }

  /** One group after `changeField`. */
  function ChangedGroup(g: seq<EmbedField>, name: Value, value: Value, inline: Value, newName: Value): (r: seq<EmbedField>)
    ensures |r| == |g|
    ensures forall y :: 0 <= y < |r| ==> r[y] == Changed(g[y], name, value, inline, newName)
  {
    seq(|g|, y requires 0 <= y < |g| => Changed(g[y], name, value, inline, newName))
  }

  /** Every field of every group after `changeField`. */
  function ChangedGroups(groups: seq<seq<EmbedField>>, name: Value, value: Value, inline: Value, newName: Value)
    : (r: seq<seq<EmbedField>>)
    ensures |r| == |groups|
    ensures forall x :: 0 <= x < |r| ==> |r[x]| == |groups[x]|
    ensures forall x, y :: 0 <= x < |r| && 0 <= y < |r[x]| ==> r[x][y] == Changed(groups[x][y], name, value, inline, newName)
  {
    seq(|groups|, x requires 0 <= x < |groups| => ChangedGroup(groups[x], name, value, inline, newName))
  }

  /** The body of the inner `forEach` of `changeField` for one field. */
  method ChangeOne(f: EmbedField, name: Value, value: Value, inline: Value, newName: Value) returns (r: EmbedField)
    ensures r == Changed(f, name, value, inline, newName)
  {
    r := f;
    if f.name == name {
      var renamed := if Truthy(newName) then newName else name;
      var flag := if inline != Undefined then Bool(Truthy(inline)) else f.inline;
      r := EmbedField(renamed, value, flag);
    }
  }

  /** The inner `forEach` of `changeField` over one group. */
  method ChangeGroup(g: seq<EmbedField>, name: Value, value: Value, inline: Value, newName: Value) returns (r: seq<EmbedField>)
    ensures r == ChangedGroup(g, name, value, inline, newName)
  {
    r := g;
    var y := 0;
    while y < |r|
      invariant y <= |g| && ChangedUpTo(r, g, y, name, value, inline, newName)
    {
      ChangedUpToStep(r, g, y, name, value, inline, newName);
      var f := ChangeOne(r[y], name, value, inline, newName);
      r := r[y := f];
      y := y + 1;
    }
    ChangedUpToDone(r, g, name, value, inline, newName);
  }

  /** `r` is the group `g` with its first `y` fields changed. */
  predicate ChangedUpTo(r: seq<EmbedField>, g: seq<EmbedField>, y: nat, name: Value, value: Value, inline: Value, newName: Value)
  {
    |r| == |g| && y <= |g| &&
    (forall k :: 0 <= k < y ==> r[k] == Changed(g[k], name, value, inline, newName)) &&
    (forall k :: y <= k < |g| ==> r[k] == g[k])
  }

  /** Changing the next field extends the changed prefix by one. */
  lemma ChangedUpToStep(r: seq<EmbedField>, g: seq<EmbedField>, y: nat, name: Value, value: Value, inline: Value, newName: Value)
    requires y < |g| && ChangedUpTo(r, g, y, name, value, inline, newName)
    ensures y < |r| && r[y] == g[y]
    ensures ChangedUpTo(r[y := Changed(r[y], name, value, inline, newName)], g, y + 1, name, value, inline, newName)
  {
  }

  /** With every field visited the group is the changed group. */
  lemma ChangedUpToDone(r: seq<EmbedField>, g: seq<EmbedField>, name: Value, value: Value, inline: Value, newName: Value)
    requires ChangedUpTo(r, g, |g|, name, value, inline, newName)
    ensures r == ChangedGroup(g, name, value, inline, newName)
  {
    assert forall k :: 0 <= k < |r| ==> r[k] == ChangedGroup(g, name, value, inline, newName)[k];
  }

  class EmbedManager<Message> {
    var message: Option<Message>
    var title: Value
    var description: Value
    /** The groups passed to `addFields`, or `null` before the first call. */
    var fields: Option<seq<seq<EmbedField>>>

    constructor()
      ensures message == None && title == Null && description == Null && fields == None
    {
      message := None;
      title := Null;
      description := Null;
      fields := None;
    }

    method SetTitle(title: Value) returns (r: EmbedManager<Message>)
      modifies this
      ensures r == this && this.title == title
      ensures description == old(description) && message == old(message) && fields == old(fields)
    {
      this.title := title;
      r := this;
    }

    method SetDescription(description: Value) returns (r: EmbedManager<Message>)
      modifies this
      ensures r == this && this.description == description
      ensures title == old(title) && message == old(message) && fields == old(fields)
    {
      this.description := description;
      r := this;
    }

    /** Appends a line to the title: the argument, or nothing when it is falsy.
        A title never set reads as "null". */
    method AddTitle(title: Value) returns (r: EmbedManager<Message>)
      modifies this
      ensures r == this && this.title == Str(ToString(old(this.title)) + "\n" + (if Truthy(title) then ToString(title) else ""))
      ensures description == old(description) && message == old(message) && fields == old(fields)
    {
      this.title := Str(ToString(this.title) + "\n" + (if Truthy(title) then ToString(title) else ""));
      r := this;
    }

    method AddDescription(description: Value) returns (r: EmbedManager<Message>)
      modifies this
      ensures r == this
      ensures this.description == Str(ToString(old(this.description)) + "\n" + (if Truthy(description) then ToString(description) else ""))
      ensures title == old(title) && message == old(message) && fields == old(fields)
    {
      this.description := Str(ToString(this.description) + "\n" + (if Truthy(description) then ToString(description) else ""));
      r := this;
    }

    /** Appends the whole argument list as one new group, starting from no
        groups when there were none. */
    method AddFields(group: seq<EmbedField>) returns (r: EmbedManager<Message>)
      modifies this
      ensures r == this
      ensures fields == Some((if old(fields).None? then [] else old(fields).value) + [group])
      ensures title == old(title) && description == old(description) && message == old(message)
    {
      if fields.None? {
        fields := Some([]);
      }
      fields := Some(fields.value + [group]);
      r := this;
    }

    method SetMessage(message: Message) returns (r: EmbedManager<Message>)
      modifies this
      ensures r == this && this.message == Some(message)
      ensures title == old(title) && description == old(description) && fields == old(fields)
    {
      this.message := Some(message);
      r := this;
    }

    /** Updates, in every group, every field whose name is `name`; without
        groups it does nothing. */
    method ChangeField(name: Value, value: Value, inline: Value, newName: Value) returns (r: EmbedManager<Message>)
      modifies this
      ensures r == this
      ensures old(fields).None? ==> fields == None
      ensures old(fields).Some? ==> fields == Some(ChangedGroups(old(fields).value, name, value, inline, newName))
      ensures title == old(title) && description == old(description) && message == old(message)
    {
      r := this;
      if fields.None? {
        return;
      }
      ghost var groups := fields.value;
      ghost var changed := ChangedGroups(groups, name, value, inline, newName);
      var gs := fields.value;
      var x := 0;
      while x < |gs|
        modifies {}
        invariant |gs| == |groups|
        invariant 0 <= x <= |groups|
        invariant forall k :: 0 <= k < x ==> gs[k] == changed[k]
        invariant forall k :: x <= k < |groups| ==> gs[k] == groups[k]
      {
        var g := ChangeGroup(gs[x], name, value, inline, newName);
        gs := gs[x := g];
        x := x + 1;
      }
      fields := Some(gs);
      assert gs == changed;
    }
  }

  /** Fields with another name are left alone, a matched one is renamed to
      `newName` when that is truthy and otherwise keeps `name`. */
  lemma ChangedNames(groups: seq<seq<EmbedField>>, name: Value, value: Value, inline: Value, newName: Value, x: nat, y: nat)
    requires x < |groups| && y < |groups[x]|
    ensures var f := ChangedGroups(groups, name, value, inline, newName)[x][y];
            (groups[x][y].name != name ==> f == groups[x][y]) &&
            (groups[x][y].name == name ==> f.name == (if Truthy(newName) then newName else name) && f.value == value)
  {
  }

  /** Repeating a change that does not rename gives the same fields. */
  lemma {:induction false} ChangeIdempotent(groups: seq<seq<EmbedField>>, name: Value, value: Value, inline: Value, newName: Value)
    requires !Truthy(newName) || newName == name
    ensures var once := ChangedGroups(groups, name, value, inline, newName);
            ChangedGroups(once, name, value, inline, newName) == once
  {
    var once := ChangedGroups(groups, name, value, inline, newName);
    var twice := ChangedGroups(once, name, value, inline, newName);
    forall x | 0 <= x < |once| ensures twice[x] == once[x] {
      forall y | 0 <= y < |once[x]| ensures twice[x][y] == once[x][y] {
        ChangedTwice(groups[x][y], name, value, inline, newName);
      }
    }
  }

  lemma ChangedTwice(f: EmbedField, name: Value, value: Value, inline: Value, newName: Value)
    requires !Truthy(newName) || newName == name
    ensures Changed(Changed(f, name, value, inline, newName), name, value, inline, newName) == Changed(f, name, value, inline, newName)
  {
  }

  /** A rename to a truthy different name leaves no field called `name`. */
  lemma RenameRemovesName(groups: seq<seq<EmbedField>>, name: Value, value: Value, inline: Value, newName: Value)
    requires Truthy(newName) && newName != name
    ensures var r := ChangedGroups(groups, name, value, inline, newName);
            forall x, y :: 0 <= x < |r| && 0 <= y < |r[x]| ==> r[x][y].name != name
  {
  }
}
