/** The one-line text form of a command (`CommandData.ToString` and
    `RawCommand.ToString`, which are the same code): what error events carry
    as their `CommandData`.

    "`tag`: target", then " `>>` parent" when there is a parent, then
    " `:` " and the named parameters, then " `=` " and the array parameters,
    then " `>` comment" when there is a comment. */
module CommandText {
  import opened Wrappers
  import opened Text
  import opened Commands

  /** The marker written before a parameter name for each parameter type. */
  function TypePrefix(t: ParamType): (p: string)
    ensures |p| <= 1
    ensures p == "" <==> t == Set
  {
    match t
    case Set => ""
    case Add => "+"
    case Remove => "-"
    case Reset => "."
  }

  /** The prefix tells the four parameter types apart. */
  lemma TypePrefixInjective(a: ParamType, b: ParamType)
    ensures TypePrefix(a) == TypePrefix(b) ==> a == b
  {
  }

  /** A parameter value as it is written after its name. A value with '{' is
      passed through `Replace("{", "{").Replace("}", "}")`; a value with a
      ',' and no '{' is braced; any other value is written as it is. */
  function ValueText(v: string): string {
    if Contains(v, '{') then " " + ReplaceChar(ReplaceChar(v, '{', "{"), '}', "}")
    else if Contains(v, ',') then " { " + v + " }"
    else " " + v
  }

  /** Both replacements put back what they take out, so a value with a
      brace is written unchanged; a list value is braced; anything else is
      written as it is. */
  lemma ValueTextCases(v: string)
    ensures Contains(v, '{') ==> ValueText(v) == " " + v
    ensures !Contains(v, '{') && Contains(v, ',') ==> ValueText(v) == " { " + v + " }"
    ensures !Contains(v, '{') && !Contains(v, ',') ==> ValueText(v) == " " + v
  {
    ReplaceByItself(v, '{');
    ReplaceByItself(v, '}');
  }

  /** One named parameter: the underlined, type-prefixed name and its value. */
  function ParamText(p: NamedParameter): string {
    "<u>" + TypePrefix(p.paramType) + p.name + ":</u>" + ValueText(p.value)
  }

  function ParamTexts(ps: seq<NamedParameter>): (r: seq<string>)
    ensures |r| == |ps|
    ensures forall i :: 0 <= i < |ps| ==> r[i] == ParamText(ps[i])
  {
    seq(|ps|, i requires 0 <= i < |ps| => ParamText(ps[i]))
  }

  function ParentClause(c: RawCommand): string {
    if c.parent.Some? then " `>>` " + c.parent.value else ""
  }

  function NamedClause(c: RawCommand): string {
    if |c.named| > 0 then " `:` " + Join(ParamTexts(c.named), ", ") else ""
  }

  function ArrayClause(c: RawCommand): string {
    if |c.arrayParams| > 0 then " `=` " + Join(c.arrayParams, ", ") else ""
  }

  function CommentClause(c: RawCommand): string {
    if c.comment.Some? then " `>` " + c.comment.value else ""
  }

  /** The text of a command. */
  function Render(c: RawCommand): (s: string)
    ensures StartsWith(s, "`" + c.tag + "`: " + c.target)
  {
    "`" + c.tag + "`: " + c.target + ParentClause(c) + NamedClause(c) + ArrayClause(c) + CommentClause(c)
  }

  /** The `ToString` loops as written: each item is appended, followed by
      ", " unless it is the last one. They build the same text as the
      separator-joined clauses of `Render`. */
  method RenderByLoop(c: RawCommand) returns (res: string)
    ensures res == Render(c)
  {
    var parent := "";
    if c.parent.Some? {
      parent := " `>>` " + c.parent.value;
    }
    var named := "";
    if |c.named| > 0 {
      var joined := AppendAll(ParamTexts(c.named));
      named := " `:` " + joined;
    }
    var listed := "";
    if |c.arrayParams| > 0 {
      var joined := AppendAll(c.arrayParams);
      listed := " `=` " + joined;
    }
    var comment := "";
    if c.comment.Some? {
      comment := " `>` " + c.comment.value;
    }
    res := "`" + c.tag + "`: " + c.target + parent + named + listed + comment;
  }

  /** One `for` loop of `ToString`: the items, with ", " after every item
      but the last. */
  method AppendAll(items: seq<string>) returns (res: string)
    ensures res == Join(items, ", ")
  {
    res := "";
    var i := 0;
    while i < |items|
      invariant 0 <= i <= |items|
      invariant i > 0 && i < |items| ==> res == Join(items[..i], ", ") + ", "
      invariant i == 0 || i == |items| ==> res == Join(items[..i], ", ")
    {
      if i > 0 {
        assert items[..i + 1] == items[..i] + [items[i]];
        JoinSnoc(items[..i], items[i], ", ");
      } else {
        assert items[..1] == [items[0]];
      }
      res := res + items[i];
      if i != |items| - 1 {
        res := res + ", ";
      }
      i := i + 1;
    }
    assert items[..|items|] == items;
  }

  /** No separator is left after the last item. */
  lemma {:induction false} JoinEndsWithLast(items: seq<string>, sep: string)
    requires |items| >= 1
    ensures |Join(items, sep)| >= |items[|items| - 1]|
    ensures var j := Join(items, sep); j[|j| - |items[|items| - 1]|..] == items[|items| - 1]
    decreases |items|
  {
    if |items| > 1 {
      JoinEndsWithLast(items[1..], sep);
      var rest := Join(items[1..], sep);
      assert Join(items, sep) == items[0] + sep + rest;
    }
  }
}
