/** The bracket check of `validate_syntax`, against the grammar of balanced brackets. */
module Brackets {
  import opened Sequences

  predicate Opener(c: char) { c == '(' || c == '[' || c == '{' }
  predicate Closer(c: char) { c == ')' || c == ']' || c == '}' }

  function PairOf(closer: char): char { if closer == ')' then '(' else if closer == ']' then '[' else '{' }
  function CloserOf(opener: char): char { if opener == '(' then ')' else if opener == '[' then ']' else '}' }

  /** The text's six bracket characters, in order. */
  function Projection(text: string): string {
    if text == "" then ""
    else (if Opener(text[0]) || Closer(text[0]) then [text[0]] else "") + Projection(text[1..])
  }

  // ---- The grammar: B ::= empty | ( B ) B | [ B ] B | { B } B -------------------------------

  datatype Tree = Empty | Group(opener: char, inside: Tree, after: Tree)

  ghost predicate Grammatical(t: Tree) {
    t.Group? ==> Opener(t.opener) && Grammatical(t.inside) && Grammatical(t.after)
  }

  function Spelled(t: Tree): string {
    match t
    case Empty => ""
    case Group(o, inside, after) => [o] + (Spelled(inside) + ([CloserOf(o)] + Spelled(after)))
  }

  ghost predicate Balanced(brackets: string) { exists t :: Grammatical(t) && Spelled(t) == brackets }

  // ---- The stack ------------------------------------------------------------------------------

  datatype Outcome = Stack(stack: string) | Mismatch

  function Run(stack: string, text: string): Outcome
    decreases |text|
  {
    if text == "" then Stack(stack)
    else if Opener(text[0]) then Run(stack + [text[0]], text[1..])
    else if Closer(text[0]) then
      if stack == "" || stack[|stack| - 1] != PairOf(text[0]) then Mismatch else Run(stack[..|stack| - 1], text[1..])
    else Run(stack, text[1..])
  }

  lemma {:induction false} RunProjection(stack: string, text: string)
    ensures Run(stack, Projection(text)) == Run(stack, text)
    decreases |text|
  {
    if text != "" {
      var rest := Projection(text[1..]);
      if Opener(text[0]) || Closer(text[0]) { assert Projection(text)[1..] == rest; }
      if Opener(text[0]) {
        RunProjection(stack + [text[0]], text[1..]);
      } else if Closer(text[0]) {
        if stack != "" { RunProjection(stack[..|stack| - 1], text[1..]); }
      } else {
        assert Projection(text) == rest;
        RunProjection(stack, text[1..]);
      }
    }
  }

  lemma RunOpen(stack: string, o: char, rest: string)
    requires Opener(o)
    ensures Run(stack, [o] + rest) == Run(stack + [o], rest)
  {
    assert ([o] + rest)[1..] == rest;
  }

  lemma RunClose(stack: string, o: char, rest: string)
    requires Opener(o)
    ensures Run(stack + [o], [CloserOf(o)] + rest) == Run(stack, rest)
  {
    assert ([CloserOf(o)] + rest)[1..] == rest && (stack + [o])[..|stack|] == stack;
  }

  // What follows a group may as well follow its last part.
  lemma SpelledThen(o: char, inside: Tree, after: Tree, rest: string)
    ensures Spelled(Group(o, inside, after)) + rest ==
            [o] + (Spelled(inside) + ([CloserOf(o)] + (Spelled(after) + rest)))
  {
    var i, a, c := Spelled(inside), Spelled(after), [CloserOf(o)];
    assert Spelled(Group(o, inside, after)) == [o] + (i + (c + a));
    hide Spelled;
    Regroup([o], i + (c + a), rest);
    Regroup(i, c + a, rest);
    Regroup(c, a, rest);
  }

  /** A spelled tree leaves the stack as it was. */
  lemma {:induction false} RunSpelled(stack: string, t: Tree, rest: string)
    requires Grammatical(t)
    ensures Run(stack, Spelled(t) + rest) == Run(stack, rest)
    decreases t
  {
    if t.Empty? {
      assert Spelled(t) + rest == rest;
    } else {
      hide Run, Spelled;
      var o := t.opener;
      var tail := Spelled(t.after) + rest;
      SpelledThen(o, t.inside, t.after, rest);
      RunOpen(stack, o, Spelled(t.inside) + ([CloserOf(o)] + tail));
      RunSpelled(stack + [o], t.inside, [CloserOf(o)] + tail);
      RunClose(stack, o, tail);
      RunSpelled(stack, t.after, rest);
    }
  }

  // What closes a stack: a tree, the closer of the top, and so on down.
  function Closing(stack: string, trees: seq<Tree>): string
    requires |trees| == |stack| + 1
    decreases |stack|
  {
    if stack == "" then Spelled(trees[0])
    else Spelled(trees[0]) + ([CloserOf(stack[|stack| - 1])] + Closing(stack[..|stack| - 1], trees[1..]))
  }

  ghost predicate AllGrammatical(trees: seq<Tree>) { forall t :: t in trees ==> Grammatical(t) }

  /** What empties a stack of openers is a sequence of trees closing it. */
  lemma {:induction false} Parse(stack: string, text: string) returns (trees: seq<Tree>)
    requires Run(stack, text) == Stack("") && (forall c :: c in stack ==> Opener(c))
    requires forall c :: c in text ==> Opener(c) || Closer(c)
    ensures |trees| == |stack| + 1 && AllGrammatical(trees) && Closing(stack, trees) == text
    decreases |text|
  {
    if text == "" {
      trees := [Empty];
    } else if Opener(text[0]) {
      var deeper := stack + [text[0]];
      var inner := Parse(deeper, text[1..]);
      assert deeper[..|deeper| - 1] == stack;
      assert inner[0] in inner && inner[1] in inner;
      var first := Group(text[0], inner[0], inner[1]);
      trees := [first] + inner[2..];
      OpenClosing(stack, text[0], inner);
      assert text == [text[0]] + text[1..];
    } else {
      var lower := stack[..|stack| - 1];
      var outer := Parse(lower, text[1..]);
      trees := [Empty] + outer;
      assert trees[1..] == outer;
      assert text == [text[0]] + text[1..];
    }
  }

  lemma ClosingTop(stack: string, o: char, trees: seq<Tree>)
    requires |trees| == |stack| + 2
    ensures Closing(stack + [o], trees) == Spelled(trees[0]) + ([CloserOf(o)] + Closing(stack, trees[1..]))
  {
    hide Spelled;
    assert (stack + [o])[..|stack|] == stack;
  }

  function Below(stack: string, trees: seq<Tree>): string
    requires |trees| == |stack|
  {
    if stack == "" then "" else [CloserOf(stack[|stack| - 1])] + Closing(stack[..|stack| - 1], trees)
  }

  lemma ClosingParts(stack: string, first: Tree, rest: seq<Tree>)
    requires |rest| == |stack|
    ensures Closing(stack, [first] + rest) == Spelled(first) + Below(stack, rest)
  {
    hide Spelled;
    assert ([first] + rest)[1..] == rest;
    if stack == "" { assert Spelled(first) + "" == Spelled(first); }
  }

  lemma OpenClosing(stack: string, o: char, inner: seq<Tree>)
    requires |inner| == |stack| + 2
    ensures [o] + Closing(stack + [o], inner) == Closing(stack, [Group(o, inner[0], inner[1])] + inner[2..])
  {
    hide Spelled, Closing, Below;
    ClosingTop(stack, o, inner);
    assert inner[1..] == [inner[1]] + inner[2..];
    ClosingParts(stack, inner[1], inner[2..]);
    ClosingParts(stack, Group(o, inner[0], inner[1]), inner[2..]);
    SpelledThen(o, inner[0], inner[1], Below(stack, inner[2..]));
  }

  lemma {:induction false} ProjectionBrackets(text: string)
    ensures forall c :: c in Projection(text) ==> Opener(c) || Closer(c)
    decreases |text|
  {
    if text != "" { ProjectionBrackets(text[1..]); }
  }

  /** The stack ends empty exactly when the brackets of the text are balanced. */
  lemma AcceptsBalanced(text: string)
    ensures Run("", text) == Stack("") <==> Balanced(Projection(text))
  {
    RunProjection("", text);
    ProjectionBrackets(text);
    if Run("", text) == Stack("") {
      var trees := Parse("", Projection(text));
      assert trees[0] in trees;
      assert Grammatical(trees[0]) && Spelled(trees[0]) == Projection(text);
    }
    if Balanced(Projection(text)) {
      var t :| Grammatical(t) && Spelled(t) == Projection(text);
      RunSpelled("", t, "");
      assert Spelled(t) + "" == Projection(text);
    }
  }

  /** The loop of `validate_syntax` over a text already stripped of comments and strings. */
  method BracketsMatch(stripped: string) returns (ok: bool)
    ensures ok <==> Balanced(Projection(stripped))
  {
    AcceptsBalanced(stripped);
    var stack: string := "";
    var i := 0;
    assert stripped[0..] == stripped;
    while i < |stripped|
      invariant 0 <= i <= |stripped| && Run(stack, stripped[i..]) == Run("", stripped)
    {
      var c := stripped[i];
      assert stripped[i..][0] == c && stripped[i..][1..] == stripped[i + 1..];
      if Opener(c) {
        stack := stack + [c];
      } else if Closer(c) {
        if stack == "" || stack[|stack| - 1] != PairOf(c) { return false; }
        stack := stack[..|stack| - 1];
      }
      i := i + 1;
    }
    assert stripped[i..] == "";
    return stack == "";
  }
}
