/** How a child timer's message is derived from its parent's message
    (`CTimer.child`, cleantimer/cleantimer.py:45-56). The indentation depth
    of a message is the number of tab characters it holds. */
module Labels {
  import opened Text

  /** Indentation depth of a timer message: its number of tabs. */
  function Depth(message: string): (depth: nat)
    ensures depth <= |message|
    ensures depth == 0 <==> TAB !in message
  {
    Count(message, TAB)
  }

  /** The message of a child timer: a newline, one tab more than the parent's
      message holds, then the child's own message. */
  function ChildMessage(parent: string, message: string): (derived: string)
    ensures |derived| == Depth(parent) + 2 + |message|
    ensures derived[0] == NEWLINE
    ensures forall i :: 1 <= i < Depth(parent) + 2 ==> derived[i] == TAB
    ensures derived[Depth(parent) + 2..] == message
  {
    [NEWLINE] + Repeat(TAB, Depth(parent) + 1) + message
  }

  /** The child's depth is the parent's depth, plus one, plus whatever tabs
      the child's own message holds. */
  lemma ChildDepth(parent: string, message: string)
    ensures Depth(ChildMessage(parent, message)) == Depth(parent) + 1 + Depth(message)
  {
    var tabs := Repeat(TAB, Depth(parent) + 1);
    var prefix := [NEWLINE] + tabs;
    assert ChildMessage(parent, message) == prefix + message;
    CountConcat(prefix, message, TAB);
    CountConcat([NEWLINE], tabs, TAB);
    CountRepeat(TAB, Depth(parent) + 1, TAB);
    assert Count([NEWLINE], TAB) == 0;
    assert Count(prefix, TAB) == Depth(parent) + 1;
  }

  /** For a message without tabs, each `child` call adds exactly one level. */
  lemma ChildAddsOneLevel(parent: string, message: string)
    requires TAB !in message
    ensures Depth(ChildMessage(parent, message)) == Depth(parent) + 1
  {
    ChildDepth(parent, message);
  }

  /** Two siblings made from the same parent carry the same indentation:
      the part of their messages before their own text is identical, and
      it depends on the parent's message only. */
  lemma SiblingsShareIndent(parent: string, first: string, second: string)
    ensures var k := Depth(parent) + 2;
      ChildMessage(parent, first)[..k] == ChildMessage(parent, second)[..k] &&
      ChildMessage(parent, first) == ChildMessage(parent, first)[..k] + first &&
      ChildMessage(parent, second) == ChildMessage(parent, second)[..k] + second
  {
  }

  /** The message of the timer reached from `root` by one `child` call per
      element of `messages`, in order. */
  function Nested(root: string, messages: seq<string>): (nested: string)
    ensures messages == [] ==> nested == root
    ensures messages != [] ==> |nested| > 0 && nested[0] == NEWLINE
    ensures messages != [] ==> var own := messages[|messages| - 1];
      |own| <= |nested| && nested[|nested| - |own|..] == own
  {
    if messages == [] then root
    else ChildMessage(Nested(root, messages[..|messages| - 1]), messages[|messages| - 1])
  }

  /** From a tab-free root through tab-free messages, the depth of a timer
      equals the number of `child` calls that led to it, and its message is
      a newline, that many tabs, and its own text. */
  lemma {:induction false} NestedDepth(root: string, messages: seq<string>)
    requires TAB !in root
    requires forall i :: 0 <= i < |messages| ==> TAB !in messages[i]
    ensures Depth(Nested(root, messages)) == |messages|
    ensures messages != [] ==>
      Nested(root, messages) == [NEWLINE] + Repeat(TAB, |messages|) + messages[|messages| - 1]
  {
    if messages != [] {
      var init := messages[..|messages| - 1];
      NestedDepth(root, init);
      ChildAddsOneLevel(Nested(root, init), messages[|messages| - 1]);
    }
  }

  /** The child of a tab-free timer starts a new line with one tab. */
  lemma ChildOfTopLevel(root: string, message: string)
    requires TAB !in root
    ensures ChildMessage(root, message) == "\n\t" + message
  {
  }

  /** The grandchild of a tab-free timer, through a tab-free child, has
      two tabs after its newline. */
  lemma GrandchildMessage(root: string, child: string, grandchild: string)
    requires TAB !in root && TAB !in child
    ensures ChildMessage(ChildMessage(root, child), grandchild) == "\n\t\t" + grandchild
  {
    ChildAddsOneLevel(root, child);
    assert Repeat(TAB, 2) == "\t\t";
  }

  /** Counting tabs makes the depth follow tabs written in a message too:
      every tab in a child's own text makes that child's children one level
      deeper than the number of `child` calls. */
  lemma TabInMessageDeepensGrandchild(root: string, child: string, grandchild: string)
    requires TAB !in root
    ensures Depth(ChildMessage(ChildMessage(root, child), grandchild))
         == 2 + Depth(child) + Depth(grandchild)
  {
    ChildDepth(root, child);
    ChildDepth(ChildMessage(root, child), grandchild);
  }
}
