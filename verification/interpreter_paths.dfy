/** A reference description of `interpret`, independent of the walk that
    computes it: the chains of nodes from the root down to each message, in
    pre-order, and how one chain renders as a line. */
module InterpreterPaths {
  import opened Text
  import opened Values
  import opened Errors
  import opened Interpreter

  /** One node on the way to a message, with the name it sits under. */
  datatype Step = Step(node: Err, name: Label)

  /** A chain of steps and the message it ends in. */
  type MessagePath = (seq<Step>, string)

  /** `s` is a child of `parent`: the entry at its position in an array of
      errors, or the value under a key of a hash of errors, named by that
      key's text. */
  predicate ChildOf(parent: Err, s: Step)
  {
    (parent.ESeq? && s.name.Index? && s.name.position < |parent.elems| &&
      parent.elems[s.name.position] == s.node) ||
    (parent.ERec? &&
      (exists i :: 0 <= i < |parent.fields| &&
        parent.fields[i].1 == s.node && s.name == Name(KeyText(parent.fields[i].0))))
  }

  /** A chain from some node down to the message `m`: each step a child of
      the one before, no step a `nil`, the last one the message itself. */
  predicate Chain(steps: seq<Step>, m: string)
  {
    |steps| > 0 && steps[|steps| - 1].node == Msg(m) &&
    (forall k :: 0 <= k < |steps| ==> steps[k].node != Clean) &&
    forall k :: 0 <= k < |steps| - 1 ==> ChildOf(steps[k].node, steps[k + 1])
  }

  /** Every path prefixed with one more step. */
  function Under(s: Step, ps: seq<MessagePath>): seq<MessagePath>
  {
    seq(|ps|, j requires 0 <= j < |ps| => ([s] + ps[j].0, ps[j].1))
  }

  /** The paths from `e`, sitting under `name`, to each of its messages, in
      pre-order. */
  function MessagePaths(e: Err, name: Label): seq<MessagePath>
    decreases e, 1
  {
    match e
    case Clean => []
    case Msg(m) => [([Step(e, name)], m)]
    case ESeq(_) => Under(Step(e, name), ChildPaths(e, 0))
    case ERec(_) => Under(Step(e, name), ChildPaths(e, 0))
  }

  /** The paths from the children `i..` of a node, in order. */
  function ChildPaths(parent: Err, i: nat): seq<MessagePath>
    requires IsNode(parent) && i <= Arity(parent)
    decreases parent, 0, Arity(parent) - i
  {
    if i == Arity(parent) then []
    else if parent.ESeq? then MessagePaths(parent.elems[i], Index(i)) + ChildPaths(parent, i + 1)
    else MessagePaths(parent.fields[i].1, Name(KeyText(parent.fields[i].0))) + ChildPaths(parent, i + 1)
  }

  /** The segments `format` gives the steps of a chain. */
  function Segments(steps: seq<Step>): seq<string>
  {
    seq(|steps|, k requires 0 <= k < |steps| => Format(steps[k].node, steps[k].name))
  }

  /** The line for one path below the segments `prefix`: all segments, then
      the message, joined by `" > "`. */
  function Render(prefix: seq<string>, p: MessagePath): string
  {
    Join(prefix + Segments(p.0) + [p.1], Separator)
  }

  function RenderAll(prefix: seq<string>, ps: seq<MessagePath>): seq<string>
  {
    seq(|ps|, j requires 0 <= j < |ps| => Render(prefix, ps[j]))
  }

  /** The message texts the paths end in. */
  function Texts(ps: seq<MessagePath>): seq<string>
  {
    seq(|ps|, j requires 0 <= j < |ps| => ps[j].1)
  }

  lemma RenderAllConcat(prefix: seq<string>, a: seq<MessagePath>, b: seq<MessagePath>)
    ensures RenderAll(prefix, a + b) == RenderAll(prefix, a) + RenderAll(prefix, b)
  {
  }

  lemma TextsConcat(a: seq<MessagePath>, b: seq<MessagePath>)
    ensures Texts(a + b) == Texts(a) + Texts(b)
  {
  }

  /** Prefixing every path with a step is rendering below that step's
      segment. */
  lemma RenderUnder(prefix: seq<string>, s: Step, ps: seq<MessagePath>)
    ensures RenderAll(prefix, Under(s, ps)) == RenderAll(prefix + [Format(s.node, s.name)], ps)
  {
    var seg := Format(s.node, s.name);
    forall j | 0 <= j < |ps|
      ensures Render(prefix, Under(s, ps)[j]) == Render(prefix + [seg], ps[j])
    {
      assert Segments([s] + ps[j].0) == [seg] + Segments(ps[j].0);
      assert prefix + ([seg] + Segments(ps[j].0)) + [ps[j].1] == (prefix + [seg]) + Segments(ps[j].0) + [ps[j].1];
    }
  }

  /** The walk emits exactly the rendering of the message paths, in order. */
  lemma {:induction false} WalkRendersPaths(e: Err, path: seq<string>, name: Label)
    ensures Walk(e, path, name) == RenderAll(path, MessagePaths(e, name))
    decreases e, 1
  {
    match e
    case Clean =>
    case Msg(m) =>
      assert Segments([Step(e, name)]) == [Format(e, name)];
      assert path + [Format(e, name)] + [m] == path + [Format(e, name), m];
    case ESeq(_) =>
      ChildWalkRendersPaths(e, 0, path + [Format(e, name)]);
      RenderUnder(path, Step(e, name), ChildPaths(e, 0));
    case ERec(_) =>
      ChildWalkRendersPaths(e, 0, path + [Format(e, name)]);
      RenderUnder(path, Step(e, name), ChildPaths(e, 0));
  }

  lemma {:induction false} ChildWalkRendersPaths(parent: Err, i: nat, path: seq<string>)
    requires IsNode(parent) && i <= Arity(parent)
    ensures WalkChildren(parent, i, path) == RenderAll(path, ChildPaths(parent, i))
    decreases parent, 0, Arity(parent) - i
  {
    if i < Arity(parent) {
      ChildWalkRendersPaths(parent, i + 1, path);
      if parent.ESeq? {
        WalkRendersPaths(parent.elems[i], path, Index(i));
        RenderAllConcat(path, MessagePaths(parent.elems[i], Index(i)), ChildPaths(parent, i + 1));
      } else {
        var name := Name(KeyText(parent.fields[i].0));
        WalkRendersPaths(parent.fields[i].1, path, name);
        RenderAllConcat(path, MessagePaths(parent.fields[i].1, name), ChildPaths(parent, i + 1));
      }
    }
  }

  /** A chain below a step whose node is a non-`nil` parent of its first
      step is a chain again. */
  lemma ChainUnder(s: Step, steps: seq<Step>, m: string)
    requires Chain(steps, m) && s.node != Clean && ChildOf(s.node, steps[0])
    ensures Chain([s] + steps, m)
  {
    var c := [s] + steps;
    forall k | 0 <= k < |c| - 1 ensures ChildOf(c[k].node, c[k + 1]) {
      if k > 0 {
        assert c[k] == steps[k - 1] && c[k + 1] == steps[k];
      }
    }
  }

  /** The paths of a tree are chains starting at its root, and their
      messages are the tree's messages in pre-order. */
  lemma {:induction false} PathsAreChains(e: Err, name: Label)
    ensures Texts(MessagePaths(e, name)) == Messages(e)
    ensures forall j :: 0 <= j < |MessagePaths(e, name)| ==>
      Chain(MessagePaths(e, name)[j].0, MessagePaths(e, name)[j].1) &&
      MessagePaths(e, name)[j].0[0] == Step(e, name)
    decreases e, 1
  {
    match e
    case Clean =>
    case Msg(m) =>
    case ESeq(_) =>
      ChildPathsAreChains(e, 0);
      UnderChains(Step(e, name), ChildPaths(e, 0));
    case ERec(_) =>
      ChildPathsAreChains(e, 0);
      UnderChains(Step(e, name), ChildPaths(e, 0));
  }

  lemma UnderChains(s: Step, ps: seq<MessagePath>)
    requires s.node != Clean
    requires forall j :: 0 <= j < |ps| ==> Chain(ps[j].0, ps[j].1) && ChildOf(s.node, ps[j].0[0])
    ensures Texts(Under(s, ps)) == Texts(ps)
    ensures forall j :: 0 <= j < |Under(s, ps)| ==>
      Chain(Under(s, ps)[j].0, Under(s, ps)[j].1) && Under(s, ps)[j].0[0] == s
  {
    forall j | 0 <= j < |ps| ensures Chain(Under(s, ps)[j].0, Under(s, ps)[j].1) {
      ChainUnder(s, ps[j].0, ps[j].1);
    }
  }

  lemma {:induction false} ChildPathsAreChains(parent: Err, i: nat)
    requires IsNode(parent) && i <= Arity(parent)
    ensures Texts(ChildPaths(parent, i)) == ChildMessages(parent, i)
    ensures forall j :: 0 <= j < |ChildPaths(parent, i)| ==>
      Chain(ChildPaths(parent, i)[j].0, ChildPaths(parent, i)[j].1) &&
      ChildOf(parent, ChildPaths(parent, i)[j].0[0])
    decreases parent, 0, Arity(parent) - i
  {
    if i < Arity(parent) {
      ChildPathsAreChains(parent, i + 1);
      var rest := ChildPaths(parent, i + 1);
      var child := if parent.ESeq? then parent.elems[i] else parent.fields[i].1;
      var name := if parent.ESeq? then Index(i) else Name(KeyText(parent.fields[i].0));
      var own := MessagePaths(child, name);
      PathsAreChains(child, name);
      assert ChildPaths(parent, i) == own + rest;
      TextsConcat(own, rest);
      assert ChildOf(parent, Step(child, name)) by {
        if parent.ERec? {
          assert parent.fields[i].1 == child;
        }
      }
      forall j | 0 <= j < |own + rest|
        ensures Chain((own + rest)[j].0, (own + rest)[j].1) && ChildOf(parent, (own + rest)[j].0[0])
      {
        if j < |own| {
          assert (own + rest)[j] == own[j];
        } else {
          assert (own + rest)[j] == rest[j - |own|];
        }
      }
    }
  }

  /** `interpret` emits, for each message of the tree in pre-order, the
      segments of the chain of nodes from the root down to that message,
      then the message, joined by `" > "`; the chains are genuine
      parent-to-child descents through non-`nil` nodes, starting at the
      root under `root`. */
  lemma InterpretRendersPaths(e: Err)
    ensures |Interpret(e)| == |MessagePaths(e, RootLabel)|
    ensures forall j :: 0 <= j < |Interpret(e)| ==>
      Interpret(e)[j] == Join(Segments(MessagePaths(e, RootLabel)[j].0) + [MessagePaths(e, RootLabel)[j].1], Separator)
    ensures Texts(MessagePaths(e, RootLabel)) == Messages(e)
    ensures forall j :: 0 <= j < |MessagePaths(e, RootLabel)| ==>
      Chain(MessagePaths(e, RootLabel)[j].0, MessagePaths(e, RootLabel)[j].1) &&
      MessagePaths(e, RootLabel)[j].0[0] == Step(e, RootLabel)
  {
    var ps := MessagePaths(e, RootLabel);
    WalkRendersPaths(e, [], RootLabel);
    PathsAreChains(e, RootLabel);
    forall j | 0 <= j < |ps|
      ensures Render([], ps[j]) == Join(Segments(ps[j].0) + [ps[j].1], Separator)
    {
      assert [] + Segments(ps[j].0) + [ps[j].1] == Segments(ps[j].0) + [ps[j].1];
    }
  }
}
