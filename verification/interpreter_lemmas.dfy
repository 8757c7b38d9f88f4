/** What the interpreter's output says about the error tree: one line per
    message, in pre-order, each ending in its message and nested under the
    path of its ancestors, starting at the root segment. */
module InterpreterLemmas {
  import opened Text
  import opened Values
  import opened Errors
  import opened Schemas
  import opened Interpreter

  /** `lines` has one entry per message, in order, each ending in
      `" > " + message`. */
  predicate Tagged(lines: seq<string>, msgs: seq<string>)
  {
    |lines| == |msgs| &&
    forall j :: 0 <= j < |lines| ==> EndsWith(lines[j], Separator + msgs[j])
  }

  lemma TaggedAppend(a: seq<string>, b: seq<string>, c: seq<string>, d: seq<string>)
    requires Tagged(a, b) && Tagged(c, d)
    ensures Tagged(a + c, b + d)
  {
    forall j | 0 <= j < |a + c|
      ensures EndsWith((a + c)[j], Separator + (b + d)[j])
    {
      if j < |a| {
        assert (a + c)[j] == a[j] && (b + d)[j] == b[j];
      } else {
        assert (a + c)[j] == c[j - |a|] && (b + d)[j] == d[j - |b|];
      }
    }
  }

  lemma EndsWithConcat(x: string, y: string)
    ensures EndsWith(x + y, y)
  {
    assert (x + y)[|x + y| - |y|..] == y;
  }

  lemma StartsWithConcat(x: string, y: string)
    ensures StartsWith(x + y, x)
  {
    assert (x + y)[..|x|] == x;
  }

  lemma StartsWithShorter(s: string, x: string, y: string)
    requires StartsWith(s, x + y)
    ensures StartsWith(s, x)
  {
    assert s[..|x|] == (x + y)[..|x|];
  }

  /** A message line: the joined path of the message's ancestors, then its
      own segment, then the message. */
  lemma MessageLine(path: seq<string>, seg: string, m: string)
    ensures Join(path + [seg, m], Separator) ==
      (if |path| == 0 then seg else Join(path, Separator) + Separator + seg) + Separator + m
  {
    assert path + [seg, m] == (path + [seg]) + [m];
    JoinSnoc(path + [seg], m, Separator);
    if |path| == 0 {
      assert path + [seg] == [seg];
    } else {
      JoinSnoc(path, seg, Separator);
    }
  }

  /** The walk emits exactly one line per message of the tree, in pre-order,
      and each line ends with `" > "` and its message. */
  lemma {:induction false} WalkTagsMessages(e: Err, path: seq<string>, name: Label)
    ensures Tagged(Walk(e, path, name), Messages(e))
    decreases e, 1
  {
    match e
    case Clean =>
    case Msg(m) =>
      var seg := Format(e, name);
      MessageLine(path, seg, m);
      var head := if |path| == 0 then seg else Join(path, Separator) + Separator + seg;
      assert head + Separator + m == head + (Separator + m);
      EndsWithConcat(head, Separator + m);
    case ESeq(_) =>
      WalkChildrenTagsMessages(e, 0, path + [Format(e, name)]);
    case ERec(_) =>
      WalkChildrenTagsMessages(e, 0, path + [Format(e, name)]);
  }

  lemma {:induction false} WalkChildrenTagsMessages(parent: Err, i: nat, path: seq<string>)
    requires IsNode(parent) && i <= Arity(parent)
    ensures Tagged(WalkChildren(parent, i, path), ChildMessages(parent, i))
    decreases parent, 0, Arity(parent) - i
  {
    if i < Arity(parent) {
      WalkChildrenTagsMessages(parent, i + 1, path);
      if parent.ESeq? {
        var child := parent.elems[i];
        if child != Clean { WalkTagsMessages(child, path, Index(i)); }
        TaggedAppend(if child == Clean then [] else Walk(child, path, Index(i)), Messages(child),
                     WalkChildren(parent, i + 1, path), ChildMessages(parent, i + 1));
      } else {
        var child := parent.fields[i].1;
        var name := Name(KeyText(parent.fields[i].0));
        if child != Clean { WalkTagsMessages(child, path, name); }
        TaggedAppend(if child == Clean then [] else Walk(child, path, name), Messages(child),
                     WalkChildren(parent, i + 1, path), ChildMessages(parent, i + 1));
      }
    }
  }

  /** Every line the walk emits below a non-empty path starts with that
      path joined by `" > "`, followed by `" > "`. */
  lemma {:induction false} WalkStaysUnderPath(e: Err, path: seq<string>, name: Label)
    requires |path| > 0
    ensures forall s :: s in Walk(e, path, name) ==> StartsWith(s, Join(path, Separator) + Separator)
    decreases e, 1
  {
    var prefix := Join(path, Separator) + Separator;
    var seg := Format(e, name);
    match e
    case Clean =>
    case Msg(m) =>
      MessageLine(path, seg, m);
      assert Join(path + [seg, m], Separator) == prefix + (seg + Separator + m);
      StartsWithConcat(prefix, seg + Separator + m);
    case ESeq(_) =>
      WalkChildrenStayUnderPath(e, 0, path + [seg]);
      JoinSnoc(path, seg, Separator);
      forall s | s in Walk(e, path, name) ensures StartsWith(s, prefix) {
        assert Join(path + [seg], Separator) + Separator == prefix + (seg + Separator);
        StartsWithShorter(s, prefix, seg + Separator);
      }
    case ERec(_) =>
      WalkChildrenStayUnderPath(e, 0, path + [seg]);
      JoinSnoc(path, seg, Separator);
      forall s | s in Walk(e, path, name) ensures StartsWith(s, prefix) {
        assert Join(path + [seg], Separator) + Separator == prefix + (seg + Separator);
        StartsWithShorter(s, prefix, seg + Separator);
      }
  }

  lemma {:induction false} WalkChildrenStayUnderPath(parent: Err, i: nat, path: seq<string>)
    requires IsNode(parent) && i <= Arity(parent) && |path| > 0
    ensures forall s :: s in WalkChildren(parent, i, path) ==> StartsWith(s, Join(path, Separator) + Separator)
    decreases parent, 0, Arity(parent) - i
  {
    if i < Arity(parent) {
      WalkChildrenStayUnderPath(parent, i + 1, path);
      if parent.ESeq? {
        WalkStaysUnderPath(parent.elems[i], path, Index(i));
      } else {
        WalkStaysUnderPath(parent.fields[i].1, path, Name(KeyText(parent.fields[i].0)));
      }
    }
  }

  /** `interpret` emits one line per message in pre-order, each ending in its
      message and starting with the root segment (`root:{}`, `root:[]`, or
      `.root` for a bare message) followed by `" > "`. */
  lemma InterpretLines(e: Err)
    ensures Tagged(Interpret(e), Messages(e))
    ensures forall s :: s in Interpret(e) ==> StartsWith(s, Format(e, RootLabel) + Separator)
  {
    WalkTagsMessages(e, [], RootLabel);
    var seg := Format(e, RootLabel);
    assert Join([seg], Separator) == seg;
    match e
    case Clean =>
    case Msg(m) =>
      MessageLine([], seg, m);
      assert Interpret(e) == [seg + Separator + m];
      assert seg + Separator + m == (seg + Separator) + m;
      StartsWithConcat(seg + Separator, m);
    case ESeq(_) =>
      assert [] + [seg] == [seg];
      WalkChildrenStayUnderPath(e, 0, [seg]);
    case ERec(_) =>
      assert [] + [seg] == [seg];
      WalkChildrenStayUnderPath(e, 0, [seg]);
  }

  /** A tree has no message exactly when its message list is empty. */
  lemma {:induction false} NoMessagesIffNone(e: Err)
    ensures NoMessages(e) <==> Messages(e) == []
    decreases e, 1
  {
    match e
    case Clean =>
    case Msg(_) =>
    case ESeq(es) =>
      ChildrenNoMessagesIffNone(e, 0);
    case ERec(fs) =>
      ChildrenNoMessagesIffNone(e, 0);
  }

  lemma {:induction false} ChildrenNoMessagesIffNone(parent: Err, i: nat)
    requires IsNode(parent) && i <= Arity(parent)
    ensures parent.ESeq? ==>
      ((forall j :: i <= j < |parent.elems| ==> NoMessages(parent.elems[j])) <==> ChildMessages(parent, i) == [])
    ensures parent.ERec? ==>
      ((forall j :: i <= j < |parent.fields| ==> NoMessages(parent.fields[j].1)) <==> ChildMessages(parent, i) == [])
    decreases parent, 0, Arity(parent) - i
  {
    if i < Arity(parent) {
      ChildrenNoMessagesIffNone(parent, i + 1);
      if parent.ESeq? {
        NoMessagesIffNone(parent.elems[i]);
      } else {
        NoMessagesIffNone(parent.fields[i].1);
      }
    }
  }

  /** The interpretation is empty exactly when the tree holds no message;
      in particular `interpret` of data a schema accepts is `[]`. */
  lemma InterpretEmptyIffNoMessages(s: Schema, data: Value)
    ensures InterpretData(s, data) == [] <==> NoMessages(Validate(s, data))
  {
    var e := Validate(s, data);
    InterpretLines(e);
    NoMessagesIffNone(e);
  }
}
