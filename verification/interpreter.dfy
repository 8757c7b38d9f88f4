/** The error interpreter: flattens an error tree into `" > "`-joined path
    strings, one per message, in pre-order (`Schema#interpret`,
    `interpret_errors` and `format`). */
module Interpreter {
  import opened Text
  import opened Values
  import opened Errors
  import opened Schemas

  /** The name a node sits under: a hash key's text (or `root`), or its
      position under an array. */
  datatype Label = Name(text: string) | Index(position: nat)

  const RootLabel := Name("root")

  const Separator := " > "

  /** `format(error, name)`: `k:{}` for a hash, `k:[]` for an array, `.k` for
      a message; a position `i` is first turned into `#i`, and a message under
      a position renders as the bare `#i`. A `nil` node gets no segment. */
  function Format(e: Err, name: Label): string
  {
    var text := match name
      case Name(t) => t
      case Index(i) => "#" + NatToString(i);
    if name.Index? && e.Msg? then text
    else match e
      case ERec(_) => text + ":{}"
      case ESeq(_) => text + ":[]"
      case Msg(_) => "." + text
      case Clean => ""
  }

  /** `interpret_errors(errors, *prefixes, name)`: `path` holds the segments of
      the enclosing nodes; the node adds its own segment and, at a message,
      emits the joined path followed by the message. */
  function Walk(e: Err, path: seq<string>, name: Label): seq<string>
    decreases e, 1
  {
    match e
    case Clean => []
    case Msg(m) => [Join(path + [Format(e, name), m], Separator)]
    case ESeq(_) => WalkChildren(e, 0, path + [Format(e, name)])
    case ERec(_) => WalkChildren(e, 0, path + [Format(e, name)])
  }

  /** The children `i..` of a node, skipping `nil` ones (`next if val.nil?`):
      array entries under their index, hash entries under their key. */
  function WalkChildren(parent: Err, i: nat, path: seq<string>): seq<string>
    requires IsNode(parent) && i <= Arity(parent)
    decreases parent, 0, Arity(parent) - i
  {
    if i == Arity(parent) then []
    else if parent.ESeq? then
      var child := parent.elems[i];
      (if child == Clean then [] else Walk(child, path, Index(i))) + WalkChildren(parent, i + 1, path)
    else
      var child := parent.fields[i].1;
      (if child == Clean then [] else Walk(child, path, Name(KeyText(parent.fields[i].0))))
        + WalkChildren(parent, i + 1, path)
  }

  /** The interpretation of an error tree, rooted at `root`. */
  function Interpret(e: Err): seq<string>
  {
    Walk(e, [], RootLabel)
  }

  /** `Schema#interpret(data)`: validate, then interpret the result. */
  function InterpretData(s: Schema, data: Value): seq<string>
  {
    Interpret(Validate(s, data))
  }
}
