/** The error tree one validation returns, and the two emptiness notions used
    on it: the one OrSchema applies to an alternative's result, and "no
    message anywhere". */
module Errors {
  import opened Values

  /** `nil` (no violation), a message `String`, an `Array` with one entry per
      data element, or a `Hash` with one entry per field. */
  datatype Err =
    | Clean
    | Msg(text: string)
    | ESeq(elems: seq<Err>)
    | ERec(fields: seq<(Key, Err)>)

  /** A node with children: an array or a hash of errors. */
  predicate IsNode(e: Err)
  {
    e.ESeq? || e.ERec?
  }

  /** Number of children of a node. */
  function Arity(e: Err): nat
    requires IsNode(e)
  {
    if e.ESeq? then |e.elems| else |e.fields|
  }

  /** The tree holds no message at any depth. */
  predicate NoMessages(e: Err)
    decreases e
  {
    match e
    case Clean => true
    case Msg(_) => false
    case ESeq(es) => forall i :: 0 <= i < |es| ==> NoMessages(es[i])
    case ERec(fs) => forall i :: 0 <= i < |fs| ==> NoMessages(fs[i].1)
  }

  /** The message texts of the tree in pre-order: children left to right,
      fields in declaration order. */
  function Messages(e: Err): seq<string>
    decreases e, 1
  {
    match e
    case Clean => []
    case Msg(m) => [m]
    case ESeq(_) => ChildMessages(e, 0)
    case ERec(_) => ChildMessages(e, 0)
  }

  /** The messages of the children `i..` of a node, in order. */
  function ChildMessages(parent: Err, i: nat): seq<string>
    requires IsNode(parent) && i <= Arity(parent)
    decreases parent, 0, Arity(parent) - i
  {
    if i == Arity(parent) then []
    else if parent.ESeq? then Messages(parent.elems[i]) + ChildMessages(parent, i + 1)
    else Messages(parent.fields[i].1) + ChildMessages(parent, i + 1)
  }

  /** Whether `v` leaves nothing behind in
      `recursive_flat_hash_values(...).flatten.compact`. Under a hash, a nested
      hash is flattened recursively and an array is flattened by `flatten`;
      under such an array, `flatten` recurses into arrays but keeps every
      hash, even `{}`, as a non-nil element. */
  predicate FlattensToNil(v: Err, underArray: bool)
    decreases v
  {
    match v
    case Clean => true
    case Msg(_) => false
    case ESeq(es) => forall i :: 0 <= i < |es| ==> FlattensToNil(es[i], true)
    case ERec(fs) => !underArray && forall i :: 0 <= i < |fs| ==> FlattensToNil(fs[i].1, false)
  }

  /** The elements `recursive_flat_hash_values(v)` contributes once the
      caller has applied `flatten.compact`, in order: messages, and hashes
      met inside an array (which `flatten` does not open). `nil` entries are
      dropped. */
  function Leaves(v: Err, underArray: bool): seq<Err>
    decreases v, 1
  {
    match v
    case Clean => []
    case Msg(_) => [v]
    case ESeq(_) => ChildLeaves(v, 0)
    case ERec(_) => if underArray then [v] else ChildLeaves(v, 0)
  }

  /** The leaves of the children `i..` of a node: array entries are under an
      array, hash values are not. */
  function ChildLeaves(parent: Err, i: nat): seq<Err>
    requires IsNode(parent) && i <= Arity(parent)
    decreases parent, 0, Arity(parent) - i
  {
    if i == Arity(parent) then []
    else if parent.ESeq? then Leaves(parent.elems[i], true) + ChildLeaves(parent, i + 1)
    else Leaves(parent.fields[i].1, false) + ChildLeaves(parent, i + 1)
  }

  /** `OrSchema#recursive_empty_error?`: `nil` is empty, a message is not, an
      array is empty when every top-level entry is `nil` (`compact.empty?`),
      a hash when its recursively flattened values are all `nil`. */
  predicate IsEmptyError(e: Err)
  {
    match e
    case Clean => true
    case Msg(_) => false
    case ESeq(es) => forall i :: 0 <= i < |es| ==> es[i] == Clean
    case ERec(_) => FlattensToNil(e, false)
  }
}
