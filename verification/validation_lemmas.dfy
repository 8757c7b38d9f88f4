/** Properties of `validate`, variant by variant: the type tests of the
    primitives, Optional's delegation, Enum membership, the shape of Array
    and Hash results, and Or's choice among its alternatives. */
module ValidationLemmas {
  import opened Text
  import opened Values
  import opened Errors
  import opened Schemas

  predicate IsPrimitive(s: Schema)
  {
    s.StringSchema? || s.NumberSchema? || s.BooleanSchema?
  }

  /** The Ruby runtime type each primitive accepts: `String`, `Numeric`,
      `TrueClass`/`FalseClass`. */
  predicate HasPrimitiveType(s: Schema, data: Value)
  {
    (s.StringSchema? && data.Str?) || (s.NumberSchema? && data.Num?) || (s.BooleanSchema? && data.Bool?)
  }

  /** The fixed name each primitive reports in its messages. */
  function PrimitiveLabel(s: Schema): string
    requires IsPrimitive(s)
  {
    if s.StringSchema? then "String" else if s.NumberSchema? then "Number" else "Boolean"
  }

  /** A primitive accepts exactly the data of its type; anything else, the
      absent-key marker included, gets "Expected <label> but got <inspect>". */
  lemma PrimitiveValidation(s: Schema, data: Value)
    requires IsPrimitive(s)
    ensures Validate(s, data) == Clean <==> HasPrimitiveType(s, data)
    ensures !HasPrimitiveType(s, data) ==>
      Validate(s, data) == Msg("Expected " + PrimitiveLabel(s) + " but got " + Inspect(data))
    ensures Validate(s, Void) == Msg("Expected " + PrimitiveLabel(s) + " but got Nothing")
  {
    var name := PrimitiveLabel(s);
    assert Expectation(s) == name;
    assert Validate(s, data) == (if HasPrimitiveType(s, data) then Clean else Msg(Expect(name, data)));
    assert Validate(s, Void) == Msg(Expect(name, Void));
    assert Inspect(Void) == "Nothing";
    assert "Expected " + name + " but got " + "Nothing" == "Expected " + name + " but got Nothing";
  }

  /** Optional accepts the absent-key marker; otherwise it delegates to its
      schema, or compares with its literal. */
  lemma OptionalValidation(f: Field, data: Value)
    ensures data == Void ==> Validate(OptionalSchema(f), data) == Clean
    ensures data != Void && f.Sch? ==> Validate(OptionalSchema(f), data) == Validate(f.schema, data)
    ensures data != Void && f.Lit? ==>
      (Validate(OptionalSchema(f), data) == Clean <==> ValueEq(f.literal, data)) &&
      (data == f.literal ==> Validate(OptionalSchema(f), data) == Clean) &&
      (!ValueEq(f.literal, data) ==> Validate(OptionalSchema(f), data) == Msg(Expect(Inspect(f.literal), data)))
  {
  }

  /** `OptionalSchema.new` with no argument accepts exactly `nil` and an
      absent key. */
  lemma BareOptionalValidation(data: Value)
    ensures Validate(BareOptional, data) == Clean <==> data == Nil || data == Void
    ensures data != Nil && data != Void ==> Validate(BareOptional, data) == Msg(Expect("nil", data))
  {
  }

  /** The Inspect renderings of an Enum's values, in order. */
  function ValueRenderings(vs: seq<Value>): (r: seq<string>)
    ensures |r| == |vs|
    ensures forall i :: 0 <= i < |vs| ==> r[i] == Inspect(vs[i])
  {
    if |vs| == 0 then [] else [Inspect(vs[0])] + ValueRenderings(vs[1..])
  }

  /** Enum accepts exactly its members; otherwise the message lists the
      members as "a, b or c". */
  lemma EnumValidation(vs: seq<Value>, data: Value)
    ensures Validate(EnumSchema(vs), data) == Clean <==> Includes(vs, data)
    ensures data in vs ==> Validate(EnumSchema(vs), data) == Clean
    ensures !Includes(vs, data) ==> Validate(EnumSchema(vs), data) == Msg(Expect(JoinOr(ValueRenderings(vs)), data))
  {
    assert seq(|vs|, i requires 0 <= i < |vs| => Inspect(vs[i])) == ValueRenderings(vs);
    if data in vs {
      var i :| 0 <= i < |vs| && vs[i] == data;
      ValueEqRefl(data);
    }
  }

  /** The labels of an Or's alternatives, in order. */
  function AlternativeLabels(alts: seq<Schema>): (r: seq<string>)
    ensures |r| == |alts|
    ensures forall i :: 0 <= i < |alts| ==> r[i] == Expectation(alts[i])
  {
    if |alts| == 0 then [] else [Expectation(alts[0])] + AlternativeLabels(alts[1..])
  }

  /** An Or describes itself by its alternatives' labels as "a, b or c". */
  lemma OrDescription(alts: seq<Schema>)
    ensures Expectation(OrSchema(alts)) == JoinOr(AlternativeLabels(alts))
  {
    var labels := seq(|alts|, i requires 0 <= i < |alts| => Expectation(alts[i]));
    var r := AlternativeLabels(alts);
    forall i | 0 <= i < |alts| ensures labels[i] == r[i] {
    }
    assert labels == r;
  }

  /** Array rejects non-array data with "Expected [<element>]"; on an array it
      returns one entry per item, in order, each the element schema's result
      for that item, clean entries kept. */
  lemma ArrayValidation(element: Schema, data: Value)
    ensures !data.Arr? ==>
      Validate(ArraySchema(element), data) == Msg(Expect("[" + Expectation(element) + "]", data))
    ensures data.Arr? ==>
      var r := Validate(ArraySchema(element), data);
      r.ESeq? && |r.elems| == |data.items| &&
      forall i :: 0 <= i < |data.items| ==> r.elems[i] == Validate(element, data.items[i])
  {
  }

  /** Hash rejects non-hash data with "Expected Hash"; on a hash it returns
      one entry per declared field, in declaration order, each the field
      checked against its looked-up value; only strict mode adds more. */
  lemma HashValidation(fields: seq<(Key, Field)>, strict: bool, data: Value)
    ensures !data.Map? ==> Validate(HashSchema(fields, strict), data) == Msg(Expect("Hash", data))
    ensures data.Map? ==>
      var r := Validate(HashSchema(fields, strict), data);
      r.ERec? && |fields| <= |r.fields| &&
      (forall i :: 0 <= i < |fields| ==>
        r.fields[i] == (fields[i].0, CheckField(fields[i].1, Lookup(data.entries, fields[i].0)))) &&
      (!strict ==> |r.fields| == |fields|)
  {
  }

  /** Strict mode keeps the declared entries unchanged and appends one
      "Unexpected key" entry for each data key that is not a declared key,
      and for no other key: once each and in data order, so that the whole
      result has distinct keys when the data and the declaration do. Keys
      are compared as they are, so a string key `"x"` that satisfied a
      declared `:x` through the fallback lookup is still reported. */
  lemma StrictValidation(fields: seq<(Key, Field)>, data: Value)
    requires data.Map?
    ensures
      var lax := Validate(HashSchema(fields, false), data);
      var r := Validate(HashSchema(fields, true), data);
      r.ERec? && lax.ERec? && |fields| <= |r.fields| && r.fields[..|fields|] == lax.fields &&
      (forall i :: |fields| <= i < |r.fields| ==>
        r.fields[i].1 == Msg(UnexpectedMessage(r.fields[i].0)) &&
        r.fields[i].0 in KeysOf(data.entries) && r.fields[i].0 !in KeysOf(fields)) &&
      (forall k :: k in KeysOf(data.entries) && k !in KeysOf(fields) ==> k in KeysOf(r.fields[|fields|..])) &&
      (Distinct(KeysOf(data.entries)) ==> InOrderOf(KeysOf(r.fields[|fields|..]), KeysOf(data.entries))) &&
      (Distinct(KeysOf(fields)) && Distinct(KeysOf(data.entries)) ==> Distinct(KeysOf(r.fields)))
  {
    var r := Validate(HashSchema(fields, true), data);
    var extra := Unexpected(data.entries, KeysOf(fields));
    assert r.fields[|fields|..] == extra;
    forall i | |fields| <= i < |r.fields|
      ensures r.fields[i] == extra[i - |fields|]
    {
    }
    UnexpectedInDataOrder(data.entries, KeysOf(fields));
    if Distinct(KeysOf(fields)) && Distinct(KeysOf(data.entries)) {
      var n := |fields|;
      assert r.fields == r.fields[..n] + extra;
      KeysOfConcat(r.fields[..n], extra);
      assert KeysOf(r.fields[..n]) == KeysOf(fields);
      DistinctConcat(KeysOf(fields), KeysOf(extra));
    }
  }

  /** A declared field absent from the data under both lookup keys is checked
      against the absent-key marker, so a String field reports
      "Expected String but got Nothing" and a literal field is never clean. */
  lemma MissingField(fields: seq<(Key, Field)>, strict: bool, data: Value, i: nat)
    requires data.Map? && i < |fields|
    requires fields[i].0 !in KeysOf(data.entries) && AsStringKey(fields[i].0) !in KeysOf(data.entries)
    ensures Validate(HashSchema(fields, strict), data).fields[i].1 == CheckField(fields[i].1, Void)
    ensures fields[i].1 == Sch(StringSchema) ==>
      Validate(HashSchema(fields, strict), data).fields[i].1 == Msg("Expected String but got Nothing")
    ensures fields[i].1.Lit? && fields[i].1.literal != Void ==>
      Validate(HashSchema(fields, strict), data).fields[i].1 == Msg(Expect(Inspect(fields[i].1.literal), Void))
  {
    HashValidation(fields, strict, data);
    assert Lookup(data.entries, fields[i].0) == Void;
    if fields[i].1 == Sch(StringSchema) {
      PrimitiveValidation(StringSchema, Void);
      assert "Expected " + "String" == "Expected String";
      assert "Expected String" + " but got Nothing" == "Expected String but got Nothing";
    }
  }

  /** Or returns, unchanged, the result of the first alternative it tries
      whose result is empty. */
  lemma OrReturnsFirstEmpty(alts: seq<Schema>, data: Value, i: nat)
    requires i < |alts| && MatchesDataType(alts[i], data) && IsEmptyError(Validate(alts[i], data))
    requires forall j :: 0 <= j < i && MatchesDataType(alts[j], data) ==> !IsEmptyError(Validate(alts[j], data))
    ensures Validate(OrSchema(alts), data) == Validate(alts[i], data)
  {
    var rs := OrResults(alts, data);
    assert rs[i] == Some(Validate(alts[i], data));
    forall j | 0 <= j < i && rs[j].Some? ensures !IsEmptyError(rs[j].value) {
      assert rs[j] == Some(Validate(alts[j], data));
    }
    assert FirstEmpty(rs, i);
    var scan := OrScan(rs, true, Clean);
    assert scan.0;
    var k :| FirstEmpty(rs, k) && scan.1 == rs[k].value;
    assert k == i;
    assert Validate(OrSchema(alts), data) == scan.1;
  }

  /** When Or tries at least one alternative and every tried one gives a
      non-empty result, Or reports its own expectation, not a sub-error. */
  lemma OrAllFail(alts: seq<Schema>, data: Value)
    requires exists i :: 0 <= i < |alts| && MatchesDataType(alts[i], data)
    requires forall i :: 0 <= i < |alts| && MatchesDataType(alts[i], data) ==> !IsEmptyError(Validate(alts[i], data))
    ensures Validate(OrSchema(alts), data) == Msg(Expect(Expectation(OrSchema(alts)), data))
  {
    var rs := OrResults(alts, data);
    var i :| 0 <= i < |alts| && MatchesDataType(alts[i], data);
    assert rs[i].Some?;
  }

  /** When no alternative is eligible for the data's shape, Or returns a
      clean result rather than a message. */
  lemma OrNoneEligible(alts: seq<Schema>, data: Value)
    requires forall i :: 0 <= i < |alts| ==> !MatchesDataType(alts[i], data)
    ensures Validate(OrSchema(alts), data) == Clean
  {
    var rs := OrResults(alts, data);
    assert NoneTried(rs);
  }

  /** Whatever Or returns is either empty in its own sense or its own
      expectation message. */
  lemma OrResultShape(alts: seq<Schema>, data: Value)
    ensures var r := Validate(OrSchema(alts), data);
      IsEmptyError(r) || r == Msg(Expect(Expectation(OrSchema(alts)), data))
  {
    var rs := OrResults(alts, data);
    var scan := OrScan(rs, true, Clean);
    if scan.0 && SomeEmpty(rs) {
      var k :| FirstEmpty(rs, k) && scan.1 == rs[k].value;
    }
  }

  /** With alternatives [A, B], where A is skipped or rejects and B accepts,
      Or gives exactly B's result. */
  lemma OrShortCircuit(a: Schema, b: Schema, data: Value)
    requires MatchesDataType(a, data) ==> !IsEmptyError(Validate(a, data))
    requires MatchesDataType(b, data) && IsEmptyError(Validate(b, data))
    ensures Validate(OrSchema([a, b]), data) == Validate(b, data)
  {
    OrReturnsFirstEmpty([a, b], data, 1);
  }

  /** An alternative Or skips for the data's shape is never run: swapping it
      for any other skipped alternative with the same description leaves the
      result unchanged. */
  lemma OrSkipsIneligible(alts: seq<Schema>, data: Value, i: nat, other: Schema)
    requires i < |alts| && !MatchesDataType(alts[i], data) && !MatchesDataType(other, data)
    requires Expectation(other) == Expectation(alts[i])
    ensures Validate(OrSchema(alts[i := other]), data) == Validate(OrSchema(alts), data)
  {
    var alts' := alts[i := other];
    assert OrResults(alts', data) == OrResults(alts, data);
    assert seq(|alts'|, j requires 0 <= j < |alts'| => Expectation(alts'[j]))
        == seq(|alts|, j requires 0 <= j < |alts| => Expectation(alts[j]));
  }

  /** Validation of the absent-key marker is always a leaf: no schema answers
      an absent field with an array or a hash of errors. */
  lemma VoidGivesLeaf(s: Schema)
    ensures Validate(s, Void).Clean? || Validate(s, Void).Msg?
  {
  }

  /** The flattened, compacted values of a hash result are empty exactly
      when the result flattens to `nil` everywhere. */
  lemma {:induction false} LeavesEmptyIffFlattensToNil(v: Err, underArray: bool)
    ensures Leaves(v, underArray) == [] <==> FlattensToNil(v, underArray)
    decreases v, 1
  {
    match v
    case Clean =>
    case Msg(_) =>
    case ESeq(_) =>
      ElemLeavesEmpty(v, 0);
    case ERec(_) =>
      if !underArray { FieldLeavesEmpty(v, 0); }
  }

  /** The entries `i..` of an array result leave nothing behind exactly
      when each flattens to `nil` under an array. */
  lemma {:induction false} ElemLeavesEmpty(parent: Err, i: nat)
    requires parent.ESeq? && i <= |parent.elems|
    ensures ChildLeaves(parent, i) == [] <==>
      forall j :: i <= j < |parent.elems| ==> FlattensToNil(parent.elems[j], true)
    decreases parent, 0, |parent.elems| - i
  {
    if i < |parent.elems| {
      ElemLeavesEmpty(parent, i + 1);
      LeavesEmptyIffFlattensToNil(parent.elems[i], true);
      assert ChildLeaves(parent, i) == Leaves(parent.elems[i], true) + ChildLeaves(parent, i + 1);
    }
  }

  /** The values `i..` of a hash result leave nothing behind exactly when
      each flattens to `nil` under a hash. */
  lemma {:induction false} FieldLeavesEmpty(parent: Err, i: nat)
    requires parent.ERec? && i <= |parent.fields|
    ensures ChildLeaves(parent, i) == [] <==>
      forall j :: i <= j < |parent.fields| ==> FlattensToNil(parent.fields[j].1, false)
    decreases parent, 0, |parent.fields| - i
  {
    if i < |parent.fields| {
      FieldLeavesEmpty(parent, i + 1);
      LeavesEmptyIffFlattensToNil(parent.fields[i].1, false);
      assert ChildLeaves(parent, i) == Leaves(parent.fields[i].1, false) + ChildLeaves(parent, i + 1);
    }
  }

  /** Or's test on a hash result is `recursive_flat_hash_values(e).empty?`. */
  lemma HashEmptinessIsFlatValues(fs: seq<(Key, Err)>)
    ensures IsEmptyError(ERec(fs)) <==> Leaves(ERec(fs), false) == []
  {
    LeavesEmptyIffFlattensToNil(ERec(fs), false);
  }

  /** A result that is empty in Or's sense holds no message anywhere. */
  lemma {:induction false} FlattensToNilHasNoMessages(v: Err, underArray: bool)
    requires FlattensToNil(v, underArray)
    ensures NoMessages(v)
    decreases v
  {
    match v
    case Clean =>
    case Msg(_) =>
    case ESeq(es) =>
      forall i | 0 <= i < |es| ensures NoMessages(es[i]) {
        FlattensToNilHasNoMessages(es[i], true);
      }
    case ERec(fs) =>
      forall i | 0 <= i < |fs| ensures NoMessages(fs[i].1) {
        FlattensToNilHasNoMessages(fs[i].1, false);
      }
  }

  /** Or never accepts a result that carries a message. */
  lemma EmptyErrorHasNoMessages(e: Err)
    requires IsEmptyError(e)
    ensures NoMessages(e)
  {
    if e.ERec? {
      FlattensToNilHasNoMessages(e, false);
    }
  }

  /** The converse fails: an array whose only entry is a clean hash `[{}]`,
      and a hash holding such an array, carry no message yet count as
      non-empty for Or. */
  lemma EmptyErrorIsShallow(k: Key)
    ensures NoMessages(ESeq([ERec([])])) && !IsEmptyError(ESeq([ERec([])]))
    ensures NoMessages(ERec([(k, ESeq([ERec([])]))])) && !IsEmptyError(ERec([(k, ESeq([ERec([])]))]))
  {
    assert ESeq([ERec([])]).elems[0] != Clean;
    assert !FlattensToNil(ERec([]), true);
    assert !FlattensToNil(ESeq([ERec([])]), false);
    var rec := ERec([(k, ESeq([ERec([])]))]);
    assert rec.fields[0].1 == ESeq([ERec([])]);
  }

  /** Description of a list of names as Or and Enum build it: the first name,
      then ", " before every further name except the last, which follows
      " or ". */
  lemma JoinOrCons(x: string, names: seq<string>)
    requires |names| > 0
    ensures JoinOr([x] + names) == x + (if |names| == 1 then "" else ", ") + JoinOr(names)
  {
    var all := [x] + names;
    var init := names[..|names| - 1];
    assert all[..|all| - 1] == [x] + init;
    assert all[|all| - 1] == names[|names| - 1];
    if |names| == 1 {
      assert [x] + init == [x];
    } else {
      assert ([x] + init)[1..] == init;
    }
  }

  /** A one-name description renders as `" or X"`. */
  lemma JoinOrSingle(x: string)
    ensures JoinOr([x]) == " or " + x
  {
  }
}
