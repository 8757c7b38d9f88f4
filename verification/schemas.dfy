/** The schema variants and the recursive validation that walks a schema and
    a data value in lockstep (lib/hash_schema.rb). */
module Schemas {
  import opened Text
  import opened Values
  import opened Errors

  /** A declared hash field or an Optional argument: a nested schema, or a
      plain value compared with `==`. */
  datatype Field = Sch(schema: Schema) | Lit(literal: Value)

  datatype Schema =
    | StringSchema
    | NumberSchema
    | BooleanSchema
      /** `OptionalSchema.new(x)`; `OptionalSchema.new` is `Lit(Nil)`. */
    | OptionalSchema(chain: Field)
    | EnumSchema(values: seq<Value>)
    | ArraySchema(element: Schema)
      /** Declared fields in declaration order, and the strict flag. */
    | HashSchema(fields: seq<(Key, Field)>, strict: bool)
    | OrSchema(alternatives: seq<Schema>)

  /** `OptionalSchema.new` with no argument: its chain is `nil`. */
  const BareOptional := OptionalSchema(Lit(Nil))

  /** Description joined the way `expectation` does for Or and Enum:
      `*names, name = ...; names.join(', ') << " or #{name}"`. With one name
      the result is `" or X"`; with none, `name` is nil and the result is `" or "`. */
  function JoinOr(names: seq<string>): string
  {
    if |names| == 0 then " or "
    else Join(names[..|names| - 1], ", ") + " or " + names[|names| - 1]
  }

  /** `expectation`: the label naming what a schema accepts. */
  function Expectation(s: Schema): string
  {
    match s
    case StringSchema => "String"
    case NumberSchema => "Number"
    case BooleanSchema => "Boolean"
    case OptionalSchema(_) => "Optional"
    case EnumSchema(vs) => JoinOr(seq(|vs|, i requires 0 <= i < |vs| => Inspect(vs[i])))
    case ArraySchema(e) => "[" + Expectation(e) + "]"
    case HashSchema(_, _) => "Hash"
    case OrSchema(alts) => JoinOr(seq(|alts|, i requires 0 <= i < |alts| => Expectation(alts[i])))
  }

  /** `expect(wanted, unwanted)`. */
  function Expect(wanted: string, got: Value): string
  {
    "Expected " + wanted + " but got " + Inspect(got)
  }

  /** `literal == data ? nil : expect(literal.inspect, data)`, with Ruby's
      `==`: a hash literal matches a hash with the same pairs in any order. */
  function LiteralCheck(literal: Value, data: Value): (r: Err)
    ensures r == Clean <==> ValueEq(literal, data)
    ensures data == literal ==> r == Clean
    ensures r != Clean ==> r == Msg(Expect(Inspect(literal), data))
  {
    ValueEqRefl(literal);
    if ValueEq(literal, data) then Clean else Msg(Expect(Inspect(literal), data))
  }

  /** `OrSchema#schema_matches_data_type`: an Array alternative is tried only
      on arrays, a Hash alternative only on hashes, any other always. */
  predicate MatchesDataType(s: Schema, data: Value)
  {
    match s
    case ArraySchema(_) => data.Arr?
    case HashSchema(_, _) => data.Map?
    case _ => true
  }

  /** `HashSchema#unexpected`. */
  function UnexpectedMessage(k: Key): string
  {
    "Unexpected key: " + Quote(KeyText(k))
  }

  /** `(hash.keys - chain.keys).map { |k| [k, unexpected(k)] }`, in data order. */
  function Unexpected(entries: seq<(Key, Value)>, declared: seq<Key>): (r: seq<(Key, Err)>)
    ensures forall i :: 0 <= i < |r| ==>
      r[i].1 == Msg(UnexpectedMessage(r[i].0)) && r[i].0 in KeysOf(entries) && r[i].0 !in declared
    ensures forall k :: k in KeysOf(entries) && k !in declared ==> k in KeysOf(r)
  {
    if |entries| == 0 then []
    else
      var head := if entries[0].0 in declared then [] else [(entries[0].0, Msg(UnexpectedMessage(entries[0].0)))];
      var rest := Unexpected(entries[1..], declared);
      assert entries == [entries[0]] + entries[1..];
      KeysOfConcat([entries[0]], entries[1..]);
      assert KeysOf(entries) == [entries[0].0] + KeysOf(entries[1..]);
      KeysOfConcat(head, rest);
      assert entries[0].0 !in declared ==> KeysOf(head) == [entries[0].0];
      head + rest
  }

  /** The first data entry contributes its own report, if any, before the
      rest. */
  lemma UnexpectedCons(entries: seq<(Key, Value)>, declared: seq<Key>)
    requires |entries| > 0
    ensures Unexpected(entries, declared)
         == (if entries[0].0 in declared then [] else [(entries[0].0, Msg(UnexpectedMessage(entries[0].0)))])
            + Unexpected(entries[1..], declared)
  {
  }

  /** On a hash, whose keys are distinct, strict mode reports the undeclared
      keys in the order of the data's keys, and so each of them once. */
  lemma {:induction false} UnexpectedInDataOrder(entries: seq<(Key, Value)>, declared: seq<Key>)
    ensures Distinct(KeysOf(entries)) ==> InOrderOf(KeysOf(Unexpected(entries, declared)), KeysOf(entries))
    ensures Distinct(KeysOf(entries)) ==> Distinct(KeysOf(Unexpected(entries, declared)))
  {
    if |entries| > 0 && Distinct(KeysOf(entries)) {
      var k := entries[0].0;
      var ks := KeysOf(entries);
      var tail := entries[1..];
      assert ks == [k] + KeysOf(tail);
      DistinctTail(ks);
      UnexpectedInDataOrder(tail, declared);
      var head := if k in declared then [] else [(k, Msg(UnexpectedMessage(k)))];
      var rest := Unexpected(tail, declared);
      UnexpectedCons(entries, declared);
      KeysOfConcat(head, rest);
      assert KeysOf(head) == if k in declared then [] else [k];
      InOrderCons(ks, KeysOf(rest), k !in declared);
      InOrderDistinct(KeysOf(Unexpected(entries, declared)), ks);
    }
  }

  /** Some alternative was tried and gave an empty result. */
  predicate SomeEmpty(results: seq<Option<Err>>)
  {
    exists i :: 0 <= i < |results| && results[i].Some? && IsEmptyError(results[i].value)
  }

  /** `i` is the first tried alternative with an empty result. */
  predicate FirstEmpty(results: seq<Option<Err>>, i: int)
  {
    && 0 <= i < |results| && results[i].Some? && IsEmptyError(results[i].value)
    && forall j :: 0 <= j < i && results[j].Some? ==> !IsEmptyError(results[j].value)
  }

  /** No alternative was tried. */
  predicate NoneTried(results: seq<Option<Err>>)
  {
    forall i :: 0 <= i < |results| ==> results[i].None?
  }

  /** The loop of `OrSchema#validate` over the alternatives' results
      (`None` for one skipped by `schema_matches_data_type`), carrying
      `empty_error` and `last_error`; stops at the first empty result. */
  function OrScan(results: seq<Option<Err>>, emptyError: bool, lastError: Err): (r: (bool, Err))
    ensures r.0 <==> SomeEmpty(results) || (emptyError && NoneTried(results))
    ensures SomeEmpty(results) ==> exists i :: FirstEmpty(results, i) && r.1 == results[i].value
    ensures !SomeEmpty(results) && NoneTried(results) ==> r == (emptyError, lastError)
    decreases |results|
  {
    if |results| == 0 then (emptyError, lastError)
    else
      var rest := results[1..];
      assert forall i :: 0 <= i < |rest| ==> rest[i] == results[i + 1];
      match results[0]
      case None =>
        var r := OrScan(rest, emptyError, lastError);
        assert SomeEmpty(rest) ==> exists i :: FirstEmpty(results, i) && r.1 == results[i].value by {
          if SomeEmpty(rest) {
            var i :| FirstEmpty(rest, i) && r.1 == rest[i].value;
            assert FirstEmpty(results, i + 1);
          }
        }
        r
      case Some(e) =>
        if IsEmptyError(e) then
          assert FirstEmpty(results, 0);
          (true, e)
        else
          var r := OrScan(rest, false, e);
          assert SomeEmpty(rest) ==> exists i :: FirstEmpty(results, i) && r.1 == results[i].value by {
            if SomeEmpty(rest) {
              var i :| FirstEmpty(rest, i) && r.1 == rest[i].value;
              assert FirstEmpty(results, i + 1);
            }
          }
          r
  }

  /** The shape invariant of validation: at every position an array of
      errors stands for an array of the same length, and a hash of errors for
      a hash whose entry under each key (looked up as HashSchema does) the
      field's error again mirrors. Messages and `nil` fit any data. */
  predicate Mirrors(e: Err, data: Value)
    decreases e
  {
    match e
    case Clean => true
    case Msg(_) => true
    case ESeq(es) =>
      data.Arr? && |es| == |data.items| &&
      forall i :: 0 <= i < |es| ==> Mirrors(es[i], data.items[i])
    case ERec(fs) =>
      data.Map? &&
      forall i :: 0 <= i < |fs| ==> Mirrors(fs[i].1, Lookup(data.entries, fs[i].0))
  }

  /** One declared field of a HashSchema applied to the looked-up value. */
  function CheckField(f: Field, v: Value): (r: Err)
    ensures Mirrors(r, v)
    ensures f.Lit? ==> (r == Clean <==> ValueEq(f.literal, v))
    decreases f
  {
    match f
    case Sch(s) => Validate(s, v)
    case Lit(x) => LiteralCheck(x, v)
  }

  /** The results of the alternatives `OrSchema#validate` tries, `None` for
      the ones `schema_matches_data_type` skips. */
  function OrResults(alts: seq<Schema>, data: Value): (rs: seq<Option<Err>>)
    ensures |rs| == |alts|
    ensures forall i :: 0 <= i < |alts| ==>
      (rs[i].Some? <==> MatchesDataType(alts[i], data)) &&
      (rs[i].Some? ==> Mirrors(rs[i].value, data))
    decreases alts
  {
    seq(|alts|, i requires 0 <= i < |alts| =>
      if MatchesDataType(alts[i], data) then Some(Validate(alts[i], data)) else None)
  }

  /** `validate(data)` of every schema class. */
  function Validate(s: Schema, data: Value): (r: Err)
    ensures Mirrors(r, data)
    decreases s
  {
    match s
    case StringSchema => if data.Str? then Clean else Msg(Expect(Expectation(s), data))
    case NumberSchema => if data.Num? then Clean else Msg(Expect(Expectation(s), data))
    case BooleanSchema => if data.Bool? then Clean else Msg(Expect(Expectation(s), data))
    case OptionalSchema(chain) =>
      if data.Void? then Clean
      else (match chain
        case Sch(inner) => Validate(inner, data)
        case Lit(x) => LiteralCheck(x, data))
    case EnumSchema(vs) => if Includes(vs, data) then Clean else Msg(Expect(Expectation(s), data))
    case ArraySchema(element) =>
      if data.Arr? then
        ESeq(seq(|data.items|, i requires 0 <= i < |data.items| => Validate(element, data.items[i])))
      else Msg(Expect(Expectation(s), data))
    case HashSchema(fields, strict) =>
      if !data.Map? then Msg(Expect(Expectation(s), data))
      else
        var declared := seq(|fields|, i requires 0 <= i < |fields| =>
          (fields[i].0, CheckField(fields[i].1, Lookup(data.entries, fields[i].0))));
        var extra := if strict then Unexpected(data.entries, KeysOf(fields)) else [];
        assert forall i :: 0 <= i < |extra| ==> extra[i].1.Msg?;
        ERec(declared + extra)
    case OrSchema(alts) =>
      var scan := OrScan(OrResults(alts, data), true, Clean);
      if scan.0 then scan.1 else Msg(Expect(Expectation(s), data))
  }
}
