/** The model evaluated, by proof, on the examples of
    spec/hash_schema_spec.rb and on the edge cases the code decides in its
    own way. */
module Scenarios {
  import opened Text
  import opened Values
  import opened Errors
  import opened Schemas
  import opened Interpreter
  import opened InterpreterLemmas
  import opened ValidationLemmas

  /** A message below a non-empty path: the joined path, the message's own
      segment, then the message. */
  lemma MessageUnder(path: seq<string>, name: Label, m: string)
    requires |path| > 0
    ensures Walk(Msg(m), path, name) == [Join(path, Separator) + Separator + Format(Msg(m), name) + Separator + m]
  {
    MessageLine(path, Format(Msg(m), name), m);
  }

  lemma InterpretResult(s: Schema, data: Value, e: Err)
    requires Validate(s, data) == e
    ensures InterpretData(s, data) == Interpret(e)
  {
  }

  /** The interpretation of a hash of errors, at the root. */
  lemma RootRecord(fs: seq<(Key, Err)>)
    ensures Interpret(ERec(fs)) == WalkChildren(ERec(fs), 0, ["root:{}"])
  {
    assert Format(ERec(fs), RootLabel) == "root:{}";
    assert [] + ["root:{}"] == ["root:{}"];
  }

  /** A hash of errors with one message field. */
  lemma SingleFieldLine(k: Key, m: string)
    ensures Interpret(ERec([(k, Msg(m))])) == ["root:{} > ." + KeyText(k) + " > " + m]
  {
    var e := ERec([(k, Msg(m))]);
    var p := ["root:{}"];
    RootRecord(e.fields);
    assert WalkChildren(e, 1, p) == [];
    MessageUnder(p, Name(KeyText(k)), m);
    assert Join(p, Separator) == "root:{}";
    assert "root:{}" + Separator + ("." + KeyText(k)) + Separator + m == "root:{} > ." + KeyText(k) + " > " + m;
  }

  /** A hash of errors whose first field is clean and second a message. */
  lemma CleanThenMessageLine(k1: Key, k2: Key, m: string)
    ensures Interpret(ERec([(k1, Clean), (k2, Msg(m))])) == ["root:{} > ." + KeyText(k2) + " > " + m]
  {
    var e := ERec([(k1, Clean), (k2, Msg(m))]);
    var p := ["root:{}"];
    RootRecord(e.fields);
    assert WalkChildren(e, 2, p) == [];
    MessageUnder(p, Name(KeyText(k2)), m);
    assert Join(p, Separator) == "root:{}";
    assert "root:{}" + Separator + ("." + KeyText(k2)) + Separator + m == "root:{} > ." + KeyText(k2) + " > " + m;
    assert WalkChildren(e, 1, p) == ["root:{} > ." + KeyText(k2) + " > " + m];
  }

  /** `HashSchema.new(name: StringSchema.new).interpret(name: 5)`. */
  lemma NameFieldInterpretation()
    ensures InterpretData(HashSchema([(Sym("name"), Sch(StringSchema))], false), Map([(Sym("name"), Num(5))]))
         == ["root:{} > .name > Expected String but got 5"]
  {
    NameFieldValidation();
    InterpretResult(HashSchema([(Sym("name"), Sch(StringSchema))], false), Map([(Sym("name"), Num(5))]),
                    ERec([(Sym("name"), Msg("Expected String but got 5"))]));
    NameFieldLine();
  }

  /** The line of the `name` field's message. */
  lemma NameFieldLine()
    ensures Interpret(ERec([(Sym("name"), Msg("Expected String but got 5"))]))
         == ["root:{} > .name > Expected String but got 5"]
  {
    var m := "Expected String but got 5";
    SingleFieldLine(Sym("name"), m);
    assert KeyText(Sym("name")) == "name";
    assert "root:{} > ." + "name" == "root:{} > .name";
    assert "root:{} > .name" + " > " == "root:{} > .name > ";
    assert "root:{} > .name > " + m == "root:{} > .name > Expected String but got 5";
  }

  lemma NameFieldValidation()
    ensures Validate(HashSchema([(Sym("name"), Sch(StringSchema))], false), Map([(Sym("name"), Num(5))]))
         == ERec([(Sym("name"), Msg("Expected String but got 5"))])
  {
    var fields := [(Sym("name"), Sch(StringSchema))];
    var d := Map([(Sym("name"), Num(5))]);
    HashValidation(fields, false, d);
    assert Lookup(d.entries, Sym("name")) == Num(5);
    PrimitiveValidation(StringSchema, Num(5));
    assert Inspect(Num(5)) == "5";
    assert "Expected " + "String" == "Expected String";
    assert "Expected String" + " but got " == "Expected String but got ";
    assert "Expected String but got " + "5" == "Expected String but got 5";
    var r := Validate(HashSchema(fields, false), d);
    assert r.fields[0] == (Sym("name"), Msg("Expected String but got 5"));
  }

  /** Fields that pass produce no line: an absent optional field and a
      string field holding a string. */
  lemma CleanFieldsInterpretNothing()
    ensures InterpretData(HashSchema([(Sym("a"), Sch(BareOptional)), (Sym("b"), Sch(StringSchema))], false),
                          Map([(Sym("b"), Str("x"))])) == []
  {
    var entries := [(Sym("b"), Str("x"))];
    assert Fetch(entries, Sym("a")) == None;
    assert Fetch(entries, KStr("a")) == None;
    assert Lookup(entries, Sym("a")) == Void;
    assert Lookup(entries, Sym("b")) == Str("x");
    var e := ERec([(Sym("a"), Clean), (Sym("b"), Clean)]);
    assert Validate(HashSchema([(Sym("a"), Sch(BareOptional)), (Sym("b"), Sch(StringSchema))], false), Map(entries)) == e;
    RootRecord(e.fields);
    assert WalkChildren(e, 2, ["root:{}"]) == [];
    assert WalkChildren(e, 1, ["root:{}"]) == [];
  }

  /** `HashSchema.new(strict: true, x: 0)` on `{x: 0, y: 1}`. */
  lemma StrictExtraKeyInterpretation()
    ensures InterpretData(HashSchema([(Sym("x"), Lit(Num(0)))], true), Map([(Sym("x"), Num(0)), (Sym("y"), Num(1))]))
         == ["root:{} > .y > Unexpected key: \"y\""]
  {
    StrictExtraKeyValidation();
    InterpretResult(HashSchema([(Sym("x"), Lit(Num(0)))], true), Map([(Sym("x"), Num(0)), (Sym("y"), Num(1))]),
                    ERec([(Sym("x"), Clean), (Sym("y"), Msg("Unexpected key: \"y\""))]));
    StrictExtraKeyLine();
  }

  /** The line of the unexpected key's message. */
  lemma StrictExtraKeyLine()
    ensures Interpret(ERec([(Sym("x"), Clean), (Sym("y"), Msg("Unexpected key: \"y\""))]))
         == ["root:{} > .y > Unexpected key: \"y\""]
  {
    var m := "Unexpected key: \"y\"";
    CleanThenMessageLine(Sym("x"), Sym("y"), m);
    assert KeyText(Sym("y")) == "y";
    assert "root:{} > ." + "y" == "root:{} > .y";
    assert "root:{} > .y" + " > " == "root:{} > .y > ";
    assert "root:{} > .y > " + m == "root:{} > .y > Unexpected key: \"y\"";
  }

  /** The undeclared keys of that example: only `y`. */
  lemma StrictExtraKeyExtras()
    ensures Unexpected([(Sym("x"), Num(0)), (Sym("y"), Num(1))], [Sym("x")])
         == [(Sym("y"), Msg("Unexpected key: \"y\""))]
  {
    var entries := [(Sym("x"), Num(0)), (Sym("y"), Num(1))];
    var m := "Unexpected key: \"y\"";
    assert "Unexpected key: " + ("\"" + "y" + "\"") == m;
    assert UnexpectedMessage(Sym("y")) == m;
    assert entries[1..][1..] == [];
    assert Unexpected(entries[1..], [Sym("x")]) == [(Sym("y"), Msg(m))];
  }

  lemma StrictExtraKeyValidation()
    ensures Validate(HashSchema([(Sym("x"), Lit(Num(0)))], true), Map([(Sym("x"), Num(0)), (Sym("y"), Num(1))]))
         == ERec([(Sym("x"), Clean), (Sym("y"), Msg("Unexpected key: \"y\""))])
  {
    var fields := [(Sym("x"), Lit(Num(0)))];
    var entries := [(Sym("x"), Num(0)), (Sym("y"), Num(1))];
    assert Lookup(entries, Sym("x")) == Num(0);
    assert KeysOf(fields) == [Sym("x")];
    StrictExtraKeyExtras();
    HashValidation(fields, true, Map(entries));
    var r := Validate(HashSchema(fields, true), Map(entries));
    assert r.fields == [(Sym("x"), Clean)] + [(Sym("y"), Msg("Unexpected key: \"y\""))];
  }

  /** A clean tree has no lines, and a bare message sits under `.root`. */
  lemma LeafRootScenarios()
    ensures Interpret(Clean) == []
    ensures Interpret(Msg("m")) == [".root > m"]
  {
    assert Format(Msg("m"), RootLabel) == ".root";
    MessageLine([], ".root", "m");
    assert [] + [".root", "m"] == [".root", "m"];
    assert ".root" + Separator + "m" == ".root > m";
  }

  /** Positions render as `#i`, bare on a message. */
  lemma IndexScenario()
    ensures Interpret(ESeq([Clean, Msg("m")])) == ["root:[] > #1 > m"]
  {
    var e := ESeq([Clean, Msg("m")]);
    assert Format(e, RootLabel) == "root:[]";
    assert [] + ["root:[]"] == ["root:[]"];
    assert NatToString(1) == "1";
    assert Format(Msg("m"), Index(1)) == "#1";
    MessageUnder(["root:[]"], Index(1), "m");
    assert Join(["root:[]"], Separator) == "root:[]";
    assert WalkChildren(e, 2, ["root:[]"]) == [];
    assert "root:[]" + Separator + "#1" + Separator + "m" == "root:[] > #1 > m";
    assert WalkChildren(e, 1, ["root:[]"]) == ["root:[] > #1 > m"];
  }

  /** The hash at position 0 of the nested example's array: `#0:{}`, then
      `.b` for its message. */
  lemma NestedRecordLine()
    ensures Walk(ERec([(KStr("b"), Msg("x"))]), ["root:{}", "a:[]"], Index(0))
         == ["root:{} > a:[] > #0:{} > .b > x"]
  {
    var inner := ERec([(KStr("b"), Msg("x"))]);
    var p2 := ["root:{}", "a:[]"];
    assert NatToString(0) == "0";
    assert Format(inner, Index(0)) == "#0:{}";
    assert Format(Msg("x"), Name("b")) == ".b";
    var p3 := p2 + ["#0:{}"];
    MessageUnder(p3, Name("b"), "x");
    JoinSnoc(p2, "#0:{}", Separator);
    JoinSnoc(["root:{}"], "a:[]", Separator);
    assert ["root:{}"] + ["a:[]"] == p2;
    assert Join(["root:{}"], Separator) == "root:{}";
    assert "root:{}" + Separator == "root:{} > ";
    assert "root:{} > " + "a:[]" == "root:{} > a:[]";
    assert "root:{} > a:[]" + Separator == "root:{} > a:[] > ";
    assert "root:{} > a:[] > " + "#0:{}" == "root:{} > a:[] > #0:{}";
    assert Join(p3, Separator) == "root:{} > a:[] > #0:{}";
    assert WalkChildren(inner, 1, p3) == [];
    assert "root:{} > a:[] > #0:{}" + Separator == "root:{} > a:[] > #0:{} > ";
    assert "root:{} > a:[] > #0:{} > " + ".b" == "root:{} > a:[] > #0:{} > .b";
    assert "root:{} > a:[] > #0:{} > .b" + Separator == "root:{} > a:[] > #0:{} > .b > ";
    assert "root:{} > a:[] > #0:{} > .b > " + "x" == "root:{} > a:[] > #0:{} > .b > x";
    assert WalkChildren(inner, 0, p3) == ["root:{} > a:[] > #0:{} > .b > x"];
  }

  /** Nested nodes: `k:[]` for an array, `#i:{}` for a hash under a position,
      `.k` for a message. */
  lemma NestedScenario()
    ensures Interpret(ERec([(Sym("a"), ESeq([ERec([(KStr("b"), Msg("x"))])]))]))
         == ["root:{} > a:[] > #0:{} > .b > x"]
  {
    var inner := ERec([(KStr("b"), Msg("x"))]);
    var arr := ESeq([inner]);
    var e := ERec([(Sym("a"), arr)]);
    RootRecord(e.fields);
    var p1 := ["root:{}"];
    assert Format(arr, Name("a")) == "a:[]";
    assert p1 + ["a:[]"] == ["root:{}", "a:[]"];
    NestedRecordLine();
    assert WalkChildren(arr, 1, ["root:{}", "a:[]"]) == [];
    assert WalkChildren(arr, 0, ["root:{}", "a:[]"]) == ["root:{} > a:[] > #0:{} > .b > x"];
    assert Walk(arr, p1, Name("a")) == ["root:{} > a:[] > #0:{} > .b > x"];
    assert WalkChildren(e, 1, p1) == [];
  }

  /** Lines come in declaration order and clean fields are skipped. */
  lemma OrderScenario()
    ensures Interpret(ERec([(Sym("a"), Msg("x")), (Sym("b"), Clean), (Sym("c"), Msg("y"))]))
         == ["root:{} > .a > x", "root:{} > .c > y"]
  {
    var e := ERec([(Sym("a"), Msg("x")), (Sym("b"), Clean), (Sym("c"), Msg("y"))]);
    var p := ["root:{}"];
    RootRecord(e.fields);
    assert Join(p, Separator) == "root:{}";
    MessageUnder(p, Name("a"), "x");
    MessageUnder(p, Name("c"), "y");
    assert Format(Msg("x"), Name("a")) == ".a";
    assert Format(Msg("y"), Name("c")) == ".c";
    assert WalkChildren(e, 3, p) == [];
    assert "root:{}" + Separator + ".c" + Separator + "y" == "root:{} > .c > y";
    assert "root:{}" + Separator + ".a" + Separator + "x" == "root:{} > .a > x";
    assert WalkChildren(e, 2, p) == ["root:{} > .c > y"];
    assert WalkChildren(e, 1, p) == ["root:{} > .c > y"];
    assert WalkChildren(e, 0, p) == ["root:{} > .a > x"] + ["root:{} > .c > y"];
  }

  /** `EnumSchema.new(1, 'a', true)`: its members pass. */
  lemma EnumAcceptsMembers()
    ensures Validate(EnumSchema([Num(1), Str("a"), Bool(true)]), Num(1)) == Clean
    ensures Validate(EnumSchema([Num(1), Str("a"), Bool(true)]), Str("a")) == Clean
    ensures Validate(EnumSchema([Num(1), Str("a"), Bool(true)]), Bool(true)) == Clean
  {
    var vs := [Num(1), Str("a"), Bool(true)];
    EnumValidation(vs, vs[0]);
    EnumValidation(vs, vs[1]);
    EnumValidation(vs, vs[2]);
  }

  /** The Enum description lists the members' renderings, "or" before the last. */
  lemma EnumDescription()
    ensures Expectation(EnumSchema([Num(1), Str("a"), Bool(true)])) == "1, \"a\" or true"
  {
    var vs := [Num(1), Str("a"), Bool(true)];
    assert Inspect(Num(1)) == "1";
    assert Inspect(Str("a")) == "\"a\"";
    var names := seq(|vs|, i requires 0 <= i < |vs| => Inspect(vs[i]));
    assert names == ["1", "\"a\"", "true"];
    assert names[..2] == ["1", "\"a\""];
    assert Join(["1", "\"a\""], ", ") == "1, \"a\"";
  }

  /** The members of `EnumSchema.new(1, 'a', true)`, rendered and joined. */
  lemma EnumRenderingsJoined()
    ensures JoinOr(ValueRenderings([Num(1), Str("a"), Bool(true)])) == "1, \"a\" or true"
  {
    var vs := [Num(1), Str("a"), Bool(true)];
    assert ValueRenderings(vs) == ["1", "\"a\"", "true"] by {
      assert Inspect(Num(1)) == "1";
      assert Inspect(Str("a")) == "\"a\"";
    }
    assert ["1", "\"a\"", "true"][..2] == ["1", "\"a\""];
    assert ["1", "\"a\""][1..] == ["\"a\""];
    assert "1" + ", " == "1, ";
    assert "1, " + "\"a\"" == "1, \"a\"";
    assert Join(["1", "\"a\""], ", ") == "1, \"a\"";
    assert "1, \"a\"" + " or " == "1, \"a\" or ";
    assert "1, \"a\" or " + "true" == "1, \"a\" or true";
  }

  /** The rejection message of `EnumSchema.new(1, 'a', true)` for `2`. */
  lemma EnumRejectionText()
    ensures Expect(JoinOr(ValueRenderings([Num(1), Str("a"), Bool(true)])), Num(2)) == "Expected 1, \"a\" or true but got 2"
  {
    EnumRenderingsJoined();
    assert Inspect(Num(2)) == "2";
    assert "Expected " + "1, \"a\" or true" == "Expected 1, \"a\" or true";
    assert "Expected 1, \"a\" or true" + " but got " == "Expected 1, \"a\" or true but got ";
    assert "Expected 1, \"a\" or true but got " + "2" == "Expected 1, \"a\" or true but got 2";
  }

  /** `EnumSchema.new(1, 'a', true)`: other values fail, naming the members. */
  lemma EnumRejectsOthers()
    ensures Validate(EnumSchema([Num(1), Str("a"), Bool(true)]), Num(2)) == Msg("Expected 1, \"a\" or true but got 2")
  {
    EnumValidation([Num(1), Str("a"), Bool(true)], Num(2));
    EnumRejectionText();
  }

  /** Descriptions compose recursively; a single member renders as `" or X"`. */
  lemma DescriptionScenarios()
    ensures Expectation(OrSchema([ArraySchema(StringSchema), NumberSchema])) == "[String] or Number"
  {
    var alts := [ArraySchema(StringSchema), NumberSchema];
    OrDescription(alts);
    var names := AlternativeLabels(alts);
    assert names[0] == "[String]" && names[1] == "Number";
    assert names[..1] == ["[String]"];
    assert Join(["[String]"], ", ") == "[String]";
    assert "[String]" + " or " == "[String] or ";
    assert "[String] or " + "Number" == "[String] or Number";
  }

  /** A description of one member reads `" or X"`, and of none `" or "`. */
  lemma DegenerateDescriptions()
    ensures Expectation(OrSchema([NumberSchema])) == " or Number"
    ensures Expectation(EnumSchema([Num(1)])) == " or 1"
    ensures Expectation(OrSchema([])) == " or "
  {
    OrDescription([NumberSchema]);
    assert AlternativeLabels([NumberSchema])[0] == "Number";
    JoinOrSingle("Number");
    EnumValidation([Num(1)], Nil);
    assert ValueRenderings([Num(1)])[0] == "1";
    JoinOrSingle("1");
    OrDescription([]);
  }

  /** The alternatives of the spec's multi-type Or, without its hash field
      whose value is a schema class. */
  const MultitypeAlternatives := [NumberSchema, StringSchema, ArraySchema(StringSchema),
                                  ArraySchema(NumberSchema), HashSchema([], false)]

  /** Scalars pass through the Number and String alternatives. */
  lemma MultitypeScalars()
    ensures Validate(OrSchema(MultitypeAlternatives), Num(1)) == Clean
    ensures Validate(OrSchema(MultitypeAlternatives), Str("a")) == Clean
  {
    var alts := MultitypeAlternatives;
    OrReturnsFirstEmpty(alts, Num(1), 0);
    assert Validate(alts[0], Str("a")).Msg?;
    OrReturnsFirstEmpty(alts, Str("a"), 1);
  }

  /** `[String]` rejects an array of numbers item by item. */
  lemma StringArrayRejectsNumbers()
    ensures !IsEmptyError(Validate(ArraySchema(StringSchema), Arr([Num(1), Num(2), Num(3)])))
  {
    ArrayValidation(StringSchema, Arr([Num(1), Num(2), Num(3)]));
    PrimitiveValidation(StringSchema, Num(1));
    var r := Validate(ArraySchema(StringSchema), Arr([Num(1), Num(2), Num(3)]));
    assert r.elems[0].Msg?;
  }

  /** `[Number]` accepts an array of numbers, one clean entry per item. */
  lemma NumberArrayAcceptsNumbers()
    ensures Validate(ArraySchema(NumberSchema), Arr([Num(1), Num(2), Num(3)])) == ESeq([Clean, Clean, Clean])
  {
    var d := Arr([Num(1), Num(2), Num(3)]);
    ArrayValidation(NumberSchema, d);
    var r := Validate(ArraySchema(NumberSchema), d);
    assert r.elems[0] == Clean && r.elems[1] == Clean && r.elems[2] == Clean;
  }

  /** An array goes to the Array alternatives: the first, over strings,
      rejects the numbers, and the second's clean result is returned. */
  lemma MultitypeNumbers()
    ensures Validate(OrSchema(MultitypeAlternatives), Arr([Num(1), Num(2), Num(3)])) == ESeq([Clean, Clean, Clean])
  {
    var alts := MultitypeAlternatives;
    var d := Arr([Num(1), Num(2), Num(3)]);
    StringArrayRejectsNumbers();
    NumberArrayAcceptsNumbers();
    assert alts[3] == ArraySchema(NumberSchema);
    forall j | 0 <= j < 3 && MatchesDataType(alts[j], d) ensures !IsEmptyError(Validate(alts[j], d)) {
      if j == 0 {
        PrimitiveValidation(NumberSchema, d);
      } else if j == 1 {
        PrimitiveValidation(StringSchema, d);
      } else {
        assert alts[j] == ArraySchema(StringSchema);
      }
    }
    OrReturnsFirstEmpty(alts, d, 3);
  }

  /** The empty array is accepted by the first Array alternative. */
  lemma MultitypeEmptyArray()
    ensures Validate(OrSchema(MultitypeAlternatives), Arr([])) == ESeq([])
  {
    var alts := MultitypeAlternatives;
    assert Validate(alts[0], Arr([])).Msg?;
    assert Validate(alts[1], Arr([])).Msg?;
    assert Validate(alts[2], Arr([])) == ESeq([]);
    OrReturnsFirstEmpty(alts, Arr([]), 2);
  }

  /** A hash goes to the Hash alternative, which declares no field. */
  lemma MultitypeHash()
    ensures Validate(OrSchema(MultitypeAlternatives), Map([(Sym("boolean"), Num(5))])) == ERec([])
  {
    var alts := MultitypeAlternatives;
    var d := Map([(Sym("boolean"), Num(5))]);
    assert Validate(alts[0], d).Msg?;
    assert Validate(alts[1], d).Msg?;
    assert Validate(alts[4], d) == ERec([]);
    OrReturnsFirstEmpty(alts, d, 4);
  }

  /** The labels of the multi-type Or's alternatives. */
  lemma MultitypeLabels()
    ensures AlternativeLabels(MultitypeAlternatives) == ["Number", "String", "[String]", "[Number]", "Hash"]
  {
    var names := AlternativeLabels(MultitypeAlternatives);
    assert names[0] == "Number" && names[1] == "String" && names[4] == "Hash";
    assert names[2] == "[String]";
    assert names[3] == "[Number]";
  }

  /** Five labels joined as Or joins them. */
  lemma MultitypeLabelsJoined()
    ensures JoinOr(["Number", "String", "[String]", "[Number]", "Hash"]) == "Number, String, [String], [Number] or Hash"
  {
    assert ["Number", "String", "[String]", "[Number]", "Hash"][..4] == ["Number", "String", "[String]", "[Number]"];
    assert Join(["[Number]"], ", ") == "[Number]";
    assert ["[String]", "[Number]"][1..] == ["[Number]"];
    assert "[String]" + ", " == "[String], ";
    assert "[String], " + "[Number]" == "[String], [Number]";
    assert Join(["[String]", "[Number]"], ", ") == "[String], [Number]";
    assert ["String", "[String]", "[Number]"][1..] == ["[String]", "[Number]"];
    assert "String" + ", " == "String, ";
    assert "String, " + "[String], [Number]" == "String, [String], [Number]";
    assert Join(["String", "[String]", "[Number]"], ", ") == "String, [String], [Number]";
    assert ["Number", "String", "[String]", "[Number]"][1..] == ["String", "[String]", "[Number]"];
    assert "Number" + ", " == "Number, ";
    assert "Number, " + "String, [String], [Number]" == "Number, String, [String], [Number]";
    assert Join(["Number", "String", "[String]", "[Number]"], ", ") == "Number, String, [String], [Number]";
    assert "Number, String, [String], [Number]" + " or " == "Number, String, [String], [Number] or ";
    assert "Number, String, [String], [Number] or " + "Hash" == "Number, String, [String], [Number] or Hash";
  }

  /** The multi-type Or names its alternatives in order. */
  lemma MultitypeDescription()
    ensures Expectation(OrSchema(MultitypeAlternatives)) == "Number, String, [String], [Number] or Hash"
  {
    OrDescription(MultitypeAlternatives);
    MultitypeLabels();
    MultitypeLabelsJoined();
  }

  /** `false` fits none of the multi-type alternatives it is tried on. */
  lemma MultitypeBooleanFails()
    ensures Validate(OrSchema(MultitypeAlternatives), Bool(false))
         == Msg(Expect(Expectation(OrSchema(MultitypeAlternatives)), Bool(false)))
  {
    var alts := MultitypeAlternatives;
    assert Validate(alts[0], Bool(false)).Msg?;
    assert Validate(alts[1], Bool(false)).Msg?;
    assert !MatchesDataType(alts[2], Bool(false)) && !MatchesDataType(alts[3], Bool(false));
    assert !MatchesDataType(alts[4], Bool(false));
    OrAllFail(alts, Bool(false));
  }

  /** The message naming the multi-type Or's description for `false`. */
  lemma MultitypeRejectionText()
    ensures Expect("Number, String, [String], [Number] or Hash", Bool(false))
         == "Expected " + "Number, String, [String], [Number] or Hash" + " but got false"
  {
    assert Inspect(Bool(false)) == "false";
    assert " but got " + "false" == " but got false";
  }

  /** `false` fits no alternative: Or reports its own description. */
  lemma MultitypeRejectsBoolean()
    ensures Validate(OrSchema(MultitypeAlternatives), Bool(false))
         == Msg("Expected " + "Number, String, [String], [Number] or Hash" + " but got false")
  {
    MultitypeBooleanFails();
    MultitypeDescription();
    MultitypeRejectionText();
  }

  /** An Or whose alternatives are all skipped for the data's shape accepts. */
  lemma OrWithoutEligibleAlternative()
    ensures Validate(OrSchema([ArraySchema(StringSchema)]), Num(1)) == Clean
  {
  }

  /** `[{}]` conforms to `[Hash]` ... */
  lemma ArrayOfCleanHashes()
    ensures Validate(ArraySchema(HashSchema([], false)), Arr([Map([])])) == ESeq([ERec([])])
  {
    var r := Validate(ArraySchema(HashSchema([], false)), Arr([Map([])]));
    assert r.elems[0] == Validate(HashSchema([], false), Map([]));
  }

  /** The message of an Or with the single alternative `[Hash]` for `[{}]`. */
  lemma ArrayOfHashesRejectionText()
    ensures Expect(Expectation(OrSchema([ArraySchema(HashSchema([], false))])), Arr([Map([])]))
         == "Expected  or [Hash] but got [{}]"
  {
    var alts := [ArraySchema(HashSchema([], false))];
    OrDescription(alts);
    assert AlternativeLabels(alts)[0] == "[Hash]";
    assert Inspect(Map([])) == "{}";
    assert seq(1, i requires 0 <= i < 1 => Inspect([Map([])][i])) == ["{}"];
  }

  /** ... but Or's emptiness test looks only at the top level of an array
      result, sees the `{}` and rejects it. */
  lemma OrRejectsArrayOfCleanHashes()
    ensures Validate(OrSchema([ArraySchema(HashSchema([], false))]), Arr([Map([])]))
         == Msg("Expected  or [Hash] but got [{}]")
  {
    var alts := [ArraySchema(HashSchema([], false))];
    var d := Arr([Map([])]);
    ArrayOfCleanHashes();
    assert ESeq([ERec([])]).elems[0] != Clean;
    assert MatchesDataType(alts[0], d);
    OrAllFail(alts, d);
    ArrayOfHashesRejectionText();
  }

  /** Strict mode compares raw keys: the string key `"x"` satisfies the
      declared `:x` through the fallback lookup and is still unexpected. */
  lemma StrictStringKeyReported()
    ensures Validate(HashSchema([(Sym("x"), Sch(NumberSchema))], true), Map([(KStr("x"), Num(1))]))
         == ERec([(Sym("x"), Clean), (KStr("x"), Msg("Unexpected key: \"x\""))])
  {
    var entries := [(KStr("x"), Num(1))];
    assert Fetch(entries, Sym("x")) == None;
    assert Lookup(entries, Sym("x")) == Num(1);
    assert KeysOf([(Sym("x"), Sch(NumberSchema))]) == [Sym("x")];
    assert entries[0].0 !in [Sym("x")];
    assert entries[1..] == [];
    assert UnexpectedMessage(KStr("x")) == "Unexpected key: \"x\"";
    assert Unexpected(entries, [Sym("x")]) == [(KStr("x"), Msg(UnexpectedMessage(KStr("x"))))];
  }

  /** `hash_array_schema.validate([{}, { x: 1 }, { y: 2 }])`. */
  lemma ArrayOfHashes()
    ensures Validate(ArraySchema(HashSchema([], false)), Arr([Map([]), Map([(Sym("x"), Num(1))]), Map([(Sym("y"), Num(2))])]))
         == ESeq([ERec([]), ERec([]), ERec([])])
  {
    var items := [Map([]), Map([(Sym("x"), Num(1))]), Map([(Sym("y"), Num(2))])];
    var r := Validate(ArraySchema(HashSchema([], false)), Arr(items));
    assert r.elems[0] == ERec([]) && r.elems[1] == ERec([]) && r.elems[2] == ERec([]);
  }

  /** The renderings the chaos array's rejected items appear under. */
  lemma ChaosRenderings()
    ensures Expect("String", Num(1)) == "Expected String but got 1"
    ensures Expect("String", Bool(false)) == "Expected String but got false"
    ensures Expect("String", Arr([])) == "Expected String but got []"
    ensures Expect("String", Map([])) == "Expected String but got {}"
  {
    assert Inspect(Num(1)) == "1";
    assert Inspect(Bool(false)) == "false";
    assert Inspect(Arr([])) == "[]";
    assert Inspect(Map([])) == "{}";
    assert "Expected " + "String" == "Expected String";
    assert "Expected String" + " but got " == "Expected String but got ";
    assert "Expected String but got " + "1" == "Expected String but got 1";
    assert "Expected String but got " + "false" == "Expected String but got false";
    assert "Expected String but got " + "[]" == "Expected String but got []";
    assert "Expected String but got " + "{}" == "Expected String but got {}";
  }

  /** `string_array_schema.validate(chaos_array)`: every non-string item gets
      its own message and the string's entry stays `nil`. */
  lemma ArrayOfMixedItems()
    ensures Validate(ArraySchema(StringSchema), Arr([Str("a"), Num(1), Bool(false), Arr([]), Map([])]))
         == ESeq([Clean, Msg("Expected String but got 1"), Msg("Expected String but got false"),
                  Msg("Expected String but got []"), Msg("Expected String but got {}")])
  {
    var items := [Str("a"), Num(1), Bool(false), Arr([]), Map([])];
    var r := Validate(ArraySchema(StringSchema), Arr(items));
    ChaosRenderings();
    assert r.elems[0] == Clean;
    assert r.elems[1] == Msg(Expect("String", Num(1)));
    assert r.elems[2] == Msg(Expect("String", Bool(false)));
    assert r.elems[3] == Msg(Expect("String", Arr([])));
    assert r.elems[4] == Msg(Expect("String", Map([])));
  }

  /** `string_array_schema.validate(string_array)`: all entries `nil`. */
  lemma ArrayOfStrings()
    ensures Validate(ArraySchema(StringSchema), Arr([Str("a"), Str("b"), Str("c"), Str("d")]))
         == ESeq([Clean, Clean, Clean, Clean])
  {
    var d := Arr([Str("a"), Str("b"), Str("c"), Str("d")]);
    ArrayValidation(StringSchema, d);
    var r := Validate(ArraySchema(StringSchema), d);
    assert r.elems[0] == Clean && r.elems[1] == Clean && r.elems[2] == Clean && r.elems[3] == Clean;
  }

  /** The rendering of `123`. */
  lemma InspectNumber()
    ensures Inspect(Num(123)) == "123"
  {
    assert NatToString(1) == "1";
    assert NatToString(12) == "12";
  }

  /** Any label's rejection of `123`. */
  lemma NumberRejection(wanted: string)
    ensures Expect(wanted, Num(123)) == "Expected " + wanted + " but got 123"
  {
    InspectNumber();
  }

  /** `string_array_schema.validate(123)`. */
  lemma ArrayRejectsNumber()
    ensures Validate(ArraySchema(StringSchema), Num(123)) == Msg("Expected " + "[String]" + " but got 123")
  {
    ArrayValidation(StringSchema, Num(123));
    assert "[" + Expectation(StringSchema) + "]" == "[String]";
    NumberRejection("[String]");
  }

  /** Ruby's `Hash#==` ignores entry order: `{a: 1, b: 2} == {b: 2, a: 1}`. */
  lemma HashEqualityIgnoresOrder()
    ensures ValueEq(Map([(Sym("a"), Num(1)), (Sym("b"), Num(2))]), Map([(Sym("b"), Num(2)), (Sym("a"), Num(1))]))
  {
    var es := [(Sym("a"), Num(1)), (Sym("b"), Num(2))];
    var other := [(Sym("b"), Num(2)), (Sym("a"), Num(1))];
    assert KeysOf(es) == [Sym("a"), Sym("b")];
    assert KeysOf(es[..1]) == [Sym("a")];
    assert Fetch(other, Sym("a")) == Some(Num(1));
    assert Fetch(other, Sym("b")) == Some(Num(2));
    forall i | 0 <= i < |es| && es[i].0 !in KeysOf(es[..i])
      ensures Fetch(other, es[i].0).Some? && ValueEq(es[i].1, Fetch(other, es[i].0).value)
    {
      assert i == 0 || i == 1;
    }
    forall j | 0 <= j < |other| ensures other[j].0 in KeysOf(es) {
      assert j == 0 || j == 1;
    }
  }

  /** `HashSchema.new(x: {a: 1, b: 2})` accepts `{x: {b: 2, a: 1}}`. */
  lemma HashLiteralInAnyOrder()
    ensures Validate(HashSchema([(Sym("x"), Lit(Map([(Sym("a"), Num(1)), (Sym("b"), Num(2))])))], false),
                     Map([(Sym("x"), Map([(Sym("b"), Num(2)), (Sym("a"), Num(1))]))]))
         == ERec([(Sym("x"), Clean)])
  {
    var lit := Map([(Sym("a"), Num(1)), (Sym("b"), Num(2))]);
    var data := Map([(Sym("b"), Num(2)), (Sym("a"), Num(1))]);
    HashEqualityIgnoresOrder();
    var fields := [(Sym("x"), Lit(lit))];
    var d := Map([(Sym("x"), data)]);
    HashValidation(fields, false, d);
    assert Lookup(d.entries, Sym("x")) == data;
  }

  /** `EnumSchema.new({a: 1, b: 2})` accepts `{b: 2, a: 1}`. */
  lemma EnumHashMemberInAnyOrder()
    ensures Validate(EnumSchema([Map([(Sym("a"), Num(1)), (Sym("b"), Num(2))])]),
                     Map([(Sym("b"), Num(2)), (Sym("a"), Num(1))])) == Clean
  {
    var lit := Map([(Sym("a"), Num(1)), (Sym("b"), Num(2))]);
    var data := Map([(Sym("b"), Num(2)), (Sym("a"), Num(1))]);
    HashEqualityIgnoresOrder();
    EnumValidation([lit], data);
    assert ValueEq([lit][0], data);
  }

  /** A nested hash with a literal field. */
  lemma NestedHash()
    ensures Validate(HashSchema([(Sym("hash"), Sch(HashSchema([(Sym("literal"), Lit(Num(1)))], false)))], false),
                     Map([(Sym("hash"), Map([(Sym("literal"), Num(1))]))]))
         == ERec([(Sym("hash"), ERec([(Sym("literal"), Clean)]))])
  {
    var inner := Map([(Sym("literal"), Num(1))]);
    assert Lookup([(Sym("hash"), inner)], Sym("hash")) == inner;
    assert Lookup(inner.entries, Sym("literal")) == Num(1);
    assert Validate(HashSchema([(Sym("literal"), Lit(Num(1)))], false), inner) == ERec([(Sym("literal"), Clean)]);
  }

  /** An array field inside a hash. */
  lemma HashWithArrayField()
    ensures Validate(HashSchema([(Sym("array"), Sch(ArraySchema(BooleanSchema)))], false),
                     Map([(Sym("array"), Arr([Bool(true), Bool(false)]))]))
         == ERec([(Sym("array"), ESeq([Clean, Clean]))])
  {
    var items := Arr([Bool(true), Bool(false)]);
    assert Lookup([(Sym("array"), items)], Sym("array")) == items;
    var r := Validate(ArraySchema(BooleanSchema), items);
    assert r.elems[0] == Clean && r.elems[1] == Clean;
    assert r == ESeq([Clean, Clean]);
  }

  /** A field named `strict`, declared through the field list. */
  lemma FieldNamedStrict()
    ensures Validate(HashSchema([(Sym("strict"), Sch(NumberSchema))], true), Map([(Sym("strict"), Num(1))]))
         == ERec([(Sym("strict"), Clean)])
  {
    var entries := [(Sym("strict"), Num(1))];
    assert Lookup(entries, Sym("strict")) == Num(1);
    assert KeysOf([(Sym("strict"), Sch(NumberSchema))]) == [Sym("strict")];
    assert KeysOf(entries) == [Sym("strict")];
    assert Unexpected(entries[1..], [Sym("strict")]) == [];
    assert Unexpected(entries, [Sym("strict")]) == [];
  }

  /** Non-hash data is rejected with the Hash label. */
  lemma HashRejectsNumber()
    ensures Validate(HashSchema([], false), Num(123)) == Msg("Expected Hash but got 123")
  {
    HashValidation([], false, Num(123));
    NumberRejection("Hash");
    assert "Expected " + "Hash" == "Expected Hash";
    assert "Expected Hash" + " but got 123" == "Expected Hash but got 123";
  }

  /** A missing required field reports `Nothing`. */
  lemma HashMissingField()
    ensures Validate(HashSchema([(Sym("name"), Sch(StringSchema))], false), Map([]))
         == ERec([(Sym("name"), Msg("Expected String but got Nothing"))])
  {
    var fields := [(Sym("name"), Sch(StringSchema))];
    HashValidation(fields, false, Map([]));
    MissingField(fields, false, Map([]), 0);
  }

  /** A symbol field is found under its string spelling. */
  lemma HashStringKeyFallback()
    ensures Validate(HashSchema([(Sym("name"), Sch(StringSchema))], false), Map([(KStr("name"), Str("x"))]))
         == ERec([(Sym("name"), Clean)])
  {
    assert Fetch([(KStr("name"), Str("x"))], Sym("name")) == None;
    assert Lookup([(KStr("name"), Str("x"))], Sym("name")) == Str("x");
  }

  /** `OptionalSchema.new` accepts an absent key and `nil` only. */
  lemma BareOptionalScenarios()
    ensures Validate(BareOptional, Void) == Clean
    ensures Validate(BareOptional, Nil) == Clean
    ensures Validate(BareOptional, Num(1)) == Msg("Expected nil but got 1")
  {
    BareOptionalValidation(Void);
    BareOptionalValidation(Nil);
    BareOptionalValidation(Num(1));
    assert Inspect(Num(1)) == "1";
    assert "Expected " + "nil" == "Expected nil";
    assert "Expected nil" + " but got " == "Expected nil but got ";
    assert "Expected nil but got " + "1" == "Expected nil but got 1";
  }

  /** `OptionalSchema.new(1)`. */
  lemma OptionalLiteralScenarios()
    ensures Validate(OptionalSchema(Lit(Num(1))), Num(1)) == Clean
    ensures Validate(OptionalSchema(Lit(Num(1))), Num(2)) == Msg("Expected 1 but got 2")
  {
    assert Inspect(Num(1)) == "1";
    assert Inspect(Num(2)) == "2";
  }

  /** `StringSchema.new.validate(:a)`: a symbol is not a string, and its
      rendering keeps the colon. */
  lemma StringRejectsSymbol()
    ensures Validate(StringSchema, Symbol("a")) == Msg("Expected String but got :a")
  {
    PrimitiveValidation(StringSchema, Symbol("a"));
    assert "Expected " + "String" + " but got " + ":a" == "Expected String but got :a";
  }

  /** The description of `EnumSchema.new(:a, :b)`. */
  lemma SymbolEnumDescription()
    ensures Expectation(EnumSchema([Symbol("a"), Symbol("b")])) == ":a or :b"
  {
    var vs := [Symbol("a"), Symbol("b")];
    assert Inspect(Symbol("a")) == ":a" && Inspect(Symbol("b")) == ":b";
    assert seq(|vs|, i requires 0 <= i < |vs| => Inspect(vs[i])) == [":a"] + [":b"];
    JoinOrCons(":a", [":b"]);
    JoinOrSingle(":b");
  }

  /** `EnumSchema.new(:a, :b)` accepts the symbol `:b` and rejects the
      string `"a"`, which is not `==` to `:a`. */
  lemma SymbolEnum()
    ensures Validate(EnumSchema([Symbol("a"), Symbol("b")]), Symbol("b")) == Clean
    ensures Validate(EnumSchema([Symbol("a"), Symbol("b")]), Str("a"))
         == Msg("Expected :a or :b but got \"a\"")
  {
    var vs := [Symbol("a"), Symbol("b")];
    assert ValueEq(vs[1], Symbol("b"));
    assert !Includes(vs, Str("a"));
    SymbolEnumDescription();
    assert Inspect(Str("a")) == "\"a\"";
    assert "Expected " + ":a or :b" + " but got " + "\"a\"" == "Expected :a or :b but got \"a\"";
  }
}
