# hash_schema in Dafny

A model of the validation engine of the Ruby library `hash_schema`
(`lib/hash_schema.rb`), with proofs of what it promises.

A schema is built from eight variants: String, Number, Boolean, Optional, Enum,
Array, Hash (optionally strict) and Or. `validate(data)` walks the schema and
the data together and returns an error tree:

- `nil` when the data is clean;
- a message `"Expected <label> but got <inspect of data>"`;
- an array with one entry per element of an array;
- a hash with one entry per declared field, plus one `Unexpected key: "k"`
  entry per extra key in strict mode.

Or tries the alternatives that suit the data's shape and returns the first
result that is "empty" in its own sense. `interpret(data)` flattens the tree
into lines such as `root:{} > .name > Expected String but got 5`.

Modules, in dependency order:

- `Text`: `join`, quoting, decimal digits.
- `Values`: keys, data values (strings, symbols, integers, booleans, `nil`,
  arrays and hashes), the `fetch` lookup with its `to_s` fallback, Ruby `==`,
  and `inspect`.
- `Errors`: the error tree, its message list, and Or's emptiness test
  (`recursive_empty_error?` and `recursive_flat_hash_values`).
- `Schemas`: schema variants, labels (`expectation`), `validate`, and the Or
  loop.
- `Interpreter`: `interpret`, `interpret_errors` and `format`.
- `ValidationLemmas`: one lemma per variant's validation, and the properties of
  Or.
- `InterpreterLemmas`: one line per message, in pre-order, under its ancestors'
  segments.
- `InterpreterPaths`: a reference description of `interpret` by the chains of
  nodes from the root down to each message, and the proof that `interpret`
  renders exactly those chains.
- `Scenarios`: the examples of `spec/hash_schema_spec.rb` and the code's edge
  cases, evaluated by proof on concrete inputs.

Behaviours of the code that the model reproduces on purpose:

- An Or with no alternative suited to the data's shape accepts it.
- Or's emptiness test looks only at the top level of an array result. So an
  array of clean hashes, `[{}]`, counts as a failure.
- Strict mode compares raw keys. A string key `"x"` that satisfied a declared
  `:x` through the `to_s` fallback is still reported as unexpected.
- A one-member Or or Enum is described as `" or X"`, and an empty one as
  `" or "`.
- `OptionalSchema.new` without an argument compares the data with `nil`.

`interpret` formats the root like any other node (lib/hash_schema.rb:11 and
58-71), so a line under a hash result reads `root:{} > .name > …`.

## Model

| member | source | states |
|---|---|---|
| Values.AsStringKey | lib/hash_schema.rb:206 | the fallback key `key.to_s` is a string key with the same text; a string key is its own fallback |
| Values.Fetch | lib/hash_schema.rb:206 | `hash.fetch(key, …)` finds a value exactly when the key is one of the data's keys, and then returns the value of its first entry |
| Values.Lookup | lib/hash_schema.rb:206 | a field is looked up under its declared key, then under `key.to_s`, and is the absent-key marker Void when neither is present |
| Values.FetchFirst | lib/hash_schema.rb:206 | `fetch` returns the value of the first entry stored under a key |
| Values.ValueEqRefl | lib/hash_schema.rb:210 | Ruby's `==` on data, where hashes compare as key/value pairs in any order and arrays entry by entry, holds between a value and itself |
| Text.NatToString | lib/hash_schema.rb:33 | the rendering of a natural number in a message is non-empty, all decimal digits, most significant first, with no leading zero |
| Text.NatToStringValue | lib/hash_schema.rb:33 | read back as a number, those digits give the number itself |
| Schemas.LiteralCheck | lib/hash_schema.rb:210 | a literal field or Optional literal is clean exactly when the literal `==` the data in Ruby's sense (hash entry order ignored), so in particular when the data is the literal itself, and otherwise reports `Expected <inspect literal> but got <inspect data>` |
| Schemas.Unexpected | lib/hash_schema.rb:214-219 | strict mode reports only data keys that are not declared, each with `Unexpected key: "<k>"`, and it reports every such key |
| Schemas.UnexpectedInDataOrder | lib/hash_schema.rb:214 | on a hash, whose keys are distinct, the reported keys follow the order of the data's keys (`hash.keys - chain.keys` keeps it), so each undeclared key is reported exactly once |
| Schemas.OrScan | lib/hash_schema.rb:89-101 | Or's loop ends "empty" exactly when some tried alternative gave an empty result or none was tried; its error is then the first empty result, or `nil` when none was tried |
| Schemas.CheckField | lib/hash_schema.rb:207-211 | a declared field's error has the shape of the looked-up value, and a literal field is clean exactly when the literal `==` the value in Ruby's sense |
| Schemas.OrResults | lib/hash_schema.rb:91-93 | an alternative is run exactly when `schema_matches_data_type` admits it, and each result has the data's shape |
| Schemas.Validate | lib/hash_schema.rb:75-216 | the error tree has the data's shape: an array of errors answers an array of the same length entry by entry, and a hash of errors answers a hash field by looked-up field |
| ValidationLemmas.PrimitiveValidation | lib/hash_schema.rb:148-167 | String, Number and Boolean accept exactly data of their type; otherwise the message is `Expected <label> but got <inspect>`, and an absent field is always rejected as `… but got Nothing` |
| ValidationLemmas.OptionalValidation | lib/hash_schema.rb:75-81 | Optional accepts an absent field; otherwise it returns its inner schema's result unchanged, or accepts exactly data its literal `==` in Ruby's sense and reports `Expected <inspect literal> but got …` for the rest |
| ValidationLemmas.BareOptionalValidation | lib/hash_schema.rb:75-80 | `OptionalSchema.new` accepts exactly `nil` and an absent field, and otherwise reports `Expected nil but got …` |
| ValidationLemmas.ValueRenderings | lib/hash_schema.rb:191 | the Enum's member renderings are its values' `inspect`, in order |
| ValidationLemmas.EnumValidation | lib/hash_schema.rb:185-193 | Enum accepts exactly the data some member `==` in Ruby's sense (`include?`), its members themselves included, and otherwise names them all, joined with ", " and " or " |
| ValidationLemmas.AlternativeLabels | lib/hash_schema.rb:105 | the labels of Or's alternatives, in order |
| ValidationLemmas.OrDescription | lib/hash_schema.rb:104-107 | Or describes itself by its alternatives' labels, joined with ", " and " or " |
| ValidationLemmas.ArrayValidation | lib/hash_schema.rb:169-177 | Array rejects non-arrays with `Expected [<element label>]`; on an array, entry i is the element schema's result for item i, with clean entries kept |
| ValidationLemmas.HashValidation | lib/hash_schema.rb:202-216 | Hash rejects non-hashes with `Expected Hash`; otherwise the declared fields come first, in declaration order, each checked against its looked-up value, and nothing else is added unless strict |
| ValidationLemmas.StrictValidation | lib/hash_schema.rb:214 | strict mode leaves the declared entries unchanged and appends the undeclared data keys and no other key, each with its Unexpected-key message; on a hash they come once each, in data order, so the whole result has distinct keys when the declaration has |
| ValidationLemmas.MissingField | lib/hash_schema.rb:206-211 | a field absent under both lookup keys is checked against Void, so a String field reports `Expected String but got Nothing` |
| ValidationLemmas.OrReturnsFirstEmpty | lib/hash_schema.rb:91-98 | Or returns, unchanged, the result of the first tried alternative whose result is empty |
| ValidationLemmas.OrAllFail | lib/hash_schema.rb:97-101 | when some alternative is tried and none gives an empty result, Or reports its own description |
| ValidationLemmas.OrNoneEligible | lib/hash_schema.rb:89-98 | when no alternative suits the data's shape, Or returns `nil` |
| ValidationLemmas.OrResultShape | lib/hash_schema.rb:97-101 | Or's result is either empty in its own sense or its own `Expected` message |
| ValidationLemmas.OrShortCircuit | lib/hash_schema.rb:91-96 | with [A, B], where A is skipped or fails and B gives an empty result, Or returns B's result |
| ValidationLemmas.OrSkipsIneligible | lib/hash_schema.rb:126-135 | a skipped alternative is never run: replacing it by another skipped one with the same label changes nothing |
| ValidationLemmas.VoidGivesLeaf | lib/hash_schema.rb:206 | validating an absent field never yields an array or hash of errors |
| ValidationLemmas.LeavesEmptyIffFlattensToNil | lib/hash_schema.rb:137-145 | the flattened, compacted values of a result are empty exactly when every entry flattens to `nil` (hashes inside arrays are kept) |
| ValidationLemmas.ElemLeavesEmpty | lib/hash_schema.rb:139-141 | the same for the entries of an array result from a given position on, each taken under an array |
| ValidationLemmas.FieldLeavesEmpty | lib/hash_schema.rb:139-141 | the same for the values of a hash result from a given position on, each taken under a hash |
| ValidationLemmas.HashEmptinessIsFlatValues | lib/hash_schema.rb:119-120 | a hash result counts as empty exactly when `recursive_flat_hash_values` of it is empty |
| ValidationLemmas.FlattensToNilHasNoMessages | lib/hash_schema.rb:137-145 | a result that flattens to `nil` holds no message anywhere |
| ValidationLemmas.EmptyErrorHasNoMessages | lib/hash_schema.rb:111-124 | Or never accepts a result that holds a message |
| ValidationLemmas.EmptyErrorIsShallow | lib/hash_schema.rb:113-114 | the converse fails: `[{}]`, and a hash holding it, hold no message yet count as non-empty |
| ValidationLemmas.JoinOrCons | lib/hash_schema.rb:105-106 | a description is the first name, then ", " before each further name except the last, which follows " or " |
| ValidationLemmas.JoinOrSingle | lib/hash_schema.rb:105-106 | a one-name description is `" or X"` |
| InterpreterLemmas.MessageLine | lib/hash_schema.rb:54 | a message line is the ancestors' segments, the message's own segment and the message, joined by " > " |
| InterpreterLemmas.WalkTagsMessages | lib/hash_schema.rb:38-56 | the walk emits one line per message of the tree, in pre-order, each ending in " > " and that message |
| InterpreterLemmas.WalkChildrenTagsMessages | lib/hash_schema.rb:42-52 | the same for the children of a node from a given position on, `nil` children skipped |
| InterpreterLemmas.WalkStaysUnderPath | lib/hash_schema.rb:38-56 | every line emitted below a node starts with the segments of its ancestors joined by " > " |
| InterpreterLemmas.WalkChildrenStayUnderPath | lib/hash_schema.rb:42-52 | the same for the children of a node from a given position on |
| InterpreterLemmas.InterpretLines | lib/hash_schema.rb:9-13 | `interpret` gives one line per message in pre-order, each ending in its message and starting with the root segment (`root:{}`, `root:[]` or `.root`) |
| InterpreterLemmas.NoMessagesIffNone | lib/hash_schema.rb:42-55 | a tree holds no message exactly when its pre-order message list is empty |
| InterpreterLemmas.ChildrenNoMessagesIffNone | lib/hash_schema.rb:42-52 | the same for the children of a node from a given position on |
| InterpreterLemmas.InterpretEmptyIffNoMessages | lib/hash_schema.rb:9-13 | `interpret` returns `[]` exactly when the validation result holds no message |
| InterpreterPaths.RenderUnder | lib/hash_schema.rb:39-40 | adding a node's step in front of every path below it is the same as rendering those paths below that node's `format` segment |
| InterpreterPaths.WalkRendersPaths | lib/hash_schema.rb:38-56 | the walk below a node emits exactly the renderings of the root-to-message paths of that node, in pre-order: the enclosing segments, each path step's `format` segment, then the message, joined by " > " |
| InterpreterPaths.ChildWalkRendersPaths | lib/hash_schema.rb:42-52 | the same for the children of a node from a given position on, `nil` children contributing nothing |
| InterpreterPaths.ChainUnder | lib/hash_schema.rb:44-51 | a chain below a non-`nil` node that is the parent of its first step is a chain again |
| InterpreterPaths.UnderChains | lib/hash_schema.rb:44-51 | putting a non-`nil` node in front of paths that start at its children keeps them chains, each now starting at that node, with the same messages |
| InterpreterPaths.PathsAreChains | lib/hash_schema.rb:38-56 | each path of a tree starts at the tree's node under its name, descends from parent to child (array position or hash key) through non-`nil` nodes, and ends in a message node; the paths' messages are the tree's messages in pre-order |
| InterpreterPaths.ChildPathsAreChains | lib/hash_schema.rb:42-52 | the same for the children of a node from a given position on, each path starting at a child of that node |
| InterpreterPaths.InterpretRendersPaths | lib/hash_schema.rb:9-13 | line j of `interpret` is the `format` segments of the j-th root-to-message chain, root under `root` first, then that message, joined by " > "; the chains are genuine parent-to-child descents and their messages are the tree's messages in pre-order |
| Scenarios.MessageUnder | lib/hash_schema.rb:53-54 | a message below a non-empty path is one line: path, own segment, message |
| Scenarios.RootRecord | lib/hash_schema.rb:11 | a hash of errors is interpreted below the segment `root:{}` |
| Scenarios.SingleFieldLine | lib/hash_schema.rb:38-72 | a hash with one message field k gives `root:{} > .k > <message>` |
| Scenarios.CleanThenMessageLine | lib/hash_schema.rb:44-47 | a clean field gives no line; the following message field gives its own |
| Scenarios.NameFieldValidation | lib/hash_schema.rb:202-212 | `HashSchema(name: String)` on `{name: 5}` gives `{name: "Expected String but got 5"}` |
| Scenarios.NameFieldLine | lib/hash_schema.rb:58-72 | that tree is interpreted as `root:{} > .name > Expected String but got 5` |
| Scenarios.NameFieldInterpretation | lib/hash_schema.rb:9-13 | `interpret` of `{name: 5}` under `HashSchema(name: String)` is that single line |
| Scenarios.CleanFieldsInterpretNothing | lib/hash_schema.rb:44-47 | fields that pass, including an absent optional one, produce no line |
| Scenarios.StrictExtraKeyValidation | spec/hash_schema_spec.rb:237-243 | strict `HashSchema(x: 0)` on `{x: 0, y: 1}` accepts `x` and reports `y` |
| Scenarios.StrictExtraKeyLine | lib/hash_schema.rb:44-54 | that tree is interpreted as `root:{} > .y > Unexpected key: "y"` |
| Scenarios.StrictExtraKeyInterpretation | lib/hash_schema.rb:9-13 | `interpret` of that example is that single line |
| Scenarios.LeafRootScenarios | lib/hash_schema.rb:58-72 | a clean tree gives no line; a bare message is placed under `.root` |
| Scenarios.IndexScenario | lib/hash_schema.rb:59-62 | a message at position 1 of an array renders as the bare `#1` |
| Scenarios.NestedRecordLine | lib/hash_schema.rb:58-66 | a hash at array position 0 renders as `#0:{}`, and its message field `"b"` as `.b` |
| Scenarios.NestedScenario | lib/hash_schema.rb:58-72 | nested nodes render as `a:[]`, `#0:{}` and `.b` |
| Scenarios.OrderScenario | lib/hash_schema.rb:44-47 | lines come in field order, and clean fields are skipped |
| Scenarios.EnumAcceptsMembers | spec/hash_schema_spec.rb:83-93 | `EnumSchema(1, 'a', true)` accepts 1, "a" and true |
| Scenarios.EnumDescription | lib/hash_schema.rb:190-193 | its description is `1, "a" or true` |
| Scenarios.EnumRenderingsJoined | lib/hash_schema.rb:190-193 | the members 1, "a" and true are rendered and joined as `1, "a" or true` |
| Scenarios.EnumRejectionText | lib/hash_schema.rb:32-34 | the message for 2 is `Expected 1, "a" or true but got 2` |
| Scenarios.EnumRejectsOthers | spec/hash_schema_spec.rb:95-97 | the Enum rejects 2 with that message |
| Scenarios.DescriptionScenarios | lib/hash_schema.rb:104-107 | `Or([String], Number)` is described as `[String] or Number` |
| Scenarios.DegenerateDescriptions | lib/hash_schema.rb:104-107 | one-member Or and Enum descriptions read `" or X"`, and an empty Or's reads `" or "` |
| Scenarios.MultitypeScalars | spec/hash_schema_spec.rb:122-128 | the multi-type Or accepts 1 and "a" |
| Scenarios.StringArrayRejectsNumbers | spec/hash_schema_spec.rb:139-143 | `[String]` fails on `[1, 2, 3]` |
| Scenarios.NumberArrayAcceptsNumbers | spec/hash_schema_spec.rb:139-143 | `[Number]` gives `[nil, nil, nil]` on `[1, 2, 3]` |
| Scenarios.MultitypeNumbers | spec/hash_schema_spec.rb:139-143 | the multi-type Or moves past `[String]` and returns `[Number]`'s `[nil, nil, nil]` |
| Scenarios.MultitypeEmptyArray | spec/hash_schema_spec.rb:131-133 | the multi-type Or returns an empty array for `[]` |
| Scenarios.MultitypeHash | spec/hash_schema_spec.rb:145-149 | the multi-type Or returns an empty hash for `{boolean: 5}` |
| Scenarios.MultitypeLabels | lib/hash_schema.rb:105 | its alternatives' labels are Number, String, [String], [Number], Hash |
| Scenarios.MultitypeLabelsJoined | lib/hash_schema.rb:106 | joined, they read `Number, String, [String], [Number] or Hash` |
| Scenarios.MultitypeDescription | lib/hash_schema.rb:104-107 | that is the multi-type Or's description |
| Scenarios.MultitypeBooleanFails | lib/hash_schema.rb:97-101 | on `false` the multi-type Or reports its own description |
| Scenarios.MultitypeRejectionText | lib/hash_schema.rb:32-34 | the message reads `Expected Number, String, [String], [Number] or Hash but got false` |
| Scenarios.MultitypeRejectsBoolean | spec/hash_schema_spec.rb:152-154 | the multi-type Or rejects `false` with that message |
| Scenarios.OrWithoutEligibleAlternative | lib/hash_schema.rb:89-98 | `Or([String])` accepts the number 1, because its only alternative is skipped |
| Scenarios.ArrayOfCleanHashes | lib/hash_schema.rb:169-173 | `[Hash]` gives `[{}]` on `[{}]` |
| Scenarios.ArrayOfHashesRejectionText | lib/hash_schema.rb:104-107 | `Or([Hash])` would report `Expected  or [Hash] but got [{}]` |
| Scenarios.OrRejectsArrayOfCleanHashes | lib/hash_schema.rb:113-114 | `Or([Hash])` rejects `[{}]` with that message, although the data conforms |
| Scenarios.StrictStringKeyReported | lib/hash_schema.rb:206-214 | strict `HashSchema(x: Number)` on `{"x" => 1}` accepts `:x` through the fallback and still reports `"x"` as unexpected |
| Scenarios.ArrayOfHashes | spec/hash_schema_spec.rb:173-175 | `[Hash]` on `[{}, {x: 1}, {y: 2}]` gives `[{}, {}, {}]` |
| Scenarios.ChaosRenderings | lib/hash_schema.rb:32-34 | 1, false, `[]` and `{}` render as `1`, `false`, `[]` and `{}` in String's messages |
| Scenarios.ArrayOfMixedItems | spec/hash_schema_spec.rb:177-179 | `[String]` on `['a', 1, false, [], {}]` gives `nil` for the string and a message for each of the other four items |
| Scenarios.ArrayOfStrings | spec/hash_schema_spec.rb:165-167 | `[String]` on four strings gives four `nil`s |
| Scenarios.InspectNumber | lib/hash_schema.rb:33 | 123 renders as `123` |
| Scenarios.NumberRejection | lib/hash_schema.rb:32-34 | any label's message for 123 ends in `but got 123` |
| Scenarios.ArrayRejectsNumber | spec/hash_schema_spec.rb:169-171 | `[String]` rejects 123 with `Expected [String] but got 123` |
| Scenarios.HashEqualityIgnoresOrder | lib/hash_schema.rb:210 | `{a: 1, b: 2} == {b: 2, a: 1}` holds under Ruby's `Hash#==` |
| Scenarios.HashLiteralInAnyOrder | lib/hash_schema.rb:210 | a hash literal field accepts the same pairs given in another order |
| Scenarios.EnumHashMemberInAnyOrder | lib/hash_schema.rb:186 | an Enum whose member is a hash accepts the same pairs given in another order |
| Scenarios.NestedHash | spec/hash_schema_spec.rb:204-218 | a nested hash with a literal field gives `{hash: {literal: nil}}` |
| Scenarios.HashWithArrayField | spec/hash_schema_spec.rb:220-230 | an array field gives `{array: [nil, nil]}` |
| Scenarios.FieldNamedStrict | spec/hash_schema_spec.rb:246-253 | a field named `strict` passes under strict mode |
| Scenarios.HashRejectsNumber | spec/hash_schema_spec.rb:232-234 | Hash rejects 123 with `Expected Hash but got 123` |
| Scenarios.HashMissingField | lib/hash_schema.rb:206-208 | a missing String field reports `Expected String but got Nothing` |
| Scenarios.HashStringKeyFallback | lib/hash_schema.rb:206 | a declared `:name` is found under the data key `"name"` |
| Scenarios.BareOptionalScenarios | lib/hash_schema.rb:75-80 | `OptionalSchema.new` accepts an absent field and `nil`, and rejects 1 with `Expected nil but got 1` |
| Scenarios.StringRejectsSymbol | lib/hash_schema.rb:148-152 | `StringSchema` rejects the symbol `:a` with `Expected String but got :a` |
| Scenarios.SymbolEnumDescription | lib/hash_schema.rb:190-193 | `EnumSchema.new(:a, :b)` is described as `:a or :b` |
| Scenarios.SymbolEnum | lib/hash_schema.rb:185-188 | `EnumSchema.new(:a, :b)` accepts `:b` and rejects the string `"a"` with `Expected :a or :b but got "a"` |
| Scenarios.OptionalLiteralScenarios | spec/hash_schema_spec.rb:69-77 | `OptionalSchema.new(1)` accepts 1 and rejects 2 with `Expected 1 but got 2` |

## Left out

- `pretty_validate` (lib/hash_schema.rb:17-20) is left out: it only serialises the result through the JSON library.
- The default `expectation` (lib/hash_schema.rb:22-24) derives the label from the class name by reflection. The model uses the fixed labels this yields: String, Number, Boolean, Optional, Hash.
- Values.Inspect: renders strings in double quotes without Ruby's escaping, symbols as `:name` without the quotes Ruby adds to names such as `:"a b"`, and hashes in the `{:k=>v}` form of Ruby before 3.4.
- Data values are strings, symbols, integers, booleans, `nil`, arrays and hashes. Floats and Ruby's cross-type `==` (`1 == 1.0`) are not modelled, and neither are other objects (ranges, times, instances of user classes), whose `==` and `inspect` are their own.
- Values.ValueEq: follows Ruby's `==` for hashes (entry order ignored), arrays and the scalars, except that Ruby creates a fresh `Void` for every lookup and compares it by identity, so a `Void` literal in a schema never matches in Ruby but does in the model. No test uses one.
- The keyword plumbing of `HashSchema.new` (lib/hash_schema.rb:197-199) is left out. A Hash schema is given its field list and strict flag directly.
- A schema class passed where an instance is expected is left out. The multi-type scenarios therefore omit the alternative `HashSchema.new(boolean: HashSchema::BooleanSchema)`, which spec/hash_schema_spec.rb:117 declares. That alternative only adds a failing attempt before the next one on hashes, and one more "Hash" in the description.
- The mutable `@interpretations` accumulator becomes the return value of a pure function.
- Hash keys are symbols or strings. Data hashes are sequences of entries that should have distinct keys, as Ruby hashes do. With a repeated key, lookup uses the first entry and strict mode reports every undeclared entry.
- Cyclic data cannot be expressed with finite datatypes.
- `hash_schema/version` is not part of this model.
- The example that validates five fields at once (spec/hash_schema_spec.rb:185-202) has no scenario. The lemmas for Hash, the primitives, bare Optional and Enum cover each of its fields.
