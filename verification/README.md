# Verified models of ata's core algorithms

ata is a JSON Schema validator. It rewrites schemas, compiles them to JavaScript, TypeScript types and
native code, walks documents and reports errors; many of its parts exist in several forms that have to
agree. This project models the algorithms those agreements rest on and proves that they hold, for all
schemas, documents, texts, graphs and interleavings, or says exactly when they do not.

| part | files |
|---|---|
| a schema split into a type and what the type does not check, references included | `split.dfy`, `split_refs.dfy`, `split_parts.dfy`, `split_walk.dfy`, `split_run.dfy`, `split_precise.dfy`, `split_witness.dfy` |
| filling defaults: reachability, the closure pass, what it writes and where, the generated pass | `reach.dfy`, `defaults.dfy`, `defaults_scalar.dfy`, `defaults_copy.dfy`, `defaults_filled.dfy`, `defaults_order.dfy`, `defaults_made.dfy`, `defaults_depth.dfy`, `defaults_run.dfy`, `defaults_cost.dfy`, `defaults_emit.dfy` |
| what a schema accepts, with references and under each draft | `schemas.dfy`, `similar.dfy` |
| inlining references, and the compiled copy behind `parse()` | `inline.dfy`, `clone.dfy`, `clone_facts.dfy`, `clone_given.dfy`, `clone_emits.dfy`, `clone_witness.dfy`, `clone_accepted.dfy` |
| rewriting draft-07, draft-06 and draft-04; exclusive bounds; `nullable` | `draft7.dfy`, `draft7_facts.dfy`, `draft7_run.dfy`, `bounds.dfy`, `nullable.dfy` |
| position maps of JSON texts and their cache | `positions.dfy`, `positions_map.dfy`, `positions_run.dfy`, `positions_lines.dfy`, `positions_cache.dfy` |
| the native walk, canonical texts, its references | `native.dfy`, `native_facts.dfy`, `native_errors.dfy`, `native_run.dfy`, `native_depth.dfy`, `native_pointer.dfy`, `canonical.dfy`, `canonical_facts.dfy`, `numbers.dfy` |
| the thread pool, parallel results, the slot registry | `pool.dfy` |
| error order, pairing of typos, grouping into diagnostics | `order.dfy`, `correlate.dfy` |
| script-safe rewriting of generated source | `html_safe.dfy` |

How it is set up:

- A document is a value (`Json.Json`); one read member by member, in order, is a `Json.Doc`. Numbers are reals.
- `Schemas.Decided` says what a schema accepts and what it refuses, with fuel spent only on following
  references: a schema that only leads back to itself is decided neither way. Theorems about it hold for
  every amount of fuel.
- Where the source changes state, the model does: classes with the source's fields, loops with the
  source's tests. Each such method is proved to compute a function or to meet a specification, and the
  lemmas beside it are about that function.
- Regular expressions, formats, percent decoding, `JSON.parse` of one string token, edit distance and the
  printing of numbers are given functions; what a theorem needs of them is in its `requires`.

## Model

| member | source | states |
|---|---|---|
| `TypeAlgebra.UnionExact` | lib/bun-target.js:81-82 | `union` denotes set union, kind by kind, duplicates dropped |
| `TypeAlgebra.MeetExact` | lib/bun-target.js:110-127 | two alternatives of one kind meet in their intersection: an alternative for both, or nothing where no value has both |
| `TypeAlgebra.IntersectKindLoop` | lib/bun-target.js:94-104 | the nested loops meet every pair in order, and give up at the first pair that cannot be written or past 256 alternatives |
| `TypeAlgebra.IntersectLoop` | lib/bun-target.js:91-106 | the loop over the six kinds computes `Intersect` |
| `TypeAlgebra.IntersectExact` | lib/bun-target.js:85-106 | whenever it does not return null, `intersect` denotes set intersection |
| `Split.StringExact` | lib/bun-target.js:286-298 | a string meets its rules exactly when it meets the tags carried and the rules left over |
| `Split.NumberExact` | lib/bun-target.js:300-310 | the same for numbers, integer or not, a multiple carried only when whole |
| `Split.MembersMean` | lib/bun-target.js:327-342 | the members of an object type: each declared property in its type, every required name present |
| `Split.AdditionalSplit` | lib/bun-target.js:340-352 | what strictness says together with what is left of additionalProperties |
| `Split.ObjectExact` | lib/bun-target.js:316-354 | the object alternative and the object rules left over say what the rules said |
| `Split.ArrayExact` | lib/bun-target.js:356-393 | the same for arrays: fixed tuples, element types, lengths |
| `Split.FoldAllOfExact` | lib/bun-target.js:497-507 | folding allOf into the type keeps a branch whole where its type cannot be met, and loses nothing |
| `Split.FoldAnyOfExact` | lib/bun-target.js:509-523 | folding anyOf is exact when every branch is carried whole |
| `Split.ConvExact` | lib/bun-target.js:415-525 | type and residual together: complete always, exact where closed objects declare what they require and each name, with what is kept beside it, says what its reference stands for |
| `Split.SplitSound` | lib/bun-target.js:224-230 | no value the schema accepts is refused by the split, for every schema, whatever its references stand for |
| `Split.SplitExact` | lib/bun-target.js:316-525 | a value has the type and satisfies the residual exactly when the schema accepts it, through every nesting, under the same conditions |
| `SplitRefs.RefsKeepSound` | lib/bun-target.js:269-284 | with references followed through the document, cyclic ones included, names and residuals refuse nothing the schema accepts, in whatever order they were written |
| `SplitRefs.RefsKeepExact` | lib/bun-target.js:248-284 | they are exact when each entry is what its schema gives once it is known which targets have a residual |
| `SplitRefs.WrittenExact` | lib/bun-target.js:531-547 | the same with the residual read as a document of its own, where nothing copied into it refers to the root |
| `SplitRun.Splitter.Refer` | lib/bun-target.js:428-442 | a reference met: its target named, and gone through when it is met for the first time |
| `SplitRun.Splitter.Build` | lib/bun-target.js:269-284 | `alias`: the type of the first time, the residual of the second, when there is one |
| `SplitRun.Splitter.Meet` | lib/bun-target.js:415-525 | what converting a schema goes through, in order; what it found stays so as long as nothing it assumed is overturned |
| `SplitRun.Splitter.ConvertRoot` | lib/bun-target.js:527-528 | the root, gone through again when it has a residual and was referred to |
| `SplitRun.SplitDocument` | lib/bun-target.js:224-551 | the whole conversion computes `SplitOf`; its table is consistent where no reference on a cycle leads to a target with a residual, without cycles in particular, and then exactly the schemas a type can say whole have no residual |
| `SplitPrecise.MeetIff` | lib/bun-target.js:110-127 | `meet` gives up exactly on a literal against a rule, a closed object against another shape, and two different array types |
| `SplitPrecise.IntersectIff` | lib/bun-target.js:85-106 | `intersect` returns null exactly when a type is a name, two alternatives of a kind cannot be met, or there would be more than 256 of them |
| `SplitPrecise.CarriableIff` | lib/bun-target.js:286-525 | no residual exactly for the schemas whose every keyword a type can say, through properties, elements, tuples, allOf and anyOf |
| `SplitPrecise.TypeDecides` | lib/bun-target.js:224-230 | for those schemas the type alone decides: its values are the values the schema accepts |
| `SplitPrecise.TypesDecide` | lib/bun-target.js:269-284 | the same with references, cyclic ones included, followed through the document |
| `SplitPrecise.KeepsOnly` | lib/bun-target.js:286-523 | where a type takes part of a schema, each keyword left is one it cannot say: a pattern that reads differently, a format without an expression, a multiple that is not whole, the residual of a part, a branch whose type cannot be met |
| `SplitWitness.MutualLoses` | lib/bun-target.js:269-284 | two definitions that refer to each other, a value the schema refuses and the split accepts |
| `SplitWitness.ListsLose` | lib/bun-target.js:276-282 | a definition that refers to itself, where the type of the first time and the residual of the second leave a rule out |
| `SplitWitness.ArraysLose` | lib/bun-target.js:514-537 | a reference to the root copied into the residual, where it means the residual |
| `Split.UndeclaredRequired` | lib/bun-target.js:337-344 | the input on which the split is too wide: required `k`, nothing declared, additionalProperties false, value `{"k": null}` |
| `Split.ClosedExactIff` | lib/bun-target.js:337-344 | on closed objects the split is exact for every value if and only if every required name is declared |
| `SchemaGraph.NothingBelow` | lib/defaults.js:115-120 | if nothing below reaches a default without coming back, nothing does at all |
| `SchemaGraph.ReachMemo.ReachesDefault` | lib/defaults.js:121-139 | asked with an empty stack the answer is 1 exactly when a default is reachable, on cyclic graphs too; every kept answer is exact |
| `SchemaGraph.ReachMemo.Decide` | lib/defaults.js:136-138 | a definite answer is kept, one that rests on an open schema is not |
| `SchemaGraph.ReachMemo.ReachDefault` | lib/codegen-engine.js:852-874 | the generator's walk, place by place, gives the same answers |
| `DefaultsPass.ApplyGrows` | lib/defaults.js:252-293 | whatever the schema and its defaults, no existing member is changed or removed |
| `DefaultsPass.MadeChainBounded` | lib/defaults.js:189-195 | inside a made value a chain of applications is no longer than the schemas not yet applied, so the depth bound is not met there where one level per remaining schema is left |
| `DefaultsScalar.ApplyIdle` | lib/defaults.js:177-199 | where everything an application leads to is filled, it writes nothing |
| `DefaultsScalar.PlanLeads` | lib/defaults.js:202-250 | what the schema says applies next, the compiled plan carries out, wherever a default is reachable |
| `DefaultsCopy.CopyHolds` | lib/defaults.js:155-157 | a copy holds its default, elements and members in order, in containers of its own; none that was there is changed |
| `DefaultsCopy.FillOrder` | lib/defaults.js:258-265 | members are added after those there were, in the order of the schema's properties, to this object only |
| `DefaultsCopy.LedNext` | lib/defaults.js:202-292 | whatever a compiled plan applies next, the schema says applies |
| `DefaultsCopy.RunExplained` | lib/defaults.js:177-293 | whatever the schema and its defaults: every member in the result was there, belongs to a copied default, or is itself a copy of the default that a schema applying to its object has for it |
| `DefaultsFilled.EveryDefaultFilled` | lib/defaults.js:177-293 | after the pass every object of the document has each defaulted property of every schema that applies to it through any chain, `dependentSchemas`, object defaults and recursion included, `visits` and `made` notwithstanding |
| `DefaultsOrder.FirstDecides` | lib/defaults.js:252-292 | with scalar defaults an object gets, for each property it lacks, the default of the first schema to apply to it: a schema before its `$ref`, that before its `allOf` in order, and at a member the schemas for its property, its patterns and the additional ones of each schema of the parent in turn |
| `DefaultsScalar.SecondRunIdle` | lib/defaults.js:177-293 | a second pass changes nothing |
| `DefaultsMade.MadeFilled` | lib/defaults.js:189-195 | inside a value the pass made, every chain of applications through schemas not applied around it, and no two alike, is carried out |
| `DefaultsMade.NovelFilled` | lib/defaults.js:258-273 | where an object or array default is written, that is so from the schema it stands under, with those applied to the enclosing values left out |
| `DefaultsDepth.ApplyRoom` | lib/defaults.js:177-188 | `visits` lets each counted schema apply to a container once, so a chain takes no more levels than those, and two, at each level of the document |
| `DefaultsDepth.DepthEnough` | lib/defaults.js:177-188 | on a document of height h the depth bound is not met when (h + 1) times the number of schema objects and two is within it, however the schemas recurse |
| `DefaultsRun.Compiler.Compile` | lib/defaults.js:164-168 | `compileNode`: the function of a schema object, handed out before its body is built, null where no default is reachable |
| `DefaultsRun.Compiler.BuildBody` | lib/defaults.js:202-250 | everything below compiled, then the plan stored; nothing else stays unbuilt |
| `DefaultsRun.CompileRoot` | lib/defaults.js:32-41 | compiling a cyclic graph ends, with plans that say what each schema says and refer only to one another |
| `DefaultsRun.Pass.FillDefaults` | lib/defaults.js:258-265 | the node's own defaults, each copied where the key is absent |
| `DefaultsRun.Pass.CallFn` | lib/defaults.js:177-199 | one call with its depth test, its `visits` and its `made` set is one application |
| `DefaultsRun.Pass.CallEach` | lib/defaults.js:266-292 | the body's loops apply in order, each place read when its turn comes |
| `DefaultsRun.Pass.RunOn` | lib/defaults.js:40-40 | a run starts with an empty path and no visits |
| `DefaultsRun.FillDocument` | lib/defaults.js:32-41 | built and run in place: nothing existing changes, each member added is the copied default of a schema that applies there, every default that applies is there; with scalar defaults which one it is, and a second run is idle |
| `DefaultsEmit.ExecFrame` | lib/codegen-engine.js:971-977 | a block entered below an object neither reads nor writes that object |
| `DefaultsEmit.OrdersAgree` | lib/codegen-engine.js:948-978 | writing each default just before entering its property leaves what writing all of them first leaves |
| `DefaultsEmit.ApplyIsExec` | lib/codegen-engine.js:932-1030 | the closure pass, skipping what it has applied, leaves what the block written out in full leaves |
| `DefaultsEmit.PassesAgree` | lib/codegen-engine.js:932-1030 | the generated pass and the closure pass leave the same document, with the same default where several schemas supply one |
| `DefaultsEmit.PassesAgreeShallow` | lib/codegen-engine.js:932-1030 | the same on every document that leaves the depth bound that room |
| `DefaultsCost.EndlessIff` | lib/codegen-engine.js:879-884 | written out in full a block has no end exactly when some chain of blocks within blocks comes back to one of them or to a schema that needs a pattern |
| `DefaultsEmit.Emitter.EmitDefaults` | lib/codegen-engine.js:932-1030 | declines exactly when the block written out in full has no end, enters a block past 4000 lines, or holds too many characters of defaults; otherwise the block, and the lines and characters it took |
| `DefaultsEmit.Emitter.EmitSteps` | lib/codegen-engine.js:948-978 | each property's default and block, with the same account of when it declines |
| `DefaultsEmit.Emitter.EmitNode` | lib/codegen-engine.js:948-1029 | the whole block of a schema object, in the closure pass's order, with the same account |
| `DefaultsEmit.Emitter.EmitArray` | lib/codegen-engine.js:981-999 | the elements of an array inside one test for an array, written only when one of them has a block |
| `DefaultsEmit.Emitter.PatternsNeeded` | lib/codegen-engine.js:879-884 | answers whether a default depends on a pattern |
| `DefaultsEmit.Preprocess` | lib/codegen-engine.js:1035-1074 | a program is returned exactly when a default is reachable and its blocks, references written out, come to an end within the bounds; it is the block of the root |
| `Schemas.DecidedMore` | lib/clone-emit.js:25-39 | more references allowed in a row decide no less, and the same way |
| `Schemas.DecidedOnce` | lib/clone-emit.js:25-39 | nothing is both accepted and refused, cyclic references included |
| `Schemas.LookupDefinition` | lib/clone-emit.js:25-39 | a pointer to a definition looks the name up in that table, by either of the table's names |
| `Similar.SimilarExact` | lib/draft7.js:34-122 | schemas related by a relation that carries over to every part and every reference accept, and refuse, the same values |
| `Inline.WalkSame` | lib/clone-emit.js:66-95 | the result differs from the schema only by references replaced by what they name, each with the default beside it and without that of the definition |
| `Inline.DefaultKept` | lib/clone-emit.js:77-93 | replaced or not, a schema has a default afterwards exactly when it had one itself, and that one |
| `Inline.InlineExact` | lib/clone-emit.js:51-97 | the inlined schema accepts and refuses exactly what the original does against its root, cyclic graphs included |
| `Inline.InlineComplete` | lib/clone-emit.js:66-97 | bare references without a cycle are all replaced, unless the budget ran out |
| `Inline.Inliner.Visit` | lib/clone-emit.js:66-95 | the loop on `cur` with the shared budget and the set of active references computes `Walk`, and ends |
| `Inline.InlineRefsForClone` | lib/clone-emit.js:51-97 | a schema that embeds a resource comes back as it is, any other inlined |
| `CloneFacts.PrimitiveScalar` | lib/clone-emit.js:358-371 | a schema read as primitive accepts nothing that could hold a key |
| `CloneFacts.TupleScalars` | lib/clone-emit.js:382-388 | a tuple copied whole holds scalars only |
| `CloneEmit.CloneRuns` | lib/clone-emit.js:172-340 | evaluating the emitted object expression gives the copy: declared keys present, defaults of absent optional ones, every key under a record schema |
| `CloneEmit.ValueRuns` | lib/clone-emit.js:373-414 | the same for every kind of value the emitter takes |
| `CloneEmit.AcceptedShaped` | lib/clone-emit.js:373-414 | an accepted value has the form the emitted expression reads, so it never throws |
| `CloneFacts.CopyTidy` | lib/clone-emit.js:342-349 | the copy of an accepted value holds undeclared keys nowhere, exactly when no default filled in brings one |
| `CloneFacts.NamesDecide` | lib/clone-emit.js:111-150 | the names `requiredNames` collects decide the name demands of a node and its in-place applicators |
| `CloneFacts.CopyKeepsNames` | lib/clone-emit.js:231-238 | dropping undeclared keys costs no name the schema or its applicators require |
| `CloneFacts.NameCollector.Visit` | lib/clone-emit.js:119-150 | the recursion that adds to a shared set computes those names, and says where it cannot tell |
| `CloneFacts.CopySettled` | lib/clone-emit.js:172-340 | a copy leaves a value as it is exactly when its objects hold declared members only and lack none with a default, at every depth |
| `CloneFacts.CopyTwice` | lib/clone-emit.js:172-340 | copying the copy changes nothing if and only if every default filled in is settled |
| `CloneFacts.ParseCopies` | lib/clone-emit.js:416-420 | on every document the schema accepts, the program of `cloneExprFor` returns its copy under the inlined schema, with no undeclared key exactly when no default brings one |
| `CloneGiven.ParseGiven` | lib/clone-emit.js:416-420 | what the program returns, read off the schema as given, references followed where they stand: members the document has are copied, an absent one is there exactly when a default is written under its property, beside a reference or not, and is that default |
| `CloneEmits.EmittedIff` | lib/clone-emit.js:172-414 | a schema gets a program exactly when each level of its inlined form is one that can be copied, its defaults hold, and together they are no longer than the budget |
| `CloneFacts.ParseTwice` | lib/clone-emit.js:416-420 | the program applied to its own result changes nothing if and only if every default filled in is settled |
| `CloneWitness.DefaultNotFixed` | lib/clone-emit.js:250-260 | an emitted program, an accepted document and a default that holds: the copy carries an undeclared key, and the second copy drops it |
| `CloneAccepted.CopyAccepted` | lib/clone-emit.js:373-414 | the copy of an accepted value is accepted again where what is rebuilt has only keywords about its own kind, members and elements |
| `CloneAccepted.ParseAccepted` | lib/clone-emit.js:416-420 | so what the program returns for an accepted document is accepted by the schema |
| `CloneAccepted.CopyRefused` | lib/clone-emit.js:172-340 | an emitted program and an accepted document whose copy the schema refuses: an object listed under `enum` with a member that is not declared |
| `Draft7Facts.LookupNormal` | lib/draft7.js:65-69 | a reference to a definition names, in the rewritten schema, the rewritten form of what it named |
| `Draft7Facts.NormalizeExact` | lib/draft7.js:34-122 | a value is accepted under draft-07, 06 or 04 exactly when the rewritten schema accepts it under 2020-12, and refused likewise |
| `Draft7Facts.IdentifierMoved` | lib/draft7.js:42-63 | an identifier that is a plain name becomes the anchor of that name unless there is one, any other stays the `$id`, under the draft's own spelling of it |
| `Draft7Facts.NormalizeTwice` | lib/draft7.js:34-122 | rewriting twice is rewriting once |
| `Draft7Run.SchemaObject.DropRefSiblings` | lib/draft7.js:52-56 | the loop that deletes siblings of a reference leaves the kept keys alone |
| `Draft7Run.SchemaObject.MoveDependencies` | lib/draft7.js:72-81 | the loop over dependencies distributes them over the two keywords |
| `Draft7Run.SchemaObject.Rewrite` | lib/draft7.js:34-92 | the in-place steps on one object compute `Rewritten` |
| `Draft7Run.NormalizeSchema` | lib/draft7.js:34-122 | the in-place recursion computes `Normalize` |
| `ExclusiveBounds.WalkedNumeric` | lib/draft7.js:145-174 | whatever the document, no boolean is left under either name, anywhere |
| `ExclusiveBounds.WalkedFixed` | lib/draft7.js:145-174 | a document comes back unchanged exactly when no object in it, schema or not, had such a boolean |
| `ExclusiveBounds.BoundsExact` | lib/draft7.js:133-143 | where the booleans stand only in schema objects, the rewritten schema accepts and refuses what the original does as draft-04 reads it |
| `ExclusiveBounds.ConstIff` | lib/draft7.js:173-173 | a value under `const` is walked too: a schema of `const` alone keeps its meaning if and only if no object in the value has such a boolean |
| `ExclusiveBounds.PropertiesIff` | lib/draft7.js:154-173 | a table of properties with boolean schemas, other names allowed or not, keeps its meaning if and only if each property of either name has exactly the boolean that the other names have |
| `ExclusiveBounds.SchemaObject.FoldBounds` | lib/draft7.js:154-171 | the two in-place foldings |
| `ExclusiveBounds.Walk` | lib/draft7.js:145-174 | the in-place walk through every key computes `Walked` |
| `NullableTypes.NullableExact` | lib/draft7.js:177-258 | without `nullable`, the document gone through accepts and refuses what the original does with it, references to definitions and to component schemas included |
| `NullableTypes.DecodedRefers` | lib/draft7.js:227-232 | a reference to a definition written with percent escapes is written decoded and names the same definition, unless one goes by the escaped text itself |
| `NullableTypes.NormalizeNullable` | lib/draft7.js:177-188 | the worklist goes through the document and exactly those component schemas that references lead to, each once, and ends |
| `NullableTypes.ReachedEnough` | lib/draft7.js:180-187 | what the worklist goes through is all that the meaning of the document needs |
| `NullableTypes.FoldTwice` | lib/draft7.js:204-258 | a schema walked once is left alone by a second walk |
| `NullableTypes.ReferredIdle` | lib/draft7.js:180-187 | what a reference into the definitions names has been walked already, so walking it again changes nothing |
| `NullableTypes.FoldNullable` | lib/draft7.js:204-258 | the in-place walk over schema keywords computes `Folded` |
| `PositionFacts.EscapeRoundTrip` | lib/data-positions.js:93-95 | an escaped name reads back as the name and holds no slash (section 3 of RFC 6901) |
| `PositionFacts.NodesDistinct` | lib/data-positions.js:67-129 | with unique member names no two values share a pointer |
| `PositionFacts.WalkRender` | lib/data-positions.js:67-129 | on a well-formed text the walk ends where the value does and records every value in it |
| `PositionTargeted.SkipValueRender` | lib/data-positions.js:257-278 | skipping by counting brackets ends where the value does, brackets in strings notwithstanding |
| `PositionTargeted.TWalkRender` | lib/data-positions.js:280-338 | the skipping walk records exactly the wanted entries, and stops early only once all are found |
| `PositionMaps.FullMapExact` | lib/data-positions.js:14-180 | with unique names the full map holds exactly the document's JSON pointers, each with the span of its value |
| `PositionMaps.FullMapLast` | lib/data-positions.js:177-177 | with names repeated the keys are still exactly the pointers, and each entry is that of the last value so named |
| `PositionMaps.TargetedAgrees` | lib/data-positions.js:203-386 | for every wanted pointer the entry of the full map, none for an absent one, nothing else |
| `PositionRun.InterestOf` | lib/data-positions.js:209-219 | the loop collects exactly the prefixes of the wanted pointers |
| `PositionRun.Walker.Full` | lib/data-positions.js:22-28 | the state of the full walk before it starts, a byte order mark passed over |
| `PositionRun.Walker.Targeted` | lib/data-positions.js:208-228 | the state of the targeted walk before it starts |
| `PositionRun.Walker.SkipSpace` | lib/data-positions.js:30-35 | the cursor moves past white space and no further |
| `PositionRun.Walker.TakeString` | lib/data-positions.js:47-63 | a string token read: where it ends, what it stands for, or a refusal |
| `PositionRun.Walker.WalkValue` | lib/data-positions.js:67-129 | the recursive walk over cursor and arrays computes `Walk`, on arbitrary text, and ends |
| `PositionRun.Walker.WalkMembers` | lib/data-positions.js:75-97 | the loop over members |
| `PositionRun.Walker.WalkItems` | lib/data-positions.js:101-113 | the loop over elements, ending where nothing is read |
| `PositionRun.Walker.SkipOne` | lib/data-positions.js:257-278 | the skip over cursor and depth computes `SkipValue` |
| `PositionRun.Walker.TargetValue` | lib/data-positions.js:280-338 | the targeted walk with its `remaining` counter computes `TWalk`, on arbitrary text, and ends |
| `PositionRun.Walker.TargetMembers` | lib/data-positions.js:295-312 | the loop over members, left as soon as nothing remains |
| `PositionRun.Walker.TargetItems` | lib/data-positions.js:316-326 | the loop over elements, left as soon as nothing remains |
| `PositionLines.StartTable` | lib/data-positions.js:136-139 | the table of line starts |
| `PositionLines.LineOf` | lib/data-positions.js:141-148 | the binary search finds the line the offset is on |
| `PositionLines.OffsetRoundTrip` | lib/data-positions.js:153-158 | line and column convert back to the offset |
| `PositionLines.PlaceRoundTrip` | lib/data-positions.js:153-176 | the same for every entry, its name token included |
| `PositionLines.CutShowsValue` | lib/data-positions.js:155-169 | a line of up to 200 characters is the text, with the value's first character at `col`; of a longer one the text is exactly 200 characters, with that character at `textCol`, the 61st unless the line begins or ends too near |
| `PositionLines.PlaceOne` | lib/data-positions.js:150-176 | one entry built from the arrays |
| `PositionCache.WalkInText` | lib/data-positions.js:67-129 | on arbitrary text every recorded span starts inside the text, not on a line feed |
| `PositionCache.PlaceEntries` | lib/data-positions.js:150-178 | the loop over the arrays builds the map, a later entry replacing an earlier one |
| `PositionCache.BuildFull` | lib/data-positions.js:14-180 | the full map, or nothing where the walk throws |
| `PositionCache.BuildTargeted` | lib/data-positions.js:203-386 | the targeted map, or nothing where the walk throws |
| `PositionCache.Cache.Get` | lib/data-position-cache.js:65-84 | answers with the full map, kept by text |
| `PositionCache.Cache.Targeted` | lib/data-position-cache.js:32-64 | a view over the kept map, else over the targeted one; null when nothing is asked for or the walk throws |
| `PositionCache.Cache.Reset` | lib/data-position-cache.js:85-88 | nothing is kept |
| `PositionCache.View.Get` | lib/data-position-cache.js:47-58 | the entry, an absence for a wanted pointer, the full map's answer for any other, built once |
| `PositionCache.View.Has` | lib/data-position-cache.js:59-62 | says whether there is one |
| `PositionCache.ViewIsFull` | lib/data-position-cache.js:32-64 | on a well-formed text with unique names the view is the full map for every pointer there is |
| `CanonicalFacts.SameText` | binding/ata_napi.cpp:259-280 | values equal up to member order have the same canonical text |
| `CanonicalFacts.TextTells` | binding/ata_napi.cpp:229-282 | the text tells the value, whatever follows it |
| `CanonicalFacts.CanonDecides` | binding/ata_napi.cpp:229-282 | the same canonical text exactly when equal up to member order, at every depth, for documents whose numbers are printed apart |
| `CanonicalFacts.EnumDecides` | binding/ata_napi.cpp:466-488 | a value is among the listed texts exactly when it equals one of the listed values |
| `CanonicalFacts.HasDuplicate` | binding/ata_napi.cpp:580-594 | the set of texts seen finds a repetition exactly when there is one |
| `CanonicalFacts.DuplicateDecides` | binding/ata_napi.cpp:580-594 | a repeated text exactly when a repeated value |
| `Numbers.DecimalsOk` | binding/ata_napi.cpp:233-242 | what equality by text asks of the printing of numbers can be met on all numbers with finitely many decimals |
| `Numbers.DoubleFinite` | binding/ata_napi.cpp:233-242 | every double is such a number |
| `NativeFacts.ErrorsIff` | binding/ata_napi.cpp:304-794 | the list of appended errors is empty exactly when the boolean semantics accepts, at every recursion depth |
| `NativeErrors.ErrorsExact` | binding/ata_napi.cpp:304-794 | an error is in the list exactly when a value that the schema's places lead to, at the error's path, breaks the keyword its code stands for |
| `NativeErrors.EveryPathNames` | binding/ata_napi.cpp:596-720 | the path of every error names a value of the document that breaks a keyword of that code |
| `NativeRun.ValidateDirect` | binding/ata_napi.cpp:947-958 | a whole document: the verdict, no errors exactly when it is valid, and exactly the errors that `Fails` describes, each at the path of a value of the document |
| `NativeDepth.DepthFree` | binding/ata_napi.cpp:295-319 | where the limit of 100 calls is not reached, the depth makes no difference to the verdict |
| `NativePointer.PointerReaches` | binding/ata_napi.cpp:338-427 | the pointer to a subschema, split and decoded, leads to it exactly when its last token is not empty |
| `NativePointer.TokenBack` | binding/ata_napi.cpp:341-365 | decoding undoes escaping, and an escaped token holds no slash |
| `NativeRun.Walker.Validate` | binding/ata_napi.cpp:304-794 | the errors already there stay as a prefix; what is appended is the list that `ErrorsExact` describes, at least one exactly when the value is refused |
| `NativeRun.Walker.WalkNode` | binding/ata_napi.cpp:330-794 | a node's keywords in order |
| `NativeRun.Walker.CheckContains` | binding/ata_napi.cpp:607-627 | contains with its least and greatest count |
| `NativeRun.Walker.WalkMember` | binding/ata_napi.cpp:661-693 | one member: its property, the patterns it matches, else what is additional, its errors at the path of the member |
| `NativeRun.Walker.CheckOneOf` | binding/ata_napi.cpp:755-768 | exactly one branch without errors |
| `NativeRun.Walker.CheckNot` | binding/ata_napi.cpp:770-778 | an error exactly when the negated schema finds none |
| `NativeRun.Walker.WalkConditional` | binding/ata_napi.cpp:780-793 | the branch `if` chooses, its errors appended |
| `NativeRun.Walker.WalkAllOf` | binding/ata_napi.cpp:725-736 | one error and the branch's own for each branch that fails |
| `ThreadPool.StepGood` | binding/ata_napi.cpp:1066-1106 | every step of every submitter and worker keeps the counter equal to what was counted and not finished |
| `ThreadPool.RunGood` | binding/ata_napi.cpp:1060-1125 | so does every run |
| `ThreadPool.WaitMeansFinished` | binding/ata_napi.cpp:1103-1106 | once the counter is zero, everything counted so far is finished |
| `ThreadPool.ChunkBounds` | binding/ata_napi.cpp:1457-1464 | the chunks partition the lines, one for a worker at most |
| `ThreadPool.RunWritten` | binding/ata_napi.cpp:1466-1476 | in every reachable state the lines done hold their verdict, the others are untouched, and the count is that of finished chunks |
| `ThreadPool.ParallelIsSequential` | binding/ata_napi.cpp:1456-1479 | once `wait` has returned to a caller that submitted its chunks, results and count are those of checking line after line |
| `SlotRegistry.Registry.Register` | binding/ata_napi.cpp:1147-1177 | the same text gets the same slot for good, a slot given out never changes, capacity and compile failures register nothing |
| `SlotRegistry.Registry.Lookup` | binding/ata_napi.cpp:1181-1184 | a registered slot is checked with the compiled form of its text |
| `ErrorOrder.StableSortUnique` | lib/combined-runtime.js:60-64 | there is one stable sort |
| `ErrorOrder.ReaderExists` | lib/combined-runtime.js:60-64 | for any ranks there is a reader that sorts stably, branch errors first |
| `ErrorOrder.ApState.Ap` | lib/combined-runtime.js:33-58 | appending keeps track of whether the list is in order |
| `ErrorOrder.InOrder` | lib/combined-runtime.js:32-58 | if `mo` still holds after any appends, the list already is what the reader returns |
| `ErrorOrder.KeysDecide` | lib/combined-runtime.js:71-87 | without an unknown key and without two undecided errors, the keys order as the ranks do |
| `ErrorOrder.Insert` | lib/combined-runtime.js:89-96 | one step of the insertion sort over the two arrays is stable |
| `ErrorOrder.AnyUndecided` | lib/combined-runtime.js:82-88 | the nested loops find two errors with one coarse key and different paths |
| `ErrorOrder.Sr` | lib/combined-runtime.js:65-98 | the answer is the reader's stable sort, sorted here or handed over |
| `Correlate.Nearest` | lib/correlate.js:73-82 | the first best distance of a row, and whether it is unique |
| `Correlate.Buckets` | lib/correlate.js:45-57 | the errors by container, in order |
| `Correlate.MatchFor` | lib/correlate.js:73-96 | the extra name a missing one is mistaken for, asked from both sides |
| `Correlate.CorrelateTypos` | lib/correlate.js:25-104 | two errors are paired exactly when each is the other's unique nearest at distance 1 or 2 in one container |
| `Correlate.MatchingFacts` | lib/correlate.js:19-24 | the pairing is a symmetric matching without fixed points |
| `Diagnose.Group` | lib/diagnose.js:29-46 | the loop with its `consumed` set puts every error into one diagnostic, pairs merged; its position is that of its frame, its rank and pointer those of its error, or of its pair |
| `Diagnose.LabelsOrder` | lib/diagnose.js:48-52 | the order of the labels is that of line, then column, then rank, then pointer, as long as columns stay below the factor of a line |
| `Diagnose.ToDiagnostics` | lib/diagnose.js:22-56 | every error is in exactly one diagnostic, each labelled from its errors, in the order of line, column, rank and pointer |
| `HtmlSafe.SafeIsClean` | lib/aot-impl.js:1343-1372 | the output holds no `</script`, in any case, and no `<!--` |
| `HtmlSafe.LiteralKept` | lib/aot-impl.js:1348-1352 | a well-formed string literal decodes to the same string afterwards, whatever run of backslashes stands before a `<` |
| `HtmlSafe.LiteralInPlace` | lib/aot-impl.js:1358-1372 | a literal in the source is rewritten on its own, between rewritten surroundings, and means the same |
| `HtmlSafe.SafeNext` | lib/aot-impl.js:1364-1370 | up to the next match the text is kept, but for the last of an odd run of backslashes |
| `HtmlSafe.CountBackslashes` | lib/aot-impl.js:1366-1367 | the loop counts the run before a match, no further back than the last one |
| `HtmlSafe.MakeSafe` | lib/aot-impl.js:1358-1372 | the one-pass loop computes `Safe` |

## Findings

Where the code does not do what its documentation promises, the model keeps the code, a lemma gives the
input, and the exact condition is proved.

- `Split.UndeclaredRequired`, `Split.ClosedExactIff` (lib/bun-target.js:337-344): a required name that is not
  declared becomes a member of the type, so a closed type admits it. With `required: ["k"]`, no properties and
  `additionalProperties: false`, the split accepts `{"k": null}` and the schema nothing. Exact if and only if
  every required name is declared.
- `ExclusiveBounds.PropertiesIff` (lib/draft7.js:154-173): the walk reads a table of properties as a schema and drops a
  property of either name whose schema is a boolean. `{"properties": {"exclusiveMinimum": false}}` comes out accepting
  `{"exclusiveMinimum": 1}`; `{"properties": {"exclusiveMinimum": true}, "additionalProperties": false}` comes out
  refusing it. For boolean property schemas beside a boolean `additionalProperties` (absent is `true`), harmless if and
  only if each such property has exactly that boolean. In general it is enough that no table of schemas has a boolean
  under either name (`Placed` in `ExclusiveBounds.BoundsExact`): `patternProperties`, `dependentSchemas` and the
  tables of definitions lose names in the same way.
- `ExclusiveBounds.ConstIff` (lib/draft7.js:173-173): values under `const` are rewritten as schemas are. For `const` alone harmless if
  and only if no object in the value has a boolean under either name.
- `CloneWitness.DefaultNotFixed`, `CloneFacts.ParseTwice`, `CloneFacts.ParseCopies` (lib/clone-emit.js:250-260,
  342-349): a default is copied whole, so one that holds a member its property does not declare puts that member
  into the sanitised copy, and copying the copy drops it. The property `a` that declares only `x`, with default
  `{"x": 1, "y": 2}`, and the document `{}`, show both. Exact conditions: no default filled in holds an undeclared
  key; every default filled in is settled.
- `CloneAccepted.CopyRefused` (lib/clone-emit.js:172-340): the copy of an accepted document need not be accepted.
  `{"type": "object", "properties": {"x": {"type": "number"}}, "enum": [{"x": 1, "y": 2}]}` accepts `{"x": 1, "y": 2}`
  alone and is compiled; the copy `{"x": 1}` is refused. `CloneAccepted.ParseAccepted`: it is accepted where every
  object and array that is rebuilt has no keywords but its type, its properties, required names, additionalProperties
  or items, and annotations.
- `SplitWitness.MutualLoses`, `SplitWitness.ListsLose` (lib/bun-target.js:269-284, where lib/bun-target.js:248-252 says
  that a cycle through a residual stays a cycle): a definition met while another is being built takes that one to have no
  residual, and is not built again when it turns out to have one. With `a` = `{"items": {"$ref": "#/$defs/b"}, "not":
  {"type": "null"}}`, `b` = `{"items": {"$ref": "#/$defs/a"}}` and a root that refers to `a`, the split accepts `[[null]]`. A
  definition that is built twice keeps the type of the first time: with `l` = `{"allOf": [{"anyOf": [{"type": "array",
  "items": {"$ref": "#/$defs/l"}}]}, {"type": "array", "minItems": 1}]}` and a root that refers to it, the split accepts `[]`. Nothing is lost where
  the entries are consistent (`SplitRefs.RefsKeepExact`), which `SplitRun.SplitDocument` ensures where no reference on a
  cycle leads to a target with a residual.
- `SplitWitness.ArraysLose` (lib/bun-target.js:514-537): a branch copied whole into the residual may refer to the root, which
  there is the residual. `{"type": "array", "items": {"anyOf": [{"$ref": "#"}]}}` accepts `[5]`. The check for such a reference
  is made only when the root was not gone through again. `SplitRefs.WrittenExact`: nothing is lost where no residual and no
  definition refers to the root.
- `NativePointer.PointerReaches` (binding/ata_napi.cpp:368-374): a slash at the end of a pointer begins no further
  token, so a schema under the property or definition named by the empty string is not found. Every other
  pointer to a subschema leads to it, if and only if.
- `PositionMaps.FullMapLast` (lib/data-positions.js:177-177): with repeated member names the map keeps the last
  value; `PositionMaps.TargetedAgrees` therefore needs unique names, since the targeted walk stops at the first.

Where the code and its comments disagree: `byteOffset` (lib/data-positions.js:154) is an offset in
characters. The comment at lib/clone-emit.js:195-199 says an object without additionalProperties is declined; the
code declines only `true`. The comment at lib/clone-emit.js:279-280 says defaults under record values are
dropped; nothing drops them. The branch at lib/data-positions.js:288 is never taken: a wanted pointer is always
of interest.

## Left out

- Split.SplitExact: the schema language leaves out the array form of `items`, boolean exclusive bounds and the refusal past 200 levels of nesting; keywords no type carries are given predicates of the value, references inside them included.
- SplitRun.SplitDocument: the walk over what is converted is modelled apart from the value it computes, which is `Conv` under the answers met; pointers are read already, and a reference that leads nowhere declines at the end.
- Split: the list of carried keywords, the mode without tags, the rendered text, the names of types, `Declined` reasons.
- DefaultsEmit.PassesAgree: for scalar defaults and schemas without `dependentSchemas`, within the depth bound (`DefaultsDepth.DepthEnough` says when); an object or array default, and `dependentSchemas`, in the generated pass are not modelled.
- DefaultsOrder.FirstDecides: for scalar defaults, documents that are trees and schemas that do not lead back to themselves through `$ref` and `allOf` alone; which of several object defaults is taken is not stated.
- DefaultsRun.FillDocument: a second run is shown idle for scalar defaults only; with object defaults it may go further into what the first one made.
- Defaults: `defaultsVisits` (a count that declines earlier), embedded `$id` resources (`resourceRoots`), named properties on arrays, keys that look like integers and so come first, `__proto__`.
- Schemas: `unevaluatedProperties`, `unevaluatedItems`, lengths, multiples and other keywords the model does not read are one given predicate of their values and the instance; such values hold no references. Anchors, dynamic references and other documents are a given answer.
- Copy: aliasing between a copy and its input, values checked with `instanceof`, the length of a default as source is given.
- Draft7Facts.NormalizeExact: does not cover schema objects shared between places, `dependencies` that is an array and `dependentSchemas` that is neither object nor absent, references other than to the root or a definition, `stripFormatAssertions`, draft 2019-09.
- NullableTypes.NullableExact: covers references without a percent escape (`NullableTypes.DecodedRefers` is about those with one) to definitions and to `#/components/schemas`; references to other places, and into the inside of those schemas, are not modelled.
- ExclusiveBounds.BoundsExact: covers references to the root or a definition, as draft rewriting does.
- CloneFacts.CopyKeepsNames: is about names; `CloneAccepted.ParseAccepted` says when the copy meets every keyword again, by a list of keywords, and is no if and only if.
- Positions: buffers and their decoding, the native source of positions, the embedding of the function as text.
- Native walk: messages, `std::stoul` on text that is no number, regular expressions, formats, the floating-point remainder, UTF-8 lengths, JavaScript values that are no JSON.
- Pool: liveness and notification, memory ordering, splitting the buffer into lines, the per-thread cache of compiled schemas, the sequential branch for few lines, N-API calls. The counts are unbounded.
- Error order: the assignment of keys and ranks, the 32-bit mask of coarse keys (a set here; lists it is used on have 16 errors at most).
- Correlation and diagnostics: the edit distance (lib/levenshtein.js) and the comparison sort are given; headlines, frames and texts.
- HtmlSafe: text outside string literals, octal escapes, code units that are half of a surrogate pair (kept as written).
- The interpreter, the code generators for validation, the scanner, the CLI, ahead-of-time builds, compatibility layers, warm-up and caches of compiled validators.
