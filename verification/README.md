# Verification of the theme tools and the GraphQL code generator

A Dafny model of two crates, with proofs about them for all inputs, all runs or all interleavings:

- **The code generator.** `TsAst`, `TsGrammar`, `TsParser`, `TsRoundTrip`, `TsFiles` and `TsTraps` are the reader of
  generated TypeScript types, `GqlGrammar`, `GqlParser` and `GqlRoundTrip` the reader of operation files, and `Names`,
  `Generator`, `GeneratorClosure` and `RawString` the emitter of Rust declarations. `Decoding`, `Undecodable` and
  `Fitting` say which JSON values the emitted declarations decode.
- **The sync engine.** `Regex`, `Glob`, `GlobMeaning`, `GlobTokens`, `Ignore`, `PatternMeaning` and `FilterAlgebra` are
  the ignore patterns, from one pattern's regular expression up to the algebra of the six pattern groups. `Plans`,
  `PlanConvergence`, `Batches`, `UploadOrder`, `Upload`, `Pull` and the push modules (`PushProtocol` with its
  `PushInvariants`, `PushHistory` and `PushGuarantees`) are planning, batching, ordering, retrying and the two concurrent
  upload chains.
- **The development server and the settings file.** `FileSystem`, `Watch`, `Remote`, `Reconciliation`, `DevServer`
  and `ServerLoop` are the theme directory, the shared watch state, the calls to the remote theme, polls and
  reconciliation, and the loop of file events and polls. `LocalStorage` is the locked read-modify-write protocol of any
  number of processes, step by step, with `StorageInvariants`, `StorageHistory`, `StorageGuarantees` and
  `StorageValues`; `StorageCalls` is one call of it.
- **Byte algorithms.** `Bytes`, `Md5`, `Checksums`, `Crc32`, `Zip` and `StripComments`.

`Text`, `Order` and `Theme` hold the shared vocabulary.

## How it is modelled

A reader's shared cursor becomes a position that each method takes and returns; every cursor loop is proved equal to a
grammar function on the unread text, and the round trips are proved about those functions. Loops over buffers, flags and
registers are methods with loops, proved against a specification function or against the standard they implement. The
theme directory, the watch state, the served files, the generator's output and the settings file are classes. Calls that
may fail, remote answers and edits of the disk by others are arbitrary values, so that a contract holds for every
outcome. Every call to the remote is kept with its answer, and contracts say which calls were made. The push and the
settings file are state machines over single steps, and a run is any sequence of enabled steps.

Findings stated in the contracts, where the code does not do what its surroundings suggest:

- A list of string literals before `| null`, a second `[]`, and names that start like a keyword are not read back
  (`TsTraps`; for names exactly then, `TsTraps.NameReads`).
- Alternatives next to objects with a `__typename` are lost (`TsTraps.OthersAreLost`).
- A union of a type and its list with `null` besides has no place for the `null`, and fractions are refused
  (`Undecodable.NullIsLost`, with the exact condition in `Undecodable.OperationDecodes`; `Undecodable.FractionsAreLost`).
- Objects inside `Exact`, `Pick` or `Partial` fields are used but not declared (`GeneratorClosure.ClosedWhenVisible`),
  different places can get the same name (`Names.NamesCollide`), and a field called `response` makes the response struct
  disappear (`GeneratorClosure.ResponseFieldShadows`).
- `**` does not cross line breaks (`Glob.StarsStopAtLineBreaks`).
- A push does not always settle a theme; `PlanConvergence.PushSettles` gives the exact condition.
- An operation whose variable has a default value is rejected (`GqlRoundTrip.DefaultValueRejected`).
- A poll deletes a vanished file without looking for local edits; only downloads are guarded (`DevServer.EditIsLost`,
  with the exact condition in `DevServer.PollForgets`).
- A file whose upload the remote answered with a failure still counts as synced (`ServerLoop.FailedIsSynced`, with the
  exact condition in `ServerLoop.SentCountsAsSynced`).
- With a listing active, a deletion removes the base file and not the listing's file (`FileSystem.DeletedStaysListed`,
  with the exact condition in `FileSystem.DeletedUnlessListed`).
- The recorded length of a package's directory is too short (`Zip.DirectoryIsLonger`).
- Normalizing JSON may not be idempotent when a backslash stands outside a string (`Checksums.BackslashHidesString`, with
  the exact condition in `Checksums.NormalizedTwiceExactly`).

## Model

| member | source | states |
|---|---|---|
| TsParser.ParseFile | crates/graphql-codegen/src/ts_parser.rs:4-27 | For every byte string the file loop ends, stays in range, and returns exactly what the grammar reads; after a declaration that fails it goes on from where the failure left the cursor. |
| TsParser.ParseDeclaration | crates/graphql-codegen/src/ts_parser.rs:37-64 | One `export type` declaration: the value and the unread text are those of the grammar, on success and on every failure. |
| TsParser.ParseType | crates/graphql-codegen/src/ts_parser.rs:67-184 | The loop over alternatives: value and unread text are the grammar's, with the bytes left as the measure of the mutual recursion. |
| TsParser.ParseSingle | crates/graphql-codegen/src/ts_parser.rs:187-219 | One alternative; a reader that fails after moving the cursor hands the moved cursor to the next reader. |
| TsParser.TryObject | crates/graphql-codegen/src/ts_parser.rs:222-275 | The object reader, including the failures that leave the cursor inside the braces. |
| TsParser.TryStringLiteral | crates/graphql-codegen/src/ts_parser.rs:278-318 | The literal reader, including the bar it eats after a literal. |
| TsParser.TryWrapped | crates/graphql-codegen/src/ts_parser.rs:321-355 | The wrapper reader, including the failure that leaves the cursor after the opening bracket. |
| TsParser.TryReference | crates/graphql-codegen/src/ts_parser.rs:358-408 | Dotted and indexed references. |
| TsParser.TryPrimitive | crates/graphql-codegen/src/ts_parser.rs:411-448 | Keywords and `null`. |
| TsParser.SkipTrivia | crates/graphql-codegen/src/ts_parser.rs:508-535 | Blanks, line comments and block comments; the cursor never passes the end. |
| TsParser.SkipWs | crates/graphql-codegen/src/ts_parser.rs:499-506 | Blanks, from any position. |
| TsParser.ReadName | crates/graphql-codegen/src/ts_parser.rs:537-548 | The longest run of name characters. |
| TsParser.Merge | crates/graphql-codegen/src/ts_parser.rs:105-184 | What a list of alternatives becomes: a discriminated union, a string union, a nullable, or a plain union. |
| TsParser.ReadField | crates/graphql-codegen/src/ts_parser.rs:232-270 | One turn of the field loop: a field and progress, the end of the object, or the kind of failure. |
| TsParser.ReadHead | crates/graphql-codegen/src/ts_parser.rs:232-258 | The start of a field up to its colon, the closing brace, or a stop. |
| TsParser.ReadLiteral | crates/graphql-codegen/src/ts_parser.rs:287-310 | One turn of the literal loop, with the bar after it. |
| TsParser.ReadAlternative | crates/graphql-codegen/src/ts_parser.rs:75-103 | One turn of the alternative loop: an alternative with its suffix, and whether a bar follows. |
| TsParser.ReadKey | crates/graphql-codegen/src/ts_parser.rs:370-400 | One quoted key in brackets, or none and the failure. |
| TsParser.FindWrapper | crates/graphql-codegen/src/ts_parser.rs:321-340 | The first wrapper name that starts the text, in the order of the list. |
| TsParser.SortAlternatives | crates/graphql-codegen/src/ts_parser.rs:114-151 | The alternatives sorted into object variants and strings, with the two flags. |
| TsParser.SkipLine | crates/graphql-codegen/src/ts_parser.rs:508-535 | The end of a line comment, never past the text. |
| TsParser.SkipBlock | crates/graphql-codegen/src/ts_parser.rs:508-535 | The end of a block comment, never past the text. |
| TsRoundTrip.TypeRead | crates/graphql-codegen/src/ts_parser.rs:67-448 | For every canonical type and every following text that starts with a delimiter, reading the printed type returns that type and leaves exactly the following text. |
| TsRoundTrip.PlainStaysUnion | crates/graphql-codegen/src/ts_parser.rs:105-184 | Several alternatives stay a plain union if and only if none is an object with a `__typename`, they are not literals with or without `null`, and they are not one other type and one `null`. |
| TsFiles.FileRead | crates/graphql-codegen/src/ts_parser.rs:4-64 | A printed file of canonical definitions, with or without comments between them, is read back as the same list. |
| TsFiles.CommentIgnored | crates/graphql-codegen/src/ts_parser.rs:508-535 | A closed comment of either kind in front of a type, a field or a declaration changes nothing that is read. |
| TsTraps.LiteralsThenNull | crates/graphql-codegen/src/ts_parser.rs:278-318 | A list of literals before `| null` is always left half read: the type ends in front of `null`. |
| TsTraps.SecondSuffixLeft | crates/graphql-codegen/src/ts_parser.rs:86-94 | Of two `[]` suffixes only the first is read, for every element type and following text. |
| TsTraps.NameReads | crates/graphql-codegen/src/ts_parser.rs:187-219 | A name in front of a delimiter is read as a reference to itself if and only if it does not start like `null` or a keyword; otherwise as that keyword, with the rest of the name left unread. |
| TsTraps.KeywordsRead | crates/graphql-codegen/src/ts_parser.rs:411-448 | Every keyword, in every spelling of `any`, is read as its primitive. |
| TsTraps.LeadingBar | crates/graphql-codegen/src/ts_parser.rs:67-84 | A bar in front of a canonical type is read over. |
| TsTraps.OthersAreLost | crates/graphql-codegen/src/ts_parser.rs:105-184 | Alternatives behind objects with a `__typename` are lost, all but `null`. |
| TsTraps.BadFieldStops | crates/graphql-codegen/src/ts_parser.rs:222-275 | A field whose type cannot be read leaves the cursor where the type failed, after any fields before it. |
| TsTraps.BadInnerStops | crates/graphql-codegen/src/ts_parser.rs:321-355 | A wrapper whose inner type cannot be read leaves the cursor where that type failed. |
| GqlParser.ParseGraphql | crates/graphql-codegen/src/gql_parser.rs:4-73 | For every byte string the reader ends, stays in range, and returns what the grammar reads. |
| GqlParser.ParseVariables | crates/graphql-codegen/src/gql_parser.rs:75-112 | The variable list; the cursor may end one past the text when the list is cut off. |
| GqlParser.ReadVariableAt | crates/graphql-codegen/src/gql_parser.rs:77-110 | One turn of the variable loop: either a variable and progress, or where the list stops. |
| GqlParser.ReadGqlType | crates/graphql-codegen/src/gql_parser.rs:115-131 | Nested list types. |
| GqlParser.SkipSpace | crates/graphql-codegen/src/gql_parser.rs:133-151 | Blanks, commas and comments, from any position, with the recursion ending. |
| GqlParser.ReadName | crates/graphql-codegen/src/gql_parser.rs:153-159 | The longest run of name characters. |
| GqlParser.BracesClose | crates/graphql-codegen/src/gql_parser.rs:47-63 | The brace loop answers whether the count of open braces comes back to zero. |
| GqlParser.FinishOperation | crates/graphql-codegen/src/gql_parser.rs:22-73 | Everything after the keyword, from any position. |
| GqlRoundTrip.ClosesMeaning | crates/graphql-codegen/src/gql_parser.rs:47-63 | The count comes back to zero exactly when some prefix closes as many braces as are open. |
| GqlRoundTrip.TypeReads | crates/graphql-codegen/src/gql_parser.rs:115-131 | A printed type is read to its end, and kept without the `!` marks inside lists. |
| GqlRoundTrip.VariablesRead | crates/graphql-codegen/src/gql_parser.rs:75-112 | A printed variable list is read back, up to its parenthesis. |
| GqlRoundTrip.OperationReads | crates/graphql-codegen/src/gql_parser.rs:4-73 | Printing an operation and reading it gives back its kind, name, variables and trimmed text. |
| GqlRoundTrip.TrimMeaning | crates/graphql-codegen/src/gql_parser.rs:65-65 | Trimming takes the white space at both ends of the text, and no more. |
| GqlRoundTrip.CommentSkipped | crates/graphql-codegen/src/gql_parser.rs:133-151 | A comment line in front of anything changes nothing that is read. |
| GqlRoundTrip.DefaultValueRejected | crates/graphql-codegen/src/gql_parser.rs:75-112 | An operation with a default value on any variable, after any variables without one, is rejected, whatever follows. |
| Names.PascalCase | crates/graphql-codegen/src/generator.rs:518-538 | The loop over flags computes the name function. |
| Names.TypeNameForPath | crates/graphql-codegen/src/generator.rs:445-451 | The name of a place: the operation name and every path part in Pascal case. |
| Names.PascalIsIdentifier | crates/graphql-codegen/src/generator.rs:518-538 | A name is a Rust type identifier exactly when the text has a letter or digit; otherwise it is empty. |
| Names.PascalTwice | crates/graphql-codegen/src/generator.rs:518-538 | Names of names are the names themselves. |
| Names.PascalOfWords | crates/graphql-codegen/src/generator.rs:518-538 | Words with any sign between them become one name, each with its first letter in upper case. |
| Names.NamesCollide | crates/graphql-codegen/src/generator.rs:445-451 | For any outer and inner field name, the place `outer.inner` and the place `outerInner` get the same name. |
| Generator.Output.EmitNestedType | crates/graphql-codegen/src/generator.rs:193-232 | What is appended is the plan of the type, inner types first, without the names already seen; the seen set grows by exactly the plan's names. |
| Generator.Output.EmitNestedFields | crates/graphql-codegen/src/generator.rs:179-191 | The same for the fields of an object. |
| Generator.Output.EmitStruct | crates/graphql-codegen/src/generator.rs:234-261 | A struct is appended once for its name. |
| Generator.Output.EmitUnionEnum | crates/graphql-codegen/src/generator.rs:263-289 | A tagged enum is appended once for its name. |
| Generator.GenerateRust | crates/graphql-codegen/src/generator.rs:39-98 | The declarations of an operation: variables, then response, each nested types first; `Undecodable.OperationDecodes` and `Fitting.OperationFits` say what they decode. |
| Generator.GenerateSharedTypes | crates/graphql-codegen/src/generator.rs:15-36 | The declarations of the shared types. |
| Generator.Output.EmitVariants | crates/graphql-codegen/src/generator.rs:208-222 | The struct of every union member, after the types inside it. |
| Generator.Output.EmitAlternatives | crates/graphql-codegen/src/generator.rs:225-229 | The types inside every alternative of a plain union. |
| Generator.Output.EmitRoot | crates/graphql-codegen/src/generator.rs:55-95 | The types inside an object, then the object under its own name. |
| Generator.Output.EmitStringEnum | crates/graphql-codegen/src/generator.rs:138-155 | A string enum is appended once for its name. |
| Undecodable.OperationDecodes | crates/graphql-codegen/src/generator.rs:39-98 | The generated code decodes every value of the response and of the variables, with numbers that are 64-bit integers, if and only if no union in them is a type and its list with `any` or `null` besides. |
| Undecodable.SharedDecodes | crates/graphql-codegen/src/generator.rs:131-177 | The same for the shared types; an enum decodes exactly its values. |
| Undecodable.NullIsLost | crates/graphql-codegen/src/generator.rs:336-356 | A value of such a union that its type does not decode. |
| Undecodable.FractionsAreLost | crates/graphql-codegen/src/generator.rs:314-318 | A number is decoded if and only if it is an integer of 64 bits. |
| Fitting.OperationFits | crates/graphql-codegen/src/generator.rs:314-386 | Everything that the generated code decodes has the shape of the type expression, up to literals, mixed unions and `null` for what may be absent. |
| Decoding.RootDecodes | crates/graphql-codegen/src/generator.rs:234-261 | A declared struct decodes the values of its object; absent optional fields too. |
| Decoding.TaggedDecodes | crates/graphql-codegen/src/generator.rs:263-289 | A declared tagged enum decodes the values of every variant. |
| Decoding.ScalarsDecode | crates/graphql-codegen/src/generator.rs:426-443 | The scalars decode as texts, truth values, integers, floats or anything, by their names. |
| Decoding.SharedIsFound | crates/graphql-codegen/src/generator.rs:415-424 | A reference to a shared type resolves to the name it is declared by. |
| GeneratorClosure.FreshDistinct | crates/graphql-codegen/src/generator.rs:234-245 | No name is declared twice, for any types. |
| GeneratorClosure.NothingDropped | crates/graphql-codegen/src/generator.rs:243-245 | Nothing is dropped if and only if the planned names are new and pairwise distinct. |
| GeneratorClosure.MentionedPlace | crates/graphql-codegen/src/generator.rs:314-386 | A field mentions the name of its place exactly when an object lies under its lists, nulls and wrappers. |
| GeneratorClosure.DeclaredWhenReached | crates/graphql-codegen/src/generator.rs:193-232 | The mentioned declaration is emitted with the field exactly when no wrapper but `Maybe` stands before the object. |
| GeneratorClosure.OperationOutput | crates/graphql-codegen/src/generator.rs:39-98 | Every declaration name occurs once, and when no field's object hides in a wrapper every generated name used in the output is declared earlier. |
| GeneratorClosure.SharedOutput | crates/graphql-codegen/src/generator.rs:131-177 | The same for shared types. |
| GeneratorClosure.ClosedWhenVisible | crates/graphql-codegen/src/generator.rs:314-401 | With distinct names, none of them shared with a hidden place, every generated name in the output is declared before its use if and only if no object hides in a wrapper, at any depth of the variables and the response. |
| GeneratorClosure.SharedClosedWhenVisible | crates/graphql-codegen/src/generator.rs:131-177 | The same for the shared types. |
| GeneratorClosure.HiddenIn | crates/graphql-codegen/src/generator.rs:314-401 | At any depth, a hidden place is mentioned by a declaration of its type, and there is one exactly when something is hidden. |
| GeneratorClosure.ResponseDropped | crates/graphql-codegen/src/generator.rs:77-95 | The struct of the whole response is missing exactly when an earlier type has its name. |
| GeneratorClosure.ResponseFieldShadows | crates/graphql-codegen/src/generator.rs:77-95 | Any object field called `response` makes the struct of the whole response disappear. |
| RawString.RawStringLiteral | crates/graphql-codegen/src/generator.rs:459-468 | The fewest hashes below eight whose closing marker is not in the query; no raw literal exactly when all eight markers occur. |
| RawString.LiteralReadsBack | crates/graphql-codegen/src/generator.rs:459-468 | A raw literal reads back as its value, whatever follows, if and only if the value lacks the closing marker. |
| Glob.GlobRegex | crates/theme/src/ignore.rs:184-233 | The loop over the pattern writes the regular expression text of its tokens. |
| Glob.NextPiece | crates/theme/src/ignore.rs:190-228 | One turn of the loop: the piece of text for the next token, and progress. |
| Glob.RegexEscape | crates/theme/src/ignore.rs:235-247 | The escaping loop. |
| Glob.WithoutLineBreaks | crates/theme/src/ignore.rs:184-233 | On keys without a line break `**` stands for any text. |
| Glob.StarsStopAtLineBreaks | crates/theme/src/ignore.rs:184-233 | `**` alone accepts a key exactly when the key has no line break. |
| Glob.EscapeOptions | crates/theme/src/ignore.rs:211-216 | Every option of a brace group is escaped, in order. |
| Glob.ReadOptions | crates/theme/src/ignore.rs:201-208 | The text up to the closing brace, or up to the end of the pattern. |
| GlobMeaning.GlobMeansItsRegex | crates/theme/src/ignore.rs:184-233 | For every pattern the emitted text compiles, and searching with it accepts exactly the texts that the direct recursive matcher accepts. |
| GlobMeaning.RegexTextCompiles | crates/theme/src/ignore.rs:184-247 | Reading the emitted text as a regular expression gives one anchored sequence of the pattern's parts; nothing in the pattern escapes its literal meaning. |
| GlobTokens.PrintedAccepts | crates/theme/src/ignore.rs:184-235 | A pattern printed from any tokens stands for exactly the texts that split into one piece for each token, in order. |
| GlobTokens.EveryPattern | crates/theme/src/ignore.rs:184-235 | Every pattern is such a print, an open brace at its end counting as closed. |
| Ignore.GlobMatchAccepts | crates/theme/src/ignore.rs:151-182 | The whole decision about one pattern, with directories, base names and the empty pattern, equals the one made without regular expressions. |
| Ignore.SplitNegatedPatterns | crates/theme/src/ignore.rs:79-92 | The two lists of patterns, in order, the second without the marks. |
| Ignore.UniqueByKey | crates/theme/src/ignore.rs:113-127 | The first file of every key. |
| Ignore.ApplyIgnoreFilters | crates/theme/src/ignore.rs:32-57 | The passes over the files, with nothing dropped when no pattern applies. |
| PatternMeaning.BareNames | crates/theme/src/ignore.rs:151-169 | A pattern without a slash looks at the last part of a key only. |
| PatternMeaning.WholeKeys | crates/theme/src/ignore.rs:151-169 | A pattern with a slash inside looks at the whole key. |
| PatternMeaning.DirectoriesMatch | crates/theme/src/ignore.rs:171-182 | A pattern that ends in slashes stands for a directory and everything below it. |
| PatternMeaning.NegatedMeaning | crates/theme/src/ignore.rs:79-92 | A pattern is negated exactly by a mark in front of it, and otherwise kept as it is. |
| FilterAlgebra.FilterKeepsAdmitted | crates/theme/src/ignore.rs:32-57 | The result holds exactly the keys that satisfy one formula over the six pattern groups, each once. |
| FilterAlgebra.FilterTwice | crates/theme/src/ignore.rs:32-57 | Filtering twice gives the same sequence as filtering once. |
| FilterAlgebra.AppliedIsCanon | crates/theme/src/ignore.rs:32-57 | The order of the result: files no pattern ignores, then those the ignore file brings back, then those an ignore option brings back. |
| Batches.UploadBatches | crates/theme/src/sync.rs:216-236 | The batching loop computes the greedy split. |
| Batches.GreedyIsSplit | crates/theme/src/sync.rs:216-236 | The batches concatenate to the input, none is empty, and each has at most 20 assets and at most 1 MiB unless it is a single asset. |
| Batches.GreedyIsOptimal | crates/theme/src/sync.rs:216-236 | No order-preserving split within these limits has fewer batches. |
| Batches.BatchesWithinLimits | crates/theme/src/sync.rs:216-236 | Every batch has one to twenty assets, and the texts and attachments of a batch of several are at most 1 MiB together. |
| PlanConvergence.PullSettles | crates/theme/src/sync.rs:107-136 | After a pull that fetched what was planned, planning again with the same listing plans nothing, whatever it lists. |
| PlanConvergence.PushMeaning | crates/theme/src/sync.rs:138-186 | What a push uploads and deletes, key by key. |
| PlanConvergence.PullMeaning | crates/theme/src/sync.rs:107-136 | A pull downloads exactly the listed files that are missing or differ, and deletes exactly the admitted local files that are not listed, key by key. |
| PlanConvergence.PushSettles | crates/theme/src/sync.rs:138-186 | After a push that the remote performed in full, planning again plans nothing if and only if a condition on the theme and the remote before the push holds. |
| PlanConvergence.CleanThemeSettles | crates/theme/src/sync.rs:138-186 | That condition holds when no asset stands beside its `.liquid` source, the filters admit the minimum files, and the mounted filters admit what is pushed. |
| PlanConvergence.HiddenMinimumIsUploadedAgain | crates/theme/src/sync.rs:162-173 | A minimum file that a filter hides is uploaded again by every push. |
| PlanConvergence.OnePushMayNotSettle | crates/theme/src/sync.rs:192-200 | A remote on which one push is not enough. |
| PlanConvergence.FilteredKeys | crates/theme/src/checksum.rs:61-78 | The keys that survive the rejection of generated assets and both filters. |
| Pull.Pull | crates/theme/src/sync.rs:355-384 | A pull that succeeds asked for the listing and then for every planned file, batch by batch, wrote what was returned and deleted what was planned; its report names every planned key, a download as a success exactly when the file was returned. |
| Pull.PulledSettles | crates/theme/src/sync.rs:107-136 | A pull from an honest remote that succeeds leaves a theme for which nothing more is planned. |
| Plans.AddStubs | crates/theme/src/sync.rs:162-173 | The loop that adds missing minimum files. |
| UploadOrder.OrderedUploadWork | crates/theme/src/sync.rs:289-304 | The independent assets and the non-empty groups in their order. |
| UploadOrder.InGroupMembers | crates/theme/src/sync.rs:289-304 | A group holds exactly the assets of its class. |
| UploadOrder.DeletionsAreOrdered | crates/theme/src/sync.rs:306-353 | The deletions are the planned keys, each as often, in non-decreasing group order and by key within a group. |
| UploadOrder.GroupsFollowNeeds | crates/theme/src/sync.rs:251-273 | For any two keys, told apart by directory and extension alone: one is in an earlier dependent group exactly when it is of an earlier stage, and a key of no stage is independent. |
| UploadOrder.DeletionsReverseUploads | crates/theme/src/sync.rs:251-353 | Of two usual files, the one that needs the other is deleted first. |
| UploadOrder.DeletionsByKind | crates/theme/src/sync.rs:306-353 | Other JSON files are deleted before liquid files, these before the settings data, the schema and all other files; within them templates and sections first. |
| UploadOrder.GroupAssets | crates/theme/src/sync.rs:289-304 | The map of groups: exactly the non-empty dependent ones, each with its assets in order. |
| Order.FirstDifference | crates/theme/src/sync.rs:306-309 | Keys of one group are ordered by the first character that differs. |
| PushGuarantees.DependenciesFirst | crates/theme/src/sync.rs:386-415 | In every interleaving, when a file is sent that needs another planned file, by directory and extension, every batch that holds that one was sent whole and its attempts have ended; it is not sent any more. |
| PushGuarantees.RanksInOrder | crates/theme/src/sync.rs:403-411 | In every interleaving the group rank never falls from one dependent call to a later one, and no file is sent after one that needs it. |
| PushGuarantees.NeverSentAgain | crates/theme/src/sync.rs:427-460 | In every interleaving an asset whose attempts have ended in every batch that holds it is not sent again. |
| PushGuarantees.DeletionsLast | crates/theme/src/sync.rs:412-423 | When a deletion is sent, every batch that holds a planned asset was sent whole and its attempts for that asset have ended, no call has failed, and no upload is sent any more. |
| PushGuarantees.NothingAfterFailure | crates/theme/src/sync.rs:386-425 | Nothing is sent after a failed call. |
| PushGuarantees.DeletionsInOrder | crates/theme/src/sync.rs:417-423 | The keys deleted so far are a prefix of the planned deletions in group order, and no usual file is deleted before one that needs it. |
| PushGuarantees.PushCompletes | crates/theme/src/sync.rs:386-425 | A push that cannot go on and has not failed attempted every planned asset and sent every planned deletion. |
| PushGuarantees.PlannedJobs | crates/theme/src/sync.rs:386-415 | Every planned asset is in a batch of the right chain, and the dependent chain is ordered by group. |
| PushHistory.NextPast | crates/theme/src/sync.rs:386-425 | Every step keeps what the log says about the past: a batch is sent whole before it is settled, jobs are sent in order, and no call contains an asset that is done. |
| Upload.ReconcileUpload | crates/theme/src/sync.rs:427-460 | The attempt loop: at most three calls, each with what is still pending, and the report of what was recorded. |
| Upload.RetrySends | crates/theme/src/sync.rs:427-446 | An asset is sent in the first call, and in a later call exactly when no earlier answer reported it uploaded; one that never succeeded was sent three times. |
| Upload.RetryReports | crates/theme/src/sync.rs:447-459 | The reports name every key of the batch once, as a success exactly when some answer reported one. |
| Upload.RecordAll | crates/theme/src/sync.rs:433-437 | The results recorded from one answer; a later result about a key replaces an earlier one. |
| Upload.FinishAll | crates/theme/src/sync.rs:447-455 | Every pending asset without a result is recorded as failed. |
| StorageGuarantees.StoredIsSerial | crates/theme/src/local_storage.rs:255-341 | At any moment of any run, with any failures and deaths, the stored map is the starting map with every change that took effect applied in lock-acquisition order. |
| StorageGuarantees.OneWriter | crates/theme/src/local_storage.rs:268-293 | Two updates are never between lock and release together. |
| StorageGuarantees.ReadsAreCurrent | crates/theme/src/local_storage.rs:295-310 | Every read answers with the map that was stored at some moment between its beginning and its end, though it takes no lock. |
| StorageGuarantees.FailedChangesNothing | crates/theme/src/local_storage.rs:268-341 | No step of an update that ends in an error changes the stored file. |
| StorageGuarantees.SuccessTookEffect | crates/theme/src/local_storage.rs:268-293 | Every update that reports success is in the order exactly once. |
| StorageGuarantees.RealTimeOrder | crates/theme/src/local_storage.rs:268-293 | A change that took effect before another call began comes earlier in the order. |
| StorageGuarantees.CorruptStays | crates/theme/src/local_storage.rs:290-310 | A file that cannot be parsed is never replaced and no update succeeds. |
| StorageValues.StoredIsLast | crates/theme/src/local_storage.rs:255-293 | At any moment of any run every key holds what the last change of it left, in the order of the lock: the value that was set, nothing after a removal, and the starting value without a change. |
| StorageValues.ReadsSeeLast | crates/theme/src/local_storage.rs:239-248 | Every read answers, for every key, with the last change of it at one moment of the read. |
| StorageValues.UpdateThenGet | crates/theme/src/local_storage.rs:255-293 | A read that begins after an update succeeded finds what was set, or nothing after a removal, unless another change of the key came behind it. |
| StorageInvariants.RenameKeeps | crates/theme/src/local_storage.rs:325-333 | The rename publishes exactly the mutated map. |
| StorageInvariants.FailKeeps | crates/theme/src/local_storage.rs:334-340 | A failure at any step, cleaned up or not, leaves the stored map. |
| StorageInvariants.StepKeeps | crates/theme/src/local_storage.rs:255-341 | Every step of every call keeps the invariant: one holder of the lock, sealed stored files, and the stored map equal to the serial one. |
| StorageHistory.RunGrows | crates/theme/src/local_storage.rs:255-341 | What has been stored is never edited in place, and an effect is never undone. |
| StorageHistory.StepFiles | crates/theme/src/local_storage.rs:312-341 | No step writes into a file that has been stored. |
| StorageCalls.Storage.Load | crates/theme/src/local_storage.rs:295-310 | `load` step by step: the stored values, or an error and the lock released. |
| StorageCalls.Storage.Save | crates/theme/src/local_storage.rs:312-341 | `save` step by step: success exactly when the mutated map is stored. |
| StorageCalls.Storage.Update | crates/theme/src/local_storage.rs:255-293 | Success stores the change under its key and leaves every other key as it was; an error changes nothing, for a call that runs alone. |
| StorageCalls.Storage.Get | crates/theme/src/local_storage.rs:239-249 | `get` answers from the stored map and changes nothing. |
| Reconciliation.IdentifyMeaning | crates/theme/src/dev.rs:825-866 | What each of the three lists holds, key by key. |
| Reconciliation.ListsPartition | crates/theme/src/dev.rs:825-866 | The lists share no key, and a shared JSON key is in one of them exactly when the two sides disagree about it. |
| Reconciliation.BuildPlan | crates/theme/src/dev.rs:868-903 | No plan exactly when a needed choice is missing; otherwise each list goes where its choice sends it. |
| Reconciliation.BuildMeaning | crates/theme/src/dev.rs:868-903 | The three parts of a plan as sets of keys. |
| Reconciliation.ReconciledAgain | crates/theme/src/dev.rs:825-929 | After a plan is applied with an honest remote, reconciling again finds no remote-only file, and exactly the conflicts and local-only files left to the local side. |
| Reconciliation.AppliedMeaning | crates/theme/src/dev.rs:911-929 | The files remembered after the local steps of a plan. |
| Reconciliation.JsonChecksums | crates/theme/src/dev.rs:1034-1048 | The filtered listing holds exactly the admitted, synced JSON keys, each once. |
| Reconciliation.FetchedHonestly | crates/theme/src/dev.rs:920-924 | Honest answers to the batches of a download are together an honest answer about all its keys. |
| Reconciliation.JsonAssets | crates/theme/src/dev.rs:1050-1055 | The filtered local files are exactly the admitted JSON files. |
| Reconciliation.KeysOfSet | crates/theme/src/dev.rs:878-900 | A list of keys in a plan holds the keys of its part of the difference. |
| DevServer.ApplyJsonReconciliation | crates/theme/src/dev.rs:911-929 | A reconciliation that succeeds asked for every planned download and then for every planned deletion, in batches, and last for the listing, and did the local steps of its plan. |
| DevServer.AbortIfMultipleSourcesChanged | crates/theme/src/dev.rs:1013-1032 | It passes only when no changed file has diverged on disk, and names a diverged file when it aborts. |
| DevServer.Poll | crates/theme/src/dev.rs:931-1011 | What a poll asked for and did, however it ended; one that succeeds asked for the listing and for exactly the wanted files, in batches, stored every answer, and dropped everything that had vanished. |
| DevServer.PollForgets | crates/theme/src/dev.rs:998-1009 | A file edited on disk since it was remembered is forgotten by a complete poll, and its path removed, if and only if deletions are on and it vanished from the remote. |
| DevServer.EditIsLost | crates/theme/src/dev.rs:998-1009 | A theme and a poll that deletes a file edited on disk. |
| DevServer.VanishedMeaning | crates/theme/src/dev.rs:971-975 | A poll drops exactly the shared keys of the last listing that the new one lacks. |
| DevServer.PollTouches | crates/theme/src/dev.rs:931-1011 | A poll touches only synced JSON keys that both filters admit, overwrites no remembered file whose disk content had diverged, and deletes only vanished keys and only when deletion is enabled. |
| DevServer.PollKeepsRest | crates/theme/src/dev.rs:931-1011 | All other keys and paths stay as they were, and the remembered and the served files keep the same keys, even after a failed step. |
| DevServer.PollCatchesUp | crates/theme/src/dev.rs:931-1011 | After a complete poll of an honest remote, memory has every changed shared file with the remote checksum and no vanished one, and what memory lacked is served with the remote content. |
| DevServer.Download | crates/theme/src/dev.rs:988-997 | A download that succeeds asked for every key, in batches of at most fifty, and stored every answer in order; one that fails asked for the keys up to some batch. |
| DevServer.StoreAll | crates/theme/src/dev.rs:989-996 | The assets of one answer are written and served one by one. |
| DevServer.DropVanished | crates/theme/src/dev.rs:998-1009 | Vanished keys that are remembered are deleted from disk, memory and the served files, up to the first failure. |
| DevServer.DropMeaning | crates/theme/src/dev.rs:998-1009 | Which files and paths such deletions remove. |
| DevServer.DeleteLocal | crates/theme/src/dev.rs:917-919 | The planned local deletions, up to the first failure. |
| DevServer.WriteBatch | crates/theme/src/dev.rs:920-924 | The assets of one answer are written one by one. |
| ServerLoop.HandleFileEvent | crates/theme/src/dev.rs:515-626 | The call an event makes, with what it sends, and the remembered files, served files, unsynced keys and errors after any answer; the disk is not written. |
| ServerLoop.EventKeeps | crates/theme/src/dev.rs:515-626 | An event keeps the two maps on the same keys, touches its own key only, and leaves nothing unsynced when it goes through. |
| ServerLoop.SentCountsAsSynced | crates/theme/src/dev.rs:565-570 | A sent file stays unsynced if and only if the call was refused; a failure among the answers only makes it an error. |
| ServerLoop.FailedIsSynced | crates/theme/src/dev.rs:565-570 | One failed upload that counts as synced. |
| ServerLoop.ServeTicks | crates/theme/src/dev.rs:441-507 | For any run of events and polls, with the disk edited in between, a log of every tick: each poll compared with the last listing while nothing was unsynced, each admitted event was handled, and the log accounts for the files and for all calls; the loop ends at a failed event or at the fifth failed poll in a row, and not before. |
| ServerLoop.RunIsSafe | crates/theme/src/dev.rs:441-507 | In every run, no poll touches a key that is not JSON or is filtered out, or writes over a remembered file edited on disk, and after every tick the two maps have the same keys. |
| FileSystem.ThemeFileSystem.Write | crates/theme/src/filesystem.rs:195-203 | A write that succeeds leaves the content on disk and the asset read back in memory; one that fails may tear its own path only. |
| FileSystem.ThemeFileSystem.Delete | crates/theme/src/filesystem.rs:205-209 | A deletion that succeeds removes the file and its memory; one that fails changes nothing. |
| FileSystem.ThemeFileSystem.Read | crates/theme/src/filesystem.rs:138-155 | Reading gives what is on disk under the key's path, or fails. |
| FileSystem.WrittenEffect | crates/theme/src/filesystem.rs:157-203 | With or without an active listing, a written file is remembered with the checksum of its content, and reads back as itself. |
| FileSystem.DeletedUnlessListed | crates/theme/src/filesystem.rs:157-209 | A deleted file reads as missing if and only if the active listing has no copy of it; a copy is found as before. |
| FileSystem.DeletedStaysListed | crates/theme/src/filesystem.rs:157-209 | A deleted template that is found again. |
| FileSystem.WriteAllTouches | crates/theme/src/filesystem.rs:195-203 | A run of writes touches the written keys and their paths only. |
| FileSystem.WriteAllRemembers | crates/theme/src/filesystem.rs:195-203 | What is remembered of a key comes from an asset that was written under it. |
| FileSystem.DeleteAllEffect | crates/theme/src/filesystem.rs:205-209 | A run of deletions removes exactly its keys from disk and memory. |
| Watch.ThemeWatchState.RememberUploadErrors | crates/theme/src/watcher.rs:60-76 | The error list after any list of answers. |
| Watch.LastAnswerDecides | crates/theme/src/watcher.rs:60-76 | The last answer about a key decides whether it is in error and with which messages; other keys keep what they had. |
| Watch.ThemeWatchState.MarkUnsynced | crates/theme/src/watcher.rs:39-44 | One key is added, nothing else changes. |
| Watch.ThemeWatchState.MarkSynced | crates/theme/src/watcher.rs:46-51 | One key is removed, nothing else changes. |
| Md5.Md5 | crates/theme/src/checksum.rs:131-215 | For every input the loop over rotating registers computes the checksum of RFC 1321. |
| Md5.ProcessBlock | crates/theme/src/checksum.rs:175-206 | The uniform 64-step loop computes the four rounds of section 3.4 of RFC 1321. |
| Md5.TurnFollows | crates/theme/src/checksum.rs:180-201 | One turn of the loop is one operation of the standard, seen in the register order of the next operation. |
| Md5.ListedIsUniform | crates/theme/src/checksum.rs:132-190 | The index formulas and the shift table give the words and shifts the standard lists, for all 64 operations. |
| Md5.Pad | crates/theme/src/checksum.rs:150-156 | The padding loop appends the marker, the zeros and the length. |
| Md5.PaddingIsLeast | crates/theme/src/checksum.rs:150-156 | The padded message is the shortest that whole blocks allow. |
| Md5.PaddingIsInjective | crates/theme/src/checksum.rs:150-156 | Different inputs, of any length, have different padded messages. |
| Md5.ReadWords | crates/theme/src/checksum.rs:164-173 | The sixteen little-endian words of a block. |
| Checksums.NormalizeJson | crates/theme/src/checksum.rs:104-124 | The loop over flags computes the normalized text. |
| Checksums.NormalizedTokens | crates/theme/src/checksum.rs:104-124 | When every backslash is in a string, exactly the spacing outside strings is dropped, and strings stay unchanged and in order. |
| Checksums.NormalizedTwice | crates/theme/src/checksum.rs:104-124 | For such texts normalizing twice is normalizing once. |
| Checksums.NormalizedTwiceExactly | crates/theme/src/checksum.rs:104-124 | For every text, normalizing twice is normalizing once if and only if no string with spacing comes after an odd number of quotes whose escaping depends on the spacing before them. |
| Checksums.BackslashHidesString | crates/theme/src/checksum.rs:104-124 | A text that changes when normalized twice. |
| Checksums.SpacingIgnored | crates/theme/src/checksum.rs:84-124 | Texts that differ only in spacing outside strings normalize to the same text. |
| Checksums.LineEndingsIgnored | crates/theme/src/checksum.rs:41-59 | A text file has one checksum whatever its line endings. |
| Checksums.WhatIsSummed | crates/theme/src/checksum.rs:41-59 | The bytes of a binary file, the text of a text file, and settings data without the spacing outside strings. |
| Checksums.HeaderIgnored | crates/theme/src/checksum.rs:84-102 | A block comment put before a settings file without one leaves its checksum. |
| Crc32.Crc32 | crates/theme/src/package.rs:221-230 | The nested loops compute the bitwise checksum. |
| Crc32.BitwiseIsTableDriven | crates/theme/src/package.rs:221-230 | For every input it equals the table-driven form of section 8 of RFC 1952. |
| Crc32.BurstIsNoticed | crates/theme/src/package.rs:221-230 | Two files that differ, and only within four neighbouring bytes, never have the same checksum. |
| Crc32.ShiftsLinear | crates/theme/src/package.rs:225-227 | The inner loop is linear over exclusive or. |
| Zip.WriteLocalEntries | crates/theme/src/package.rs:163-185 | The first loop writes the local entries and remembers their records. |
| Zip.StreamRoundTrip | crates/theme/src/package.rs:163-185 | Reading the stream by section 4.3.7 of APPNOTE.TXT returns the same names, contents and checksums in order, for names below 2^16 bytes and contents below 2^32. |
| Zip.OffsetsPoint | crates/theme/src/package.rs:183-184 | Every recorded offset is the place of its entry, when the stream is shorter than 2^32 bytes. |
| Zip.DirectoryIsLonger | crates/theme/src/package.rs:187-205 | The directory is two bytes per entry longer than the length recorded for it, so that length is right exactly for an empty package. |
| Zip.WriteFieldsTo | crates/theme/src/package.rs:170-180 | A header is its fields in little-endian order. |
| Zip.FieldsRoundTrip | crates/theme/src/package.rs:170-180 | Numbers that fit their widths are read back from a header. |
| Zip.EntryLength | crates/theme/src/package.rs:184 | A local header has 30 bytes. |
| StripComments.StripJsonComments | crates/theme/src/package.rs:124-161 | The scanner loop computes the stripped text and never leaves the text. |
| StripComments.StrippedSpells | crates/theme/src/package.rs:124-161 | The tokens of a text spell it, and the output spells those that are no comments. |
| StripComments.LexOfStripped | crates/theme/src/package.rs:124-161 | Reading the output again finds the same literals and characters: removing a comment never makes a new one. |
| StripComments.LiteralsKept | crates/theme/src/package.rs:124-161 | The output has no comment outside a string, and the same string literals in the same order. |
| StripComments.StrippedTwice | crates/theme/src/package.rs:124-161 | Stripping twice is stripping once, on every text. |
| StripComments.Advance | crates/theme/src/package.rs:130-159 | One turn of the scanner: what is written, the new place and the new flags. |
| StripComments.LineEnd | crates/theme/src/package.rs:145-148 | The end of a line comment. |
| StripComments.BlockEnd | crates/theme/src/package.rs:149-154 | The end of a block comment, also of one that is never closed. |
| Regex.MatchSplit | crates/theme/src/ignore.rs:151-169 | Matching a list of parts in a row is matching a front and then the rest, for some position between. |
| PushInvariants.NextKeeps | crates/theme/src/sync.rs:386-425 | Every step of a push keeps the invariant about chains, batches and deletions. |
| PushInvariants.DependentRanked | crates/theme/src/sync.rs:403-411 | The batches of the dependent chain are in the order of their groups and hold every dependent asset. |

## Left out

- Text is a sequence of characters that stand for bytes; UTF-8 validity and lossy conversion are not modelled, except that a text file on disk may be unreadable.
- User patterns between slashes in ignore files: their meaning is an arbitrary predicate on key and pattern.
- The size limit of the regular expression library, at which a huge pattern would match nothing.
- The regular expression library beyond the fragment that the pattern compiler emits.
- `parse_types_dts`, the orchestrator, file headers, attributes and layout of the generated code, and field identifiers.
- A raw string literal for a query that contains all eight markers, which is written in escaped form instead; carriage returns in raw strings.
- The meaning of references and of shared types in JSON is an arbitrary pair of predicates that agree; decoding is that of structs, options, lists, internally tagged enums and untagged one-or-many, and field names are taken as they are.
- Trimming an operation's text removes ASCII white space only; other Unicode spaces are not modelled.
- The existence check in `load` is taken to answer truthfully; a check that fails on an existing file would read it as empty.
- A removal of the settings file or of a temporary file by another program; the encoding of the stored map as JSON.
- Two spellings of one path, such as a doubled slash: a key that is accepted stands for its own path.
- Changes of the disk by others while one event, poll or pull is running; between them anything may change.
- File times and sizes, directory scanning, the watcher's debouncing, hot-reload messages, section names and the HTTP server.
- MD5 and CRC bit operations are on 32-bit words; the 64-bit bit length and 32-bit sizes and offsets wrap, where a debug build would stop instead.
- The ZIP directory and end record beyond the length of the directory.
- Theme selection, prompts, packaging metadata, and the command line crates: single decisions and formatting.
- Remote.RemoteTheme.FetchAssets: does not model an answer with a file that was not asked for; such an answer counts as a failed call.
- StorageCalls.Storage.Update: does not model other calls running meanwhile, which StorageGuarantees does.
- DevServer.Poll: does not promise that a download that stops part way can be resumed, because the code starts over with the next poll.
