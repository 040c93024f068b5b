# Verified kernels of the t3claw agent

A Dafny 4.11 model of the parts of the t3claw agent in which several functions have to agree with each
other: the settings algebra, the agentic loop, two source scanners, two text formats that must decode back,
three concurrent protocols, and UTF-8 safe truncation. The claims are statements over all inputs, all runs
or all interleavings; a few concrete inputs show where the code does not do what it promises.
`dafny verify dfyconfig.toml` checks everything.

How the repository's parts map to modules:

- **Settings** (`src/settings.rs`). `SettingsSchema` says what a settings type is, what its defaults are and
  what deserialising a JSON tree into it does. `SettingsPaths` has `get`, `set` and `reset` on dotted paths,
  `SettingsStore` flattens to and rebuilds from the database map, `SettingsRoundTrip` proves when that is
  lossless, `SettingsTexts` says what `set` makes of any text and which entries loading ignores, `SettingsMerge` proves
  the laws of layering, and `Settings` is the mutable object.
  A settings tree survives `from_db_map(to_db_map(s))` if and only if it is `Restorable`: every null sits over a
  null default, every value has the kind of its default, a text over a null or missing default does not parse as
  JSON, no object sits there, and map keys hold no dot. Empty keys of nested maps do survive.
- **Agentic loop** (`src/agent/agentic_loop.rs`, `src/util.rs`). `AgenticLoop` runs the loop against an
  adversary that may do anything a delegate can do in each iteration; `CanonicalJson` is the canonical form whose
  hash the duplicate tracker compares. The loop's counters are explained by the finished iterations alone, and
  `AgenticTurns` explains events, messages and ends by the turns.
- **Source scanners** (`scripts/check_gateway_boundaries.py`, `scripts/check_no_panics.py`).
  `GatewayScanner` and `LineSanitizer` are the two lexers, as loops over mode flags; `RustTokens`
  describes Rust source as a sequence of tokens by Rust's own lexical grammar, with lifetimes and character literals
  as tokens of their own; `ScannerReference` proves on which sources the first scanner agrees with it, and
  `LineReference`, over the reading of whole files in `LineReading`, on which the second does;
  `TestModules` and `TestContexts` are the brace walks, shown to agree with brace matching by depth, and `TestMarks` says
  when the marks of the second are those of Rust's own items. `TestText` ties them to the text of the lines.
- **Text formats** (`src/bootstrap.rs`, `src/agent/attachments.rs`). `EnvFile` edits `.env` files line by line;
  `Attachments` writes the `<attachments>` block, `AttachmentsRoundTrip` decodes it from the text alone
  (escapes as in section 2.4 of XML 1.0), and `AttachmentsShown` says what it shows of each attachment. `TextReplace` is character replacement.
- **Protocols** (`src/bootstrap.rs`, `src/tenant.rs`, `src/agent/agent_loop.rs`). `PidLock`, `TenantRegistry` and
  `TenantScope` are state machines over all interleavings or call sequences, `TenantLaws` says what each call does; `DrainLoop` follows one user message
  through the drain loop to the channel.
- **Truncation** (`src/tracing_fmt.rs`, `src/util.rs`). `Utf8` has the byte-mask walk and the string walk against
  the syntax of section 4 of RFC 3629.

Where a property the code or its comments suggest is false, the code is kept as it is and the exact condition is
proved:

- `reset` puts the default back exactly when the stored value keeps the default's printed form
  (`ResetRestoresDefault`); resetting an optional text that is set stores the text "null" (`ResetOptionalString`).
- The comment on `PidLock` says that there is no race between check and use. There is one between opening the
  file and locking it: after the holder unlinks, two instances can run, without another such unlink, if and only if some
  acquirer was between the two at that moment (`UnlinkIsSafeExactlyWhenNoneOpened`, reached from an empty directory in
  `RaceFromTheStart`).
- The boundary scanner guesses at apostrophes. It strips a source as Rust reads it if and only if no lifetime has another
  apostrophe within five characters or an `r` before a string at its end, and every character literal closes within five
  (`ScannerMeetsReference`); it blanks code in `<'a, 'b>` (`GenericLifetimesMisread`).
- The panic check's line sanitiser goes by a better rule for apostrophes, and still misreads. It keeps in step with Rust's
  tokens if and only if no lifetime ends in an `r` before a string, no raw string has a `#` behind it, and no string holds
  an escaped line end whose backslash, carried over to the next line, hides its closing quote or ends it early
  (`InStepExactly` and `LifetimesSeen`; `RawNeverEnds` and `CarriedEscapeMisread` for inputs).
- Saved `.env` lines read back if and only if no key and no value holds a newline (`SavedLinesIntact`). A batch upsert is
  a map override, and equals a single upsert, exactly under conditions on keys that trim to a written one (`BatchRefines`,
  `BatchOfOne`, and `PaddedKeyDiffers` for an input).
- The body of an unclosed test module is not blanked completely unless it is empty or ends in a blank
  (`BodyBlankExactly`, and `UnclosedModuleKeepsLastChar` for an input).
- The panic check marks exactly the test items and their blocks if and only if no item that a semicolon or a closing brace
  has ended lingers for the next brace, and no test item breaks its line behind a semicolon in brackets or has a brace
  group in its header, as in `fn f(a: [u8; {2}]) {` (`MarksExact`, with an input for each way to fail).
- The replies of the modelled calls depend on another tenant's rows in two ways: creating a routine, or ensuring a
  conversation, under an id that another tenant has (`ReplyLeaksOnlyClashes`, `RepliesDependOnOwnRows`).
- The comment on the truncation counter says that it accumulates over all iterations; the code sets it back with every
  batch that is not truncated, and the model follows the code.

## Model

| member | source | states |
|---|---|---|
| JsonTree.SplitAtDot | src/settings.rs:1332-1352 | splitting a path extended by a key gives the pieces of the path and then those of the key |
| JsonTree.JoinThenSplit | src/settings.rs:1234-1241 | joining dot-free pieces with dots and splitting again gives the pieces back |
| JsonTree.SplitThenJoin | src/settings.rs:1234-1241 | splitting any path and joining the pieces gives the path back |
| JsonTree.SplitInjective | src/settings.rs:1234-1241 | different paths have different pieces |
| SettingsSchema.Deserialize | src/settings.rs:1300-1302 | what is read conforms to the type, a conforming tree reads as itself, and missing fields are read as their attribute says, which need not be the default |
| SettingsSchema.DefaultConforms | src/settings.rs:1191-1210 | the serialised defaults conform to their own type |
| SettingsPaths.DeserializeUpdate | src/settings.rs:1298-1302 | re-reading a conforming tree with one changed field re-reads that field alone, drops it if unknown, and fails exactly when it fails |
| SettingsPaths.SetBelow | src/settings.rs:1234-1305 | on a path of several pieces `set` works below the first key exactly as it would from there, failures included |
| SettingsPaths.SetIsLocal | src/settings.rs:1234-1305 | `set`, which rebuilds the whole tree, equals the recursive update of one slot, result and error |
| SettingsPaths.SetSlot | src/settings.rs:1234-1305 | a successful `set` keeps the tree conforming to its type |
| SettingsPaths.SetFrame | src/settings.rs:1234-1305 | a `set` leaves every path that is neither above nor below its own as it was |
| SettingsPaths.SetsCommute | src/settings.rs:1234-1305 | two `set`s on paths neither of which is a prefix of the other commute, and each fails in the same way in either order |
| SettingsPaths.InferKeeps | src/settings.rs:1253-1296 | inferring a value from its own printed text over an existing value gives it back if and only if kinds and text allow it |
| SettingsPaths.SetThenGet | src/settings.rs:1213-1305 | after a successful `set` a `get` at the path reads the inferred value as its field type does; an unknown field stays out and changes nothing |
| SettingsPaths.SetAtFails | src/settings.rs:1234-1305 | whether and with which error a `set` on an existing slot fails, in terms of the value inferred from the text; `SettingsTexts.SetUnderstood` says it of the text itself |
| SettingsPaths.GetAfterSet | src/settings.rs:1213-1305 | what an existing slot holds after a `set`, failed or not, in terms of the inferred value |
| SettingsPaths.ResetRestoresDefault | src/settings.rs:1308-1316 | for every path of the defaults, after `reset` the default is stored if and only if the replaced value keeps the default's printed form |
| SettingsPaths.ResetOptionalString | src/settings.rs:1308-1316 | resetting a set optional text stores the text "null", not a null |
| SettingsTexts.SetUnderstood | src/settings.rs:1234-1305 | for every text over a value that is there, from the text and the two trees alone: a flag takes "true" and "false", each kind of number what its own parser takes (a float text that is not finite becomes text), a text any text, a list or object what parses as JSON, a null JSON or else the text; all if the field type takes it, and a refusal leaves the tree alone |
| SettingsTexts.SetFlag | src/settings.rs:1256-1261 | a flag is set if and only if the text is "true" or "false", and then prints as that text; otherwise the value is refused |
| SettingsTexts.SetMissing | src/settings.rs:1234-1305 | over a value that is not there: no parent, a parent that is no object, an unknown field that changes nothing, or a missing map key that takes JSON or else the text |
| SettingsStore.CollectSettingsJson | src/settings.rs:1332-1352 | exactly the dotted leaves are inserted, over what the map held, in any member order |
| SettingsStore.ToDbMap | src/settings.rs:1106-1116 | the map holds exactly the dotted leaves of the tree without the owner |
| SettingsStore.FromDbMap | src/settings.rs:1062-1100 | the loop equals replaying the entries in iteration order over the defaults, nulls and failing sets skipped |
| SettingsStore.Rebuilt | src/settings.rs:1062-1100 | whatever the map holds, the rebuilt settings conform to the type |
| SettingsTexts.IgnoredEntries | src/settings.rs:1070-1085 | nulls and the owner can be left out of the stored map: the settings rebuilt from it are the same |
| SettingsTexts.DefaultStays | src/settings.rs:1070-1085 | a path that only nulls and the owner lie at, above or below keeps its default, whatever it is |
| SettingsRoundTrip.LeafSplits | src/settings.rs:1332-1352 | every stored path splits into the pieces of its prefix and of a leaf below it |
| SettingsRoundTrip.LeafJoins | src/settings.rs:1332-1352 | every leaf below a prefix is stored under a path with exactly those pieces |
| SettingsRoundTrip.ReplayBelow | src/settings.rs:1070-1098 | replaying entries over an object replays in each field the entries below that field |
| SettingsRoundTrip.SlotRoundTrip | src/settings.rs:1062-1116 | replaying the leaves of any value over the default of its type restores it if and only if it is restorable |
| SettingsRoundTrip.StructRoundTrip | src/settings.rs:1062-1116 | the same for a struct, field by field |
| SettingsRoundTrip.DictRoundTrip | src/settings.rs:1062-1116 | a map is restored if and only if its keys hold no dot and its values are no objects and keep their printed form |
| SettingsRoundTrip.EntriesListLeaves | src/settings.rs:1062-1116 | in every iteration order the entries of the stored map list each stored leaf path once |
| SettingsRoundTrip.RoundTrip | src/settings.rs:1062-1116 | for every settings value, every map it may be stored as and every iteration order, loading gives it back with the owner forgotten if and only if every other field is restorable |
| SettingsRoundTrip.MoveToFront | src/settings.rs:1070-1098 | an entry not comparable with those before it may be applied first |
| SettingsRoundTrip.OrderIrrelevant | src/settings.rs:1070-1098 | pairwise incomparable entries give the same settings in every permutation |
| SettingsRoundTrip.RebuiltInAnyOrder | src/settings.rs:1062-1100 | on every prefix-free map `from_db_map` does not depend on the iteration order |
| SettingsRoundTrip.LeavesApart | src/settings.rs:1332-1352 | flattened paths of a tree with dot-free keys never lie one above another |
| SettingsRoundTrip.DbMapPrefixFree | src/settings.rs:1106-1116 | the stored map of such a tree is prefix-free and no leaf is lost to a collision |
| SettingsMerge.MergeNonDefault | src/settings.rs:1393-1419 | the in-place loop over the overlay's members computes the layering, in any member order |
| SettingsMerge.ConformingIsLayer | src/settings.rs:1191-1210 | every tree a settings value serialises to has the shape the layering laws need |
| SettingsMerge.MergeConforms | src/settings.rs:1191-1210 | merging two conforming trees conforms, so `merge_from` never drops the merged value |
| SettingsMerge.MergeAssociative | src/settings.rs:1393-1419 | layering is associative |
| SettingsMerge.MergeDefaultRight | src/settings.rs:1393-1419 | the defaults over anything change nothing |
| SettingsMerge.MergeDefaultLeft | src/settings.rs:1393-1419 | anything over the defaults is that thing |
| SettingsMerge.LayersAreMonoid | src/settings.rs:1393-1419 | the layers over one default, the default among them, are a monoid under merging with the default as identity |
| SettingsMerge.NullUnderNewKeyIsLost | src/settings.rs:1393-1419 | a null under a key the defaults do not have disappears in a merge, which is why the laws exclude it |
| SettingsMerge.MergeAtLeaf | src/settings.rs:1393-1419 | at every leaf the overlay's value is taken if present and not the default, otherwise the base's |
| SettingsMerge.LeavesDetermine | src/settings.rs:1393-1419 | trees that agree at every leaf are equal, so the previous law determines the merge |
| SettingsMerge.NonDefaultStays | src/settings.rs:1393-1419 | a value that differs from the default never merges back to the default |
| SettingsMerge.MergeTwice | src/settings.rs:1393-1419 | merging the same overlay again changes nothing |
| SettingsMerge.WizardRecovery | src/settings.rs:1931-1936 | loading the database over a step and re-applying the step equals the step layered over the database |
| Settings.Settings.constructor | src/settings.rs:70-72 | new settings hold the defaults and conform to their type |
| Settings.Settings.Set | src/settings.rs:1234-1305 | over a value that is there the text does what its kind says; a failed set changes nothing, a successful one changes only slots above or below the path, and the settings stay valid |
| Settings.Settings.Reset | src/settings.rs:1308-1316 | fails exactly on paths without a default; afterwards the default is stored if and only if the replaced value keeps its printed form |
| Settings.Settings.MergeFrom | src/settings.rs:1191-1210 | the settings become the other ones layered over them and stay valid |
| Settings.Settings.SaveAndLoad | src/settings.rs:1062-1116 | saving and loading in any order restores the settings without the owner if and only if every field is restorable |
| CanonicalJson.Sort | src/util.rs:96-97 | sorting keeps the keys as a multiset |
| CanonicalJson.CanonicalizeJsonValue | src/util.rs:90-108 | the recursive rebuild computes the canonical form |
| CanonicalJson.CanonicalComplete | src/util.rs:90-108 | equal canonical forms mean equality up to member order at any depth |
| CanonicalJson.CanonicalSound | src/util.rs:90-108 | equality up to member order means equal canonical forms |
| CanonicalJson.CanonicalExact | src/util.rs:90-108 | canonical forms are equal if and only if the values differ by member order alone |
| CanonicalJson.CanonicalIsSame | src/util.rs:90-108 | a value differs from its canonical form by member order alone |
| CanonicalJson.CanonicalIdempotent | src/util.rs:90-108 | canonicalising twice is canonicalising once |
| AgenticLoop.RecordTracks | src/agent/agentic_loop.rs:186-200 | after recording a batch the count is the length of the trailing run of failed batches with one fingerprint |
| AgenticLoop.TextBreaksStreak | src/agent/agentic_loop.rs:296-306 | a handled text ends the streak and neither warns nor forces text |
| AgenticLoop.ThreeTruncationsExtends | src/agent/agentic_loop.rs:311-339 | the pending counter passes two exactly when three truncations occur with no executed batch between |
| AgenticLoop.IterationKeeps | src/agent/agentic_loop.rs:219-383 | whatever the delegate does, every counter, flag and warning is still explained by the history of finished iterations |
| AgenticLoop.RunExplained | src/agent/agentic_loop.rs:213-386 | after any number of iterations of any run the same holds, also of the state in which a run ends |
| AgenticLoop.RunResult | src/agent/agentic_loop.rs:213-386 | in every run: `after_iteration` got exactly 1..k, the warnings number the sum of max(0, L - 2) over the maximal streaks of length L, text is forced iff it was from the start or a streak reached five or three truncations met no batch, nudges are bounded by the resets, and the loop runs out iff k is the limit |
| AgenticTurns.IterationAdvances | src/agent/agentic_loop.rs:219-383 | an iteration finishes with the one event its turn calls for, or ends as the first part of the turn that says so, and pushes exactly the messages that belong to it |
| AgenticTurns.OneWay | src/agent/agentic_loop.rs:219-383 | no turn calls for two events, or for an event and an end, so the former determines what happens |
| AgenticTurns.RunFollowsTurns | src/agent/agentic_loop.rs:213-386 | in every run: turn i is nudged iff its reply is a text that signals intent, nudging is on, tools are available, the events before do not force text and fewer nudges than allowed came since the last batch or handled text without intent; it is truncated iff its batch was; the run ends with exactly what the next turn's signal, check, text action or execution said; the messages are those of the finished turns in order, with one nudge for each nudged turn and one notice for each truncation |
| AgenticLoop.StreaksTrail | src/agent/agentic_loop.rs:186-200 | when the last event seen is a failed batch, the last maximal streak is the longest one that ends with it |
| AgenticLoop.WarningsSum | src/agent/agentic_loop.rs:354-378 | the positions at which a streak is three or longer number the sum of max(0, L - 2) over the maximal streaks of length L |
| AgenticLoop.SameFingerprint | src/agent/agentic_loop.rs:174-183 | calls that differ by member order have the same fingerprint |
| AgenticLoop.ArgumentOrderIrrelevant | src/agent/agentic_loop.rs:174-200 | permuting members in every batch of a run changes no state of the run |
| AgenticLoop.DuplicateToolCallTracker.RecordWithFingerprint | src/agent/agentic_loop.rs:186-200 | the fields move as the recorded function says, and the new count is returned |
| AgenticLoop.DuplicateToolCallTracker.Reset | src/agent/agentic_loop.rs:203-206 | the tracker is empty again |
| AgenticLoop.Loop.HandleText | src/agent/agentic_loop.rs:268-306 | a text reply moves the loop's fields as one step of the run, nudge or handled; `AgenticTurns.IterationAdvances` says which from the turn |
| AgenticLoop.Loop.HandleTools | src/agent/agentic_loop.rs:307-380 | a tool reply moves them as one step of the run; a truncated batch is not executed |
| AgenticLoop.Loop.RunIteration | src/agent/agentic_loop.rs:219-383 | one iteration is one step of the run |
| AgenticLoop.RunAgenticLoop | src/agent/agentic_loop.rs:213-386 | the loop ends as the run does, which `AgenticTurns.RunFollowsTurns` determines from the turns, and has executed exactly the batches that were not truncated |
| GatewayScanner.Scanner.Turn | scripts/check_gateway_boundaries.py:147-280 | one turn of the loop with its flags is one move of the mode machine, at most one flag stays up |
| GatewayScanner.StripCommentsAndStrings | scripts/check_gateway_boundaries.py:130-282 | the loop over flags computes the scan by modes |
| GatewayScannerProperties.ScanDims | scripts/check_gateway_boundaries.py:130-282 | the output has the input's length and each character is the original or a space |
| GatewayScannerProperties.NewlinesSurvive | scripts/check_gateway_boundaries.py:130-282 | a newline survives if and only if it is not escaped inside a character literal |
| GatewayScannerProperties.ScanIsQuiet | scripts/check_gateway_boundaries.py:130-282 | no position of the output starts a comment or a literal |
| GatewayScannerProperties.ScanIdempotent | scripts/check_gateway_boundaries.py:130-282 | scanning the output again changes nothing, for every source text |
| ScannerReference.CommentRead | scripts/check_gateway_boundaries.py:160-173 | a block comment, nested to any depth, is blanked to its own closing and no further |
| ScannerReference.TokenRead | scripts/check_gateway_boundaries.py:130-282 | each token of Rust's grammar that the rule for apostrophes gets right is read as a whole, kept if it is code and blanked if not |
| ScannerReference.TokenMisread | scripts/check_gateway_boundaries.py:262-277 | every other token shows at a definite place of the output |
| ScannerReference.LongCharMisread | scripts/check_gateway_boundaries.py:266-277 | a character literal that closes later, such as one of a code point, is copied as code from its apostrophe on |
| ScannerReference.LifetimeTakenForChar | scripts/check_gateway_boundaries.py:266-277 | a lifetime with another apostrophe near is blanked like a literal |
| ScannerReference.LifetimeTakenForRaw | scripts/check_gateway_boundaries.py:242-253 | a lifetime that ends in `r` before a string loses that letter to a raw string |
| ScannerReference.ScannerMeetsReference | scripts/check_gateway_boundaries.py:130-282 | on every source tokenised by Rust's grammar, lifetimes included, the output keeps exactly the code and blanks exactly the rest if and only if every lifetime has no other apostrophe within five characters and no `r` before a string at its end, and every character literal closes within five |
| ScannerReference.GenericLifetimesMisread | scripts/check_gateway_boundaries.py:266-277 | of the code `<'a, 'b>` the output is `<     b>` |
| TestModules.FindClose | scripts/check_gateway_boundaries.py:315-323 | the depth walk ends one past the matching brace, or at the end of the text if there is none |
| TestModules.CloseUnique | scripts/check_gateway_boundaries.py:315-323 | that place is unique |
| TestModules.GroupedImportBody | scripts/check_gateway_boundaries.py:374-385 | the body of a grouped import is everything up to the matching brace, or all that is left |
| TestModules.BlankTestModules | scripts/check_gateway_boundaries.py:301-331 | exactly the positions strictly inside the taken modules are blanked |
| TestModules.ModulesApart | scripts/check_gateway_boundaries.py:310-330 | taken modules never overlap and each is a whole walk |
| TestModules.HeadersTaken | scripts/check_gateway_boundaries.py:310-313 | every header starts a taken module or lies inside one |
| TestModules.BlankingKeepsLines | scripts/check_gateway_boundaries.py:327-329 | newlines stay exactly where they were |
| TestModules.ClosedModuleStays | scripts/check_gateway_boundaries.py:324-330 | a closed module still closes at the same brace after blanking |
| TestModules.BodyHasNoBrace | scripts/check_gateway_boundaries.py:324-330 | no brace is left inside a module |
| TestModules.BodyBlankExactly | scripts/check_gateway_boundaries.py:324-330 | the body of a taken module is blanked completely if and only if the module is closed, or its body is empty, or the text ends in a blank |
| TestModules.UnclosedModuleKeepsLastChar | scripts/check_gateway_boundaries.py:327-330 | the last character of `mod tests {x` stays visible |
| LineSanitizer.LexerState.Turn | scripts/check_no_panics.py:57-149 | one turn with the state's flags is one move of the mode machine, at most one kind of literal or comment stays open; `LineReading.TurnIsNext` says what the moves are |
| LineSanitizer.SanitizeLine | scripts/check_no_panics.py:52-156 | the loop writes the walked line and leaves the walked mode, character literals closed at the end of the line |
| LineSanitizer.WalkIsQuiet | scripts/check_no_panics.py:52-149 | no quote and no comment start is left, whatever was open when the line began |
| LineSanitizer.SanitizedIsStable | scripts/check_no_panics.py:52-156 | a sanitised line keeps its length, keeps or blanks each character, and sanitised again is unchanged and leaves nothing open |
| LineReading.TurnIsNext | scripts/check_no_panics.py:57-149 | a move on a line is the turn on the text behind it, whatever lines follow: comment and raw ends, quotes and escapes, and what makes an apostrophe a lifetime |
| LineReading.TextIsRead | scripts/check_no_panics.py:169-178 | sanitising a file line by line, with the state carried along, is one reading of the whole text |
| LineReference.InsideOn | scripts/check_no_panics.py:61-71 | a block comment, nested to any depth and over any lines, is blanked to its own closing and no further |
| LineReference.TokenExactly | scripts/check_no_panics.py:52-156 | a token of Rust's grammar is read as a whole, kept if it is code, blanked if not, and left in plain code, if and only if it is no lifetime taken for a literal or ending in `r` before a string, no raw string with a `#` behind it, and no string whose closing quote an escape carried over a line end hides |
| LineReference.InStepExactly | scripts/check_no_panics.py:52-156 | on every source tokenised by Rust's grammar the script keeps in step with the tokens if and only if each is one it gets right |
| LineReference.SanitizedKeepsCode | scripts/check_no_panics.py:52-156 | then the sanitised lines keep exactly the code, blank exactly the rest, and leave nothing open |
| LineReference.SanitizedExactly | scripts/check_no_panics.py:52-156 | on every source without a line end escaped in a string, the sanitised lines are that if and only if every token is one the script gets right |
| LineReference.MisreadShows | scripts/check_no_panics.py:57-149 | the first misread token of such a source shows at a definite place: a letter of the lifetime's name, or the `#` behind the raw string, is blanked |
| LineReference.LifetimesSeen | scripts/check_no_panics.py:126-146 | where the script's letters and digits fit Rust's identifiers its rule for apostrophes takes every lifetime for one |
| LineReference.NoLifetimeInChar | scripts/check_no_panics.py:126-146 | and it takes no character literal for a lifetime, with any escape |
| LineReference.CarriedEscapeMisread | scripts/check_no_panics.py:86-94 | of a string that holds an escaped line end and nothing more, the code behind it is blanked |
| LineReference.CarriedEscapeUnseen | scripts/check_no_panics.py:86-94 | such a misreading may leave no trace in the output |
| LineReference.RawNeverEnds | scripts/check_no_panics.py:73-84 | whatever follows a raw string with a `#` too many is blanked until the next quote |
| TestContexts.WalkBraces | scripts/check_no_panics.py:193-201 | the loop over the characters runs the tracker over the braces |
| TestContexts.TrackLine | scripts/check_no_panics.py:178-204 | one line gives its context, the waiting attribute and the tracker after it |
| TestContexts.LineTestContexts | scripts/check_no_panics.py:169-206 | a line is marked if and only if it starts between the matching braces of a block opened as test code, or a test item is announced and waits for its block |
| TestContexts.RunKeepsClosed | scripts/check_no_panics.py:193-204 | after every operation the stack has no ordinary block above a test block |
| TestContexts.OpenedIsWithin | scripts/check_no_panics.py:193-201 | the open braces on the stack are exactly those whose block, by depth, reaches the position |
| TestContexts.RunMeans | scripts/check_no_panics.py:169-206 | after every operation each stack entry and the pending context are what brace matching says they are |
| TestText.ItemIsTest | scripts/check_no_panics.py:178-189 | an item is a test if and only if it is `mod tests`, or a test attribute stands on its line or above with only attributes, blank lines and no item between |
| TestText.StopsExactly | scripts/check_no_panics.py:179-204 | a waiting item is given up at the end of exactly the lines whose last character, spaces aside, is a semicolon |
| TestText.BracesAreTracked | scripts/check_no_panics.py:193-201 | the operations of a line open and close blocks exactly at its braces, in order |
| TestMarks.TestItemsAreMarked | scripts/check_no_panics.py:169-206 | nothing between the braces of a test item is missed where no test item is lost over the end of a line or a brace group in its header |
| TestMarks.MarkedOnlyTestItems | scripts/check_no_panics.py:193-204 | the script opens test code in test items only where no ended item lingers |
| TestMarks.MarksExact | scripts/check_no_panics.py:184-204 | the marks are exactly the test items with their headers and blocks, by matching braces, brackets and semicolons, at every position, if and only if no ended item lingers and no test item is lost over the end of a line or a brace group in its header |
| TestMarks.LingersBecause | scripts/check_no_panics.py:193-204 | an item that lingers has been ended by a semicolon or a closing brace, and nothing else has come since |
| TestMarks.LostBecause | scripts/check_no_panics.py:193-204 | a lost test item goes on over the end of a line that ends in a semicolon in brackets, or over a brace group in brackets |
| TestMarks.LineIsMarked | scripts/check_no_panics.py:184-191 | a line is marked as its position behind a possible item is |
| TestMarks.TestItemEndedEarlier | scripts/check_no_panics.py:184-204 | a test item that ended with its enclosing block passes its mark on to the next brace |
| TestMarks.OrdinaryItemEndedEarlier | scripts/check_no_panics.py:184-204 | so does an ordinary item that ended with the test module around it |
| TestMarks.TestItemEndedOnItsLine | scripts/check_no_panics.py:184-204 | and a test item that a semicolon ended inside its line |
| TestMarks.TestItemLostInBrackets | scripts/check_no_panics.py:203-204 | a test function whose parameters break the line behind a semicolon is not marked at all |
| TestMarks.TestItemLostBehindGroup | scripts/check_no_panics.py:193-199 | of a test function with a braced array length in its parameters only the length is marked, and not the body |
| TestMarks.BracedLengthOps | scripts/check_no_panics.py:193-201 | in the text of every such header the first brace stands in brackets and the second opens the block |
| TestMarks.BracedLengthExample | scripts/check_no_panics.py:193-201 | `fn f(a: [u8; {2}]) {` is such a header |
| Attachments.AugmentWithAttachments | src/agent/attachments.rs:22-54 | nothing without attachments; otherwise the augmented text, and one image part for each image with data |
| Attachments.PushAttachments | src/agent/attachments.rs:30-52 | the loop appends one formatted entry for each attachment, in order |
| AttachmentsRoundTrip.UnescapeText | src/agent/attachments.rs:65-69 | escaped text reads back, whatever follows it |
| AttachmentsRoundTrip.UnescapeAttr | src/agent/attachments.rs:57-63 | an escaped attribute value reads back, whatever follows it |
| AttachmentsRoundTrip.EscapedIsSafe | src/agent/attachments.rs:57-69 | escaped text holds no opening bracket, an escaped attribute no quote either |
| AttachmentsRoundTrip.AttrsRead | src/agent/attachments.rs:71-169 | written attributes read back with names, values and order |
| AttachmentsRoundTrip.BodyRead | src/agent/attachments.rs:171-180 | the body reads back with the path line taken off |
| AttachmentsRoundTrip.EntryRead | src/agent/attachments.rs:71-169 | a formatted attachment reads back as its entry, whatever follows it |
| AttachmentsRoundTrip.BlockHasNoOpen | src/agent/attachments.rs:22-69 | nothing inside the block looks like its opening mark |
| AttachmentsRoundTrip.AugmentedDecodes | src/agent/attachments.rs:22-180 | for arbitrary content and attachment strings the text alone gives back the content and every entry as it was written; `AttachmentsShown.AugmentedShows` says what the entries are |
| AttachmentsShown.AugmentedShows | src/agent/attachments.rs:22-180 | from the text alone a reader has the content and one entry for each attachment, numbered from 1 in order: "audio", "image" or "document" exactly by kind, its name or "unknown", its type, path, duration and size exactly as they are or are not there, and the body its kind and data call for |
| AttachmentsShown.AugmentedInjective | src/agent/attachments.rs:22-180 | equal augmented texts have equal content, and attachments of equal kinds, displayed names, types, paths, texts, sizes and durations |
| AttachmentsShown.ImagePartsExact | src/agent/attachments.rs:22-54 | each image with data is one part with its type and its data, in order, and nothing else is |
| AttachmentsRoundTrip.PlaceholderCollides | src/agent/attachments.rs:135-154 | a document without text and one whose text is the placeholder are written alike |
| EnvFile.LinesReadBack | src/bootstrap.rs:238-249 | written lines that hold no newline read back, without a carriage return at their ends |
| EnvFile.EscapeReadsBack | src/bootstrap.rs:202-203 | for every value the first unescaped quote is the closing one and the value reads back |
| EnvFile.EscapeKeepsLines | src/bootstrap.rs:200-203 | escaping neither adds nor removes a newline |
| EnvFile.SavedLinesIntact | src/bootstrap.rs:194-208 | saved variables read back line by line if and only if no key and no value holds a newline |
| EnvFile.StartsWithKey | src/bootstrap.rs:319-326 | for keys without an equals sign, the prefix test is a test of the key |
| EnvFile.WithoutEnv | src/bootstrap.rs:276-286 | removal refines deletion of the key and leaves no line of it |
| EnvFile.UpsertRefines | src/bootstrap.rs:308-347 | a single upsert refines a point update and leaves exactly one line of the key |
| EnvFile.UpsertKeepsOthers | src/bootstrap.rs:308-347 | for every key, the lines of other keys keep content and order |
| EnvFile.UpsertInPlace | src/bootstrap.rs:308-347 | the new line stands where the key's first line stood, later lines of the key are gone, and it comes last if there was none |
| EnvFile.WithoutDropsOnly | src/bootstrap.rs:276-286 | removing a key drops exactly the lines that start with it and an equals sign; comments and all other lines stay where they are |
| EnvFile.BatchKeepsComments | src/bootstrap.rs:236-249 | a batch leaves every line without an equals sign where it is |
| EnvFile.BatchDropsOnly | src/bootstrap.rs:236-249 | of the other lines it drops exactly those whose trimmed key is written |
| EnvFile.BatchEnv | src/bootstrap.rs:220-260 | on every file: the variables whose trimmed key is written go, all others stay and come first, and how many lines each key has |
| EnvFile.BatchRefines | src/bootstrap.rs:220-260 | on every file a batch is a map override if and only if trimming takes no other variable for a written key and hides none behind an old line |
| EnvFile.TidyBatch | src/bootstrap.rs:220-260 | on files whose keys carry no surrounding spaces a batch is a map override, with one line for each distinct key |
| EnvFile.BatchOfOne | src/bootstrap.rs:220-347 | on every file a batch of one and a single upsert write the same variables if and only if no other key trims to the written one and the written key trims to itself, is new or has the value already |
| EnvFile.PaddedKeyDiffers | src/bootstrap.rs:240-243 | on a file with a padded key they do not |
| EnvFile.UpsertReadsBack | src/bootstrap.rs:308-347 | the file after an upsert, read again, holds the value under the key on one line and every other variable as it was read, without a trailing carriage return |
| EnvFile.RemoveAfterUpsert | src/bootstrap.rs:269-347 | removing what was just upserted leaves the lines without that key, for every key |
| EnvFile.EnvFile.Save | src/bootstrap.rs:194-208 | the file holds one line for each variable |
| EnvFile.EnvFile.Upsert | src/bootstrap.rs:308-347 | the loop with its flag writes the upserted lines; a file that cannot be read is replaced |
| EnvFile.EnvFile.Remove | src/bootstrap.rs:269-295 | the file is rewritten without the key exactly when a line of it was there; a missing file is fine, an unreadable one an error |
| EnvFile.EnvFile.UpsertAll | src/bootstrap.rs:220-260 | the two loops write the other lines and then the new ones; a file that cannot be read is left alone |
| PidLock.OneHolderPerFile | src/bootstrap.rs:555-601 | in every interleaving of open, try-lock, truncate, write, unlink, close and crash each file has at most one lock holder, and a holder's file holds its PID |
| PidLock.OneInstance | src/bootstrap.rs:555-601 | in every run without an acquirer between open and try-lock at an unlink there is one instance at a time, and the file at the path holds its PID once written |
| PidLock.RefusedReadsHolder | src/bootstrap.rs:573-583 | a refused acquirer that reads the path while an instance has its PID written reads that instance's PID |
| PidLock.RefusedReadsNothing | src/bootstrap.rs:573-600 | the holder may unlink between refusal and reading, and then nothing is read |
| PidLock.RaceBreaksExclusion | src/bootstrap.rs:555-601 | otherwise the exhibited trace ends with two instances |
| PidLock.UnlinkIsSafeExactlyWhenNoneOpened | src/bootstrap.rs:565-601 | after an unlink all continuations whose own unlinks meet no acquirer between open and try-lock keep one instance if and only if this one met none |
| PidLock.RaceFromTheStart | src/bootstrap.rs:555-601 | the race can be reached from a directory nobody uses |
| TenantRegistry.RunKeeps | src/tenant.rs:985-1143 | every interleaving keeps one rate state per user, none shared, and no permit lost or made |
| TenantRegistry.OneRatePerUser | src/tenant.rs:1021-1041 | two tasks have the same rate state if and only if they have the same user |
| TenantRegistry.RateIsStable | src/tenant.rs:1021-1041 | a user's rate state never changes once it is there |
| TenantRegistry.PermitsBounded | src/tenant.rs:1136-1143 | a user's outstanding LLM permits never exceed the maximum |
| TenantRegistry.TenantRateRegistry.GetOrCreate | src/tenant.rs:1021-1041 | the user's rate state is returned, made on the first call, and no other user's entry changes |
| TenantScope.CallIsolated | src/tenant.rs:118-543 | every modelled call acts on the caller's rows as the call on those rows alone would, and leaves every other user's rows as they were |
| TenantScope.OthersUntouched | src/tenant.rs:118-543 | any sequence of calls by one user leaves every other user's rows unchanged |
| TenantScope.RepliesDependOnOwnRows | src/tenant.rs:118-543 | on databases that agree on the caller's rows the replies to any sequence of calls are equal if and only if the same calls create a routine or ensure a conversation under a foreign id, and then the caller's rows stay equal |
| TenantScope.ReplyLeaksOnlyClashes | src/tenant.rs:205-384 | replies of one call are equal on such databases exactly when both or neither create a routine or ensure a conversation under an id that another user has |
| TenantLaws.ReadsBack | src/tenant.rs:118-543 | a read changes nothing, and what a user reads after a call of its own is not changed by whatever calls others make in between |
| TenantLaws.ReadJobLaws | src/tenant.rs:105-177 | jobs and sandbox jobs are read and listed exactly where the caller owns them |
| TenantLaws.ReadRoutineLaws | src/tenant.rs:187-203 | so are routines |
| TenantLaws.UpdateJobLaws | src/tenant.rs:136-152 | a status is changed if and only if the job is the caller's, and then reads back; nothing else changes |
| TenantLaws.CreateRoutineLaws | src/tenant.rs:205-212 | a routine is created if and only if its id is free and the name is not in use by the caller, and then reads back; nothing else changes |
| TenantLaws.UpdateRoutineLaws | src/tenant.rs:214-223 | and updated if and only if it is the caller's and no other routine of the caller has the name |
| TenantLaws.EnsureNewLaws | src/tenant.rs:370-384 | ensuring a conversation under a free id makes one of the caller's on that channel, without messages |
| TenantLaws.EnsureAgainLaws | src/tenant.rs:370-384 | under a taken id it succeeds if and only if the conversation is the caller's on that channel; it keeps the messages |
| TenantLaws.AddMessageLaws | src/tenant.rs:443-459 | a message is appended if and only if the conversation is the caller's |
| TenantLaws.SetSettingLaws | src/tenant.rs:317-325 | a setting is written under its key alone and reads back |
| TenantLaws.DeleteSettingLaws | src/tenant.rs:327-331 | and deleted alone, saying whether it was there |
| TenantScope.TenantScope.Call | src/tenant.rs:118-543 | a call changes the shared database as stated and leaves every other user's rows unchanged |
| DrainLoop.JoinMerged | src/agent/session.rs:417-424 | merging some queued texts first makes no difference to the joined whole |
| DrainLoop.Thread.DrainPendingMessages | src/agent/session.rs:417-424 | the queue is emptied and its texts are returned joined with newlines |
| DrainLoop.Thread.RequeueDrained | src/agent/session.rs:434-437 | the text is back at the front of the queue |
| DrainLoop.Channel.RespondThenDone | src/agent/agent_loop.rs:382-406 | a response is followed by Done whether or not the channel takes it, and the caller learns which |
| DrainLoop.Channel.SendDone | src/agent/agent_loop.rs:412-428 | Done alone |
| DrainLoop.ProcessAndDrain | src/agent/agent_loop.rs:1789-1887 | every turn's response is sent at most once and in order, the loop goes on exactly after a response with the thread there and something queued, and while the thread is there every queued text was answered or is back in the queue, in order |
| DrainLoop.PairsInOrder | src/agent/agent_loop.rs:1816-1884 | the n-th response of the drain loop is the n-th turn's, followed by Done |
| DrainLoop.Dispatch | src/agent/agent_loop.rs:1175-1261 | what is sent for an outcome and hook, and that only a shutdown leaves the loop |
| DrainLoop.ChannelTrace | src/agent/agent_loop.rs:1175-1261 | the channel sees response and Done in pairs and then Done, nothing, or one more pair; nothing exactly on a pause or a shutdown |
| DrainLoop.FinalAnswer | src/agent/agent_loop.rs:1175-2156 | from the turn's result and the hook: a text for the user is sent and then Done, another text in its place under a modifying hook, Done alone under a blocking one; a hard error is sent as it is; an empty text is Done alone; and nothing is sent if and only if the turn is paused or the agent stops |
| DrainLoop.SaysOrNot | src/agent/agent_loop.rs:2104-2156 | every result is one of these |
| DrainLoop.HandleUserMessage | src/agent/agent_loop.rs:1789-2156 | the whole trace of one message from the turns, the hook and the queue: the turns before the last are answered once each and in order, the last result as `FinalAnswer` says, it waits exactly after a response with something queued, and the agent stops exactly on a silent reply, an absent message or the exit of the single-message REPL |
| Utf8.BoundaryIsNoTail | src/tracing_fmt.rs:107-120 | in well-formed text both sides of a position are well-formed if and only if it holds no continuation byte |
| Utf8.TailRun | src/tracing_fmt.rs:107-120 | there are never more than three continuation bytes in a row |
| Utf8.Utf8Floor | src/tracing_fmt.rs:112-120 | the walk stops at the largest character boundary at or below the position, at most three bytes back |
| Utf8.FloorCharBoundary | src/util.rs:11-20 | the same for the string walk; past the end it returns the length |
| Utf8.WalksAgree | src/tracing_fmt.rs:112-120 | both walks cut at the same place |
| Utf8.TruncateForPreview | src/agent/agentic_loop.rs:388-400 | short text is unchanged, long text is cut at the largest boundary and marked, and the result is well-formed |
| Utf8.EventBuffer.Write | src/tracing_fmt.rs:97-100 | written bytes are appended and all of them counted |
| Utf8.EventBuffer.Drop | src/tracing_fmt.rs:122-165 | short events come out unchanged; long ones are cut at the largest boundary, without a newline at the cut, and end in "...[nB total]" with n the decimal number of bytes written; output of well-formed input is well-formed, and never longer than the limit and the suffix |

## Left out

- Printing and parsing of leaves by serde is a parameter (`Codec`) with a stated round-trip law; that a leaf re-serialises as itself is part of the schema, so rounding of 32-bit floats, serde aliases, skipped fields, structs read from arrays and the field `secrets_master_key_hex` are not modelled.
- The concrete field list of `Settings` is a parameter: the laws hold for every schema of structs, options and maps.
- Hash collisions: the tracker's hash is an arbitrary function of the canonical calls, so equal fingerprints are not claimed to mean equal calls.
- Phrase matching for tool intent and silent replies is an arbitrary predicate; messages the delegate pushes itself and overflow of the 32-bit counters are not modelled, and the delegate is taken to leave `force_text` alone.
- Regular expressions of both scripts are given positions or predicates, so an item is what the script's pattern takes for one at the start of a line, which includes a return type `impl ...` that begins a line; which `<` and `>` are brackets is a parameter; file walking, allow-lists, git diffs and the reports are left out.
- Character classes and trimming of Unicode text are parameters. String literals of the reference may hold any escape, and prefixes of literals such as `b` count as code.
- Where two unique constraints of the routines table fail at once, which of them the database reports.
- LineReference.SanitizedExactly: leaves out sources with a line end escaped in a string, because there a misreading may leave the output as it should be (`CarriedEscapeUnseen`); `InStepExactly` covers them.
- Of the line separators that Python's `splitlines` knows, only the newline is modelled.
- Fixed English phrases, number and size formatting and base64 in attachments are parameters that hold nothing XML would escape.
- `$` substitution by the reader of `.env` files, file permissions, failing writes and directory creation.
- EnvFile.TidyBatch: states one line for each key of distinct keys only, because the code writes one line for each given pair, doubled keys included.
- PidLock.OneInstance: excludes runs with an acquirer between open and try-lock at an unlink, because the code does not keep one instance there.
- Whether an item is a test is the script's own rule for attributes (check_no_panics.py, lines 181-189): a test attribute is forgotten at the next line of code that is no attribute, so `#[test]` before a `#[should_panic(` that is broken over several lines gives an ordinary item. The exactness of the marks is relative to that rule.
- Calls of the tenant scope that are not modelled: listings and summaries of sandbox jobs, of routine runs and of conversations with previews, lookups of routines by name or webhook path, `record_llm_call`, settings in bulk, creation of conversations under a fresh id, and the conversations of routines, heartbeats and assistants.
- Settings with an administrator fallback, listings joined over several tables, workspace access, and the administrator and system scopes of the tenant layer; the job semaphore works as the LLM one.
- DrainLoop.ProcessAndDrain: follows a script of turns and says nothing of texts drained by a turn during which the thread was deleted, because the code drops those.
- Submissions other than user input, the second drain loop after an approval, hooks other than the outbound one, the engine bridge, the scheduler and the routine engine.
- Start-up wiring, migrations, signal handling, context-size estimates, profile, boot screen and service files: they would only add easy members.
