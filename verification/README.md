# Verified model of the sixthsense rule engine

sixthsense sits in front of a log store and decides, event by event, what is forwarded and what is
dropped. Analysts write an ordered chain of rules; a compiler turns the chain into one VRL program that
Vector runs on every event. This project models that compiler and the stateful parts around it, and proves
what the system relies on. Run it with `dafny verify dfyconfig.toml`.

## The parts

- **Compiler.** `Rules` has the rule model, `Encoder`, `Decimals` and `Globs` the typed encoder, `Compiler`
  the translation of a chain into a program. `Vrl` gives the VRL subset a syntax and an interpreter with
  local variables, block scope, nulls, catchable errors and aborts; `??` catches errors, not nulls. `Lexer`,
  `Syntax` and `Programs` print programs and read them back, with `??` binding looser than a comparison.
  `Meaning` says what a chain means without mentioning the program. `Correctness`, `Runs`, `Steps` and
  `Theorem` prove that the emitted text, read back and run, computes that meaning; `Consequences` and
  `Operators` draw the conclusions. `Emitter` has the method that writes the text line by line, `Streaming`
  reads it before arbitrary text, `Limits` says exactly what compiles, and `Skeleton`, `Shapes` and
  `ChainShapes` say exactly what of a chain shows in the code once literals and comments are blanked.
- **Rule store, audit log and bundle store.** `Names` finds ids, `Store` has the tables, the service calls as
  pure steps and a class whose methods refine them, `History` what holds over every run of calls, `Effects`
  what each call does to the tables field by field and what it refuses.
- **Node agent.** `Protocol` interleaves service calls, polls, lost and corrupted replies and crashes, and has
  the agent itself as a class.
- **Data plane wiring.** `Topology` is the generated graph of components and an interpreter for it; `Routing`
  follows streams of events through it under the compiled program.
- **Sample stores.** `Samples` has the live ring with its subscribers and the persisted table, each against
  its history.

Vector's parsers, `find`, `to_float`, the conversion of values to text, the address test, the clock and the
equality of unlike values are the fields of a `Library`; theorems hold for every library that is `Sound`
(text converts to itself, null never to visible text, the clock is printable, an index found is not past the
end). `Consequences.MuteIsSound` and `Operators.AllThreeDiffer` show the assumptions can be met. The
rendering to TOML, SHA-256 and the verdict of the validation gate are parameters as well; where the checksum
or the rendering must be injective, the lemma says so.

## Where code and documentation disagree

- Chain shadow mode is described as enforcing nothing; the no-match test comes first, so a drop default still
  drops parsed, unmatched events (`Consequences.ShadowModeDrops`).
- The operator type speaks of 14 operators; there are 15, and all are covered.
- The schema accepts a bool threshold, texts over 4096 characters, integers outside 64 bits and thresholds
  that are not finite or longer than 128 characters; only the compiler refuses them (`Limits.SchemaGap`), at
  the publish after the rule was stored (`History.PublishRefusedExactly`).
- `in` over a list that mixes strings with other values compares raw values with no case folding, so it is
  not a disjunction of `eq`. It differs for text that only folds to an item, for an absent field when the
  empty text is an item, and for a number whose text is an item (`Operators.MixedInAgrees`).
- A number literal may be 130 characters long, not 128 (`Decimals.LongestLiteral`).
- A crash between the agent's two writes, followed by a rollback to the recorded version, leaves the newer
  bytes in place while the server answers "unchanged" (`Protocol.WindowCrash`, `Protocol.RollbackMissed`).
- `recent(0)` returns everything (`Samples.RecentIsLastN`).
- Changing only ids can reorder rules of equal order, so user text can move code, though never create any
  (`ChainShapes.TiedIdsChangeSkeleton`, `ChainShapes.TextOnlyMoves`).

## Model

| member | source | states |
|---|---|---|
| Theorem.CompilerCorrect | src/sixthsense/compiler/compiler.py:287-345 | Reading the emitted text gives a program that, for every event and every behaviour of the parsers, `find` and the conversions, runs to the end and changes only `.ss`, which then holds the reference record: the enabled matching rule with least (order, id) decides, a parse failure beats it, no match takes the default, shadow forwards |
| Theorem.ProgramRuns | src/sixthsense/compiler/compiler.py:170-345 | The same for the program with and without the marker guard; unguarded it halts on exactly the events whose fallback finds no marker |
| Theorem.EnforcementRuns | src/sixthsense/compiler/compiler.py:302-324 | The decision chain computes the reference outcome: parse error, then default, then shadow, then the rule's action |
| Theorem.DecideArm | src/sixthsense/compiler/compiler.py:309-324 | Which arm of the decision chain is taken, in terms of the parse flag, the deciding rule and chain shadow mode |
| Theorem.SummariesRun | src/sixthsense/compiler/compiler.py:250-268 | The four summary fields hold the CEF value, or the syslog value when that has no text |
| Theorem.RecordRuns | src/sixthsense/compiler/compiler.py:328-343 | The object literal assigned to `.ss` evaluates to the reference record |
| Steps.SetupRuns | src/sixthsense/compiler/compiler.py:174-184 | The initial assignments, from any event |
| Steps.SyslogRuns | src/sixthsense/compiler/compiler.py:186-190 | The syslog step sets the flag and the body as the reference does, for any parser result |
| Steps.CefRuns | src/sixthsense/compiler/compiler.py:192-212 | CEF comes from the body or from the marker in the raw text; the unguarded variant halts exactly when the fallback finds no marker |
| Steps.FieldsRun | src/sixthsense/compiler/compiler.py:214-240 | The fields the rules see: CEF names on top, syslog names nested, all lower-cased; the parse flag is their disjunction |
| Vrl.LowerKeysMean | src/sixthsense/compiler/compiler.py:219-221 | The lower-cased fields are exactly the folded names, each with a value it had, and with its own when no other name folds to the same |
| Steps.PreludeRuns | src/sixthsense/compiler/compiler.py:170-247 | The whole prelude turns any event into the reference view and never halts |
| Runs.ArmsRun | src/sixthsense/compiler/compiler.py:296-299 | The if / else if chain notes exactly the first rule whose conditions hold, or nothing, and its assignments survive the block |
| Runs.MatchingRuns | src/sixthsense/compiler/compiler.py:296-300 | The matching section as a whole, comments included |
| Runs.FirstMatchDecides | src/sixthsense/compiler/compiler.py:292-299 | First match over the sorted active rules is the enabled matching rule with least (order, id); none exactly when no enabled rule matches |
| Meaning.LeastDecides | src/sixthsense/compiler/compiler.py:292-299 | The deciding rule has a smaller order than every other matching rule, or the same order and an id that stands first in a dictionary |
| Runs.PredicateMeans | src/sixthsense/compiler/compiler.py:162-167 | A compiled rule predicate evaluates to the conjunction of its conditions' meanings |
| Meaning.DeciderUnique | src/sixthsense/models/rule.py:235-246 | With unique ids at most one rule decides |
| Correctness.ConditionMeans | src/sixthsense/compiler/compiler.py:73-159 | For all 15 operators the compiled test evaluates, without error, to the direct definition |
| Correctness.EqualityMeans | src/sixthsense/compiler/compiler.py:87-95 | Strings compare as folded text, other values raw; `ne` is the negated test |
| Correctness.MembershipMeans | src/sixthsense/compiler/compiler.py:97-109 | A list of strings is folded text membership, a mixed list raw membership |
| Correctness.StringTestMeans | src/sixthsense/compiler/compiler.py:111-121 | contains, starts_with, ends_with with the case flag |
| Common.TextTestsMean | src/sixthsense/compiler/compiler.py:111-121 | Starting, ending and containing are ways to cut the text apart |
| Correctness.GlobMeans | src/sixthsense/compiler/compiler.py:123-128 | The match call on the translated regex decides the glob |
| Correctness.CidrMeans | src/sixthsense/compiler/compiler.py:130-134 | A failing address test is no match |
| Correctness.ThresholdMeans | src/sixthsense/compiler/compiler.py:136-157 | A comparison that cannot be made is no match; the literal reads back as the threshold |
| Correctness.ExistsMeans | src/sixthsense/compiler/compiler.py:82-85 | Null tests on the looked-up field |
| Vrl.WalkLeads | src/sixthsense/compiler/compiler.py:39-46 | A field lookup finds a value exactly when the segments lead to it from object to object |
| Emitter.EmitChain | src/sixthsense/compiler/compiler.py:287-345 | The method that appends line after line, one `if` / `else if` arm per active rule and the closing brace only when there was one, writes exactly the text of the compiled program, and stops at the first refused rule |
| Emitter.MatchingText | src/sixthsense/compiler/compiler.py:291-300 | The matching section of the program, printed as a tree, is the arms one after the other with a closing brace |
| Emission.ChainTextRead | src/sixthsense/compiler/compiler.py:287-345 | The emitted text lexes and parses to exactly the intended program, for arbitrary user text |
| Emission.PredicateTextRead | src/sixthsense/compiler/compiler.py:162-167 | The text of one compiled predicate, before any well-spaced pieces a delimiter leads, is read back as exactly its tree, operands and types included |
| Streaming.PredicateRead | src/sixthsense/compiler/compiler.py:162-167 | Before any text at all that begins with a bracket, comma or blank, VRL or not, reading as many tokens as the predicate has gives exactly its tree and stops where that text begins |
| Emission.UnparenthesisedMisreads | src/sixthsense/compiler/compiler.py:39-45 | Without the parentheses the null test would be read inside the `??` |
| Syntax.ExprRead | src/sixthsense/compiler/compiler.py:39-62 | Under the grammar where `??` binds looser than a comparison, printed expressions parse back to the same tree and leave the rest untouched |
| Programs.TextRead | src/sixthsense/compiler/compiler.py:287-345 | Text of any well-formed program parses back to its statements |
| Programs.ExprTextRead | src/sixthsense/compiler/compiler.py:162-167 | The same for one expression and what follows it |
| Programs.CodeRuns | src/sixthsense/compiler/compiler.py:271-345 | Comments, blank lines and one-line layout have no effect on a run |
| Lexer.LexRender | tests/test_compiler_properties.py:66-148 | Rendering well-spaced tokens, blanks and comments and lexing the text restores exactly the tokens |
| Encoder.EncodeStringLoop | src/sixthsense/compiler/encoder.py:53-72 | The escaping loop refines the recursive escape function |
| Encoder.QuotedRead | src/sixthsense/compiler/encoder.py:53-72 | Whatever the contents, a string literal closes where it was closed and gives the contents back |
| Encoder.SplitJoin | src/sixthsense/compiler/encoder.py:124-147 | Splitting at dots undoes joining dot-free segments |
| Encoder.CommentText | src/sixthsense/compiler/encoder.py:204-213 | A comment is one line of at most 200 characters |
| Encoder.CommentShows | src/sixthsense/compiler/encoder.py:204-213 | A comment shows its text character by character, line breaks as blanks, cut after 197 characters when it is longer than 200 |
| Decimals.FloatLiteral | src/sixthsense/compiler/encoder.py:87-100 | Every finite decimal is refused exactly when its plain text is over 128 characters, else written with one point, no exponent and the same value; the literal is over 128 exactly when the exponent is not negative and the plain text is over 126, and never over 130 |
| Decimals.LongestLiteral | src/sixthsense/compiler/encoder.py:90-100 | 130 characters are reached, because the length check comes before `.0` |
| Decimals.IntLiteral | src/sixthsense/compiler/encoder.py:101-103 | Integers are refused outside 64 bits and otherwise read back as themselves |
| Globs.GlobToRegexLoop | src/sixthsense/compiler/encoder.py:150-187 | The translating loop refines the recursive translation |
| Globs.GlobPreserved | src/sixthsense/compiler/encoder.py:150-187 | The emitted regular expression, read and matched as anchored, accepts exactly what the glob accepts, case folded when asked |
| Globs.GlobCovers | src/sixthsense/compiler/encoder.py:150-187 | A glob accepts a text exactly when the text can be cut into one piece per character: any run without a newline for `*`, one such character for `?`, the character itself or, when folded, its other case |
| Globs.GlobLiteralCloses | src/sixthsense/compiler/encoder.py:150-201 | No glob is refused by the literal wrapper, and the literal closes only at its last character |
| ChainShapes.SkeletonExact | tests/test_compiler_properties.py:123-168 | Two emitted programs have the same tokens, literal contents and comments removed, if and only if version, chain shadow mode and the shapes of the active rules in evaluation order are the same |
| ChainShapes.SkeletonInvariant | tests/test_compiler_properties.py:123-168 | Chains alike in pairs but for ids, names, descriptions and operand text have the same skeleton if and only if the shapes of their active rules come in the same order |
| ChainShapes.TextOnlyMoves | tests/test_compiler_properties.py:123-168 | For such chains, whatever the ids, the shapes of the active rules are the same multiset: user text creates no code |
| Skeleton.SkeletonIsCode | tests/test_compiler_properties.py:66-148 | Two well-written programs have the same blanked tokens exactly when they have the same blanked code |
| ChainShapes.AlikeActive | src/sixthsense/models/rule.py:244-246 | Rules alike in pairs stay alike after sorting, shapes included, when the new ids keep the rules' relative order |
| ChainShapes.TiedIdsChangeSkeleton | src/sixthsense/models/rule.py:244-246 | Ids alone can change the skeleton: two concrete rules of equal order compile for every version, and exchanging their ids makes them swap places |
| Skeleton.ProgramBalanced | tests/test_compiler_properties.py:66-109 | Every emitted program is bracket-balanced outside literals and comments |
| Shapes.ConditionShape | src/sixthsense/compiler/compiler.py:73-159 | The compiled test with its literals blanked is a function of the path length, operator, case flag and operand kinds alone |
| Shapes.ShapeTold | src/sixthsense/compiler/compiler.py:73-159 | That function is injective: different shapes are written as different tests |
| Rules.NormalizedFieldEncodes | src/sixthsense/models/rule.py:127-139 | A field name that passed the boundary is never refused by the path encoder and keeps its segments |
| Rules.NormalizeIdempotent | src/sixthsense/models/rule.py:127-139 | Normalising a normalised name changes nothing |
| Rules.NormalizeMeans | src/sixthsense/models/rule.py:127-139 | A field name is refused exactly when a segment is blank; otherwise every segment is its own, trimmed and lower-cased |
| Rules.CheckUnique | src/sixthsense/models/rule.py:235-242 | The duplicate walk accepts exactly the lists with unique ids |
| Rules.SortSorts | src/sixthsense/models/rule.py:244-246 | Sorting yields a permutation in (order, id) order |
| Rules.BeforeMeans | src/sixthsense/models/rule.py:244-246 | Tried first means the smaller order, and at equal order the id that ends first or has the smaller character at the first difference |
| Rules.ActiveInOrder | src/sixthsense/models/rule.py:244-246 | Of two active rules the earlier one has the smaller order, or the same order and the id that stands first in a dictionary |
| Common.StringLeMeans | src/sixthsense/models/rule.py:244-246 | The comparison of ids is the dictionary order: equal, a proper beginning, or smaller at the first difference |
| Rules.SortedUnique | src/sixthsense/models/rule.py:244-246 | With unique ids there is one sorted arrangement |
| Rules.ActiveCanonical | src/sixthsense/models/rule.py:244-246 | Evaluation order depends only on which enabled rules there are |
| Rules.ActiveUnique | src/sixthsense/models/rule.py:244-246 | The active rules are exactly the enabled ones, sorted, with unique ids |
| Operators.ExactComplements | src/sixthsense/compiler/compiler.py:82-109 | ne, not_in and not_exists pass exactly when eq, in and exists do not, on every event |
| Operators.ThresholdComplements | src/sixthsense/compiler/compiler.py:136-157 | A value with a float reading passes exactly one of lt/gte and lte/gt; one without passes none |
| Operators.InIsSomeEq | src/sixthsense/compiler/compiler.py:97-109 | `in` over strings is the disjunction of `eq` over the items |
| Operators.MixedInAgrees | src/sixthsense/compiler/compiler.py:97-109 | Over a mixed list, on every event, `in` and the disjunction of `eq` agree exactly when the value is an item as written or its text is no string item folded |
| Operators.MixedInDiffers | src/sixthsense/compiler/compiler.py:97-109 | Text, absent and numeric field values on which they disagree |
| Operators.AllThreeDiffer | src/sixthsense/compiler/compiler.py:97-109 | One library that meets every assumption, under which all three disagreements happen |
| Operators.NumericEqDoesNotCoerce | src/sixthsense/compiler/compiler.py:87-95 | A text that reads as the number passes lte and gte but not eq |
| Operators.FoldWhenCompiled | src/sixthsense/compiler/compiler.py:65-70 | Folding the literal at compile time equals lower-casing it at run time |
| Common.LowerCharMeans | src/sixthsense/compiler/compiler.py:65-70 | Folding takes each of the 26 capitals to its small letter and nothing else |
| Limits.SchemaGap | src/sixthsense/compiler/compiler.py:73-159 | A condition the schema accepts compiles exactly when its texts have at most 4096 characters, its integers 64 bits, its threshold at most 128 plain characters and its list at most 1024 items; a bool threshold never compiles |
| Limits.PathAndGlobFit | src/sixthsense/compiler/encoder.py:138-147 | A path of 1 to 256 characters without an empty segment encodes and no other; globs up to 512 characters |
| Limits.RuleFitsExactly | src/sixthsense/compiler/compiler.py:162-167 | A schema-valid rule compiles exactly when its id, version and operands are within the limits |
| Limits.ChainFits | src/sixthsense/compiler/compiler.py:287-345 | A chain of schema-valid rules compiles exactly when the chain version and every enabled rule are within the limits |
| Consequences.EveryEventDecided | src/sixthsense/compiler/compiler.py:170-345 | Every event ends in forward, drop or forward_parse_error, and nothing but `.ss` changes |
| Consequences.DecisionTable | src/sixthsense/compiler/compiler.py:302-324 | Decision, reason, rule and retention for every event: parse error when neither parser succeeded, else the default when no enabled rule holds, else forward under shadow, else the action of the enabled matching rule that is tried before all others |
| Consequences.GuardNeeded | src/sixthsense/compiler/compiler.py:199-212 | The marker guard matters on exactly the events without a marker, where the program would abort; elsewhere it changes nothing |
| Consequences.ParseErrorStillMatches | src/sixthsense/compiler/compiler.py:309-312 | On a parse error the rules still run on the empty event: the recorded rule is null exactly when no enabled rule holds there |
| Consequences.ShadowRuleOnlySpares | src/sixthsense/compiler/compiler.py:302-324 | Inserting a shadow rule at any order only shrinks the drops, and masks a drop exactly when it becomes the deciding rule |
| Consequences.ShadowingOnlySpares | src/sixthsense/compiler/compiler.py:302-324 | Shadowing an existing rule spares exactly the drops it decided and leaves the reported id and version |
| Consequences.ShadowModeDrops | src/sixthsense/compiler/compiler.py:313-320 | Chain shadow mode drops exactly the parsed, unmatched events under a drop default, and reports the same rule |
| Consequences.CanonicalText | src/sixthsense/models/rule.py:235-246 | Any arrangement of the same enabled rules, with any disabled ones, gives byte-identical text |
| Consequences.CefRuleIgnoresSyslog | src/sixthsense/compiler/compiler.py:219-236 | For a fixed CEF result a rule on CEF names matches the same whatever syslog returned |
| Consequences.SyslogRuleIgnoresCef | src/sixthsense/compiler/compiler.py:219-236 | When syslog parsed, a rule on syslog names matches the same whatever CEF returned, a CEF key `syslog` included |
| Consequences.SyslogChainIgnoresCef | src/sixthsense/compiler/compiler.py:219-236 | A chain of such rules reaches the same verdict |
| Consequences.SameTextSameRecord | src/sixthsense/compiler/compiler.py:287-345 | Chains with equal text record the same on every event |
| Consequences.VersionInText | src/sixthsense/compiler/compiler.py:328-343 | Different chain versions never give the same text |
| Names.UniqueId | src/sixthsense/services/rules.py:124-131 | The probing loop ends within N + 1 probes on an unused id of the right form |
| Names.FreshIdIsFree | src/sixthsense/services/rules.py:124-131 | For every name the id found is unused and matches the id pattern |
| Names.FreshIdNamed | src/sixthsense/services/rules.py:124-131 | A name whose slug is free gets it; any other gets its slug with the smallest number from 2 on that is free |
| Names.Pigeonhole | src/sixthsense/services/rules.py:124-131 | Distinct candidates that are all taken are no more than the stored rules |
| Names.CandidatesDistinct | src/sixthsense/services/rules.py:128-130 | Below the suffix limit truncation never makes two candidates equal |
| Names.SlugIsRuleId | src/sixthsense/services/rules.py:42-44 | The slug of any name matches the id pattern in at most 48 characters |
| Names.SlugKeepsName | src/sixthsense/services/rules.py:42-44 | A slug is its name's letters and digits, lower-cased and in order, with single dashes between; only length can cut it |
| Names.SlugIsWords | src/sixthsense/services/rules.py:42-44 | A slug is the runs of letters and digits of the lower-cased name with single dashes between, cut to 48 characters, or `rule` when there are none |
| Store.Session.CreateRule | src/sixthsense/services/rules.py:134-162 | Accepts every valid payload and appends one valid rule, as asked field by field, at version 1, and one audit row |
| Store.Session.UpdateRule | src/sixthsense/services/rules.py:165-208 | In the one row of that id every field sent has the value sent, every other field is as before and the version is one higher; or nothing at all changes |
| Store.Session.DisableRule | src/sixthsense/services/rules.py:211-234 | The one row of that id is switched off with its version raised and nothing else changed |
| Store.Session.SetChainSettings | src/sixthsense/services/rules.py:237-262 | Only the settings that were sent change; before and after are logged |
| Store.Session.GetSettings | src/sixthsense/services/rules.py:106-112 | The settings row, inserted with the defaults when missing |
| Store.Session.Publish | src/sixthsense/services/bundles.py:67-125 | A new active row after the gate, all others deactivated, one audit row; or nothing changes |
| Store.Session.Rollback | src/sixthsense/services/bundles.py:128-152 | The target row alone becomes active; or nothing changes |
| Store.Session.WriteAudit | src/sixthsense/services/rules.py:70-91 | One row is appended |
| Effects.CreateSets | src/sixthsense/services/rules.py:134-162 | A carried-out creation appends the rule as asked, under an id no rule had, and its audit row |
| Effects.UpdateSets | src/sixthsense/services/rules.py:165-208 | A carried-out update changes one row: each of the nine fields sent has its value, each unsent one is as before; the audit row has both states |
| Effects.DisableSets | src/sixthsense/services/rules.py:211-234 | A carried-out disabling switches off one row and changes nothing but its version beside |
| Effects.DisabledIsInactive | src/sixthsense/services/rules.py:211-234 | Afterwards no chain built from the tables has an active rule of that id |
| Effects.SettingsSet | src/sixthsense/services/rules.py:237-262 | A settings call is never refused; a setting sent is stored, the other kept, and before and after are logged |
| Effects.PublishSets | src/sixthsense/services/bundles.py:67-125 | A carried-out publish appends the compiled form of the stored rules under the stored default action and shadow mode, with a manifest that says so; it alone is active and nothing else changes |
| Effects.EveryBundleDescribed | src/sixthsense/services/bundles.py:52-64 | Every bundle of a run is what one of its publishes made of the rules and settings stored at that moment |
| Effects.RollbackSets | src/sixthsense/services/bundles.py:128-152 | A rollback is refused exactly for versions that do not exist; otherwise only active flags move, and the version left is logged |
| Effects.CreateRefusedExactly | src/sixthsense/models/rule.py:249-274 | A new rule is refused exactly for its name length, its conditions, or retaining payloads without dropping |
| Effects.RuleRefusals | src/sixthsense/services/rules.py:165-216 | An unknown id is refused as such; a stored rule can be refused an update only as invalid, and never a disabling |
| History.AuditComplete | src/sixthsense/services/rules.py:70-262 | After any calls, replaying the log rebuilds rules, settings and active version; every `before` is the replay of the entries before it; a rule's version is the number of its entries |
| History.StepKeeps | src/sixthsense/services/rules.py:134-262 | Every service call keeps that invariant |
| History.OneRowPerCall | src/sixthsense/services/rules.py:70-91 | A call that is carried out appends exactly one row under its caller |
| History.NothingIsUndone | src/sixthsense/services/rules.py:211-213 | Over any run no rule id disappears, the log only grows and stored bundles keep bytes, checksum and manifest |
| History.UpdateRefusedExactly | src/sixthsense/services/rules.py:188-195 | A well-formed update is refused exactly when the rule is unknown or the merge would retain payloads without dropping |
| History.PublishRefusedExactly | src/sixthsense/services/bundles.py:83-99 | In any reachable store a publish is refused exactly when the gate says no, or the version or an enabled rule is outside the encoder's limits |
| History.VersionsAndOneActive | src/sixthsense/services/bundles.py:47-113 | Versions are 1 to n and exactly one bundle is active once there is one |
| History.EveryBundlePassed | src/sixthsense/services/bundles.py:85-113 | Every stored bundle was built by a publish from the rules of that moment, and passed the gate or was let through as skipped |
| History.RowCompiled | src/sixthsense/services/bundles.py:52-64 | Every stored bundle is the rendered compiled form of a chain for its own version, and its manifest has that text's checksum and that chain's active ids and settings |
| History.RollbackRestores | src/sixthsense/services/bundles.py:128-140 | Rollback makes active the bytes that version's publish built, whatever happened in between |
| History.BundlesDiffer | src/sixthsense/services/bundles.py:52-64 | No two bundles of a run hold the same bytes |
| History.NextIsCount | src/sixthsense/services/bundles.py:47-49 | The next version is one past the number of bundles |
| History.ActiveIs | src/sixthsense/services/bundles.py:155-156 | The active row found is the only active one |
| Protocol.ActKeeps | src/sixthsense/agent/main.py:70-139 | Every step of server and node keeps the protocol invariants |
| Protocol.FileIsPublished | src/sixthsense/agent/main.py:83-99 | With lost replies, corruption and crashes anywhere the file is the initial one or exactly a published bundle |
| Protocol.RecordedIsOnDisk | src/sixthsense/agent/main.py:96-97 | Without a crash between the two writes a recorded version is what is on disk |
| Protocol.ReplyIsActive | src/sixthsense/api/routes.py:197-215 | The reply is the active bundle with its own checksum |
| Protocol.PollRuns | src/sixthsense/agent/main.py:115-139 | A whole poll, with service calls interleaved, does what its reply says |
| Protocol.PollFindsNothing | src/sixthsense/agent/main.py:115-130 | Before anything is published a completed poll leaves the node as it was |
| Protocol.PollOutcome | src/sixthsense/agent/main.py:115-139 | A completed poll records the version it found active, and has its bytes on disk exactly when that version was not recorded before or the bytes were there |
| Protocol.PollConverges | src/sixthsense/agent/main.py:115-139 | After any run whose crashes spare the window, a completed uncorrupted poll leaves the active bytes, rollbacks included |
| Protocol.WindowCrash | src/sixthsense/agent/main.py:96-97 | After a crash in the window the next poll succeeds exactly when the active version is not the recorded one or has the bytes on disk |
| Protocol.TornHeals | src/sixthsense/agent/main.py:70-74 | A crash that tears the state file heals: it reads as version 0, so the next completed poll has the active bytes on disk, whatever was rolled back |
| Protocol.RollbackMissed | src/sixthsense/agent/main.py:96-97 | A rollback to the recorded version after such a crash is never applied |
| Protocol.WindowReached | src/sixthsense/agent/main.py:83-99 | The window is reached by publish, poll, publish, poll |
| Protocol.Agent.ApplyConfig | src/sixthsense/agent/main.py:83-99 | Both files change when the checksum matches, neither otherwise |
| Protocol.Agent.PollOnce | src/sixthsense/agent/main.py:115-139 | Answers true exactly when the reply is a changed bundle whose text has its checksum, and then both files hold it; one poll does to the files what the protocol's steps do, and nothing when the fetch failed |
| Topology.ElkReceives | src/sixthsense/compiler/vector_config.py:137-187 | What reaches ELK for any route conditions, the unmatched port included |
| Topology.AuditReceives | src/sixthsense/compiler/vector_config.py:137-194 | What reaches the drop audit for any route conditions |
| Topology.TailReceives | src/sixthsense/compiler/vector_config.py:152-206 | Every drop reaches the live view once, other events as sampled |
| Topology.MetricsReceives | src/sixthsense/compiler/vector_config.py:207-211 | The metrics sink gets every event once, as decided |
| Topology.NothingLost | src/sixthsense/compiler/vector_config.py:179-183 | Whatever the two route conditions are, every event reaches a sink |
| Routing.EventRouted | src/sixthsense/compiler/vector_config.py:128-194 | Under the compiled program a kept event reaches ELK once and only that, a dropped one the audit once and the live view once |
| Routing.AuditMeans | src/sixthsense/compiler/vector_config.py:48-71 | The drop audit record has time, node, decision, reason, rule, versions and summary as they were recorded, the raw text exactly when the deciding rule asked for it, and no other field |
| Routing.TailMeans | src/sixthsense/compiler/vector_config.py:73-95 | The live-view record has decision, rule, parser flags, the nested severity, host and name as they were recorded, the node, always the raw text, and no other field |
| Routing.RecordMeans | src/sixthsense/compiler/compiler.py:328-343 | Key by key, the record under `.ss` says the verdict, the chain version, the parser results and the summary |
| Routing.ElkVerbatim | src/sixthsense/compiler/vector_config.py:175-187 | Over any stream the lines ELK reads are the messages of the kept events as they came in, in order, whatever the text codec does with a value |
| Routing.MessageKept | src/sixthsense/compiler/vector_config.py:175-187 | Marking an event leaves its message as it was |
| Routing.StreamConserved | src/sixthsense/compiler/vector_config.py:128-206 | Over any stream ELK gets the kept events, the audit one record per dropped event, both in order, and the live view one record per drop |
| Routing.FilterCountsTwice | src/sixthsense/compiler/vector_config.py:160-165 | The earlier wiring with a filter beside the sampler records every drop twice |
| Routing.DecidedIs | src/sixthsense/compiler/vector_config.py:129-136 | The decide step's output is the event with the reference record |
| Samples.TailBuffer.Publish | src/sixthsense/sampling/store.py:37-43 | The ring is the last maxlen of everything published; each subscriber has been offered exactly what was published since it subscribed, and holds or was given an in-order part of it |
| Samples.TailBuffer.Recent | src/sixthsense/sampling/store.py:45-47 | Newest first: the last `limit` of the ring for a limit of at least 1, all for 0, and for a negative limit all but the oldest so many |
| Samples.RecentIsLastN | src/sixthsense/sampling/store.py:45-47 | The slice is the last `limit` records exactly when the limit is at least 1 or there are none |
| Samples.TailBuffer.Subscribe | src/sixthsense/sampling/store.py:49-52 | A new empty queue joins the subscribers |
| Samples.TailBuffer.Unsubscribe | src/sixthsense/sampling/store.py:54-55 | The queue leaves the subscribers |
| Samples.Queue.PutNowait | src/sixthsense/sampling/store.py:39-43 | A frame is taken exactly when there is no bound or room; delivered and queued frames stay an in-order subsequence of what was offered |
| Samples.Queue.Get | src/sixthsense/api/routes.py:290-295 | Taking a frame moves it from queued to delivered |
| Samples.SubsequencePlaces | src/sixthsense/sampling/store.py:39-43 | A subsequence picks frames at increasing places |
| Samples.SampleTable.RecordSamples | src/sixthsense/sampling/store.py:69-107 | One sample per record is inserted with its decision, rule, node and fields, and its raw text exactly when that is retained; the last max_events of old and new stay, or all under a negative limit, and while the limit stays the same these are the last of everything ever inserted |
| Samples.SampleTable.LoadSamples | src/sixthsense/sampling/store.py:110-113 | The newest samples of everything ever inserted, newest first, as far as the table reaches; that is the newest `limit` whenever the table keeps that many |
| Samples.AboveDrops | src/sixthsense/sampling/store.py:98-105 | Deleting ids up to the cutoff deletes exactly the oldest rows |
| Samples.LastNAppend | src/sixthsense/sampling/store.py:34-47 | Trimming as one goes is trimming once at the end |
| Samples.IntakeBatch | src/sixthsense/api/routes.py:221-251 | A posted batch goes to the ring and its subscribers in order and then to the table, record by record, which is trimmed once |

## Left out

- CompileText: the fixed comment and blank lines of the prelude and of the enforcement section are not part
  of the modelled text; the comments made from rule ids, names and descriptions are.
- ThresholdMeans: an integer threshold is taken as its exact value; the source passes it through a double
  first, which rounds beyond 2^53 and overflows beyond 10^308, and neither is in the model.
- ReadProgram: newlines count as blanks in the statement grammar, and `&&` and `??` nest to the right. Only the
  part of VRL that is emitted is read; other syntax, template braces in strings included, is not.
- LowerKeysOf: when two keys fold to the same name, which value survives is left open, as it depends on
  Vector's iteration order.
- Lower: one ASCII case fold stands for Python's `lower`, VRL's `downcase` and the regex flag; Unicode folding
  differences are outside the model.
- Float: a number is its shortest decimal digits (sign, coefficient, exponent); binary rounding, including
  that of integer thresholds beyond 2^53, is outside the model, and a negative zero equals zero.
- Strict: comparing an integer with a float is an error in the model; the compiler never emits such a
  comparison.
- UniqueId: needs N + 1 < 10^14 stored rules, where the suffix starts to be cut off.
- Publish: the gate's verdict is an argument; the probe corpus, the Vector subprocess and time-outs are not
  modelled.
- Session: each service call is one atomic transaction; concurrent writers, timestamps and the limits of
  SQL column widths are outside the model.
- Agent.PollOnce: signalling Vector after an update is not modelled; crashes are steps of the protocol, not of
  this method.
- TailSample: which other events the sampler picks is an arbitrary choice per event, not every n-th one.
- BuildConfig: addresses, buffer sizes and the TOML text are not modelled; nor is the loss of UDP datagrams.
- Queue: waiting readers are not modelled; a read happens only when a frame is there.
- Authentication, roles and redaction, the simulator and impact preview, the UI, static files and metrics are
  not part of this model.
