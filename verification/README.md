# nan-core, modelled and proved in Dafny

nan-core is a forward-chaining Datalog engine with truth maintenance. Callers
assert facts, rules and resolutions. The engine saturates a graph under the
rules, records every derivation, retracts by rebuilding when a resolution flips
an atom, and rebuilds itself from an append-only log.

`dafny verify dfyconfig.toml` checks the whole project.

## How the model is built

The program is modelled twice, and the two are tied together.

* **As it runs.** `Runtime.Engine`, `BeliefStore.Store`, `KnowledgeGraph.MemGraph`,
  `Wal.WAL`, `Search.Join`, `CodecIO.ByteReader` and `Explain.ProofSearch` are
  classes with the fields, loops and early returns of the source. Each method is
  proved to compute a function of its inputs and the old state.
* **As values.** `Machine` gives the engine's steps as functions on a `State`
  (beliefs, resolutions, rules, graph, derivation lists, log). `Engine.View()` is
  the state an engine stands for. The theorems are about these functions, so
  they hold of the class.

The independent reference is `Datalog`: a proof tree is a fact or a rule instance
over proof trees, `Provable` means that a tree exists, and `Lfp` is the set of all
provable atoms. It is proved to be the least set closed under the rules.

| file | what it holds |
|---|---|
| `Order` | byte strings, `sort.Slice` comparators as sort keys, sorting, ranging over a map |
| `Facts` | atoms, beliefs, resolutions and the keys joined with `\|` and `;` |
| `Rules` | unification and substitution |
| `Evaluator`, `Search` | the join as a function with its theorems, and as the loops that compute it |
| `Datalog` | programs, proof trees, the least fixpoint, the bound D + M < cap |
| `Codec`, `CodecIO` | the payload formats as functions, and their buffers and cursors |
| `Wal` | framing, replay of any file, torn tails, damage |
| `Machine` | the engine's operations on values |
| `Formats` | keys and payloads byte by byte; which operations fail, and what each appends, keeps in order and saturates |
| `Soundness`, `Exactness`, `Truncation` | saturation: what it always keeps, when it is exact, what a limit lets through, what goes wrong past the bound |
| `Lifecycle`, `Theorems` | whole runs, retraction, confluence |
| `Recovery`, `Compaction` | the log as a record of the run; canonical logs |
| `BeliefStore`, `KnowledgeGraph`, `Runtime`, `Explain`, `Suggest` | store, graph index, engine, proof graphs, suggested rules |
| `Vsa` | packed binary vectors |

The functions that the theorems speak of are pinned down in their turn, by what
can be seen of them. A sort key means a comparison of fields, and of strings by
their first differing byte (`Order.FieldLessMeans`, `Facts.AtomOrderMeans` and the
other `...Means` lemmas). A payload, a frame, a key and a variable are given in
bytes (`Formats`, `Wal.HeaderIs`, `Rules.FiresInBytes`). Answers are given by a
truth table over what a run was told (`Theorems.TruthTable`), a proof graph by
where its own edges lead (`Explain.ExactPictures`), a contradiction by the
resolution or belief it names (`BeliefStore.ReportsExactly`), and a saturation cut
short by the first instances in the order of their premises
(`Evaluator.KeepsTheFirst`, `Truncation.RoundServes`).

Terms used below:

* *The bound.* D is the number of distinct (head atom, rule name) pairs derivable
  over the least fixpoint, which is the number of derived beliefs. M is the largest
  number of instances of one rule over it. `Bounded(p, cap)` is D + M < cap. For a
  growing run only the bound at the end matters, because smaller programs inherit it.
* *Clean names.* Atom fields without `|` and `;`, rule names without `;`. The joined
  keys are injective for these, and callers must keep to them (`CleanOp`).
* *Caller sources* do not start with `rule:`, the prefix by which `recompute` tells
  derived beliefs from asserted ones.

The two evaluators of the source are the same search with different candidate
edges, so one definition serves both and `Lookup` says which is meant. The
checksum is any function from bytes to 32 bits. The one run-time panic in the
modelled code is an outcome of its method, `OutOfRange`. A run stops at the first operation
that returns an error; the engine methods also say what state a failing `Ingest`,
`AddRule`, `Resolve` or `ReplayFromLog` leaves behind.

## What the proofs found

* **Saturation can stop early.** `remaining` is both the number of beliefs still
  allowed and the limit of each evaluation. A round whose first `remaining`
  derivations are already known adds nothing, and saturation ends, although later
  derivations were cut off. `Truncation.StopsAtOnce` says exactly when a first round
  is quiet, and `UnsaturatedEnd` that an unsaturated end always has one of two
  reasons: the limit ran out, or the last round cut an evaluation off.
  `RunStopsTooEarly` is a run at the engine's own limit: 1001 facts and one rule,
  after which a provable atom is answered "unknown", and no further ingest about
  other predicates changes that.
* **Rebuilding has a smaller limit than a bulk load.** A bulk load saturates with
  10000, replay and every resolution with 1000. `Truncation.RebuildingForgets` bulk
  loads 1001 facts, gets every conclusion, and loses one by a replay or by resolving
  an unrelated atom. `BulkStopsTooEarly` exceeds the larger limit in the same way.
* **A bulk load does not report what it cannot log.** An item that does not fit a
  record is believed and counted as ingested, but the log append is skipped in
  silence, so a restart forgets it: `Recovery.BulkLosesAFact`. Compaction of such an
  engine returns an error (`Compaction.CompactsExactlyWhatFits`).
* **A rule whose conclusion has an empty object makes the log unreadable.** `AddRule`
  accepts and logs it, but the decoder asks for a zero-length read at the end of the
  payload and gets end-of-file; `Recovery.UnreadableLog` is a run of one operation.
  Compaction reports success and writes a log that never replays
  (`Compaction.CompactionCanLoseAll`, `CompactsUnreadably`).
* **When a restart loses nothing.** The project's own README promises it always.
  `Recovery.ReplayRefinesTheRun` says exactly when, for runs under the bound: replay
  gives back the live engine if and only if every rule has a conclusion object and
  every asserted belief fits a record.
* **Damage is told from a torn tail only by its place.** `Wal.DeliversWhatItHolds` says
  for any bytes what replay delivers and why it stops. A payload whose checksum does
  not fit, a wrong magic or a wrong version is an error and nothing from there on is
  delivered (`DamagedPayload`, `DamagedHeader`); a file that ends within a frame, or
  whose length field asks for more than the file holds, ends quietly like a torn one.
* **The rule decoder accepts a short last field** and pads it with zero bytes.
  `Codec.RuleDecodesExactly` says exactly what is accepted, and `ShortPayloadDecodes`
  is one such payload. The belief decoder makes the same unchecked reads, yet accepts
  nothing but what the encoder writes.
* **A derivation is recorded before its conclusion is checked**, so lists exist for
  atoms that are resolved false or have an empty field. Such atoms never enter the
  graph, and the recorded premises are always graph atoms.
* **A suggested rule can count wrongly for a predicate that reads as a variable**, and
  for no other predicate (`Suggest.CountsExactly`).

## Model

| member | source | states |
|---|---|---|
| `Order.FieldLessMeans` | pkg/kg/memgraph.go:125-133 | `<` on byte strings: a proper prefix, or the smaller byte where the strings first differ |
| `Facts.AtomOrderMeans` | pkg/kg/memgraph.go:125-133 | The comparator of atoms and edges: subject first, then predicate, then object |
| `Facts.AtomKeyInjective` | pkg/engine/proof.go:15-23 | Joined atom keys are equal only for equal atoms, for separator-free fields |
| `Facts.KeyTailInjective` | pkg/rules/eval.go:113-129 | Two derivation keys with equally many premises are equal only if heads and premises are |
| `Facts.NamedKeyInjective` | pkg/engine/proof.go:25-33 | A recorded derivation's key determines rule name and premises, whatever their number |
| `Rules.UnifyIsLeast` | pkg/rules/unify.go:13-23 | A field unifies with a value exactly if some extension of the bindings maps it there, and the result is the least such extension |
| `Rules.MatchIsLeast` | pkg/rules/eval.go:33-47 | Matching an atom gives the least bindings that map the pattern to it |
| `Rules.FireIsInstance` | pkg/rules/unify.go:13-38 | Matching the premises one after another and applying the conclusion yields exactly the substitution instances |
| `Rules.FireFields` | pkg/rules/unify.go:25-38 | A conclusion's fields come from the premises or from the rule's own constants |
| `Rules.MatchesAnyValue` | pkg/rules/rules.go:28-30 | A field matches different values exactly if it is byte 63, then another byte that is not zero, then anything |
| `Rules.FiresInBytes` | pkg/rules/rules.go:28-30 | A rule written in bytes, "?x" p "?y" => "?y" q "?x", turns every p edge round |
| `Evaluator.BucketIsFiltered` | pkg/rules/eval_indexed.go:15-30 | Each sorted bucket is the sorted edge list with the other predicates left out |
| `Evaluator.FastRefinesPlain` | pkg/rules/eval_indexed.go:35-151 | The indexed evaluator returns the very list of the plain one, for every rule, edge list and limit, variable and bare `?` predicates included |
| `Evaluator.SearchIsInstances` | pkg/rules/eval.go:131-172 | The backtracking join meets exactly the rule's instances over the edges |
| `Evaluator.EvaluatedSound` | pkg/rules/eval.go:104-172 | Every result is a substitution instance over the edges, none occurs twice, and there are at most `max` |
| `Evaluator.EvaluatedComplete` | pkg/rules/eval.go:104-172 | A result list shorter than `max` holds exactly the instances over the edges |
| `Evaluator.LargerLimitAdds` | pkg/rules/eval.go:133-135 | A larger `max` keeps every result |
| `Evaluator.KeepsTheFirst` | pkg/rules/eval.go:131-172 | What a limit keeps: over distinct clean edges, every instance whose premises, compared one after another by subject, predicate and object, come before those of a result is a result too |
| `Evaluator.ResultsInOrder` | pkg/rules/eval.go:174-203 | The results are strictly ordered by conclusion and then by premises, field by field |
| `Search.BuildPredicateIndex` | pkg/rules/eval_indexed.go:15-30 | The loops build, for each predicate, the sorted list of its edges |
| `Search.Join.Dfs` | pkg/rules/eval.go:132-170 | The recursion appends to the shared output what the search finds, up to the limit and without repeated keys |
| `Search.Join.Finish` | pkg/rules/eval.go:136-157 | Complete bindings add one derivation, unless a variable is unbound or the key was seen |
| `Search.EvaluateRuleDerivations` | pkg/rules/eval.go:104-203 | Returns the evaluator's list that soundness and completeness are proved of |
| `Search.EvaluateRuleDerivationsIndexed` | pkg/rules/eval_indexed.go:35-151 | Returns the indexed list for any index and the plain list for the index of the edges |
| `Datalog.Lfp` | pkg/engine/rules.go:43-84 | What saturation should compute: the finite set of atoms that have a proof tree |
| `Datalog.LfpClosed` | pkg/engine/rules.go:43-84 | The provable atoms contain the admissible facts and are closed under the rules |
| `Datalog.LfpLeast` | pkg/engine/rules.go:43-84 | They lie in every such closed set |
| `Datalog.LfpMonotone` | pkg/engine/engine.go:196-217 | More facts and rules and fewer denials never make an atom unprovable |
| `Datalog.BoundedInherits` | pkg/engine/rules.go:57-76 | The bound of a program holds for every program with no more facts and rules and no fewer denials |
| `Codec.BeliefRoundTrip` | pkg/engine/codec.go:22-103 | Decoding an encoded belief gives it back, whenever the fields fit their 16-bit lengths |
| `Codec.ResolutionRoundTrip` | pkg/engine/codec.go:105-120 | The same for resolutions |
| `Codec.AcceptedBeliefIsEncoding` | pkg/engine/codec.go:46-103 | Whatever the belief decoder accepts is the encoding of what it returns, despite unchecked short reads |
| `Codec.RuleRoundTrip` | pkg/engine/codec_rules.go:11-115 | An encoded rule with any number of premises decodes to itself if its conclusion's object is not empty, and is rejected if it is |
| `Codec.AcceptedRuleIsPrefix` | pkg/engine/codec_rules.go:35-115 | Whatever the rule decoder accepts is the encoding of what it returns less some final zero bytes, fewer than the conclusion's object is long |
| `Codec.RuleDecodesExactly` | pkg/engine/codec_rules.go:35-115 | A payload decodes to a rule exactly if it is the encoding of that rule less fewer final zero bytes than the conclusion's object is long |
| `Codec.RuleReencodes` | pkg/engine/codec_rules.go:11-115 | Encoding what was decoded gives the payload back exactly if no byte was missing |
| `Codec.ShortPayloadDecodes` | pkg/engine/codec_rules.go:89-100 | A payload that ends one byte early and is accepted all the same |
| `CodecIO.EncodeBelief` | pkg/engine/codec.go:22-44 | The buffer ends up holding the belief's encoding, or an error if a field is too long |
| `CodecIO.DecodeBelief` | pkg/engine/codec.go:46-103 | The cursor reads what the format function reads, errors included |
| `CodecIO.EncodeRule` | pkg/engine/codec_rules.go:11-33 | The buffer ends up holding the rule's encoding, or an error if anything is too long |
| `CodecIO.WritePattern` | pkg/engine/codec_rules.go:73-87 | Appends the bytes of a pattern that fits |
| `CodecIO.ReadPremises` | pkg/engine/codec_rules.go:52-59 | Reads the announced number of patterns, or fails where one cannot be read |
| `CodecIO.DecodeRule` | pkg/engine/codec_rules.go:35-71 | The cursor reads what the format function reads, errors included |
| `CodecIO.ByteReader.ReadTriple` | pkg/engine/codec_rules.go:89-115 | Reads three length-prefixed fields and leaves the rest, or fails |
| `Wal.FrameReads` | pkg/store/wal.go:131-167 | A whole frame at the front of a file is read as its record, and a shorter prefix of it ends the replay without an error |
| `Wal.TornTail` | pkg/store/wal.go:86-168 | From any prefix of a log file replay delivers exactly the records that lie wholly within it, in order and without an error |
| `Wal.WholeLog` | pkg/store/wal.go:123-168 | A whole file delivers every record that was appended |
| `Wal.DeliversWhatItHolds` | pkg/store/wal.go:123-168 | For any bytes whatever, replay delivers these records and stops for this reason exactly if the file begins with their frames, byte by byte, and what follows is too short, has another magic or version, or has a payload that its checksum does not fit |
| `Wal.DamagedPayload` | pkg/store/wal.go:159-161 | After any records, a payload of the right length with another checksum is reported and neither it nor anything after it is delivered |
| `Wal.DamagedHeader` | pkg/store/wal.go:143-148 | The same for any one wrong byte of the magic or the version |
| `Wal.HeaderIs` | pkg/store/wal.go:100-106 | The sixteen header bytes: "NAN1", 1, the type, two zeros, length and checksum with the lowest byte first |
| `Wal.WAL.Create` | pkg/store/wal.go:49-55 | A created log is empty and open |
| `Wal.WAL.Close` | pkg/store/wal.go:57-66 | A closed log takes no more records |
| `Wal.WAL.Append` | pkg/store/wal.go:86-119 | Adds sixteen header bytes and the payload to the file, or fails on the unknown type, a closed file or a payload that is too long and changes nothing |
| `Wal.WAL.Replay` | pkg/store/wal.go:123-168 | Delivers the appended records in order; from any other bytes, the records of the frames they begin with, and why it stops there |
| `Machine.CountGrowsWhenWritten` | pkg/engine/rules.go:68-71 | Comparing `Count` before and after tells exactly whether a new belief was written |
| `Machine.ProofOrderMeans` | pkg/engine/proof.go:35-51 | The order of recorded derivations: rule name, then the premises' keys one after another, a shorter list first |
| `Formats.AtomKeyBytes` | pkg/engine/proof.go:15-23 | Joined keys are "from", "pred" and "to" with byte 124 between them |
| `Formats.DerivationKeyBytes` | pkg/engine/proof.go:25-33 | A derivation's key is the rule's name, or the head's key, and each premise's key after a byte 59 |
| `Formats.DerivedSource` | pkg/engine/rules.go:69 | A rule writes its conclusion as a positive belief from "rule:" and its name at time 0, and those sources are the ones that count as derived |
| `Formats.BeliefLayout` | pkg/engine/codec.go:22-44 | A belief's payload byte by byte, with its time in two's complement, exists exactly if no field is longer than 65535 bytes |
| `Formats.RuleIsLaidOut` | pkg/engine/codec_rules.go:11-33 | A rule's payload byte by byte, premises in order, exists exactly if no field and no number is larger than 65535 |
| `Formats.FailsExactly` | pkg/engine/engine.go:169-266 | Exactly when each operation returns an error: empty fields, a polarity above 1, a rule without a name or premises, what the log cannot hold, no log to replay, or a record that cannot be read |
| `Formats.ReadsUpToTheFirstBad` | pkg/engine/engine.go:232-257 | A failing replay leaves what the records before the first bad one say |
| `Formats.StepTellsInOrder` | pkg/engine/engine.go:169-266 | A successful operation appends just its own records to the log, adds its rule after the others, and replaces its atom's resolution; a replay reads rules and resolutions in the log's order |
| `Formats.StepSaturatesThis` | pkg/engine/engine.go:140-217 | What each operation hands to the rules and with which limit: an ingest or bulk load adds to beliefs and graph, a resolution or replay starts again from the callers' beliefs without derivations |
| `Soundness.RecordsOne` | pkg/engine/derivations.go:5-18 | Recording adds one proof to its atom's list, keeps every list sorted without repetitions and touches no other list |
| `Soundness.EmitSound` | pkg/engine/rules.go:59-71 | One derivation, written or not, keeps the invariant: graph, beliefs, resolutions and proofs agree and every graph atom is grounded |
| `Soundness.RoundKeeps` | pkg/engine/rules.go:50-79 | Whatever each instance over the round's edges keeps, a whole round keeps, truncated or not |
| `Soundness.ApplyRulesSound` | pkg/engine/rules.go:43-84 | Saturation with any limit keeps the invariant, adds no base belief and loses nothing |
| `Exactness.GraphIsProvable` | pkg/engine/rules.go:43-84 | In every sound state, limits reached or not, each graph atom has a finite proof tree |
| `Exactness.CountKeepsBalance` | pkg/engine/rules.go:68-77 | Each counted belief is one of those still wanted, so what remains minus what is still to come does not change |
| `Exactness.SaturationIsExact` | pkg/engine/rules.go:43-84 | With more left than is still to come and any rule has instances, saturation ends saturated, in at most one round more than beliefs are missing |
| `Exactness.ApplyRulesExact` | pkg/engine/rules.go:43-84 | If D + M < cap, saturation from any sound state ends with the least fixpoint as its graph, in at most D + 1 rounds |
| `Exactness.SaturatedIsUnique` | pkg/engine/derivations.go:5-18 | Saturated states told the same have the same beliefs, graph and sorted derivation lists |
| `Truncation.StopsAtOnce` | pkg/engine/rules.go:57-82 | The first round adds nothing exactly if the derivations found within the limit are all known; saturation then ends after one round with no new belief |
| `Truncation.RoundServes` | pkg/engine/rules.go:56-79 | A round with any limit: each rule in turn gets the results its evaluation keeps within what remains, exactly these are recorded, believed and drawn, each new belief uses up one, and only an exhausted limit ends the round early |
| `Truncation.EdgesInOrder` | pkg/engine/rules.go:50 | The edges a round works on are the graph's, each once, by subject, predicate and object |
| `Truncation.SaturatesInRounds` | pkg/engine/rules.go:48-83 | Saturation with any limit is such rounds over the graph's edges in order, each with what the last one left, until one adds nothing or nothing remains |
| `Truncation.QuietIsSaturatedUnlessCutOff` | pkg/engine/rules.go:57-82 | Without any bound: a round that adds nothing ends saturation saturated, unless some rule has more instances than the limit lets through |
| `Truncation.NotFullNotCutOff` | pkg/engine/rules.go:57 | A rule that is cut off fills its limit, so an evaluation that returns fewer results was complete |
| `Truncation.UnsaturatedEnd` | pkg/engine/rules.go:43-84 | Saturation from any sound state with any limit: if the end is not saturated, the limit ran out or an evaluation of the last round was cut off |
| `Truncation.RunStopsTooEarly` | pkg/engine/rules.go:19-84 | After 1001 facts and one rule a provable atom is unknown to the engine; each later ingest about other predicates saturates without adding a belief, and it stays unknown however many follow |
| `Truncation.BulkStopsTooEarly` | pkg/engine/bulk.go:199 | The larger limit of a bulk load: 10001 facts and one rule leave a provable atom unknown |
| `Truncation.RebuildingForgets` | pkg/engine/bulk.go:199 | One rule and a bulk load of 1001 facts derive every conclusion; replaying the log, or resolving any atom of another predicate, leaves one of them unknown |
| `Lifecycle.StepKeepsInvariant` | pkg/engine/engine.go:169-266 | Every operation that returns no error keeps the invariant |
| `Lifecycle.ReachableInvariant` | pkg/engine/engine.go:169-266 | So it holds after any sequence of operations on a new engine |
| `Lifecycle.StepSaturates` | pkg/engine/engine.go:169-266 | Under the bound every operation ends saturated |
| `Lifecycle.ReachableSaturated` | pkg/engine/engine.go:169-266 | Under the bound at the end of a run, the engine is saturated there |
| `Theorems.EveryRunAgrees` | pkg/engine/engine.go:112-133 | After any run: an atom is an edge exactly if it is believed and not resolved false, no proof has a premise resolved false, every graph atom is provable, and a rank grounds each in base facts through recorded proofs |
| `Theorems.NothingIsInvented` | pkg/engine/query.go:24-64 | An unresolved atom that is called true has a proof tree and is a base fact or has recorded proofs, each an instance of a current rule over the graph |
| `Theorems.AffirmsExactlyTheProvable` | pkg/engine/query.go:24-64 | Under the bound, an atom is called true or contradictory exactly if its resolution is positive or, without one, it is provable |
| `Theorems.AnswersAreRight` | pkg/engine/query.go:24-64 | The whole answer of a saturated engine: for a resolved atom its resolution's polarity and source; otherwise both, true, false or unknown as it is provable and denied by a caller, and exactly the derivations that conclude it, in order, if it is true and there are any |
| `Theorems.TruthTable` | pkg/engine/query.go:24-64 | The same table for any clean run, in terms of the beliefs, rules and last resolutions it was told, if D + M < 1000 |
| `Theorems.NoProofFromAFalsePremise` | pkg/engine/engine.go:112-118 | No recorded derivation of any atom has a premise that is resolved false or outside the graph |
| `Theorems.TreeAvoids` | pkg/engine/engine.go:135-167 | Proof trees under one more denial are the old trees that do not mention the denied atom |
| `Theorems.RetractionIsExact` | pkg/engine/engine.go:196-217 | After a negative resolution an atom stays in the graph exactly if it has a proof tree that avoids the denied atom, if the program with the denial meets the bound |
| `Theorems.ResolvingBackRestores` | pkg/engine/engine.go:196-217 | Resolving an atom false and then true again restores beliefs, graph and derivation lists |
| `Theorems.DenyingNeverAdds` | pkg/engine/engine.go:140-167 | Of two saturated states, the one with fewer facts and rules or more denials has no larger graph |
| `Theorems.SameTellingSameEnd` | pkg/engine/engine.go:140-167 | Any two runs that end with the same base beliefs, resolutions and rules end with the same beliefs, graph, derivation lists and answers, replays included |
| `Theorems.Confluence` | pkg/engine/engine.go:169-217 | Runs that bring in the same beliefs and rules and give each atom the same last resolution end with the same beliefs, graph, derivation lists and answers |
| `Theorems.ReorderingIsConfluent` | pkg/engine/engine.go:169-217 | In particular any reordering of ingests, rules, resolutions and bulk loads that keeps the resolutions in their order |
| `Theorems.BulkIsConfluent` | pkg/engine/bulk.go:167-199 | And after any such operations one bulk load with a single saturation against saturating after each of its valid facts |
| `Recovery.ReplayRefinesTheRun` | pkg/engine/engine.go:219-266 | Replaying the log of any run under the bound succeeds exactly if every rule has a conclusion object; it then gives the saturated state that was told all that could be logged, which is the live state exactly if every asserted belief could be |
| `Recovery.BulkLosesAFact` | pkg/engine/bulk.go:185-190 | A bulk-loaded fact with a field of 65536 bytes is believed and answered true, is not logged, and is gone after a replay that reports no error |
| `Recovery.UnreadableLog` | pkg/engine/rules.go:19-41 | One rule without a conclusion object, accepted and logged, after which the log cannot be replayed |
| `Recovery.LogBegins` | pkg/engine/engine.go:169-217 | Whatever number of records the log of a run is cut to, the first operations, the last perhaps a bulk load in part, lead to exactly that log |
| `Recovery.TornLogRecovers` | pkg/store/wal.go:123-168 | Cutting the log file anywhere leaves the log of the first operations, those whose records are whole; replaying it gives the engine as they left it exactly if their rules have conclusion objects and their beliefs could be logged, and fails exactly if a rule has none |
| `Compaction.RuleOrderInjective` | pkg/engine/canonical.go:55-90 | The rule comparator tells any two different rules apart |
| `Compaction.CanonicalOrderInjective` | pkg/engine/canonical.go:16-29 | The belief comparator tells any two different beliefs on clean atoms apart |
| `Compaction.CanonicalOrderMeans` | pkg/engine/canonical.go:16-29 | Beliefs are compared by joined key, polarity, time and source |
| `Compaction.RuleOrderMeans` | pkg/engine/canonical.go:55-90 | Rules are compared by name, premises one after another, their number, and conclusion |
| `Compaction.SnapshotIdempotent` | pkg/engine/canonical.go:52-92 | The rules snapshot holds the rules and is its own snapshot |
| `Compaction.CompactsExactlyWhatFits` | pkg/engine/compact.go:13-40 | Compaction returns no error exactly if every belief, derived ones included, every resolution and every rule fits its record |
| `Compaction.CompactedLog` | pkg/engine/compact.go:13-40 | A compacted log is every belief once, then every resolution once, then the rules as often as they were added, each with its type byte and payload and each kind in its order |
| `Compaction.CompactionCanLoseAll` | pkg/engine/compact.go:31-41 | If some rule has no conclusion object, compaction can succeed but the log it writes never replays |
| `Compaction.CompactsUnreadably` | pkg/engine/compact.go:6-41 | It does so for the engine that was given one such rule |
| `Compaction.CompactionRestores` | pkg/engine/compact.go:6-41 | Replaying a compacted log rebuilds the state with its rules in canonical order, although derived beliefs were written and dropped, if every rule has a conclusion object, and fails otherwise |
| `Compaction.CompactionPreservesMeaning` | pkg/engine/compact.go:6-41 | The compacted log replays exactly if every rule has a conclusion object; then every answer with its proof is the same and compacting again writes the same records |
| `BeliefStore.ListOfFacts` | pkg/belief/store.go:110-120 | Each list is strictly sorted by time and source, without repetitions, and holds exactly the beliefs of its atom and polarity |
| `BeliefStore.ListIs` | pkg/belief/store.go:45-120 | The stored lists depend on the set of beliefs only, not on the order in which they came |
| `BeliefStore.ReportsTheEarliest` | pkg/belief/store.go:85-102 | Without a resolution, a new belief that has an opposite reports the earliest one, by time and then source |
| `BeliefStore.ReportsExactly` | pkg/belief/store.go:45-102 | A contradiction is reported exactly if the belief is new and its polarity is not the resolution's or, without a resolution, an opposite belief is stored; it names the resolution, or else the earliest opposite belief, and the reason |
| `BeliefStore.SnapshotInOrder` | pkg/belief/store.go:110-163 | A snapshot is the atom's beliefs, the negative ones first, each kind by time and then source |
| `BeliefStore.Store.constructor` | pkg/belief/store.go:17-22 | A new store holds nothing |
| `BeliefStore.Store.Count` | pkg/belief/store.go:24-28 | The counter is the number of distinct beliefs |
| `BeliefStore.Store.Add` | pkg/belief/store.go:31-108 | Adds the belief to the set unless a field is empty or the polarity is above 1; reports a contradiction exactly if a new belief conflicts with the resolution or else with a stored belief, with the resolution or the earliest opposite belief as the existing one |
| `BeliefStore.Store.Conflict` | pkg/belief/store.go:61-102 | Decides that contradiction from the table |
| `BeliefStore.Store.SortLocked` | pkg/belief/store.go:110-120 | Sorts every list of one atom and changes no other |
| `BeliefStore.Store.SetResolution` | pkg/belief/store.go:122-140 | Stores a resolution under its atom unless a field is empty or the polarity is above 1 |
| `BeliefStore.Store.Snapshot` | pkg/belief/store.go:150-163 | Lists exactly the atom's beliefs, the negative ones first, each kind by time and then source |
| `BeliefStore.Store.Atoms` | pkg/belief/store.go:165-183 | The atoms that have beliefs, strictly by subject, predicate and object |
| `BeliefStore.Store.Resolutions` | pkg/belief/store.go:185-205 | Every resolution once, strictly by its atom's subject, predicate and object |
| `KnowledgeGraph.LinkBothWays` | pkg/kg/memgraph.go:55-56 | Writing an edge into both maps keeps them mirrored and adds that edge and no other |
| `KnowledgeGraph.MemGraph.constructor` | pkg/kg/memgraph.go:20-25 | A new graph has no edges |
| `KnowledgeGraph.MemGraph.AddFact` | pkg/kg/memgraph.go:27-59 | Adds the edge to the set unless a field is empty, keeping the mirrored maps and the counter |
| `KnowledgeGraph.MemGraph.EdgesFrom` | pkg/kg/memgraph.go:61-84 | The edges that leave a node, strictly by predicate and object |
| `KnowledgeGraph.MemGraph.EdgesTo` | pkg/kg/memgraph.go:86-109 | The edges that enter a node, strictly by predicate and subject |
| `KnowledgeGraph.MemGraph.EdgesAll` | pkg/kg/memgraph.go:111-134 | All edges, strictly by subject, then predicate, then object |
| `KnowledgeGraph.MemGraph.EdgesByPredicate` | pkg/kg/memgraph.go:158-180 | The edges of a predicate, strictly by subject and object |
| `KnowledgeGraph.MemGraph.FactsCount` | pkg/kg/memgraph.go:136-140 | The counter is the number of edges |
| `KnowledgeGraph.MemGraph.CountIncoming` | pkg/kg/memgraph.go:143-155 | Counts the edges of a predicate that enter a node |
| `Runtime.Engine.constructor` | pkg/engine/engine.go:58-73 | A new engine is the empty state over its log |
| `Runtime.Engine.IngestNoLog` | pkg/engine/engine.go:123-133 | Adds a valid belief, and its atom to the graph if it is positive and not resolved false |
| `Runtime.Engine.AddDerivation` | pkg/engine/derivations.go:5-18 | Records a derivation under its atom unless its key is there |
| `Runtime.Engine.Emit` | pkg/engine/rules.go:59-71 | One derivation takes the state machine's step, and the count tells whether a belief was written |
| `Runtime.Engine.EmitAll` | pkg/engine/rules.go:58-78 | The loop over the derivations, with its counters and early return, is the machine's |
| `Runtime.Engine.ApplyRound` | pkg/engine/rules.go:50-79 | One round over the rules, all against the edges of its start, is the machine's |
| `Runtime.Engine.ApplyRules` | pkg/engine/rules.go:43-84 | The saturation loop is the machine's, so it is sound always, exact under the bound, and cut off as RoundServes and SaturatesInRounds say |
| `Runtime.Engine.CollectBase` | pkg/engine/engine.go:141-148 | Collects exactly the beliefs that no rule wrote |
| `Runtime.Engine.Rebuild` | pkg/engine/engine.go:151-165 | A new store and graph hold the base beliefs, every resolution, and the edges these allow |
| `Runtime.Engine.Recompute` | pkg/engine/engine.go:140-167 | Rebuilding and saturating is the machine's step |
| `Runtime.Engine.Ingest` | pkg/engine/engine.go:169-194 | A successful ingest is the machine's step and reports the contradiction the belief is owed; a failing one leaves the belief in but does not saturate |
| `Runtime.Engine.AddRule` | pkg/engine/rules.go:19-41 | A successful call is the machine's step; a nameless or premiseless rule changes nothing, and a rule that cannot be logged stays added |
| `Runtime.Engine.Resolve` | pkg/engine/engine.go:196-217 | A successful call is the machine's step; an invalid resolution changes nothing, and one that cannot be logged stays set |
| `Runtime.Engine.ReplayRecord` | pkg/engine/engine.go:232-257 | One record of the log is the machine's step, or an error that changes nothing |
| `Runtime.Engine.ReplayFromLog` | pkg/engine/engine.go:219-266 | Forgetting, reading the log and recomputing is the machine's step; a failing replay leaves what the records before the failing one gave, not saturated |
| `Runtime.Engine.BulkIngest` | pkg/engine/bulk.go:167-199 | The per-triple loop and one saturation are the machine's step, and the counters are the numbers of triples, of invalid ones and of those that contradict what was held |
| `Runtime.Engine.Evaluate` | pkg/engine/query.go:24-64 | The answer and its proof are the state's, of which AnswersAreRight and TruthTable are proved |
| `Runtime.Engine.CanonicalBeliefs` | pkg/engine/canonical.go:10-31 | The canonical listing of the set of beliefs |
| `Runtime.Engine.CanonicalResolutions` | pkg/engine/canonical.go:33-50 | The canonical listing of the resolutions |
| `Runtime.Engine.CompactToWAL` | pkg/engine/compact.go:6-41 | The new log holds the compacted records, or an error is returned exactly if one of them cannot be written |
| `Explain.LevelsAreDistances` | pkg/engine/explain.go:43-71 | After the search the remembered value of an atom is the depth minus its shortest distance from the root, and exactly the atoms within the depth have one |
| `Explain.EdgesAreLinks` | pkg/engine/explain.go:64-70 | The edges drawn are, as a set, all premise links that leave atoms within one hop less than the depth |
| `Explain.EdgesShow` | pkg/engine/explain.go:64-70 | Every edge leads from an atom's key to the key of a premise of a derivation recorded for it by the named rule, and for the atoms within one hop less than the depth every such edge is there |
| `Explain.ExactPictures` | pkg/engine/explain.go:34-95 | The graph by itself: from its root, along its edges, exactly its nodes are reached, each in just the numbers of steps up to the depth that it is hops away; each node has its atom's key and the kind of its answer; both lists are in order |
| `Explain.ProofSearch.constructor` | pkg/engine/explain.go:39-41 | The search starts with no nodes, no edges and nothing seen |
| `Explain.ProofSearch.Enter` | pkg/engine/explain.go:49-58 | Entering an atom sets its level and gives it the node of its answer |
| `Explain.ProofSearch.Visit` | pkg/engine/explain.go:44-71 | A visit with `d` hops left raises levels only, and whatever it changed is fully explored for its level |
| `Explain.ProofSearch.Follow` | pkg/engine/explain.go:66-68 | Following one premise draws its edge and leaves the atom it came from open |
| `Explain.ListNodes` | pkg/engine/explain.go:75-79 | The nodes once each, strictly sorted by id |
| `Explain.SoundIsClean` | pkg/engine/explain.go:64-66 | In every sound engine the recorded premises have distinct ids, as the search needs |
| `Explain.ExplainGraph` | pkg/engine/explain.go:34-95 | On any derivation graph, cyclic or not: the nodes are exactly the atoms within `depth` premise hops, the edges all links leaving atoms within one hop less, the graph by itself reads as ExactPictures says, and no other arrangement of the edges is sorted |
| `Suggest.KeysCountChains` | pkg/ilp/suggest.go:41-59 | For separator-free names the distinct keys counted are the distinct two-hop chains |
| `Suggest.FiresOnChains` | pkg/ilp/suggest.go:65-72 | The suggested rule fires on two edges exactly if they form a chain of the predicate |
| `Suggest.SuggestionIs` | pkg/ilp/suggest.go:61-73 | A suggestion in bytes: name "transitive:" and the predicate, premises over ?x ?y ?z, and the number of distinct chains |
| `Suggest.SuggestionProvesItsChains` | pkg/ilp/suggest.go:12-76 | The count is the number of distinct derivations the suggested rule yields over the same edges, and a smaller limit is used up |
| `Suggest.VariablePredicateMiscounts` | pkg/ilp/suggest.go:65-72 | For every predicate that is itself a variable, two loops make one chain that the suggested rule proves twice, or not at all if the rule uses the name itself |
| `Suggest.CountsExactly` | pkg/ilp/suggest.go:12-76 | The count is right over all separator-free edge lists exactly for the predicates that are not variables |
| `Suggest.CountChains` | pkg/ilp/suggest.go:41-59 | The nested loops count the distinct keys of consecutive adjacent nodes |
| `Suggest.SuggestTransitive` | pkg/ilp/suggest.go:12-76 | A rule is suggested exactly for the predicates with at least max(1, minChains) chains, with their number, in predicate order |
| `Vsa.MajorityFits` | pkg/vsa/ops.go:38-54 | The majority word of an odd number of words is the one word of least summed bit distance |
| `Vsa.BundleIsMedian` | pkg/vsa/ops.go:21-59 | The majority bundle of an odd number of vectors is the unique vector of least total Hamming distance to them |
| `Vsa.BundleIsClear` | pkg/vsa/ops.go:57-58 | Unused bits that are zero in all inputs are zero in the majority |
| `Vsa.BindingKeepsDistance` | pkg/vsa/ops.go:8-18 | Binding by a common key keeps Hamming distances, and binding twice gives the vector back |
| `Vsa.BoundIsClear` | pkg/vsa/ops.go:16-17 | Masking changes nothing of a binding whose inputs have zero unused bits |
| `Vsa.DistanceCounts` | pkg/vsa/ops.go:62-73 | The Hamming distance counts bits: flipping a bit on which two vectors agree adds one |
| `Vsa.UsedBits` | pkg/vsa/vector.go:49-56 | Bit i of the last word is used exactly if 64 * (words - 1) + i < bits |
| `Vsa.MaskUnusedBits` | pkg/vsa/vector.go:49-56 | Clears exactly the bits of the last word from the vector's length on, and changes nothing else |
| `Vsa.NewZero` | pkg/vsa/vector.go:13-19 | The least number of 64-bit words that hold the bits, all zero, or an error for no bits |
| `Vsa.BindXOR` | pkg/vsa/ops.go:8-18 | A fresh vector, the word-wise exclusive or with unused bits cleared, or an error for unequal shapes |
| `Vsa.Differences` | pkg/vsa/ops.go:62-73 | The Hamming distance, or an error for unequal shapes or no bits |
| `Vsa.BundleMajority` | pkg/vsa/ops.go:21-59 | Every word of the result is the majority of its column, zero where the inputs have none, with unused bits cleared; the outcomes for an empty or even number, unequal shapes, and more words than the bits need, which index out of range, are exact |

## Left out

- Runtime.Engine.constructor: takes a log that is open and whole; for a closed one, `Wal.WAL.Append` states the error, and for a file with a torn tail, `Wal.WAL.Replay` and `Recovery.TornLogRecovers` state what is read.
- Runtime.Engine.CanonicalBeliefs: asks for separator-free atoms, because equal joined keys of different atoms leave the order to the sorting algorithm, which is not stable.
- Runtime.Engine.CanonicalResolutions: the same.
- Runtime.Engine.CompactToWAL: the same.
- Explain.ExplainGraph: asks for separator-free atoms, because atoms with equal keys share one node.
- Explain.ProofNode: of the details of a node only the resolution's source is kept; the constant reason texts are not.
- Suggest.Suggestion: holds the number of chains, not its decimal text "observed_chains=N".
- Wal.WAL.Replay: the records are returned in order and then processed, where the source calls back after each record; nothing observable differs, because the callback does not touch the file.
- File handles, fsync, deferred sync, mutexes and concurrent callers: the file is a byte sequence and operations run one after another.
- Appending after a torn tail: `OpenWAL` does not trim the partial record, and nothing is claimed of what is appended after one.
- The CRC-32 computation: any function from bytes to 32 bits.
- `EvaluateRule` (pkg/rules/eval.go:50-96): the same join without premises and without de-duplication.
- Slipstream, its record codec and the backend registry (pkg/store/slipstream.go, record_codec.go, registry.go): wrappers over third-party libraries.
- Parsing of text, CSV and JSON triples in pkg/engine/bulk.go, and JSON output in pkg/engine/explain.go: the model starts from parsed triples.
- Metrics, durations, the trace log, the ILP audit and the inducer: they do not affect truth values.
- The semantic index, similarity as a floating-point number, random vectors and vector serialisation.
- `Predicates`, `RelatedEdges` and `AllEdgesFrom`: further filters of the same index.
- Callers that change the store or the graph directly through `BeliefStore()` and `Graph()`.
- Go integers: counters and lengths are unbounded here; field lengths, timestamps, polarities and vector words have their widths.
