# Sico core logic, modelled and proved in Dafny

The project models the parts of Sico whose correctness is hardest to see from the code, and proves what
they promise for every input, every run and every interleaving:

- **Strict JSON schemas** (`core/app/llmhubs/response_format.py`). A schema is rewritten in place while
  `$ref`s are resolved in the very document being rewritten. Proved: the exact normal form and
  idempotence; a weight that makes the rewrite halt on acyclic schemas, and when a cycle keeps it from
  returning; that rewriting in place agrees with a pure normaliser that works from the untouched
  definitions, in whatever order things are listed;
  that the strict schema accepts exactly what the original accepts with all properties and no others, recursive
  `$ref`s included; what the validator accepts, and which place it blames. Where a promise stops, a lemma shows a family of inputs on which it does.
- **Experience learning** (`core/app/experiences/service.py`). Tasks of any number of agents, interleaved at
  every await, with failures. Proved: linearisation in lock order, every delta in the playbook once and for good, made
  by authors who had read what precedes it, exactly when memory and disk agree, for shared files too, exactly which
  trajectories are skipped, freedom from deadlock and livelock, and the LRU ledger of turn totals.
- **Traces with screenshots** (`runner.py`, `roles.py`), **chat requests** (`chat_client.py`), **plan files**
  (`plan_fs.py`), **token revocation** (`jwtx`), **environment expansion** (`config_loader.py`) and **import
  aliases** (`otelwrapgen`).

`dafny verify dfyconfig.toml` checks everything.

## How the model reads

- A JSON object is a sequence of fields in insertion order, in which a lookup finds the first field of a
  name; `Unique` says that no name repeats, as in a Python dictionary. Keywords are constructors of `Name`.
- `SchemaNormalizer` describes the rewriter as functions: `root` is the document, `p` the position of the node
  being rewritten, and the document at any moment is `PutAt(root, p, node)`. `SchemaDocument` is the
  rewriter as it runs, a class whose one field is overwritten; its methods are proved against the functions.
- `limit` counts nested `_normalize_schema_node` calls. It decides whether the rewriter returns and never what
  it returns (`MoreDepth`), so "halts" means that from some limit on `RecursionLimit` is not raised, and a
  schema on which every limit is exhausted is one on which the code recurses for ever.
- `$ref`s are split at `/` and looked up as they are: like the code, the model does not decode `~0`, `~1` or
  percent escapes.
- In the meaning of schemas (`SchemaSemantics`) `n` bounds the nested `$ref`s followed, and a schema accepts an
  instance when it does so for every large enough `n`. Keywords the rewriter does not touch have an
  arbitrary meaning `kw`; the theorems hold for each.
- A playbook is the history of the updates made to it, each with what its author had read.
- Clocks, randomness, LLM answers and failures are parameters of the steps or of the calls.

Where the code does less than its own words say, the model follows the code:

- `service.py` says the per-agent lock keeps memory and file together. Agents `None` and `0` have two locks and
  two runners but one file, and a retry of a trajectory whose save failed is skipped
  (`ExperienceLimits`).
- `plan_fs.py` says unique names keep writers apart. A name is unique only while its file exists, so this needs
  one more condition when a writer is interrupted between its replace and its return (`PlanFiles.Orderly`).
- `jwt.go` parses a token and looks it up at two different instants (`TokenRevocation.AcceptedAgainIff`), and the
  cache reads an entry and deletes it in two critical sections (`TokenRevocation.StaleDeletionAccepts`).

## Model

| member | source | states |
|---|---|---|
| SchemaDocument.Document.ResolveRef | core/app/llmhubs/response_format.py:144-160 | the loop over the path returns the dictionary named by the `$ref` in the current document, or the error of the first step that fails |
| SchemaDocument.Document.NormalizeNode | core/app/llmhubs/response_format.py:63-68 | the document changes at the node's position only, to the functional result for the document as it was around it, or the same error is raised |
| SchemaDocument.Document.NormalizeMembers | core/app/llmhubs/response_format.py:122-130 | members are rewritten one after the other, each seeing the ones before it already rewritten |
| SchemaDocument.Document.NormalizeKey | core/app/llmhubs/response_format.py:112-130 | the value under one keyword is rewritten in place and nothing else |
| SchemaDocument.Document.NormalizeDict | core/app/llmhubs/response_format.py:71-102 | `default` is dropped, a `$ref` with siblings is replaced by the merged target, otherwise defaults, children and `allOf` follow in order |
| SchemaDocument.Document.NormalizeFirst | core/app/llmhubs/response_format.py:80-86 | `properties`, `items`, `$defs` and `definitions` are rewritten in this order |
| SchemaDocument.Document.NormalizeTail | core/app/llmhubs/response_format.py:88-91 | a single `allOf` is merged into the node, otherwise the alternatives are rewritten |
| SchemaDocument.ToStrictJsonSchema | core/app/llmhubs/response_format.py:15-19 | rewriting a copy in place and validating it yields exactly the functional conversion |
| SchemaNormalizer.KeyFrame | core/app/llmhubs/response_format.py:112-130 | rewriting under one keyword keeps all names, all other fields and the shape of the container |
| SchemaNormalForm.NormalizeNormalAndIdempotent | core/app/llmhubs/response_format.py:63-141 | on success every visited position has no `default`, no `$ref` with siblings, no single `allOf`, `additionalProperties` on objects and `required` equal to its property names, and a second run changes nothing |
| SchemaNormalForm.NormalIffUnchanged | core/app/llmhubs/response_format.py:63-141 | the normal form holds of exactly the documents the rewriter leaves alone |
| SchemaNormalForm.PropertyNamesKept | core/app/llmhubs/response_format.py:71-141 | property names survive in order, also one called `default`, whatever is inlined or collapsed |
| SchemaShape.AdditionalPropertiesOf | core/app/llmhubs/response_format.py:105-109 | a dictionary that is neither inlined nor collapsed keeps its `additionalProperties`; without it, it gets `false` if it has `properties` or the type "object", alone or in a list, and nothing otherwise |
| SchemaShape.RequiredOf | core/app/llmhubs/response_format.py:112-119 | its `required` becomes the names of its `properties` in order, and stays what it was without them |
| SchemaShape.OthersOf | core/app/llmhubs/response_format.py:71-91 | its `default` goes, and every other keyword that is not looked into stays as it is |
| SchemaShape.InlinedOf | core/app/llmhubs/response_format.py:93-102 | a `$ref` beside anything else than a `default` raises what its resolution raises; otherwise the node becomes the rewrite of a dictionary with its own value for each keyword it has, the target's for the others, and no `$ref` |
| SchemaShape.CollapsedOf | core/app/llmhubs/response_format.py:133-141 | a dictionary with one dictionary in its `allOf` becomes the rewrite of its own half-rewritten keywords, with the member's for those it lacks, and no `allOf` |
| SchemaShape.NormalPlace | core/app/llmhubs/response_format.py:71-141 | what the normal form asks of one dictionary, keyword by keyword |
| SchemaDefinitions.PointerNames | core/app/llmhubs/response_format.py:144-160 | `#/$defs/Name` and `#/definitions/Name` name the definition of that name, and resolve to a dictionary exactly if that definition is this dictionary |
| SchemaDefinitions.PointerFollowed | core/app/llmhubs/response_format.py:144-160 | a pointer of any length is followed key by key through dictionaries; it resolves to the dictionary at its end, and otherwise raises the error of the first step that fails |
| SchemaDefinitions.NoPointer | core/app/llmhubs/response_format.py:145-146 | what does not start with `#/` is no pointer |
| SchemaTermination.InlineLighter | core/app/llmhubs/response_format.py:93-102 | inlining a `$ref` makes the expanded weight of the node strictly smaller |
| SchemaTermination.CollapseLighter | core/app/llmhubs/response_format.py:133-141 | so does collapsing a single `allOf` |
| SchemaTermination.NormalizeHalts | core/app/llmhubs/response_format.py:63-141 | with weights certified for the definitions, a depth equal to the schema's weight is never exceeded |
| SchemaAcyclicity.AcyclicHalts | core/app/llmhubs/response_format.py:63-160 | if the definitions that can be inlined are ranked so that each contains `$ref`s with siblings to smaller ranks only, such weights exist and the rewriter halts; a `$ref` alone, also as the only member of an `allOf` without siblings, may go anywhere, and one that cannot resolve, now or after any rewriting, counts as harmless because it raises |
| SchemaDepth.MoreDepth | core/app/llmhubs/response_format.py:63-141 | a run that does not hit the limit ends the same way under every larger limit |
| PureNormalizer.InlineKeepsPure | core/app/llmhubs/response_format.py:93-102 | inlining a definition in any state of completion does not change what the node is finished to |
| PureNormalizer.CollapseKeepsPure | core/app/llmhubs/response_format.py:133-141 | nor does collapsing a single `allOf` |
| PureNormalizer.PureOfNormal | core/app/llmhubs/response_format.py:71-141 | the pure normaliser leaves finished values alone |
| InPlaceEqualsPure.InPlaceIsPure | core/app/llmhubs/response_format.py:71-102 | with a table of finished definitions, resolving against the half-rewritten document gives the pure result |
| FinishedDefinitions.InPlaceEqualsPureWhenAcyclic | core/app/llmhubs/response_format.py:71-160 | on every acyclic schema of the domain such a table exists, each entry the pure form of the untouched definition, and rewriting in place yields the pure form of the untouched schema |
| FinishedDefinitions.OrderDoesNotMatter | core/app/llmhubs/response_format.py:71-102 | documents with the same definitions, listed in any order, are rewritten from one table |
| SchemaRefinement.Refines | core/app/llmhubs/response_format.py:71-141 | for every subschema, instance and bound: what the rewritten subschema accepts the original one accepts, and with all properties and no others at each visited object, with a bound that pays for the inlined `$ref`s |
| SchemaRefinement.StrictNarrows | core/app/llmhubs/response_format.py:15-141 | every instance the strict document accepts is accepted by the original document, with all properties and no others at each visited object |
| SchemaRefinement.NormalizeRefines | core/app/llmhubs/response_format.py:15-141 | on every schema of the domain the in-place rewriter succeeds, and whatever it returns under any limit only narrows |
| SchemaTightness.Accepted | core/app/llmhubs/response_format.py:71-141 | the other way round, subschema by subschema: what the original accepts with all properties and no others the rewritten one accepts |
| SchemaTightness.StrictAcceptsIff | core/app/llmhubs/response_format.py:15-141 | the strict document accepts an instance exactly if the original accepts it with all properties, and no others where the original says nothing about others, at each visited object |
| SchemaTightness.NormalizeCharacterised | core/app/llmhubs/response_format.py:15-141 | this is so of whatever the in-place rewriter returns, on every schema of the domain |
| SchemaLimits.InlinedTargetLosesRef | core/app/llmhubs/response_format.py:98-100 | the result of inlining never depends on a `$ref` of the target: it is always lost |
| SchemaLimits.CollapsedMemberLosesAllOf | core/app/llmhubs/response_format.py:138-139 | likewise the `allOf` of the sole member of an `allOf` |
| SchemaLimits.LostAllOfWidens | core/app/llmhubs/response_format.py:133-141 | so the strict form of an `allOf` in an `allOf` accepts every instance that the inner one rejects |
| SchemaLimits.LostRefWidens | core/app/llmhubs/response_format.py:93-102 | a family of schemas whose strict form accepts an instance the original rejects, because the target of an inlined `$ref` is itself a `$ref` |
| SchemaLimits.RequiredKeptIff | core/app/llmhubs/response_format.py:112-119 | replacing `required` by the property names keeps every old demand exactly when each required name is a property |
| SchemaLimits.DroppedRequiredWidens | core/app/llmhubs/response_format.py:117-117 | otherwise the strict schema accepts the empty object that the original rejects |
| SchemaLimits.OverlappingOneOfWidens | core/app/llmhubs/response_format.py:105-130 | with overlapping alternatives of a `oneOf` the strict schema accepts what the original rejects |
| SchemaLimits.CycleNeverReturns | core/app/llmhubs/response_format.py:93-102 | a definition that contains a `$ref` with a sibling to itself exhausts every recursion limit |
| SchemaCycles.CycleNeverFinished | core/app/llmhubs/response_format.py:63-141 | definitions each of which holds, below its top, a `$ref` with siblings back into the set keep the rewriter from returning a schema under any recursion limit, whatever else the document holds |
| SchemaReturns.ReturnsIffAcyclic | core/app/llmhubs/response_format.py:63-141 | with annotations as siblings, `$ref`s that resolve and inlined definitions that are neither a `$ref` nor a single `allOf`, the rewriter returns a schema under some recursion limit exactly if those definitions are free of cycles |
| SchemaReturns.RankOrCycle | core/app/llmhubs/response_format.py:93-102 | ranking definitions one by one stops only when each of those left has a `$ref` with siblings to one of those left |
| SchemaLimits.SelfWrappedReturns | core/app/llmhubs/response_format.py:133-141 | the last condition is needed: a definition that is a single `allOf` of itself with a title has no ranks, and yet the rewriter returns, the `$ref` being lost |
| SchemaLimits.BareAllOfRecursionIsCovered | core/app/llmhubs/response_format.py:133-141 | a definition that refers to itself through a bare `allOf` of one `$ref` is in the domain of all these theorems, the refinement theorem included |
| SchemaLimits.WrappedTargetDependsOnOrder | core/app/llmhubs/response_format.py:71-141 | a target that is a bare `allOf` of a `$ref` gives different results before and after it has been rewritten itself |
| SchemaLimits.DefinitionOrderMatters | core/app/llmhubs/response_format.py:63-141 | two whole documents that differ only in the order of their definitions: one definition comes out with the keyword of its target in one of them and without it in the other |
| SchemaValidator.PartsExactly | core/app/llmhubs/response_format.py:181-195 | the validator descends into every property, definition, `items` dictionary and alternative, with its label, and into nothing else |
| SchemaValidator.ValidateIff | core/app/llmhubs/response_format.py:163-195 | it accepts exactly the documents with no unsupported keyword at any reachable place and, at the root, an object type and no `anyOf` |
| SchemaValidator.ValidateBlames | core/app/llmhubs/response_format.py:174-180 | a reported place exists, is spelled as its path, has exactly the reported keywords, and no place the validator comes to before it has any |
| SchemaValidator.KeywordsRefused | core/app/llmhubs/response_format.py:10-12 | the keywords refused at a place are `allOf`, `not`, `dependentRequired`, `dependentSchemas`, `if`, `then` and `else`, and no others |
| SchemaValidator.RootErrors | core/app/llmhubs/response_format.py:167-171 | a root `anyOf` is reported before a wrong type, and both before anything else |
| SchemaValidator.PartsInOrder | core/app/llmhubs/response_format.py:181-195 | the validator goes keyword by keyword, and under one keyword in the order of the document |
| SchemaValidator.ToStrictIsStrict | core/app/llmhubs/response_format.py:15-19 | a strict schema is in normal form, has no `allOf` or other unsupported keyword at any reachable place, and converts to itself |
| SchemaValidator.ToStrictFixedIff | core/app/llmhubs/response_format.py:15-19 | the fixed points of the conversion are the normal, clean documents rooted in an object schema |
| ExperienceInvariants.OneAtATime | core/app/experiences/service.py:130-136 | two tasks of one agent are never past acquiring its lock together |
| ExperienceInvariants.StepKeeps | core/app/experiences/service.py:130-209 | every step of every task, failures included, keeps the invariant over runners, locks, reads and memory |
| ExperienceTheorems.Linearised | core/app/experiences/service.py:180-203 | with its lock free, an agent's playbook is the sequential fold of its attempts |
| ExperienceTheorems.LogIsLockOrder | core/app/experiences/service.py:182-197 | the order of that fold is the order in which the tasks took the lock |
| ExperienceTheorems.ReadsStayCurrent | core/app/experiences/runner.py:594-634 | what Reflector and Curator read is still the playbook when their answers arrive, but for the task's own work |
| ExperienceTheorems.NoLostUpdate | core/app/experiences/runner.py:594-634 | every delta in a playbook was made by authors who had read all that precedes it |
| ExperienceDeltas.DeltaIsKept | core/app/experiences/runner.py:594-634 | once the Curator's answer to a task has arrived, in every later state of every run the playbook of the task's agent has exactly one delta of this task, namely that answer, directly behind the task's embeddings and before its pruning |
| ExperienceDeltas.NothingIsLost | core/app/experiences/service.py:180-203 | over every run each playbook only grows: it never loses or reorders what it had |
| ExperienceTheorems.MemoryMeetsDisk | core/app/experiences/service.py:138-203 | with its lock free, an agent's memory equals its file exactly when the file holds what this agent saved last, or was created with, and no attempt since changed anything; the first always holds when no other agent in use has the same file |
| ExperienceTheorems.FileHasAnAuthor | core/app/experiences/playbook/store.py:36-57 | every file, also the one that `None` and `0` share, is the fold of one of its agents up to its last saved attempt |
| ExperienceFiles.StepKeepsFile | core/app/experiences/service.py:138-203 | every step keeps this: nobody has saved and all were created with the file, or the file is what one of its agents saved last |
| ExperienceFiles.SharedIff | core/app/experiences/playbook/store.py:36-39 | two agents have one file exactly if they are equal, or are `None` and 0 |
| ExperienceTheorems.FreshUntilOverwritten | core/app/experiences/service.py:194-203 | what an agent saved stays in its file over every run in which no other agent saves to the same file |
| ExperienceTheorems.SavedWhenLastLearned | core/app/experiences/service.py:194-203 | if the last task that reached the runner returned normally, the file equals memory exactly when it still holds what this agent saved, so always for a file of its own |
| ExperienceLimits.SkippedRetryLeavesFileBehind | core/app/experiences/service.py:184-192 | a run in which the last holder of the lock was skipped without an exception and the file is behind memory |
| ExperienceLimits.SharedFileDiverges | core/app/experiences/playbook/store.py:36-39 | a run in which agents `None` and `0` both save and the file is not what `None` has in memory |
| ExperienceDedup.AtMostOncePerEpoch | core/app/experiences/service.py:182-192 | after n first-time attempts no id occurs twice between two clears, the set has (n-1) mod 1024 + 1 ids, it was cleared (n-1)/1024 times, and no id was attempted more than n/1024 rounded up times |
| ExperienceProgress.SkippedIff | core/app/experiences/service.py:182-192 | in every run a task that gets its lock is skipped, with nothing else changed, exactly if its agent has attempted the same trajectory since the table was last cleared, after each 1024 attempts; otherwise it reads its agent's playbook and is recorded |
| ExperienceProgress.LockFreeIff | core/app/experiences/service.py:130-136 | a waiting task can take its lock exactly when no task of its own agent is between taking and leaving it |
| ExperienceProgress.NeverStuck | core/app/experiences/service.py:180-203 | no deadlock: in every reachable state an unfinished task can go on, or waits for one that can |
| ExperienceProgress.RunsEnd | core/app/experiences/service.py:156-209 | no livelock: a run has at most seven further steps for each call |
| TurnLedger.TurnTotals.Accumulate | core/app/experiences/service.py:243-250 | returns the remembered total plus the new operations, moves the key to the end and drops the oldest keys |
| TurnLedger.LedgerKeys | core/app/experiences/service.py:246-249 | the table holds the 512 keys touched last, in order of their last touch |
| TurnLedger.KeptIff | core/app/experiences/service.py:246-249 | a key is in the table exactly while fewer than 512 other keys were touched since |
| TurnLedger.LedgerRefinesUnbounded | core/app/experiences/service.py:243-250 | the returned total is the sum since the key last fell out, and the exact running sum whenever fewer than 512 distinct other keys come between any two touches |
| PlanLockName.LockNameInjective | core/app/storage/plan_fs.py:48-53 | lock names of different agents, users, conversations or turns differ, also with colons in user ids |
| PlanFiles.TempNamesApart | core/app/storage/plan_fs.py:110-110 | temporary names differ from `plan.json` and the cancel marker, and from each other when their random parts do |
| PlanFiles.StepKeeps | core/app/storage/plan_fs.py:93-123 | every system call of every writer and reader, failing or crashing, keeps the invariant over names, files and descriptors, unless it lets a cleanup that is due name the file of a writer at work |
| PlanFiles.OrderlyWhen | core/app/storage/plan_fs.py:110-122 | a run is orderly if nothing is raised between a replace and the return, or if no random part of a temporary name comes twice |
| PlanFiles.Reachable | core/app/storage/plan_fs.py:93-123 | in an orderly run, in which no other call is ever given the name of a call interrupted between its replace and its return, the invariant always holds |
| PlanFiles.AtomicPublishing | core/app/storage/plan_fs.py:93-123 | in every orderly run, without any lock, `plan.json` is absent or the whole content of one call, finished readers got the whole content of one call, and temporary files do not collide |
| PlanFiles.NoLitter | core/app/storage/plan_fs.py:116-122 | in every orderly run a call that returned, or that failed and could unlink, has left no temporary file |
| PlanFiles.PublishedStays | core/app/storage/plan_fs.py:115-115 | in every orderly run the replace publishes the caller's own content, and nothing unpublishes or alters it |
| PlanReads.ReadsLastPublished | core/app/storage/plan_fs.py:81-123 | in every orderly run `plan.json` holds what the last call that replaced it was given, and a reader gets what was published when it opened the file, whatever is published meanwhile |
| PlanReads.ReadFinishes | core/app/storage/plan_fs.py:81-91 | a reader that has opened the file can read it to its end and then has all of it |
| PlanReads.WriteFinishes | core/app/storage/plan_fs.py:110-123 | a call that has its temporary file can write it, publish it and return, whatever others have left behind |
| PlanFiles.ImpoliteStepTears | core/app/storage/plan_fs.py:110-122 | the condition on a step is needed: after any step that breaks it some further calls make `plan.json` hold what nobody wrote |
| PlanFiles.ReusedNamePublishesFragment | core/app/storage/plan_fs.py:110-122 | a run from the start in which a reused temporary name makes a call publish another call's unfinished file |
| TokenRevocation.DenyStore.Set | backend/internal/infra/cache/memory/memory.go:60-75 | an entry with a positive life time expires that long after now, any other never |
| TokenRevocation.DenyStore.Check | backend/internal/infra/cache/memory/memory.go:95-110 | with nothing in between, a look-up finds exactly the entries that have not expired, and drops the one it finds expired |
| TokenRevocation.DenyStore.EvictExpired | backend/internal/infra/cache/memory/memory.go:138-147 | the sweep removes exactly the expired entries |
| TokenRevocation.Auth.DestroyToken | backend/pkg/jwtx/jwt.go:182-192 | succeeds exactly for tokens in force when the store works, and then the entry lives until the token's `exp`, or the expiry in its subject without one; otherwise the store stays as it was |
| TokenRevocation.Auth.ParseSubject | backend/pkg/jwtx/jwt.go:194-218 | returns the user and the expiry that the claims name exactly for tokens in force that the store does not list, a failing store being ignored; otherwise the token is invalid |
| TokenRevocation.RevocationIsPermanent | backend/pkg/jwtx/jwt.go:182-218 | after a successful revocation of a token with `exp`, whatever else happens, calls overlapping as they like, no look-up judged up to its expiry yields a user, whenever the token was parsed, if the look-ups under way at the revocation have read only entries that last until then |
| TokenRevocation.RevokedInEveryRun | backend/pkg/jwtx/jwt.go:182-218 | and without that condition over every run of the service from its start |
| TokenRevocation.NeverAcceptedAtOnce | backend/pkg/jwtx/jwt.go:194-218 | and none at all when parsing and look-up happen at one instant, under the same condition |
| TokenRevocation.AcceptedAgainIff | backend/pkg/jwtx/jwt.go:182-218 | after a revocation and any events that do not revoke the token again, exactly the calls that parse it in time and judge it after the entry's end get a user, provided no look-up under way at the revocation has read an entry with an earlier end |
| TokenRevocation.StaleDeletionAccepts | backend/internal/infra/cache/memory/memory.go:95-110 | that proviso is needed: otherwise the pending deletion removes the new entry and the token is accepted before the entry's end |
| TokenRevocation.SlowLookupAccepts | backend/pkg/jwtx/jwt.go:194-218 | such a call: parsed just before the expiry, looked up just after the entry has gone, a revoked token gives its user back |
| TokenRevocation.UnboundedTokenRevokedIff | backend/pkg/jwtx/jwt.go:160-192 | after the same events and under the same proviso, a token without `exp` is revoked for good exactly when the expiry inside its subject is not ahead |
| TokenRevocation.IssuedTokenLife | backend/pkg/jwtx/jwt.go:106-121 | a token issued to a user is in force from the whole second of its issue until that of its end, and names that user and that end at every instant between |
| TokenRevocation.RefusedOutside | backend/pkg/jwtx/jwt.go:145-154 | a token is refused before its `nbf` or `iat` and from its `exp` on |
| TokenRevocation.EntryEnd | backend/pkg/jwtx/jwt.go:182-192 | an entry ends as long after it was stored as the token had before it, at most 2^63 - 1 nanoseconds, and never for a token already past its expiry |
| ImageCompaction.FindImages | core/app/llmhubs/chat_client.py:59-63 | the first pass collects the places of all images in reading order |
| ImageCompaction.CompactImages | core/app/llmhubs/chat_client.py:51-87 | in place, the parts of the request become the compaction of the whole sequence of parts, list by list of the same length |
| ImageCompaction.CompactKeepsLastImages | core/app/llmhubs/chat_client.py:51-87 | exactly the last min(total, max) images remain, in order, everything else stays where it is, and compacting twice is compacting once |
| ImageCompaction.ReplacedIsOmit | core/app/llmhubs/chat_client.py:75-85 | replacing by position is replacing the first images of the whole sequence |
| ChatRequest.ScanComputerCallIds | core/app/llmhubs/chat_client.py:159-166 | finds the ids of the computer calls in all messages |
| ChatRequest.BuildContents | core/app/llmhubs/chat_client.py:272-295 | the parts of a message in order, its text in front if no part is text |
| ChatRequest.BuildRequest | core/app/llmhubs/chat_client.py:333-372 | instructions, roles and parts of the request, place by place |
| ChatRequest.ComputerCallsArePaired | core/app/llmhubs/chat_client.py:159-235 | no plain result carries a computer call's id, every computer output answers a computer call of the messages, and computer results are missing only where compaction put its placeholder |
| ChatParts.RequestHasCalls | core/app/llmhubs/chat_client.py:185-209 | the calls of every request are those of the messages that are not system messages, in order: a computer call with id and arguments exactly if its name is "computer", otherwise a function call with id, name and arguments |
| ChatParts.OutputsAnswerCalls | core/app/llmhubs/chat_client.py:159-235 | every computer output of a request answers a call named "computer" in the messages, and the computer call with its id is in the request too unless each such call is in a system message |
| ChatParts.RequestHasResults | core/app/llmhubs/chat_client.py:212-235 | the results are those of the messages, in order: a computer output, a string as the address of a screenshot, exactly if the id is that of a computer call, otherwise the plain result |
| ChatParts.RequestHasLastImages | core/app/llmhubs/chat_client.py:40-87 | the images of a request are the last ones the messages show: image media, and results of computer calls that are strings, screenshots or have an address |
| ChatParts.MessageText | core/app/llmhubs/chat_client.py:272-295 | the texts of a message are those of its items that are not empty, and its own only if no item has one |
| ChatParts.InstructionsAre | core/app/llmhubs/chat_client.py:346-353 | the instructions are the texts of the system messages, in order |
| ChatParts.InputsComeFrom | core/app/llmhubs/chat_client.py:346-355 | there is one input for each message that is not a system message and has parts, in order, with its role and parts |
| TraceText.LinesOfJoin | core/app/experiences/runner.py:380-380 | joining parts with line feeds and splitting into lines keeps the lines of each part together |
| TraceRendering.BuildFeedback | core/app/experiences/runner.py:314-380 | the rendered trace has a section for each step in order of step numbers |
| TraceSections.RenderShows | core/app/experiences/runner.py:339-380 | which of the trace's parts shows what: title, end, and for each step header, agents' headings, its seven texts each behind its own title, and its screenshot, "None" standing for nothing |
| TraceSections.SortedStable | core/app/experiences/runner.py:348-348 | steps are ordered by number, none is lost, and those with the same number keep their order |
| TraceRendering.OrderedScreenshots | core/app/experiences/runner.py:63-87 | the screenshots of the steps they belong to, in order |
| TraceRendering.HeaderReadBack | core/app/experiences/roles.py:52-52 | a rendered step header is read back as its number |
| TraceRendering.ShotsByStep | core/app/experiences/roles.py:86-94 | with distinct step numbers the map has each usable screenshot under its own step and nothing else |
| TraceRendering.RenderedTraceAligned | core/app/experiences/roles.py:122-144 | in the rendered trace each step's label is followed by its own image if it has one, and there is no image anywhere else |
| TraceRendering.EachStepItsOwnImage | core/app/experiences/roles.py:81-144 | the images built from a rendered trace are those of the steps with a screenshot of their own, once each, in order |
| TraceGrammar.HeaderIff | core/app/experiences/roles.py:52-52 | a line is a step header with a number exactly if the regular expression says so, part by part |
| TraceGrammar.ShotIff | core/app/experiences/roles.py:53-72 | a line is a screenshot line with a label exactly if the regular expression says so |
| TraceGrammar.NumberReads | core/app/experiences/roles.py:125-125 | digits are read as a decimal number, zeros in front or not |
| TraceGrammar.LineBecomes | core/app/experiences/roles.py:122-144 | in every prompt a screenshot line becomes its label with the image of the last step header before it, or is right-trimmed if that step has none; every other line is kept |
| TraceGrammar.BlocksInTurn | core/app/experiences/roles.py:100-144 | lines that follow one another are one text block, followed by the label and its image, whatever comes after |
| TraceGrammar.ByStepIs | core/app/experiences/roles.py:86-94 | the map has for each step its last screenshot that is not blank, trimmed |
| TraceGrammar.ImageOfStep | core/app/experiences/roles.py:107-120 | a step's image is its screenshot as encoded, or its address if encoding fails |
| TraceBlocks.BlocksOfLines | core/app/experiences/roles.py:97-144 | the loop with its buffer and cache computes the blocks of the pieces line by line |
| TraceBlocks.BuildBlocks | core/app/experiences/roles.py:81-144 | without a usable screenshot the prompt is one text block, otherwise the blocks of its lines |
| TraceBlocks.TextIsConserved | core/app/experiences/roles.py:97-144 | for arbitrary prompts the text blocks joined are the lines in order, screenshot lines reduced to their label or right-trimmed, and each image stands directly behind its label |
| TraceBlocks.ImageCount | core/app/experiences/roles.py:122-144 | there are as many images as screenshot lines whose latest step header has one |
| EnvExpansion.ExpandEscaped | core/app/llmhubs/config_loader.py:30-58 | escaping every `${` and expanding gives back every string with nothing missing, whatever the environment |
| EnvExpansion.TokensCover | core/app/llmhubs/config_loader.py:43-57 | the leftmost matches and the characters between them are the whole string |
| EnvExpansion.ValuesArriveIff | core/app/llmhubs/config_loader.py:43-58 | for every string: values arrive unchanged and only the template's own escapes are resolved exactly when no other escaped `${` arises, inside a value or across its ends |
| EnvTemplates.TemplateExpands | core/app/llmhubs/config_loader.py:29-58 | every template of plain text, escapes and references with and without defaults expands piece by piece exactly when no other escaped `${` arises, and reports the references that have neither a value nor a default, in order |
| EnvTemplates.HarmlessTemplateExpands | core/app/llmhubs/config_loader.py:29-58 | so it does when no value or default that is used has a backslash |
| EnvTemplates.EscapelessTemplateExpands | core/app/llmhubs/config_loader.py:29-58 | without escapes in the template, exactly if `\${` does not occur in the result |
| EnvTemplates.DefaultExpands | core/app/llmhubs/config_loader.py:43-58 | in plain text `${name:-d}` is the value if the variable is set and not empty, otherwise `d`, and nothing is missing |
| EnvTemplates.ReferenceExpands | core/app/llmhubs/config_loader.py:43-58 | in plain text `${name}` is the value if the variable is set and not empty, otherwise nothing, and then the name is reported |
| EnvExpansion.BackslashIsLost | core/app/llmhubs/config_loader.py:57-58 | a value that ends in a backslash loses it before a literal `${` |
| EnvExpansion.StopsIff | core/app/llmhubs/config_loader.py:43-57 | the scan stands at every position that is not inside a match it has passed |
| EnvExpansion.SitesIff | core/app/llmhubs/config_loader.py:43-57 | the places that add a missing name are exactly the unescaped references without a default, to an unset or empty variable, at which the scan stands |
| ConfigTrees.ExpandTree | core/app/llmhubs/config_loader.py:61-68 | shape and keys are kept, every string is expanded, and missing names are appended in document order |
| ConfigTrees.Report | core/app/llmhubs/config_loader.py:170-172 | each missing name once, in the order of first occurrence |
| ConfigTrees.ReadConfig | core/app/llmhubs/config_loader.py:162-174 | the expanded tree if nothing is missing, otherwise exactly the missing names |
| ConfigTrees.ReportNamesMissing | core/app/llmhubs/config_loader.py:162-174 | a name is reported exactly if some string of the tree has an unescaped reference to it without a default while the variable is unset or empty, and names come in the order of their first such reference |
| ImportAliases.FirstFree | backend/cmd/otelwrapgen/generator.go:241-256 | the search ends by the pigeonhole principle, at the first alias not in use |
| ImportAliases.NewAlias | backend/cmd/otelwrapgen/generator.go:236-256 | a new package gets the suggested name, or the last part of its path, if it is free, otherwise with the least number from 2 on that makes it free |
| ImportAliases.BaseIs | backend/cmd/otelwrapgen/generator.go:238-238 | the last part of a path is what stands before the slashes at its end |
| ImportAliases.Generator.InUse | backend/cmd/otelwrapgen/generator.go:244-250 | the inner loop finds out whether some import has the alias |
| ImportAliases.Generator.EnsureImport | backend/cmd/otelwrapgen/generator.go:231-260 | returns the alias of the package, adding the first free one within as many tries as there are imports, plus one, and keeps aliases injective |
| ImportAliases.AliasesInjectiveAndStable | backend/cmd/otelwrapgen/generator.go:231-260 | after any sequence of calls aliases are injective, every requested package has one, and none ever changes |

## Left out

- Schema keywords with subschemas that the rewriter does not visit (`patternProperties`, `prefixItems`, `not`, `if` and the like) have a meaning of their own in the refinement theorem that does not follow `$ref`s inside them.
- FinishedDefinitions.InPlaceEqualsPureWhenAcyclic: siblings of an inlined `$ref` or a collapsed `allOf` are keywords the rewriter does not know, or definitions; inlined `$ref`s name a definition that does not itself end in a `$ref`. `SchemaLimits` shows what happens otherwise.
- SchemaRefinement.NormalizeRefines: besides, those siblings are annotations, `required` lies within `properties`, the alternatives of a `oneOf` exclude each other, and `$ref`s are `#` or name definitions.
- SchemaReturns.ReturnsIffAcyclic: settles cycles only where siblings hide nothing of a target and inlined definitions hold their `$ref`s below the top; elsewhere a cycle may be hidden or lost, as `SchemaLimits.SelfWrappedReturns` shows. That a cyclic schema ends in `RecursionLimit` and no other error is shown for the family of `SchemaLimits.CycleNeverReturns`.
- The values of dictionaries other than JSON values, and `build_response_format_option` with the Pydantic side of it.
- The playbook's own data, consolidation, pruning policy and embeddings; its store is taken to write a file as a whole, though `write_text` does not.
- Cancellation while the save runs in its thread, the `EXPERIENCES_ENABLED` gate, and fairness of `asyncio.Lock`: any waiting task may get the lock next.
- Hash collisions between trajectories: the digest stands for the content.
- A cache on Redis, whose life times are rounded to milliseconds, and signatures: the claims behind a token are a given.
- TokenRevocation.RevocationIsPermanent: tokens that expire more than 292 years ahead are excluded, because `time.Until` saturates.
- ImageCompaction.CompactImages: the inputs are distinct objects, as the request builder makes them.
- Which of two forms an image is sent in, by address or as data, and the blank line that joins instructions.
- Names of tool results, arguments of computer calls parsed as actions, provider metadata, request options and tools of a chat request.
- TraceBlocks.BlocksOfLines: digits of step headers are ASCII digits, and encoding a screenshot either works or fails for good.
- The raw-log form of a trajectory without steps, and how the texts of a step are put together from its actions and results.
- PlanFiles.NoLitter: an exception between `mkstemp` and the `try` leaves the temporary file although the process lives on; the model has it as a crash of the call.
- The Redis lock itself, the cancel marker's use, and whether different turns have different directories.
- YAML parsing, model defaults and the other checks of the configuration loader.
- The text that `emitImports` writes, and the generated wrappers.
