# Navigator Orchestrator: verified model

This project models the decision-making core of the orchestrator and proves
what that core promises over every input, every run and every interleaving.
`dafny verify dfyconfig.toml` checks all of it.

## What is modelled

| area | modules | what it is |
|---|---|---|
| Schema bundling | `Strings`, `Pointers`, `JsonValues`, `Percent`, `Fragments`, `Bundler`, `BundleMeaning`, `BundleUnfold` | the rewriting of OpenAPI component references into `$defs`, as the recursive method over two shared collections that it is |
| Schema diff, JSON check | `SchemaDiff`, `SchemaPatch`, `JsonFinder` | the change list between two locked schemas; the search for what JSON cannot hold |
| Service calls | `Retry`, `Percent`, `Interpolation`, `InterpolationSafety`, `DotSegments` | placeholders in paths, queries and bodies; the retry loop |
| Run store | `RunStore`, `Leases`, `Queue`, `Decisions`, `RunLog` | leases, queue and decision chains as one class whose methods are atomic steps, then histories of such steps in any order, under any clock |
| Streaming | `Stream` | one leg of a streamed run, with failure possible at each await, and other actors at work on the store |
| Two engines | `Templates`, `Execution`, `Judging`, `Sequential`, `GraphBuild`, `GraphRun`, `Pausing`, `Contexts`, `Refinement`, `Controls`, `EventGrammar`, `LoggedWork` | the sequential runner and the graph runner over one template, with gates, judges, pauses and resumption |

Code that changes state step by step is a method or a class, proved against a
function or a step predicate; the theorems are then lemmas about those. Hooks,
models, validators and the shell are arbitrary functions; the network is an
arbitrary sequence of outcomes; a clock reading is an arbitrary integer
parameter.

LangGraph appears as the chain of nodes it is given, a state merged by the two
reducers, a checkpoint after each node, and `interrupt`, which stops a node the
first time and returns the verdict when the node is entered again.

## What the proofs show about the code

Main results, in the order of the table:

* **Bundling preserves meaning.** To every depth, the bundled schema unfolds to
  the tree the original unfolds to: with its pointers taken as they are written
  always (`MeaningPreservedAsWritten`), as the standard reads them for names that
  a URI fragment may hold as they are (`MeaningPreserved`), which is exactly when
  it can be relied on (`NamesKeptIff`). It is closed (`BundleClosed`), exact
  (`CompleteBundle`), and it ends on every cyclic document.
* **A diff is a patch**: replayed, it gives exactly the new document if and only
  if the comparison is not blind to a difference (`DiffIsExactIff`); it is empty
  exactly when Python calls the documents equal.
* **The JSON check is exact**: it reports each fault, where it is, and only those.
* **A pool cannot add or remove a slash in a request path**, and is seen only
  through declared names. The resolved path keeps its shape exactly when no value
  reads `.` or `..`.
* **Leases exclude**, over every interleaving and every clock; the queue heals.
  Over every history, a later claim serves a younger run, unless that run was put
  in the queue meanwhile (`ServedInOrder`); a batch is drained in order while its
  workers mark, renew, pause and finish what they claimed (`DrainsOldestFirst`).
* **No re-entry without its own recorded decision**, crashes included.
* **One ending per stream, one cost entry per leg**, a run left to match unless
  someone else moved it afterwards, and a log that tells what was emitted.
* **Pausing is invisible** in the result, and runs nothing twice
  (`PausingInvisible`); with hooks that may read `ctx`, exactly when they read
  neither its params nor its notes (`PausingInvisibleIff`).
* **The engines agree** exactly when their recorders do.
* **Nothing runs behind a control that did not pass**, resumed legs included. A
  gate passes once it is answered, whatever the answer (`AnyVerdictGoesOn`).
* **Event logs follow one grammar**, and name exactly the steps that ran.

Places where the code does less than its documentation or a reader may expect;
each is modelled as the code behaves:

* A slash in the name part of a component reference is one name to the code and
  two tokens to RFC 6901; a percent triplet is itself to the code and one octet to
  the standard, in the original and in the result; a stray tilde, a stray percent
  sign or a space is itself to the code and an error to the standard
  (`SlashChangesMeaning`, `PercentChangesMeaning`, `TildeChangesMeaning`,
  `SpaceIsLost`, `ReadingsAgreeIff`, `NamesKeptIff`). "The standard" is RFC 6901
  on fragments by the grammar of RFC 3986, read strictly; an evaluator may be more
  lenient. OpenAPI allows none of these in component names.
* Every `$ref` key counts as a reference, also where it is data: a `const` that
  holds one is rewritten, and a property called `$ref` is refused
  (`ConstIsRewritten`, `PropertyCalledRefIsRefused`, `KeptAsIsIff`). Unfolding
  follows such a key too, so the theorems on meaning do not show this.
* A falsy `$defs` that is not an object passes the guard and then cannot be
  spread. It fails with an uncaught error rather than `SchemaContractError`, as do
  `components: null` and a `content` that is no mapping
  (`ResolveOpenapiRequestSchema`, `DefsUncaughtIff`, `FalsyDefsFail`).
* The schema diff compares with Python's `==`, so `true` against `1` is no
  drift (`DriftBlindSpot`, `MissedDriftIsBlind`).
* The module documentation of `sdk/service.py` says a fragment is refused;
  `"$a/$b"` in a query or body is accepted and sent as it stands
  (`SlashStaysLiteral`). It also says that encoding whole values keeps path
  traversal out; a value `..` needs no encoding and traverses (`DotsTraverse`,
  `ResolvedShapeIff`). The interpolated call does not carry `public` over
  (`PublicIsDropped`).
* The sequential recorder reserves `step_name` and `status`, the graph's
  reserves `self`, `step` and `status`; a product key with such a name is where
  the engines part (`EnginesAgreeIff`, `StepKeySplitsEngines`).
* `bind_kwargs` calls the step's `kwargs` the superset a hook may draw on, but
  looks at them only for a hook with `**kw`; any other hook is handed whatever it
  declares and the pool holds (`ConfinedIff`, `BoundBeyondKwargs`).
* The placement check does not look for one judge attached at two steps
  (`NamesDistinctIff`). No judge it lets through is left out (`NoJudgeLeftOut`).
* A verdict is the product of its gate and nothing more: after `reject` the run
  goes on like after `approve`, and it is for the steps behind to look
  (`AnyVerdictGoesOn`).
* A resumed leg has a fresh `ctx`: its notes are empty and, as the command line
  resumes, so are its params. A hook that reads either, as the default `answer` of
  the document template does in an error text, may do other than in one pass
  (`PausingInvisibleIff`, `ParamsReaderShows`).
* A run stays `awaiting_decision` while its resumed stream is under way, so one
  pause can take two decisions (`TwoDecisionsOnePause`, `OnePauseIff`).
* `renew_lease` does not look at the expiry: a holder may renew a lapsed lease
  until someone reclaims it (`LapsedLeaseRenewed`). A run created through the
  store starts `running` without a lease, and is never reclaimed while it does
  (`CreatedNeverReclaimed`).
* A leg refused for its judge placements leaves its log open (`RefusedLegLogs`).
* A span is lost exactly when a node run starts again under an id still open
  (`SpansAllEnded`).

## Model

| member | source | states |
|---|---|---|
| `Pointers.UnescapeEscape` | src/navigator_orchestrator/sdk/schema_sources.py:256-261 | unescaping gives back what was escaped, for every string |
| `Pointers.EscapeInjective` | src/navigator_orchestrator/sdk/schema_sources.py:256-257 | two names never escape to the same token |
| `Pointers.UnescapeNotInjective` | src/navigator_orchestrator/sdk/schema_sources.py:260-261 | the converse fails: two different strings unescape alike |
| `Pointers.EscapeHidesSlash` | src/navigator_orchestrator/sdk/schema.py:206-207 | an escaped part holds no slash, so it stays one token |
| `Pointers.PointerRoundTrip` | src/navigator_orchestrator/sdk/schema.py:202-207 | a built pointer, read by RFC 6901, gives back the parts it was built from |
| `Pointers.PointerOfInjective` | src/navigator_orchestrator/sdk/schema.py:202-203 | different lists of parts give different pointers |
| `Pointers.PointerOfSnoc` | src/navigator_orchestrator/sdk/cli.py:580-582 | extending a printed path by one child is extending the list of parts by that child |
| `Bundler.SafeNameInjective` | src/navigator_orchestrator/sdk/schema_sources.py:133 | two components never share a bundled name |
| `Bundler.ReachLeast` | src/navigator_orchestrator/sdk/schema_sources.py:121-137 | reachability is the least set holding the references of the schema and closed under following them |
| `Bundler.Rewriter.Rewrite` | src/navigator_orchestrator/sdk/schema_sources.py:115-139 | ends on every cyclic document; whatever the shared collections hold, success means no reference in the value was refused, the result is the renamed value, and all it names is finished or in progress; failure means a reference the schema reaches is refused with that error |
| `Bundler.Rewriter.RewriteRef` | src/navigator_orchestrator/sdk/schema_sources.py:125-138 | a reference gets its new name, and its component is taken up unless finished or in progress; entries already finished stay as they are |
| `BundleMeaning.CompleteBundle` | src/navigator_orchestrator/sdk/schema_sources.py:109-141 | once nothing is in progress, the finished entries are exactly the reachable components, each in its rewritten form, and nothing reachable was refused |
| `BundleMeaning.BundleEntries` | src/navigator_orchestrator/sdk/schema_sources.py:133-137 | a bundled key is there if and only if its component is reachable |
| `BundleMeaning.Resolve` | src/navigator_orchestrator/sdk/schema_sources.py:109-147 | succeeds, apart from a bad `$defs`, if and only if no reference the schema reaches is external, of another local form, or dangling |
| `BundleMeaning.ResolveOpenapiRequestSchema` | src/navigator_orchestrator/sdk/schema_sources.py:90-147 | the whole function: the missing operation, the schema that is no object, the components that are no object, the refused reference with its kind, or the bundled schema; it fails uncaught if and only if a `content` or `components` is no mapping, or a falsy `$defs` is none and there is a reference to bundle |
| `BundleMeaning.DefsUncaughtIff` | src/navigator_orchestrator/sdk/schema_sources.py:141-147 | with every reference accepted, the last step fails uncaught exactly for a falsy `$defs` that is no object beside at least one reference |
| `BundleUnfold.FalsyDefsFail` | src/navigator_orchestrator/sdk/schema_sources.py:142-146 | one reference beside `"$defs": []`: accepted, and then an uncaught failure |
| `BundleMeaning.RewrittenRefs` | src/navigator_orchestrator/sdk/schema_sources.py:121-134 | every reference in a rewritten value is the renaming of one that was there |
| `BundleMeaning.NewRefPointer` | src/navigator_orchestrator/sdk/schema_sources.py:133-134 | a new reference, as it is written, is the pointer to `$defs` and then the bundled name, whatever characters the component name holds |
| `Pointers.EscapeWell` | src/navigator_orchestrator/sdk/schema_sources.py:256-257 | in what escaping gives, a tilde stands only before `0` or `1`, as the grammar of RFC 6901 section 3 demands |
| `Fragments.DecodingShowsIff` | src/navigator_orchestrator/sdk/schema_sources.py:256-261 | a name is read alike with and without percent-decoding if and only if it holds no percent triplet; unescaping cannot make up for one |
| `Fragments.EscapedOneName` | src/navigator_orchestrator/sdk/schema_sources.py:256-257 | the escape of a name is one token of a fragment, and read back as that name, if and only if every character of the name is one that the fragment grammar of RFC 3986 section 3.5 allows as itself |
| `Fragments.OneNameIff` | src/navigator_orchestrator/sdk/schema_sources.py:127-134 | what follows a fixed path in a reference is read by the standard as the one name it unescapes to if and only if it holds no slash, tildes only before `0` and `1`, and otherwise only characters a fragment may hold as themselves |
| `BundleMeaning.NewRefReads` | src/navigator_orchestrator/sdk/schema_sources.py:133-134 | a new reference, read strictly as a URI fragment and percent-decoded, is `$defs` and then the bundled name if and only if a fragment may hold every character of the component name as itself |
| `BundleUnfold.DefsHold` | src/navigator_orchestrator/sdk/schema_sources.py:134-147 | in the result, the new reference of each reachable component leads to its rewritten form: as written always, and as the standard reads it when a fragment may hold its name |
| `BundleUnfold.NamesKeptIff` | src/navigator_orchestrator/sdk/schema_sources.py:133-147 | the new reference of a component leads to it in every bundled document, as the standard reads it, if and only if a fragment may hold every character of its name as itself |
| `BundleUnfold.LostNameChangesMeaning` | src/navigator_orchestrator/sdk/schema_sources.py:133-137 | for every other name there is a schema whose references are all accepted, whose bundled form is given, and whose bundled form unfolds to something else |
| `BundleUnfold.SpaceIsLost` | src/navigator_orchestrator/sdk/schema_sources.py:133-134 | the reference written for a component `a b` is none to the standard |
| `BundleUnfold.BundleClosed` | src/navigator_orchestrator/sdk/schema_sources.py:115-147 | every reference left anywhere in the result, its `$defs` included, is the new reference of a component the schema reaches and leads to its entry: as written, and as the standard reads it when a fragment may hold its name |
| `BundleUnfold.MeaningPreservedAsWritten` | src/navigator_orchestrator/sdk/schema_sources.py:115-147 | for every depth, following the pointers of the bundled schema as they are written gives the tree that the original unfolds to, recursive components included; the `$defs` key of the schema itself is set aside |
| `BundleUnfold.MeaningPreserved` | src/navigator_orchestrator/sdk/schema_sources.py:115-147 | the same with the bundled schema read strictly by the standard, percent-decoding included, when a fragment may hold every reachable name |
| `BundleUnfold.MeaningPreservedAsRead` | src/navigator_orchestrator/sdk/schema_sources.py:115-147 | the same with both documents read by the standard, when every reference names its component in one token |
| `BundleUnfold.ComponentPointerTokens` | src/navigator_orchestrator/sdk/schema_sources.py:127-130 | the standard reads a component reference as the name the code looks up if and only if the name part holds no slash, tildes only before `0` and `1`, and otherwise only what a fragment may hold |
| `BundleUnfold.ReadingsAgreeIff` | src/navigator_orchestrator/sdk/schema_sources.py:125-132 | for an accepted reference, the code and the standard find the same target in every document if and only if its name part is such a token |
| `BundleUnfold.SlashChangesMeaning` | src/navigator_orchestrator/sdk/schema_sources.py:127-132 | a document in which the two readings of `#/components/schemas/a/b` find two different schemas |
| `BundleUnfold.PercentChangesMeaning` | src/navigator_orchestrator/sdk/schema_sources.py:127-137 | a component called `%62`: the code finds it, the standard finds it neither in the original nor in what it bundles to |
| `BundleUnfold.TildeChangesMeaning` | src/navigator_orchestrator/sdk/schema_sources.py:127-134 | a reference `a~b` is an error to the standard and the component `a~b` to the code, which writes a valid reference for it |
| `BundleUnfold.KeptAsIsIff` | src/navigator_orchestrator/sdk/schema_sources.py:115-139 | a value comes through rewriting unchanged if and only if none of its `$ref` keys, wherever they stand, names a component |
| `BundleUnfold.ConstIsRewritten` | src/navigator_orchestrator/sdk/schema_sources.py:121-134 | an accepted `const` that is an object with a `$ref` is another value afterwards |
| `BundleUnfold.PropertyCalledRefIsRefused` | src/navigator_orchestrator/sdk/schema_sources.py:121-126 | a property that is called `$ref` is refused as an external reference |
| `SchemaDiff.Diff` | src/navigator_orchestrator/sdk/cli.py:558-577 | prints exactly the edits between the two documents, each at its escaped path below the given one |
| `SchemaPatch.ReplayExactIff` | src/navigator_orchestrator/sdk/cli.py:558-577 | replaying the edits on the old document gives exactly the new one if and only if no two values below shared keys are equal to Python and not the same |
| `SchemaPatch.ReplayFaithful` | src/navigator_orchestrator/sdk/cli.py:558-577 | in every case it gives a document that Python calls equal to the new one |
| `SchemaPatch.DiffIsExactIff` | src/navigator_orchestrator/sdk/cli.py:558-577 | the printed list is a patch: each path read by RFC 6901 and replayed on the old document, it gives exactly the new one if and only if there is no such blind spot |
| `SchemaPatch.DiffIsPatch` | src/navigator_orchestrator/sdk/cli.py:558-577 | and in every case the new one up to the spelling of numbers |
| `SchemaPatch.DriftIffDifferent` | src/navigator_orchestrator/sdk/cli.py:551-577 | drift is reported if and only if the documents differ by more than the spelling of a number |
| `SchemaPatch.EmptyIffEqual` | src/navigator_orchestrator/sdk/cli.py:558-577 | the list is empty if and only if Python calls the documents equal |
| `SchemaPatch.EditsAccurate` | src/navigator_orchestrator/sdk/cli.py:563-577 | each entry is true: removed paths exist only before, added ones only after, changed ones on both sides with unequal values |
| `SchemaPatch.EditsApart` | src/navigator_orchestrator/sdk/cli.py:563-568 | no path of the list equals another or is the start of another |
| `SchemaPatch.PrintedPathsApart` | src/navigator_orchestrator/sdk/cli.py:563-582 | the same of the printed paths, read as pointers |
| `SchemaPatch.MissedDriftIsBlind` | src/navigator_orchestrator/sdk/cli.py:551-577 | two documents that differ and report no drift have a blind spot |
| `SchemaPatch.DriftBlindSpot` | src/navigator_orchestrator/sdk/cli.py:570-571 | two documents that differ (`true` against `1`) and report no drift |
| `SchemaPatch.PlainIsNotBlind` | src/navigator_orchestrator/sdk/cli.py:570-571 | without booleans and floats there is no blind spot, so replay is exact |
| `SchemaPatch.PlainEqualIsSame` | src/navigator_orchestrator/sdk/cli.py:570-571 | without booleans and floats the blind spot is gone: equal to Python is the same document |
| `JsonFinder.Findings.Find` | src/navigator_orchestrator/sdk/schema.py:161-199 | appends to the caller's list exactly the offences of the value, in order, each at its pointer, and keeps what was there |
| `JsonFinder.NothingIffJson` | src/navigator_orchestrator/sdk/schema.py:161-199 | nothing is reported if and only if the value is built from JSON constructors with finite numbers and string keys |
| `JsonFinder.FinderExact` | src/navigator_orchestrator/sdk/schema.py:161-207 | a reported pointer leads to a value with that fault, and every faulty value a pointer leads to is reported there |
| `JsonFinder.FinderPathsParse` | src/navigator_orchestrator/sdk/schema.py:202-207 | every reported path is an RFC 6901 pointer |
| `Retry.Send` | src/navigator_orchestrator/sdk/service.py:486-517 | stops at the first attempt that may not be repeated and returns it; at most max(1, retries + 1) requests, one for POST; every earlier outcome was no answer, 429 or 5xx; all waits together at most 30r + 2^r - 1 seconds |
| `Retry.WaitBound` | src/navigator_orchestrator/sdk/service.py:322-335 | one wait is at least zero and at most 30 + 2^(attempt - 1) seconds, whatever the header says |
| `Percent.Utf8RoundTrip` | src/navigator_orchestrator/sdk/service.py:265 | decoding the UTF-8 bytes of a text gives the text |
| `Percent.QuoteRoundTrip` | src/navigator_orchestrator/sdk/service.py:265 | percent-decoding a quoted value gives back exactly its bytes |
| `Percent.SegmentRoundTrip` | src/navigator_orchestrator/sdk/service.py:263-265 | a quoted value holds no slash and decodes to the text it came from |
| `Interpolation.CollectPlaceholders` | src/navigator_orchestrator/sdk/service.py:155-172 | finds every name mentioned in the path, query or body, at any depth, and no other |
| `Interpolation.FirstFragment` | src/navigator_orchestrator/sdk/service.py:208-231 | returns a string of the value that mixes a name with anything else, if and only if there is one |
| `Interpolation.ValidateCall` | src/navigator_orchestrator/sdk/service.py:175-205 | accepts a call if and only if every name is declared and there is no fragment; a refusal names a witness, undeclared names first |
| `Interpolation.Substitute` | src/navigator_orchestrator/sdk/service.py:267-275 | replaces whole placeholders at any depth and keeps everything else; fails if and only if a named value is missing |
| `Interpolation.Interpolate` | src/navigator_orchestrator/sdk/service.py:234-283 | refused calls never read the pool; otherwise the new call, or the missing value |
| `InterpolationSafety.SeesOnlyDeclared` | src/navigator_orchestrator/sdk/service.py:185-205 | two pools that agree on the declared names give the same result |
| `InterpolationSafety.ReplacedIffSlashFree` | src/navigator_orchestrator/sdk/service.py:208-220 | a string of an accepted query or body that mentions a name is replaced if and only if it holds no slash |
| `InterpolationSafety.CallShapeKept` | src/navigator_orchestrator/sdk/service.py:267-283 | every place of the declared query and body is there afterwards: a string that mentions a name and holds no slash becomes the value it names, any other leaf is unchanged, containers keep their size and keys |
| `InterpolationSafety.PostedAsItIs` | src/navigator_orchestrator/sdk/service.py:267-270 | a text in a body that is no fragment and no whole placeholder is accepted once its names are declared, and the call goes out as declared, whatever the pool holds |
| `InterpolationSafety.SlashStaysLiteral` | src/navigator_orchestrator/sdk/service.py:267-270 | a call with `$a/$b` in its body is accepted and goes out as it stands, whatever the pool holds for the two names |
| `InterpolationSafety.PathShapeFixed` | src/navigator_orchestrator/sdk/service.py:257-265 | for every pool, split on slashes: as many path segments as declared, the literal ones unchanged, each substituted one decoding to exactly its value |
| `DotSegments.ResolvedShapeIff` | src/navigator_orchestrator/sdk/service.py:257-265 | for a declared path without dot segments, the path of the interpolated call, up to a query or fragment and once resolved (RFC 3986 section 5.2.4), still has the declared segments if and only if no value substituted in it reads `.` or `..` |
| `DotSegments.DotsTraverse` | src/navigator_orchestrator/sdk/service.py:263-265 | the call `GET /v1/x/$id/status` is accepted, and interpolated with a value that reads `..` its path resolves to `/v1/status` |
| `InterpolationSafety.PathDeterminesValues` | src/navigator_orchestrator/sdk/service.py:263-265 | two pools give the same path only if every substituted value reads alike |
| `InterpolationSafety.PublicIsDropped` | src/navigator_orchestrator/sdk/service.py:277-283 | the interpolated form of an accepted public call is not public |
| `InterpolationSafety.PathStaysAbsolute` | src/navigator_orchestrator/sdk/service.py:149-152 | interpolation never makes a path the constructor of `Call` would refuse |
| `RunStore.InMemoryRunStore.CreateRun` | src/navigator_orchestrator/store/memory.py:41-53 | a new running run, or a conflict that leaves the store alone |
| `RunStore.InMemoryRunStore.MarkState` | src/navigator_orchestrator/store/memory.py:78-100 | sets the state; the lease survives only into `running`, the gate payload unless replaced |
| `RunStore.InMemoryRunStore.ReclaimExpiredLeases` | src/navigator_orchestrator/store/memory.py:186-205 | moves exactly the lapsed runs back to the queue and returns how many |
| `RunStore.InMemoryRunStore.ClaimRun` | src/navigator_orchestrator/store/memory.py:102-149 | reclaims, then leases the oldest eligible run; none if and only if none is eligible |
| `RunStore.InMemoryRunStore.OldestQueued` | src/navigator_orchestrator/store/memory.py:138 | the first by creation time and then id |
| `RunStore.InMemoryRunStore.RenewLease` | src/navigator_orchestrator/store/memory.py:151-175 | extends the lease of its holder, lapsed or not; refuses anyone else |
| `RunStore.InMemoryRunStore.AppendDecision` | src/navigator_orchestrator/store/memory.py:207-234 | adds the next record while awaiting; afterwards returns the last one to its repeat and refuses the rest |
| `RunStore.InMemoryRunStore.DecisionsFor` | src/navigator_orchestrator/store/memory.py:236-238 | the decisions on a known run, all of that run, numbered from 1 without a gap and none left out; not found exactly for an unknown run |
| `RunStore.InMemoryRunStore.ExpireRuns` | src/navigator_orchestrator/store/memory.py:240-252 | cancels exactly the stale awaiting runs and counts them |
| `Leases.Apply` | src/navigator_orchestrator/store/memory.py:41-252 | each operation of the store, whatever it is, is one step of a history |
| `Leases.MarkHolds` | src/navigator_orchestrator/store/memory.py:78-100 | a run keeps the state it was marked with until a later step moves it |
| `Leases.HistorySound` | src/navigator_orchestrator/store/memory.py:36-252 | over every interleaving: a lease is an owner and an expiry together and only on a running run; each chain is numbered from 1 |
| `Leases.StepKeepsChains` | src/navigator_orchestrator/store/memory.py:207-234 | a chain grows by one record, by a decision, while awaiting one, and not otherwise |
| `Leases.HistoryKeepsRuns` | src/navigator_orchestrator/store/memory.py:36-252 | no run is lost and none changes its identity, workflow, creator or creation time |
| `Leases.HistoryKeepsChains` | src/navigator_orchestrator/store/memory.py:229-233 | chains are append-only over every interleaving |
| `Leases.HeldUntilEnded` | src/navigator_orchestrator/store/memory.py:78-205 | from its claim until a step ends the lease, a run stays with its holder, with the expiry last set |
| `Leases.LeaseExclusive` | src/navigator_orchestrator/store/memory.py:78-205 | between two claims of a run some step ended the first lease: it was marked as not running, or a reclaim read a clock at or past the expiry |
| `Leases.EndsRelease` | src/navigator_orchestrator/store/memory.py:86-98 | both ways a lease ends do release the run |
| `Leases.RenewalNeedsTheLease` | src/navigator_orchestrator/store/memory.py:161-166 | a renewal succeeds if and only if the worker is the recorded holder, and then the run is running |
| `Leases.LapsedLeaseRenewed` | src/navigator_orchestrator/store/memory.py:161-175 | the holder of a lease that has lapsed renews it, at any clock and from any store, if nobody has reclaimed it |
| `Leases.CreatedNeverReclaimed` | src/navigator_orchestrator/store/memory.py:41-53 | over every interleaving, a run created through the store is neither reclaimed nor claimed until a mark moves it off `running` |
| `Queue.ReclaimSettles` | src/navigator_orchestrator/store/memory.py:186-205 | the run set is conserved, only lapsed runs move, and a second reclaim at the same instant moves none |
| `Queue.EmptyClaimMeansNothingToDo` | src/navigator_orchestrator/store/memory.py:128-135 | a claim that returns nothing leaves no matching run queued and none behind a lapsed lease |
| `Queue.ClaimShrinks` | src/navigator_orchestrator/store/memory.py:129-148 | without a lapse among the runs it looks for, a claim takes the oldest eligible run and leaves the others eligible; it returns none only if there is none |
| `Queue.ServingOrder` | src/navigator_orchestrator/store/memory.py:136-138 | the eligible runs, each once, sorted by creation time and id |
| `Queue.DrainsOldestFirst` | src/navigator_orchestrator/store/memory.py:102-149 | the claims for some workflows serve a batch in that order, each run exactly once, and then return nothing, while between them any run is marked, renewed, created, decided on, expired or claimed for other workflows, as long as none is moved into or out of this queue |
| `Queue.ServedInOrder` | src/navigator_orchestrator/store/memory.py:129-148 | over every history: of two claims for the same workflows the later one serves a run that is another and not older, unless that run was marked queued, or its lease lapsed, in between |
| `Decisions.Decide` | src/navigator_orchestrator/api/routes.py:279-332 | checks run and workflow, appends the decision, and resumes only on a new record |
| `Decisions.DecideAnswers` | src/navigator_orchestrator/api/routes.py:293-332 | a decision is recorded if and only if the run awaits one; on a run that moved on, a repeat of the last one changes nothing and any other is refused |
| `Decisions.MoveExplained` | src/navigator_orchestrator/api/routes.py:293-332 | every move, a crash included, keeps each re-entry tied to a recorded decision of its own |
| `Decisions.ReentriesAreDecided` | src/navigator_orchestrator/api/routes.py:293-332 | at any point of any execution, re-entries map one to one to recorded decisions and carry their verdict, comment and subject |
| `Decisions.TwoDecisionsOnePause` | src/navigator_orchestrator/engine/runner.py:146-147 | an execution in which one pause takes two contradicting decisions: both recorded, both re-entering the graph, the run paused throughout |
| `Decisions.OnePauseIff` | src/navigator_orchestrator/store/memory.py:207-252 | two decisions recorded on a run fall into one pause if and only if no step between them marked the run as anything else or expired it |
| `RunLog.InMemoryRunLogStore.Append` | src/navigator_orchestrator/store/run_log.py:49-70 | appends one entry with the next number of its run and touches no other run |
| `RunLog.InMemoryRunLogStore.Read` | src/navigator_orchestrator/store/run_log.py:72-74 | the entries of that run and no others, numbered from 1 without a gap |
| `RunLog.LogIsOwnWrites` | src/navigator_orchestrator/store/run_log.py:49-74 | however the writes of many runs interleave, the log of a run is what was written for it, in order and numbered from 1 |
| `Stream.Leg.Stream` | src/navigator_orchestrator/engine/runner.py:122-229 | a stream that runs to its end, while others do anything to the store whenever it waits, emits one terminal event, last, which is the one its graph earned; the last thing it did to the store was to mark its run to match, and an existing run is in that state unless a later step of someone else moved it; it wrote to no other run; in every case one cost entry with the usage of all model calls consumed, no span open, none ended twice; and the log has gained the entries of the emitted events, in order, with at most one more before an error, and no other run any |
| `Stream.MarkedIsLeft` | src/navigator_orchestrator/engine/runner.py:304-310 | what the last mark of a leg leaves: the run in that state, or moved by a later step that is not the leg's; with nobody else about, in that state |
| `Stream.Leg.Consume` | src/navigator_orchestrator/engine/runner.py:356-398 | spans, terminal state and usage follow the events consumed |
| `Stream.Leg.Relay` | src/navigator_orchestrator/engine/runner.py:168-180 | what was emitted is what the consumed events map to, and the log is that of the emitted events, at most one entry ahead: an event is logged before it is emitted |
| `Stream.Leg.Mark` | src/navigator_orchestrator/engine/runner.py:304-310 | its one step on the store marks an existing run, payload included, and changes nothing else; an unknown run is passed over; a failed write may have been applied |
| `Stream.Leg.Conclude` | src/navigator_orchestrator/engine/runner.py:186-203 | marks, logs, then emits: nothing is logged unless the run is marked, nothing emitted unless it is logged |
| `Stream.Leg.Finally` | src/navigator_orchestrator/engine/runner.py:223-229 | ends what is open and adds one cost entry, also on disconnect |
| `Stream.MappedNotTerminal` | src/navigator_orchestrator/engine/runner.py:356-398 | no event of the graph maps to a terminal one |
| `Stream.SpansAllEnded` | src/navigator_orchestrator/engine/runner.py:381-392 | every span started is ended exactly once if and only if no node run restarted under an id still open |
| `Stream.DistinctNeverOverwrite` | src/navigator_orchestrator/engine/runner.py:382-392 | distinct node run ids suffice for that |
| `Execution.CallStepHook` | src/navigator_orchestrator/sdk/execution.py:104-153 | the loop ends as the two attempts say and leaves their notes, skip and detail in `ctx` |
| `Execution.AttemptOnce` | src/navigator_orchestrator/sdk/execution.py:123-149 | one attempt leaves in `ctx` what the hook and the validation report leave there |
| `Execution.AgentProductIff` | src/navigator_orchestrator/sdk/execution.py:121-153 | an agent step with an output contract produces the first of two answers that meets it, and nothing that does not; a second is asked for only after a malformed first |
| `Execution.Bind` | src/navigator_orchestrator/sdk/binding.py:57-83 | refused if and only if the hook has no `**kw` and a parameter without a default is not in the pool; otherwise bound are exactly the names of the pool that the hook declares, or with `**kw` that the step lists, each to its value in the pool |
| `Execution.ConfinedIff` | src/navigator_orchestrator/sdk/binding.py:57-83 | the `kwargs` of a step confine what its hook is handed, on every pool, if and only if the hook takes `**kw` or declares listed names only |
| `Execution.BoundBeyondKwargs` | src/navigator_orchestrator/sdk/binding.py:74-77 | a hook of a step that lists nothing is handed a product |
| `Execution.Prepare` | src/navigator_orchestrator/sdk/execution.py:156-185 | which hook a step runs and with what, or why it cannot start |
| `Execution.RunStep` | src/navigator_orchestrator/sdk/graph.py:220-257 | one step as it goes adds exactly the rows of its work to the log and changes `ctx` as the step does |
| `Execution.Recorder.Spread` | src/navigator_orchestrator/sdk/graph.py:142-166 | a row is added, numbered next, unless a detail key repeats a parameter of the recorder |
| `Judging.RunJudge` | src/navigator_orchestrator/sdk/judge.py:325-380 | at most two questions; without a readable passing answer a blocking judge never lets the run on |
| `Judging.JudgePassesIff` | src/navigator_orchestrator/sdk/judge.py:325-380 | a judge lets the run on if and only if its inputs are there and it only warns, or its first readable answer of two is a pass |
| `Judging.EvidenceOnly` | src/navigator_orchestrator/sdk/judge.py:253-273 | what a judge is shown depends on its declared inputs alone |
| `Judging.JudgeSeesInputsOnly` | src/navigator_orchestrator/sdk/judge.py:253-332 | so the judge cannot tell two pools apart that agree on them |
| `Sequential.Begin` | src/navigator_orchestrator/sdk/runner.py:119-132 | the opening rows, and whether anything required is missing |
| `Sequential.RunTemplate` | src/navigator_orchestrator/sdk/runner.py:83-188 | the loop gives the pool, records, notes, rows and ending of the recursive run |
| `GraphBuild.CheckPlacements` | src/navigator_orchestrator/sdk/graph.py:315-357 | refuses if and only if two judges share a node name, a judge has no anchor in the template, or takes the name of a step |
| `GraphBuild.BuildGraph` | src/navigator_orchestrator/sdk/graph.py:274-308 | the edges are those of one path from START through every node to END, judges beside their anchors |
| `GraphBuild.PathIsChain` | src/navigator_orchestrator/sdk/graph.py:287-307 | with distinct names, each node has one successor: the path is a chain |
| `GraphBuild.BeforeAnchor` | src/navigator_orchestrator/sdk/graph.py:293-300 | a `before` judge stands in front of its step, with only judges of that step between |
| `GraphBuild.AfterAnchor` | src/navigator_orchestrator/sdk/graph.py:298-305 | an `after` judge stands behind its step, with only judges of that step between |
| `GraphBuild.OnChainIff` | src/navigator_orchestrator/sdk/graph.py:274-312 | a judge stands on the chain if and only if it is configured and attached to a step the template has |
| `GraphBuild.NoJudgeLeftOut` | src/navigator_orchestrator/sdk/graph.py:315-341 | no judge that passes the placement check is left off the chain |
| `GraphBuild.NamesDistinctIff` | src/navigator_orchestrator/sdk/graph.py:324-357 | node names are distinct if and only if no judge is attached at two places, which the placement check does not ask |
| `GraphRun.JudgeKeysFree` | src/navigator_orchestrator/sdk/graph.py:375-389 | the row of a judge never repeats a parameter of the recorder |
| `GraphRun.RunJudgeNode` | src/navigator_orchestrator/sdk/graph.py:369-401 | a judge node logs and ends as its verdict says |
| `GraphRun.RunNode` | src/navigator_orchestrator/sdk/graph.py:175-269 | one node as it goes, gates included: not required, answered, or interrupted without a row |
| `GraphRun.Advance` | src/navigator_orchestrator/sdk/graph.py:119-139 | the update of a node is merged and checkpointed before the next one |
| `GraphRun.Invoke` | src/navigator_orchestrator/sdk/graph.py:441-514 | a leg from the checkpoint is the pass from there, and a pause leaves its node and state in the checkpoint |
| `GraphRun.RunTemplateGraph` | src/navigator_orchestrator/sdk/graph.py:406-444 | the first leg, refused if and only if placements are wrong and nothing required is missing |
| `GraphRun.ResumeTemplateGraph` | src/navigator_orchestrator/sdk/graph.py:447-480 | a resumed leg, from what the checkpoint holds and one verdict |
| `Pausing.OnlyAnswersAhead` | src/navigator_orchestrator/sdk/graph.py:199-218 | verdicts for nodes already passed make no difference |
| `Pausing.AnswerContinues` | src/navigator_orchestrator/sdk/graph.py:199-218 | answering the gate a pass stopped at continues that pass from there |
| `Pausing.PausingInvisible` | src/navigator_orchestrator/sdk/graph.py:175-269 | any number of pauses and resumptions ends with the stop, pool, notes and step records of one uncut pass given the same verdicts, and the same nodes are worked |
| `Pausing.NoStepRunsTwice` | src/navigator_orchestrator/sdk/graph.py:199-218 | over all legs of a run no node but a gate is worked twice |
| `Contexts.SeenIsBlank` | src/navigator_orchestrator/sdk/graph.py:175-269 | a pass over nodes that read neither params nor notes of `ctx` is the ordinary pass, from any node on |
| `Contexts.PausingInvisibleIff` | src/navigator_orchestrator/sdk/graph.py:458-466 | with hooks that may read `ctx`: pausing is invisible in every run on every chain of distinct names on which this node alone may read it, if and only if the node comes to the same whatever params and notes it is handed |
| `Contexts.PausingShows` | src/navigator_orchestrator/sdk/graph.py:458-466 | for any other node, a chain, params and a verdict with which the paused run and the uncut one end differently |
| `Contexts.ParamsReaderShows` | src/navigator_orchestrator/sdk/cli.py:358-376 | concretely: a hook that hands on what `ctx.params` holds |
| `LoggedWork.SessionStarts` | src/navigator_orchestrator/sdk/graph.py:220-227 | after the row that opens the run, the `started` rows of all its legs are those of the nodes worked, in order; a last node whose hook cannot be found or bound has none |
| `LoggedWork.NoStepStartsTwice` | src/navigator_orchestrator/sdk/graph.py:220-227 | with distinct names, the log of all legs starts no step twice |
| `LoggedWork.LoggedMeansControlled` | src/navigator_orchestrator/sdk/graph.py:175-269 | with distinct names, the log starts no step behind a control that did not pass |
| `Refinement.EnginesAgreeIff` | src/navigator_orchestrator/sdk/runner.py:119-188 | without gates and judges the two engines give the same pool, steps, notes, rows and stop if and only if their recorders accept the same rows on the steps reached |
| `Refinement.StepKeySplitsEngines` | src/navigator_orchestrator/sdk/graph.py:154-166 | a product key `step` in the row finishes in one engine and crashes in the other |
| `Refinement.ClearNamesAgree` | src/navigator_orchestrator/sdk/runner.py:104-117 | rows without `self`, `step` and `step_name` are accepted alike |
| `Refinement.ClearEnginesAgree` | src/navigator_orchestrator/sdk/runner.py:119-188 | where no summary key and no detail key that a hook, an engine step or a validation sets has one of these names, the engines agree on every run |
| `Controls.ReachedMeansPassed` | src/navigator_orchestrator/sdk/graph.py:169-269 | whatever a pass reaches, every control before it on the chain passed |
| `Controls.ControlsHold` | src/navigator_orchestrator/sdk/graph.py:175-269 | over all legs: if a node was worked, each validation and blocking judge before it passed, and each gate before it had a verdict or a condition that resolved to a falsy value |
| `Controls.FinishedPassedAll` | src/navigator_orchestrator/sdk/graph.py:175-308 | a finished run passed every control on its chain |
| `Controls.AnyVerdictGoesOn` | src/navigator_orchestrator/sdk/graph.py:199-218 | in a run of any number of legs, the node behind a gate is worked once the gate is answered, whatever the verdict says |
| `Controls.JudgeGuardsStep` | src/navigator_orchestrator/sdk/graph.py:289-300 | a blocking judge placed before a step had read a pass, in its first readable answer of two at most, on the evidence of that moment, if the step was worked |
| `EventGrammar.SequentialLogs` | src/navigator_orchestrator/sdk/runner.py:104-187 | the rows of a sequential run form one sentence: `run` started, preflight, each step opened and ended, one closing `run` row |
| `EventGrammar.LegLogs` | src/navigator_orchestrator/sdk/graph.py:142-166 | the rows of every leg whose graph was built form one sentence, opened by started or resumed, a pause adding two rows |
| `EventGrammar.RefusedLegLogs` | src/navigator_orchestrator/sdk/graph.py:427-441 | a leg refused for its placements leaves the beginning of a sentence: opening rows and no closing one |
| `EventGrammar.StartedIsAnswered` | src/navigator_orchestrator/sdk/graph.py:227-257 | in such a log the row that opens a step is followed at once by the one row that ends it |
| `EventGrammar.ScanPrefix` | src/navigator_orchestrator/sdk/runner.py:187 | nothing follows the closing `run` row |

## Left out

- HTTP transport, server-sent events, Redis, Postgres, SQLite and file writes: foreign calls, present as arbitrary outcomes or not at all.
- LangGraph beyond the chain, the two reducers, the checkpoint and `interrupt`; in particular what it does with a node name added twice.
- Parsing and validation by `json`, YAML, pydantic and `jsonschema`, and all hashing: arbitrary functions or left out. Cache keys rest on hashes not colliding, so only the cache hit itself is modelled.
- The Python recursion limit: the model recurses as deep as the document.
- NaN in the schema diff: it is unequal to itself, and JSON has none.
- The order in which a dictionary yields its keys: loops over one take the keys in any order, so which of several errors is reported first is not fixed.
- Upper and lower case of the HTTP method: the verb is passed as the code has normalised it.
- `str()` of a pool value and the text of error messages: parameters or fixed short words.
- Placeholders in strings that are keys of a mapping: neither the code nor the model looks at them.
- Real time: clock readings are integers, waits are real numbers without rounding.
- `list_runs`, `clear` and template registration: straight-line filters and lookups.
- Decide: the read of the run for the workflow check and the append are one step here; runs are never deleted and never change workflow (`Leases.HistoryKeepsRuns`), so a step between the two cannot change the outcome of the check.
- Other writers to the log during one leg of a stream: `Stream.Leg.Stream` shares the store with others and owns the log while it runs; `RunLog.LogIsOwnWrites` covers the interleavings of the log.
- The `$id` of JSON Schema, which gives a subschema a base of its own: every pointer is read from the root of the document, in the original and in the result.
- The writes of the stream's own error handler are taken to succeed, and a stream cancelled before its first await is not a run.
- `Declined` and `Blocked` are one ending; both close the run as blocked.
- Products with keys that are not strings, in the summary of an event row.
- A leg that fails or crashes is final here; entering its last checkpoint again by hand is not modelled.
- Loading of projects, templates, judges, prompts and environment variables; the response parsing of a service step.
- The purity checker: it is syntactic and does not follow aliases, so it has no semantic theorem.
- The KYC, echo, approval and document question workflows: lookups and thresholds in a straight line.
- PausingInvisible: a hook there, and in the results on controls and logs that follow from it, is a function of its bound arguments and the attempt. `Contexts.PausingInvisibleIff` adds what a hook reads of `ctx`, for the result of a run; not for its rows and the order of its work.
- A caller of `resume_template_graph` that hands in a `ctx` with params: `Contexts` resumes as the command line does, with none.
- `ctx.files`, `ctx.ai` and `ctx.project`: the same for every leg, and part of what hooks are arbitrary in.
- A reference whose percent-decoded octets are not UTF-8 leads nowhere; what an evaluator does with one is not prescribed.
