# Johnny 5: models and proofs

Johnny 5 is a long-running agent loop. Around its I/O sit several small algorithms and state
machines, and this project models the ones whose promises span many steps: what a merge does to a
keyed graph, what a redactor leaves behind, what a chain of model providers may spend, what a store
keeps when it evicts online, when a tool may run at all. Each part has a specification on values, a
class or method in the form of the source that is proved to compute it, and theorems about the
specification over all inputs or all runs.

`dafny verify dfyconfig.toml` checks everything. Tables are maps or sequences, a Redis hash and
sorted set are two maps, floats and decimals are reals, times are integers of microseconds or reals,
`async` stages are steps in sequence, and every collaborator that may fail (a database write, a
broadcast, a provider, a tool body) is an oracle that decides at each call whether it returns or
raises.

| part | files | source |
|---|---|---|
| Semantic merge | FactGroups, EdgeQuotient, SemanticMerge, EpisodeDecay | brain/memory/decay.py |
| Redaction and the bus | CredentialRules, CredentialShapes, MarkerScan, Redaction, PayloadRedaction, SecretReturn, Workspace | foundation/redaction.py, brain/workspace.py |
| The LLM router | CircuitBreaker, Pricing, Governors, RouterSpec, RouterAnswers, RouterBudget, RouterLog, Router | brain/llm/, core/governors.py |
| Working memory | WorkingMemory | brain/memory/working.py |
| Consolidation | Consolidation | brain/memory/consolidator.py |
| Agency | Goals, Dispatch, Sleep, Agency, AgencyRuns, Cadence | brain/goals/, brain/agents/deliberation.py, brain/effectors/dispatch.py, brain/cycle.py, brain/sleep.py |
| Drives | Drives, DriveEngine | brain/drives/ |
| Wakeups | Scheduler | brain/effectors/scheduler.py, brain/agents/sensorium.py |
| Reconnecting socket | ReconnectingSocket | frontend/src/services/reconnectingSocket.ts |

## Where the code and its documentation part

The models follow the code. These statements of its comments and docstrings do not hold as written;
for each the project proves exactly when they do.

- A charged episode is said to be strengthened on every pass (brain/memory/decay.py:67-69). It keeps
  its salience at every age if and only if nothing fades at all (a half-life of zero or less) or the
  salience is at most `floor + boost * (1 - floor)` (`EpisodeDecay.ChargedNeverFadesIff`); with the
  shipped settings one of salience 1 is at 0.64375 after a half-life
  (`EpisodeDecay.ChargedEpisodeCanFade`). An uncharged one below the floor rises
  (`EpisodeDecay.UnchargedMovesTowardFloor`).
- An episode is said to retain half of its above-floor salience after a half-life
  (foundation/config.py:126-127). Every pass fades the stored salience by the full age again, so
  the shares of all passes multiply (`EpisodeDecay.PassesMultiply`, `EpisodeDecay.SweepsMultiply`).
  The result is that of the last pass alone if and only if the salience is at the floor, nothing
  fades, or no earlier pass found the episode older than its timestamp (`EpisodeDecay.LastPassAloneIff`);
  after two passes at one half-life a quarter is left (`EpisodeDecay.FadedTwice`).
- No secret is said to reach the log or the bus (foundation/redaction.py:1-15). Dictionary keys are
  passed through, and so are numbers: nothing slips through if and only if no key and no written scalar
  outside a sensitive value holds a secret (`PayloadRedaction.NothingSlipsThroughIff`,
  `PayloadRedaction.KeySlipsThrough`, `PayloadRedaction.NumberSlipsThrough`). The marker that replaces a secret can complete a
  copy of it. One known secret vanishes from every string if and only if a credential shape stands in
  it or no overlap of it with the marker can be brought about (`SecretReturn.SecretVanishesIff`); bracket-free
  ones vanish if and only if none is a piece of the marker (`PayloadRedaction.SecretsVanishIff`). A
  secret free of shapes that is plain text and an opening bracket comes back
  (`SecretReturn.BracketedSecretComesBack`), as does one that starts with a closing bracket
  (`SecretReturn.ClosingBracketComesBack`).
- A half-open circuit is said to allow a single trial (brain/llm/circuit_breaker.py:1-8). Allowing a
  call changes nothing about the next question (`CircuitBreaker.AllowingDoesNotUseUpTheTrial`).
- The cap on clusters (brain/memory/consolidator.py:112-122) holds if and only if no episode meets the
  cap with every centroid at similarity -1 (`Consolidation.CapHoldsIff`).
- A restore does not trim (brain/memory/working.py:143-146): `WorkingMemory.ImportIsNotTrimmed`,
  `WorkingMemory.RestoredBeyondCapacity`.
- Every dispatched action is said to be audited (brain/effectors/dispatch.py:114-120). A body that
  raises leaves no row (`Dispatch.CommitMeaning`).
- A sleep is said never to wedge (brain/sleep.py:393-399). It stays asleep if and only if its row was
  opened and could not be closed, and then for good (`Sleep.StuckIff`, `Sleep.StuckForGood`).
- Accrual is said to be exact across restarts (brain/drives/engine.py:9-15). An extra heartbeat changes
  the pressure if and only if the clock ran backwards around it and the drive is moving
  (`Drives.ExtraHeartbeatIff`, `Drives.ClockSetBack`).
- Deliberation is said to act at most once per cadence interval, so that the goal, action and model
  loop never spins (brain/agents/deliberation.py:17-20). The clock moves only when ACT settles with
  deliberation (brain/agents/deliberation.py:343, 366; brain/cycle.py:912-940). Every later action keeps
  the cadence from an executed one if and only if that one is internal or its commit returns, body,
  audit write and broadcast (`Cadence.ClockMovesIff`, `Cadence.SpacedForGoodIff`); every later draft
  does if and only if what was drafted is carried out (`Cadence.PlannedForGoodIff`). A tool whose body
  raises runs again in the next tick (`Cadence.TwoBodies`).
- Acting is said to ease the drive (brain/cycle.py:877-886). It does if and only if the action gets
  through to its announcement and settling (`AgencyRuns.EasesIff`); an internal action that cannot be
  announced has resolved its goal and eases nothing (`Cadence.AnnouncementLost`).
- An outcome is said to be consumed by the next tick's drive step (brain/cycle.py:356-364). The queue
  is emptied before that step (brain/cycle.py:698-704), so the outcome reaches the drives if and only if
  the step returns, and is lost otherwise (`AgencyRuns.OutcomeIsAppraisedIff`, `AgencyRuns.OutcomeLost`).
- A failed wake check is said to suspend autonomous action (brain/cycle.py:450-457). The verdict of a
  night whose row cannot be closed never reaches the cycle: agency is suspended if and only if the row
  can be closed or agency was off already (`AgencyRuns.FailedCheckSuspendsIff`, `AgencyRuns.LostVerdict`).
- A failing injection is said to miss a single fired wakeup at worst (brain/effectors/scheduler.py:172-174).
  The rest of the claimed batch is lost with it; at most one is missed if and only if at most the last
  push failed (`Scheduler.AtMostOneMissedIff`, `Scheduler.BatchMissed`).
- `start` of the socket is said to be idempotent (frontend/src/services/reconnectingSocket.ts:85). A run
  keeps to one stream if and only if every start finds a socket, or no token, or nothing else under way
  (`ReconnectingSocket.OneStreamIff`, `ReconnectingSocket.TwoSockets`).
- Closing is said to be permanent (frontend/src/services/reconnectingSocket.ts:94). No socket is created
  after it, but an open event that arrives after `stop` is shown, and open stays shown: closed is shown
  exactly when the stream has ended if and only if there was none such
  (`ReconnectingSocket.ClosedIsShownIff`, `ReconnectingSocket.OpenShownAfterStop`).

## Model

| member | source | states |
|---|---|---|
| FactGroups.FirstMatch | brain/memory/decay.py:91-97 | The index found is that of the first group whose representative is near the fact, and no earlier representative is near it |
| FactGroups.DuplicateFactGroups | brain/memory/decay.py:82-102 | The double loop computes the greedy grouping `Groups`, whose meaning the lemmas below state |
| FactGroups.GroupsPartitionTheFacts | brain/memory/decay.py:82-102 | For facts in key order: the groups hold exactly the given facts, each in one place and in key order; every member is near its representative and near no earlier one |
| FactGroups.GroupedByCosine | brain/memory/decay.py:92-100 | Every later member of a group has a cosine of at least the threshold with the first member of its group, and every member one below it with the first member of every earlier group |
| FactGroups.TwoFactsGroupIff | brain/memory/decay.py:97-97 | Two facts form one group if and only if the cosine of the later with the earlier reaches the threshold |
| FactGroups.ApartMeansSingletons | brain/memory/decay.py:82-102 | Facts of which none reaches the threshold with an earlier one are each left alone |
| FactGroups.HeadsIncrease | brain/memory/decay.py:82-102 | Groups are opened in key order |
| EdgeQuotient.QuotientMeaning | brain/memory/decay.py:238-266 | An edge is in the quotient if and only if its ends are where the redirection sends those of an old edge of its relation; ends that come together leave nothing, an old loop stays where its fact stays |
| EdgeQuotient.QuotientsCompose | brain/memory/decay.py:218-236 | Re-pointing a set of edges for one group and then for another is re-pointing it for both at once, self-loops and duplicates included |
| EdgeQuotient.RepointedAvoids | brain/memory/decay.py:238-266 | After re-pointing, no edge names a duplicate, and every end is an old end or the survivor |
| EdgeQuotient.FlushGoesFromOldToNew | alembic/versions/0002_memory_spine.py:105-130 | Halfway through the row changes each row is gone, as it will be, or as it was, by which changes are done; with none done it is the old table, with all the new |
| EdgeQuotient.EveryOrderKeepsKeysUnique | alembic/versions/0002_memory_spine.py:105-130 | Whatever subset of the updates and deletes of a re-pointing has been flushed, the unique edge key holds |
| EdgeQuotient.NothingCascades | alembic/versions/0002_memory_spine.py:105-130 | Deleting a duplicate takes no edge along, because none names it any more |
| SemanticMerge.MemoryDecay.SelectFacts | brain/memory/decay.py:211-217 | The listing holds every fact once in key order |
| SemanticMerge.MemoryDecay.RepointEdges | brain/memory/decay.py:238-266 | The in-place loop leaves unique keys and exactly the quotient of the edges by the group: images of the old edges, without new self-loops, old self-loops elsewhere kept |
| SemanticMerge.MemoryDecay.MergeGroup | brain/memory/decay.py:219-236 | One group collapses onto its first member, the edges become their quotient, no row dangles, and the count is the number of facts deleted |
| SemanticMerge.MemoryDecay.MergeFacts | brain/memory/decay.py:211-236 | The whole pass: only first members survive, each with its group's union of sources and maximum confidence, and the edges are the quotient of the edges before by the map that sends every fact to its survivor; the count is what disappeared |
| SemanticMerge.Collapse | brain/memory/decay.py:223-229 | The survivor's folded row: all sources of the group, its maximum confidence |
| SemanticMerge.AllSourcesMeaning | brain/memory/decay.py:223-226 | An episode is among a group's sources if and only if some member has it |
| SemanticMerge.MaxConfidenceMeaning | brain/memory/decay.py:227-229 | The confidence folded is reached by a member and not exceeded by any |
| SemanticMerge.TableSourcesMeaning | brain/memory/decay.py:198-209 | The charged episodes are those that some fact was distilled from |
| SemanticMerge.SurvivorOf | brain/memory/decay.py:218-236 | The redirection sends every fact, merged away or not, to the first member of its own group |
| SemanticMerge.SurvivorsAreFirstMembers | brain/memory/decay.py:211-236 | A fact outlives the pass if and only if it is the first member of its group |
| SemanticMerge.ProvenanceIsPreserved | brain/memory/decay.py:198-236 | The set of charged episodes, the union of all facts' sources, is the same before and after |
| SemanticMerge.TwoFactsMergeIff | brain/memory/decay.py:211-236 | In a table of two the later fact is merged away if and only if its cosine with the earlier one reaches the threshold; the earlier one then has both sources and the greater confidence |
| SemanticMerge.SurvivorsAreApart | brain/memory/decay.py:82-102 | After a pass the cosine of any two remaining facts, the later with the earlier, is below the threshold |
| SemanticMerge.SecondPassMergesNothing | brain/memory/decay.py:82-102 | A second pass right after the first finds every fact in a group of its own and redirects nothing |
| EpisodeDecay.RetainedMeaning | brain/memory/decay.py:74-75 | The share kept: a half for each half-life of age, everything at a non-positive age or half-life |
| EpisodeDecay.AdjustedMeaning | brain/memory/decay.py:76-79 | The floor and the share kept of the distance to it, pulled toward 1 by the boost when charged, then moved into [0, 1] |
| EpisodeDecay.UnchargedMovesTowardFloor | brain/memory/decay.py:56-79 | An uncharged salience moves toward the floor from either side and never past it |
| EpisodeDecay.ChargedNeverFadesIff | brain/memory/decay.py:56-79 | A charged salience is not lowered at any age if and only if the half-life is not positive or the salience is at most the level the boost alone holds |
| EpisodeDecay.ChargedEpisodeCanFade | foundation/config.py:125-134 | With the shipped settings a charged episode of salience 1 is at 0.64375 after one half-life |
| EpisodeDecay.PassesMultiply | brain/memory/decay.py:165-195 | After passes at any ages, an uncharged episode keeps of its distance to the floor the product of all the passes' shares |
| EpisodeDecay.SweepsMultiply | brain/memory/decay.py:165-195 | The same for a row of the table, where small changes are not stored: up to one tolerance per pass |
| EpisodeDecay.LastPassAloneIff | foundation/config.py:125-128 | Earlier passes leave no trace if and only if the salience is at the floor, the half-life is not positive, or they all saw an age of zero |
| EpisodeDecay.FadedTwice | foundation/config.py:125-131 | With the shipped settings two passes at one half-life leave a salience of 1 at 0.2875, one pass leaves 0.525 |
| EpisodeDecay.RescoredMeaning | brain/memory/decay.py:175-195 | A row is charged if it is emotional or was distilled; its age runs from its own time; changes of at most a billionth are not stored; nothing else of the row changes |
| EpisodeDecay.EpisodeTable.DecayEpisodes | brain/memory/decay.py:165-195 | Exactly the oldest `limit` rows are re-scored, small changes are not stored, and the two counts are the numbers of rows that fell and rose |
| CredentialRules.MatchLengthMeaning | foundation/redaction.py:34-64 | The greedy matcher finds a match at the front if and only if some prefix is one, and what it takes is the longest such prefix |
| CredentialShapes.GroqKeyIff | foundation/redaction.py:58-58 | Exactly gsk_ and at least twenty ASCII letters or digits |
| CredentialShapes.OpenAiKeyIff | foundation/redaction.py:59-59 | Exactly sk- and at least twenty ASCII letters or digits |
| CredentialShapes.AwsKeyIff | foundation/redaction.py:60-60 | Exactly AKIA and sixteen digits or capital letters |
| CredentialShapes.WebTokenIff | foundation/redaction.py:61-61 | Exactly eyJ and three non-empty pieces of URL-safe characters with dots between |
| CredentialShapes.BearerIff | foundation/redaction.py:62-62 | Exactly the word bearer in any case, white space, and at least eight token characters |
| CredentialShapes.WhiteSpaceIff | foundation/redaction.py:62-62 | White space in the bearer pattern is that of Unicode, code point by code point |
| MarkerScan.UntouchedInput | foundation/redaction.py:79-85 | Whatever stands in the output of a replacement scan and cannot touch a marker stood in the input, at a place where nothing matched |
| MarkerScan.ScanWithoutMatch | foundation/redaction.py:79-85 | A scan that matches nowhere is the identity |
| SecretReturn.ScanUpTo | foundation/redaction.py:79-85 | The text before the first match is kept, the match becomes the marker, and the scan goes on behind it |
| Redaction.SubRemovesHits | foundation/redaction.py:79-85 | After the scan for a rule no occurrence of it is left |
| Redaction.SubAddsNoHits | foundation/redaction.py:79-85 | Scanning for one rule brings back no occurrence of another |
| Redaction.SubAllIsComplete | foundation/redaction.py:79-85 | After all rules in turn, in whatever order, no rule has an occurrence |
| Redaction.ShapesAreSound | foundation/redaction.py:57-64 | None of the five credential shapes can lie across a marker |
| Redaction.BracketlessAvoids | foundation/redaction.py:32-32 | A text without brackets that is no piece of the marker cannot share a character with one |
| PayloadRedaction.KnownSecrets | foundation/redaction.py:72-76 | Exactly the configured values of at least six characters are scrubbed |
| PayloadRedaction.RedactStr | foundation/redaction.py:79-85 | The two loops apply the known secrets and then the shapes, as the rules of the completeness theorem |
| PayloadRedaction.SensitiveIff | foundation/redaction.py:67-69 | A key is sensitive if and only if one of the thirteen names stands somewhere in it, lower-cased |
| PayloadRedaction.FieldsAreMarkedOrRedacted | foundation/redaction.py:92-96 | Every field of a redacted object keeps its key and has the marker if one of the names stands in the lower-cased key, and the redaction of its old value otherwise |
| PayloadRedaction.PathMeaning | foundation/redaction.py:88-99 | The parts of a value are reached field by field and element by element, and those under a sensitive key are not visible |
| PayloadRedaction.PartsAreRedacted | foundation/redaction.py:88-99 | At every depth, a part below no sensitive key comes out as its own redaction |
| PayloadRedaction.PasswordIsMarked | foundation/redaction.py:94-94 | The value under password becomes the marker, whatever it is |
| PayloadRedaction.ShapeIsKept | foundation/redaction.py:88-112 | Redaction keeps every key and every list length at every depth |
| PayloadRedaction.RedactionIsComplete | foundation/redaction.py:79-112 | For secrets that can share no character with a marker: no known secret and no credential shape is left in any string value at any depth |
| PayloadRedaction.UnchangedIffSettled | foundation/redaction.py:88-112 | For such secrets redaction is the identity on exactly the settled values: clean, without tuples, marked under sensitive keys |
| PayloadRedaction.RedactionIsIdempotent | foundation/redaction.py:88-112 | For such secrets redacting again changes nothing |
| PayloadRedaction.SecretsVanishIff | foundation/redaction.py:79-85 | Bracket-free secrets vanish from every string if and only if none is a piece of the marker |
| SecretReturn.SecretVanishesIff | foundation/redaction.py:79-85 | One known secret, brackets or not, is gone from every redacted string if and only if a credential shape stands in it or every overlap of it with the marker is closed: it would lie before the marker, its part there ends in the start of a Groq key, and that part followed by the secret shows an earlier copy |
| SecretReturn.Revived | foundation/redaction.py:79-85 | For every secret outside that condition an input is constructed whose redaction contains it |
| SecretReturn.BracketedSecretComesBack | foundation/redaction.py:79-85 | Plain text x and an opening bracket, free of shapes: the redaction of x, x and the bracket contains that secret |
| SecretReturn.ClosingBracketComesBack | foundation/redaction.py:79-85 | A closing bracket and text y, free of shapes: the redaction of that secret followed by y contains the secret |
| PayloadRedaction.KeysPassThrough | foundation/redaction.py:88-99 | The keys of the result hold a secret if and only if a visible key of the input did |
| PayloadRedaction.ScalarsPassThrough | foundation/redaction.py:88-99 | The written scalars of the result hold a secret if and only if a visible scalar of the input did |
| PayloadRedaction.WordsForScalars | foundation/redaction.py:99-99 | Scalars other than strings are written as JSON writes them |
| PayloadRedaction.NothingSlipsThroughIff | foundation/redaction.py:1-22 | For secrets that can share no character with a marker: no key, no string and no written scalar of the result holds a secret if and only if no visible key and no visible scalar of the input holds one |
| PayloadRedaction.KeySlipsThrough | foundation/redaction.py:92-96 | A known secret used as a key is still in the result |
| PayloadRedaction.NumberSlipsThrough | foundation/redaction.py:99-99 | A known secret of digits is still in the result as a number, though no key holds it |
| Workspace.SentIsCopy | brain/workspace.py:165-198 | Sending an event adds one row and one event on the channel, both with its kind, the event with its hops, and its payload redacted in place: same keys, lists and scalars, and the very payload when it is settled |
| Workspace.SentInOrder | brain/workspace.py:165-198 | Of several events the i-th sent is such a copy of the i-th given, under the next id |
| Workspace.SendIsSound | brain/workspace.py:165-198 | Storing and then publishing a redacted event keeps every published event recorded under its id with the same content, and every row clean |
| Workspace.RecordedMeaning | brain/workspace.py:165-198 | Recorded means: every published event carries the id of a row with its kind and payload |
| Workspace.AllCleanMeaning | brain/workspace.py:165-198 | Clean means: no stored payload holds a known secret or a credential shape in a string value |
| Workspace.Workspace.Broadcast | brain/workspace.py:165-198 | Redact, persist, publish: a success adds exactly the event's copy to log and channel, and what a failure at either step leaves in place |
| Workspace.Workspace.Subscribe | brain/workspace.py:200-202 | The handler is registered last for its kind, and no other kind's handlers change |
| Workspace.Workspace.Unsubscribe | brain/workspace.py:204-208 | Exactly the first registration of the handler is dropped, if there is one |
| Workspace.PassedOnMeaning | brain/workspace.py:213-232 | A raising handler or a full hop count passes nothing on; otherwise every emitted event is, in order and as it was, one hop further on |
| Workspace.EmissionsMore | brain/workspace.py:213-232 | The events of the first i + 1 handlers are those of the first i and then what is passed on of the answer of handler i |
| Workspace.Workspace.CallHandler | brain/workspace.py:213-232 | A handler's events are re-broadcast one hop further on, none at the cap, none when it raises |
| Workspace.Workspace.Dispatch | brain/workspace.py:210-232 | The handlers registered for the event's kind are called with it, then those for any kind, in the order of registration, and their events are broadcast in order; only a failing broadcast ends the dispatch early |
| Workspace.Workspace.Run | brain/workspace.py:234-253 | The loop drains the bus and ends; each waiting event accounts for at most a full tree of broadcasts, for exactly that when every event emits k; nothing published exceeds the hop cap |
| Workspace.CascadePaysItsWay | brain/workspace.py:213-232 | Handling an event replaces its worth on the bus by at most that worth less one, so the bus drains |
| Workspace.CascadeOfOne | brain/workspace.py:213-232 | One event at hop 0 accounts for at most the sum of k to the i, for i up to the cap, itself included |
| Workspace.TreeSizeIsPowerSum | brain/workspace.py:213-232 | The bound for one event is the sum of k to the i for i up to the hops left |
| CircuitBreaker.CircuitBreaker.Allow | brain/llm/circuit_breaker.py:37-47 | The answer, and the half-opening that asking causes |
| CircuitBreaker.CircuitBreaker.RecordFailure | brain/llm/circuit_breaker.py:54-60 | The new fields after a failure: counted, and open from now when half-open or at the threshold |
| CircuitBreaker.AllowsIffHistoryAllows | brain/llm/circuit_breaker.py:37-65 | Over any history under a forward clock, a call is allowed if and only if the failures since the last success are below the threshold or the last is at least the timeout ago; a threshold below 1 acts like 1 |
| CircuitBreaker.AllowingDoesNotUseUpTheTrial | brain/llm/circuit_breaker.py:45-47 | Asking does not change the answer to the next question |
| Pricing.QuantizeIsNearest | brain/llm/pricing.py:32-41 | Rounding gives the nearest millionth, upward on a tie |
| Pricing.PaidIff | brain/llm/router.py:247-259 | A model is gated if and only if it is priced and its two rates add up to at least half a dollar per million |
| Pricing.MillionTokens | brain/llm/pricing.py:14-41 | A million prompt tokens cost the input rate, a million completion tokens the output rate, and a model without a price is free |
| Pricing.ShippedPrices | brain/llm/pricing.py:22-29 | The one model priced costs 0.59 for a million tokens in and 0.79 for a million out |
| Pricing.CostGrows | brain/llm/pricing.py:32-41 | More tokens never cost less |
| Pricing.CostIsNotNegative | brain/llm/pricing.py:32-41 | Costs are not negative, and a call without tokens costs nothing |
| Governors.TodayIsTheDay | core/governors.py:58-76 | With no row from the future, what the governor sums is the spend of the current UTC day |
| Governors.NothingLeftIffExhausted | core/governors.py:78-91 | Exhausted means nothing remaining, and the status and the gate agree |
| RouterSpec.TranscriptGrowsByTwo | brain/llm/router.py:169-203 | Each retry sends the transcript before and exactly two messages more, the first quoting the rejected output |
| RouterSpec.TranscriptsGrow | brain/llm/router.py:169-203 | Over a whole sequence of retries the k-th transcript has 2k messages more than the first, starts with every earlier one, and quotes each rejected output where it was rejected |
| RouterSpec.InvokeMeaning | brain/llm/router.py:169-203 | A provider's verdict is that of the first attempt that is not a schema failure, or of the last of `schema_retries + 1`, and as many calls are made |
| RouterSpec.DoneIffUsable | brain/llm/router.py:119-165 | A step answers if and only if its circuit lets it through, the budget does not stop it and one of its attempts fits after schema failures only |
| RouterSpec.FirstUsableStepAnswers | brain/llm/router.py:105-167 | complete answers with the first step usable in the state its predecessors left behind, with its deciding attempt's answer, and is unavailable if and only if there is none |
| RouterAnswers.CompletedIsValid | brain/llm/router.py:233-245 | What is returned is what a provider of the chain answered during the search, and meets the caller's schema |
| RouterAnswers.FirstAttemptIsReturned | brain/llm/router.py:116-165 | A first attempt answered as the schema asks, at the first step that gives an answer, let through by circuit and budget, is returned |
| RouterAnswers.BlockedIff | brain/llm/router.py:247-259 | A step is blocked if and only if there is a budget, its model's two rates add up to at least half a dollar, and the UTC day's rows have reached the budget |
| RouterAnswers.CauseMeaning | brain/llm/router.py:116-167 | A failed search reports its last step that was not passed over for an open circuit: over budget, down, or off the schema |
| RouterAnswers.BreakerFollowsCalls | brain/llm/router.py:119-165 | A turn asks the breaker of its own provider and tells it the result, an answer of any kind being a success; no other breaker changes |
| RouterAnswers.SearchFollowsHistory | brain/llm/router.py:116-167 | After any search every breaker is what its own provider's questions and results make of it |
| RouterAnswers.PassedOverIff | brain/llm/router.py:119-125 | A step is passed over if and only if its provider's failures since the last answer reach the threshold and the last is less than the timeout ago |
| RouterSpec.StepLogsEveryCall | brain/llm/router.py:119-165 | A step logs one row per call, one when it is over budget, none when its circuit is open |
| RouterSpec.CompleteLogsEveryCall | brain/llm/router.py:105-245 | Throughout a search every call has its own row and the only other rows are budget skips |
| Router.LLMRouter.Attempt | brain/llm/router.py:205-245 | One call: good if and only if it is answered as the schema asks, logged once at the price of its tokens |
| Router.LLMRouter.InvokeWithFeedback | brain/llm/router.py:169-203 | The loop with its growing transcript computes the recursive specification |
| Router.LLMRouter.BudgetBlocks | brain/llm/router.py:247-259 | The gate in terms of the day's rows in the log |
| Router.LLMRouter.TryStep | brain/llm/router.py:119-165 | One turn of the loop on the shared breakers, only the step's own provider's breaker changing |
| Router.LLMRouter.Search | brain/llm/router.py:116-167 | The loop over the chain computes the recursive specification on the evolving breakers, also when a provider occurs twice |
| Router.LLMRouter.Complete | brain/llm/router.py:105-167 | The same for a role's chain, the default chain, or an error when there is neither; a completion returned meets the schema and was answered during the call |
| Router.Build | brain/llm/router.py:72-103 | A router starts with one closed breaker per provider, and there is none if and only if some role routes to an unknown provider |
| RouterBudget.GateSaw | brain/llm/router.py:247-259 | When a paid step is let through, the day's spend is below the budget and nothing is spent on later days |
| RouterBudget.InvokeSpend | brain/llm/router.py:169-203 | One provider adds at most `schema_retries + 1` calls' cost to any day and nothing to a day that is over |
| RouterBudget.ShippedPricesAreGated | brain/llm/pricing.py:14-29 | The shipped price table meets the price premises of the bound below: every model in it is dear enough to be gated |
| RouterBudget.SpendIsBounded | brain/llm/router.py:247-259 | In any sequential run, on every day, the recorded spend stays below budget + (schema_retries + 1) * C |
| RouterLog.LogTellsTheCalls | brain/llm/router.py:261-284 | In every run each row that is no budget skip tells of the call with its number: role, provider, model, the answer's tokens and their price, and the verdict; no other row counts or costs anything |
| RouterLog.BillIsBounded | brain/llm/router.py:247-284 | In every run and on every day the prices of the calls are what is recorded, and stay below budget + (schema_retries + 1) * C |
| RouterLog.MillionTokensExhaust | brain/llm/pricing.py:22-41 | A million prompt tokens to the shipped model cost 0.59 and block it for the day under a budget of half a dollar |
| RouterBudget.NoPaidCallOverBudget | brain/llm/router.py:247-259 | No paid provider is called once the day's spend has reached the budget |
| WorkingMemory.TopIsUnique | brain/memory/working.py:174-186 | The best k of a scored set are determined by score and, on ties, by id |
| WorkingMemory.LexMeaning | brain/memory/working.py:174-186 | Ties are ordered by id as strings: by the first character that differs, a prefix first |
| WorkingMemory.LiveMeaning | brain/memory/working.py:166-172 | Pruning keeps, as they are, the items without a time to live and those whose time is not over |
| WorkingMemory.WorkingMemory.PruneExpired | brain/memory/working.py:166-172 | Both indexes lose exactly the expired items, and each of those is returned once |
| WorkingMemory.WorkingMemory.Range | brain/memory/working.py:182-184 | The n lowest members of the sorted set: what is left is the best of it |
| WorkingMemory.WorkingMemory.TrimToCapacity | brain/memory/working.py:174-186 | Both indexes keep exactly the best `capacity` items |
| WorkingMemory.WorkingMemory.Put | brain/memory/working.py:84-102 | Prune, store clamped and stamped, trim, with both indexes equal |
| WorkingMemory.WorkingMemory.Decay | brain/memory/working.py:112-127 | A sweep splits the store into faded survivors and the returned evictions, which come back as they were |
| WorkingMemory.WorkingMemory.ImportItems | brain/memory/working.py:143-146 | Items are written as they are, later ones over earlier ones of the same id, and both indexes stay equal |
| WorkingMemory.TrimmedMeaning | brain/memory/working.py:174-186 | A trim keeps min(k, n) items unchanged, nothing lost ranks above anything kept, and nothing is lost below capacity |
| WorkingMemory.ListsMeaning | brain/memory/working.py:112-127 | What PruneExpired and Decay return, a listing of the items removed, holds each of them exactly once, and nothing else |
| WorkingMemory.OnlineIsOffline | brain/memory/working.py:84-102 | After any puts of distinct, unexpired ids into an empty store it holds exactly the best `capacity` of everything ever put |
| WorkingMemory.StoredMeaning | brain/memory/working.py:84-102 | A stored item has its salience moved into [0, 1], the time of the put, and is due a positive time to live later, or never |
| WorkingMemory.PutMeaning | brain/memory/working.py:84-102 | After a put the store holds nothing but the item put and live items from before, unchanged; as many as there is room for, all of them with room left |
| WorkingMemory.ExpiresIff | brain/memory/working.py:90-99 | A stored item is in range and expires if and only if it has a positive time to live that is over |
| WorkingMemory.ImportIsNotTrimmed | brain/memory/working.py:143-146 | A restore exceeds the capacity if and only if the ids together do; the next put ends that |
| WorkingMemory.RestoredBeyondCapacity | brain/memory/working.py:143-146 | Two items restored into an empty store of capacity one |
| WorkingMemory.SweepKeepsOrder | brain/memory/working.py:112-127 | Survivors keep their salience order, in both directions |
| WorkingMemory.SweepMeaning | brain/memory/working.py:112-127 | A sweep keeps the live items whose salience times the factor is at least the floor, with that salience |
| WorkingMemory.SurvivesIff | brain/memory/working.py:112-127 | An item survives n sweeps if and only if it never expired and salience times factor^n is not below the floor; and then it has that salience |
| WorkingMemory.EmptyAfterEnough | brain/memory/working.py:112-127 | After n sweeps with factor^n below the floor the store is empty |
| Consolidation.SumMeaning | brain/memory/consolidator.py:91-109 | The running sum is the vector sum of the members, coordinate by coordinate |
| Consolidation.CentroidMeaning | brain/memory/consolidator.py:105-109 | A centroid is in each coordinate the sum over the members divided by their number |
| Consolidation.NearestMeaning | brain/memory/consolidator.py:140-150 | The nearest cluster is the first of those with the greatest similarity, provided that exceeds -1 |
| Consolidation.NearestByCosine | brain/memory/consolidator.py:140-150 | The similarity found is the cosine with the centroid of the cluster found, exceeds -1, and no centroid has a greater one |
| Consolidation.HomeMeaning | brain/memory/consolidator.py:126-137 | An episode joins the first most similar cluster if that exceeds -1 and reaches the threshold or the cap is reached; otherwise it opens a new one, and then every centroid is at -1 or below the threshold under the cap |
| Consolidation.Cluster.Add | brain/memory/consolidator.py:98-103 | The stored sum stays the sum of the stored members |
| Consolidation.ClusterEpisodes | brain/memory/consolidator.py:112-137 | The loop over mutable clusters computes the recursive clustering `Clusters` |
| Consolidation.ClusteringIsAPartition | brain/memory/consolidator.py:112-137 | Every episode is in exactly one cluster, in the episodes' order, no cluster is empty, and clusters are in order of creation |
| Consolidation.CapHoldsIff | brain/memory/consolidator.py:112-150 | There are at most max(1, max_clusters) clusters if and only if no episode meets the cap with every centroid at -1 |
| Consolidation.OppositeVectorsBreakTheCap | brain/memory/consolidator.py:140-150 | Two opposite vectors make two clusters under a cap of one |
| Goals.PriorityFollowsUrgency | brain/goals/arbiter.py:78-81 | Arousal amplifies urges without reordering them |
| Goals.PriorityMeaning | brain/goals/arbiter.py:78-81 | The priority is the urgency and on top of it the share that arousal times its weight gives; no mood is no arousal |
| Goals.BestIsFirstBest | brain/goals/arbiter.py:100-104 | The urge chosen is the first of those with the highest priority, sleep signals aside |
| Goals.SleepSignalIff | brain/goals/arbiter.py:100-104 | The sleep signal is the urge of the drive energy |
| Goals.AbsentDriveIsWorthNothing | brain/goals/arbiter.py:114-121 | A goal whose drive is no longer among the urges has a priority of 0 |
| Goals.SwitchesIff | brain/goals/arbiter.py:83-123 | A goal is replaced if and only if it was held for the dwell and some urge beats its drive's priority by more than the margin |
| Goals.IncumbentMeaning | brain/goals/store.py:90-98 | The goal pursued is the most recently created of the active ones |
| Goals.ArbitratedMeaning | brain/goals/arbiter.py:125-152 | Nothing changes when the goals cannot be read or nothing is chosen; otherwise the goal pursued is abandoned and no other row touched, and one for the urge chosen appended, up to the step that fails |
| Goals.GoalStore.Close | brain/goals/store.py:167-174 | The row is overwritten whatever its status, and a missing row is left alone |
| Goals.Deliberation.Arbitrate | brain/goals/arbiter.py:125-152 | Abandon before promote, with what a failure at any of the three database steps leaves behind |
| Goals.Deliberation.Deliberate | brain/agents/deliberation.py:217-241 | The goal pursued, and an action only when the cadence has elapsed |
| Goals.Deliberation.Settle | brain/agents/deliberation.py:332-383 | The cadence clock first, then the goal, if that succeeds |
| Goals.Deliberation.RunTick | brain/agents/deliberation.py:217-241 | One tick arbitrates once and settles at most one action, the one planned for the pursued goal |
| Goals.OneActiveGoal | brain/goals/arbiter.py:125-152 | In every run, with failures anywhere, never more than one goal is active, or than at the start |
| Goals.ClosedForGood | brain/goals/store.py:167-174 | In every run a closed goal stays exactly as it was closed |
| Goals.AbandonedOnlyWhenBeaten | brain/goals/arbiter.py:106-123 | A goal is abandoned only after the dwell and only for a different drive that beats it by more than the margin |
| Goals.NoGoalIsDroppedEarly | brain/goals/arbiter.py:106-112 | In every run under a forward clock every abandoned row was held for at least the dwell |
| Goals.SettledActionsAreSpaced | brain/agents/deliberation.py:465-469 | In every run under a forward clock consecutive settled actions, those deliberation hears of, are at least the cadence apart |
| Dispatch.VettedMeaning | brain/effectors/dispatch.py:135-154 | What is vetted is on the belt, has valid arguments and carries the Conscience's own verdict on the tool's real hazard class |
| Dispatch.EffectorDispatch.VetAction | brain/effectors/dispatch.py:135-154 | The order of the refusals: unknown tool, bad arguments, a Conscience that raises |
| Dispatch.EffectorDispatch.Commit | brain/effectors/dispatch.py:156-201 | The effects in order, up to the first collaborator that raises |
| Dispatch.EffectorDispatch.Propose | brain/effectors/dispatch.py:203-211 | Vet and commit in one, and nothing at all when vetting fails |
| Dispatch.CommitMeaning | brain/effectors/dispatch.py:156-201 | A body runs once if allowed and never otherwise; a row is written if and only if the body returned and the write went through; a returning commit leaves exactly one; a veto row has no result and no success |
| Dispatch.CommitTells | brain/effectors/dispatch.py:156-235 | The body gets the vetted arguments; the row names tool, arguments, goal, verdict and the reason of a veto; the event says dispatched or vetoed and whether it succeeded |
| Dispatch.OutcomeTells | brain/effectors/dispatch.py:156-201 | A commit returns if and only if body, audit write and broadcast went through, and tells whether the body ran and what it returned |
| Agency.CognitiveCycle.CheckStage | brain/cycle.py:854-875 | CHECK vets the planned tool action and nothing else, only with agency |
| Agency.CognitiveCycle.DispatchToolAction | brain/cycle.py:912-940 | Commit, then the gate on remembering what was read, then settling |
| Agency.CognitiveCycle.ActStage | brain/cycle.py:877-910 | ACT does at most the one planned action and queues what it eased |
| Agency.CognitiveCycle.Tick | brain/cycle.py:528-576 | The ten stages in order: a failing stage costs only itself, and the tick counts as degraded if any failed |
| Agency.CognitiveCycle.MaybeSleep | brain/cycle.py:428-463 | Between ticks: whether a sleep is due and announced; waking takes over the check's verdict, a busy or raising sleep leaves agency as it was |
| Agency.VettedIsForThisAction | brain/cycle.py:854-875 | What CHECK hands to ACT is the planned action of this tick, judged by the Conscience, under full agency |
| Agency.NoUnvettedAction | brain/cycle.py:820-940 | In every run with arbitrary failures: a body executes only after an allowing verdict on that tool and those arguments in the same tick, at most one action per tick, and every action under full agency as the wake checks that reached the cycle gave it |
| AgencyRuns.AgencyFollowsVerdicts | brain/cycle.py:428-476 | Agency after any event is the verdict that reached the cycle by it, if one did: the startup check's, or that of a night whose row was opened and closed |
| AgencyRuns.FailedCheckSuspendsIff | brain/cycle.py:450-457 | A check made and failed during a night suspends agency if and only if the night's row can be closed or agency was off already |
| AgencyRuns.LostVerdict | brain/sleep.py:450-462 | A run in which a check fails, the row cannot be closed, and the next tick acts |
| AgencyRuns.StillWhileSuspended | brain/cycle.py:428-476 | In every run, from a failed wake check that reached the cycle to the next passing one that does, no tick vets a proposal or acts, inside or through a tool |
| AgencyRuns.ErrorsAreTheFailures | brain/cycle.py:528-576 | A tick reports exactly the stages that failed, where failing restates each stage's own conditions |
| AgencyRuns.ActFailsIff | brain/cycle.py:877-940 | ACT fails if and only if, with agency, it gets to an action and that raises or cannot be announced, audited or settled |
| AgencyRuns.DegradedIff | brain/cycle.py:548-551 | A tick counts as degraded if and only if it reports some stage |
| AgencyRuns.NightMeaning | brain/cycle.py:428-457 | A night that ends in a report sets the count of degraded ticks to 0 and takes over the verdict; one not entered changes nothing, one without a report only the sleep cycle |
| AgencyRuns.ErrorsComeInOrder | brain/cycle.py:528-576 | Whatever fails, no stage is reported twice and the reports come in the order of the pipeline |
| AgencyRuns.PlainFailuresAreIsolated | brain/cycle.py:566-576 | Failing plain stages and a failing APPRAISE neither start, stop nor change an action or what it eases in that tick |
| AgencyRuns.EasesIff | brain/cycle.py:877-940 | A tick eases a drive if and only if, with agency, it planned an action for a goal and that action got through to the end: announced inside, or vetted, allowed, successful, recorded, announced, settled and, if it read a page, remembered |
| AgencyRuns.OnlySuccessEases | brain/cycle.py:912-940 | A veto, a failed tool or a page read and not remembered eases nothing |
| AgencyRuns.OutcomeIsAppraisedIff | brain/cycle.py:698-704 | In every run, what a tick eased is taken by the next tick's APPRAISE, all of it and in order, and reaches the drives if and only if that drive step returns; otherwise it is lost |
| AgencyRuns.OutcomesAreConserved | brain/cycle.py:356-364 | In every run each outcome is appraised, lost or still pending, exactly one of these and exactly once |
| AgencyRuns.AllAppraisedWhenNothingRaises | brain/cycle.py:356-364 | If no drive step raises, everything eased is appraised in order or pending from the last tick |
| AgencyRuns.OutcomeLost | brain/cycle.py:698-704 | A run of two ticks that loses an outcome |
| Cadence.Heartbeat.Beat | brain/cycle.py:832-940 | One tick of the cycle with deliberation in it: both parts step as their own specifications say, on one shared plan, and the errors are the cycle's |
| Cadence.ClockMovesIff | brain/cycle.py:912-940 | An executed action moves the cadence clock if and only if it is internal or its commit returns; otherwise clock and goal stay as arbitration left them |
| Cadence.SpacedForGoodIff | brain/agents/deliberation.py:17-20 | However a run goes on under a forward clock, all later executed actions are at least the cadence after this one if and only if it is internal or its commit returns, or the cadence is not positive |
| Cadence.PlannedForGoodIff | brain/agents/deliberation.py:217-241 | The same for drafting an action: no later draft comes within the cadence if and only if this one was made and is internal, or was vetted and its commit returned |
| Cadence.ExecutedActionsAreSpaced | brain/agents/deliberation.py:465-469 | In every run under a forward clock any action executed after one that was internal or whose commit returned is at least the cadence later |
| Cadence.TwoBodies | brain/effectors/dispatch.py:156-201 | A run in which a raising tool body runs in two consecutive ticks and the clock never moves |
| Cadence.AnnouncementLost | brain/cycle.py:898-910 | A tick that resolves its goal and moves the clock, and drops what the action eased |
| Cadence.RunOfDeliberation | brain/agents/deliberation.py:217-241 | Every run of the two together is a run of deliberation, over the ticks with agency, so its theorems carry over |
| Cadence.RunOfCycle | brain/cycle.py:528-576 | And a run of the cycle, so no unvetted action happens in it either |
| Sleep.VerifyMeaning | brain/sleep.py:129-186 | The check passes if and only if the self-model says something besides white space, the name is the anchored one and every pressure is in range; then nothing is listed as failed |
| Sleep.SaysSomethingIff | brain/sleep.py:153-161 | A self-model says something if and only if some character of it is not one of the white space code points |
| Sleep.TriggerIff | brain/sleep.py:375-391 | Who is awake sleeps when Energy asks, otherwise at every so many ticks but the first; who is asleep does not |
| Sleep.SleepCycle.Sleep | brain/sleep.py:390-470 | One sleep as a function of what fails: busy, raised, or a report; and the flag it leaves |
| Sleep.SleepEndsAwake | brain/sleep.py:390-470 | Row opened and closed: whatever stages fail it ends awake, all stages were attempted, exactly the failing ones are reported, and the verdict is the check's |
| Sleep.DegradedInOrder | brain/sleep.py:482-492 | Degraded stages are reported in the order of the pipeline |
| Sleep.StuckIff | brain/sleep.py:450-462 | A sleep stays asleep if and only if its row was opened and could not be closed |
| Sleep.StuckForGood | brain/sleep.py:375-404 | Then no trigger and no call ever does anything again |
| Drives.EquilibriumBalances | brain/drives/parameters.py:59-68 | At equilibrium what accrues toward 1 balances what decays toward the setpoint |
| Drives.AdvanceFollowsTheCurve | brain/drives/parameters.py:70-80 | After dt, exp(-(accrual + decay) * dt) of the distance to the equilibrium is left |
| Drives.NothingMoves | brain/drives/parameters.py:77-78 | Without time or without rates the pressure stays |
| Drives.StepWithoutEvents | brain/drives/engine.py:207-209 | Without events a step relaxes the pressure for the time since the row was updated, or none if the clock went back |
| Drives.NeverCrosses | brain/drives/parameters.py:70-80 | Relaxing never crosses the equilibrium and never moves away from it |
| Drives.KeepsOrder | brain/drives/parameters.py:70-80 | The higher of two pressures stays the higher |
| Drives.AdvanceAdds | brain/drives/parameters.py:70-80 | Relaxing for s and then t is relaxing for s + t, for any rates |
| Drives.EventsShift | brain/drives/engine.py:207-209 | Events move the pressure by exactly their delta, or as far in its direction as [0, 1] allows |
| Drives.HeartbeatDoesNotMatter | brain/drives/engine.py:185-219 | Under a forward clock any event-free steps before a step leave its result unchanged |
| Drives.AdvanceTellsTime | brain/drives/parameters.py:70-80 | Away from equilibrium, different times give different pressures |
| Drives.ExtraHeartbeatIff | brain/drives/engine.py:207-216 | An extra event-free step changes nothing if and only if its time lies between its neighbours' or the drive does not move |
| Drives.ClockSetBack | brain/drives/engine.py:207-216 | A heartbeat ahead of a clock that is then set back moves a pressure that should have stayed |
| DriveEngine.DriveEngine.AggregateDeltas | brain/drives/engine.py:243-249 | Each drive's total is the sum of weight times intensity over the events |
| DriveEngine.DeltaOfNothing | brain/drives/engine.py:243-249 | Events that do not speak of a drive leave it alone |
| DriveEngine.DeltaOfOne | brain/drives/engine.py:243-249 | One event adds its weight for the drive times its intensity |
| DriveEngine.StepRowMeaning | brain/drives/engine.py:195-216 | A missing row is created at the setpoint and shifted by the events; an existing one is stepped from its own value and time |
| DriveEngine.DriveEngine.Step | brain/drives/engine.py:185-219 | The loop steps each configured drive once, and the readings are the new rows |
| DriveEngine.DriveEngine.Bootstrap | brain/drives/engine.py:156-183 | The loop syncs each configured drive once |
| DriveEngine.StepMeaning | brain/drives/engine.py:185-219 | A drive's new row depends on its old row and the events only, a missing one is created at its setpoint, and rows of unknown drives stay |
| DriveEngine.BootstrapMeaning | brain/drives/engine.py:156-183 | Starting up syncs the parameters and keeps every pressure and its time |
| DriveEngine.StartedMeaning | brain/drives/engine.py:156-183 | A missing row is created at the setpoint as of now; an existing one keeps pressure and time |
| DriveEngine.HeartbeatsDoNotMatter | brain/drives/engine.py:185-219 | The same for the whole engine: event-free heartbeats do not change what the next step leaves behind |
| Scheduler.InputQueue.Drain | brain/agents/sensorium.py:120-127 | A bounded batch from the head, and the rest in order |
| Scheduler.Scheduler.AddWakeup | brain/effectors/scheduler.py:160-167 | A pending row under a new id, due after the delay, as a step of the protocol |
| Scheduler.Scheduler.FireDue | brain/effectors/scheduler.py:169-192 | The claim, then the pushes up to the first failure, as steps of the protocol |
| Scheduler.AtMostOnce | brain/effectors/scheduler.py:169-192 | In every run with crashes anywhere each wakeup is queued at most once, a pending one never |
| Scheduler.ExactlyOnceUnlessLost | brain/effectors/scheduler.py:169-192 | In every run a wakeup is queued, or about to be, exactly once if it has fired and no crash or failing push fell between its claim and its push, and never otherwise |
| Scheduler.ClaimFiresTheDue | brain/effectors/scheduler.py:102-126 | A claim fires every wakeup that is due, and no other |
| Scheduler.AtMostOneMissedIff | brain/effectors/scheduler.py:169-192 | In every run the wakeups of a claim that are missed are exactly those from the first failing push on, and at most one if and only if at most the last push failed |
| Scheduler.BatchMissed | brain/effectors/scheduler.py:189-191 | Two wakeups due at once and a first push that fails: both are missed |
| Scheduler.NeverEarly | brain/effectors/scheduler.py:102-116 | No wakeup is delivered without an earlier claim at or after its time |
| Scheduler.FirstInFirstOut | brain/agents/sensorium.py:115-127 | Inputs leave in the order they came, in batches of the bounded size, and none is lost |
| Scheduler.InputsLeaveInOrder | brain/agents/sensorium.py:115-127 | In every run what has left the queue, followed by what waits in it, is the inputs in the order they were pushed |
| Scheduler.BatchesAreBounded | brain/agents/sensorium.py:120-127 | Between any two points of a run no more leaves than the drains between them allow, and what had left stays the front of what has left |
| ReconnectingSocket.ReconnectingSocket.StartUp | frontend/src/services/reconnectingSocket.ts:86-92 | With a live socket start only lifts the stop; otherwise it connects: no token shows closed, a throwing constructor schedules a retry, a socket is kept |
| ReconnectingSocket.ReconnectingSocket.ShutDown | frontend/src/services/reconnectingSocket.ts:95-107 | The pending timer is cleared, the socket let go, closed is shown, and nothing else changes |
| ReconnectingSocket.ReconnectingSocket.OnOpen | frontend/src/services/reconnectingSocket.ts:131-134 | An open resets the backoff and shows open, stopped or not, and does nothing else |
| ReconnectingSocket.ReconnectingSocket.OnClose | frontend/src/services/reconnectingSocket.ts:147-160 | After stop nothing follows a close; a 1008 stops for good and reports the rejection once; any other close schedules one retry |
| ReconnectingSocket.ReconnectingSocket.OnTimer | frontend/src/services/reconnectingSocket.ts:167-176 | A firing timer reconnects unless stopped |
| ReconnectingSocket.OneStreamIff | frontend/src/services/reconnectingSocket.ts:86-176 | Over every interleaving with any number of starts: there is never a live socket and a pending timer together nor two of either if and only if every start was harmless where it happened |
| ReconnectingSocket.OneStreamAtATime | frontend/src/services/reconnectingSocket.ts:86-176 | With one start, over every interleaving: never a live socket and a pending timer together nor two of either |
| ReconnectingSocket.ClosedIsShownIff | frontend/src/services/reconnectingSocket.ts:131-134 | With one start: closed is shown exactly when nothing is left that could reconnect, if and only if no socket has opened while stopped |
| ReconnectingSocket.OpenShownAfterStop | frontend/src/services/reconnectingSocket.ts:131-134 | Start, stop and a late open: open is shown with nothing left, and the close that follows does not correct it |
| ReconnectingSocket.NoSocketAfterTheEnd | frontend/src/services/reconnectingSocket.ts:95-160 | After stop, or a 1008 close, no socket is ever created again |
| ReconnectingSocket.BackoffIsCappedDoubling | frontend/src/services/reconnectingSocket.ts:131-176 | The backoff is the initial one doubled per failure since the last open, up to the maximum, and a pending timer waits the one before |
| ReconnectingSocket.BackoffIsMinimumIff | frontend/src/services/reconnectingSocket.ts:167-176 | It is min(initial * 2^k, max) for k = 0 too if and only if the initial backoff is within the maximum |
| ReconnectingSocket.HarmlessIff | frontend/src/services/reconnectingSocket.ts:86-92 | From any sound state a further start keeps to one stream if and only if a socket is there, there is no token, or neither a live socket nor a timer is left |
| ReconnectingSocket.TwoSockets | frontend/src/services/reconnectingSocket.ts:86-92 | start during a pending backoff leads to two live sockets |

## Left out

- SemanticMerge.MemoryDecay.MergeFacts: the ORM's flush is modelled as the end state plus every intermediate subset of its row changes (`EdgeQuotient.EveryOrderKeepsKeysUnique`); SQL order, sessions and rollback are not modelled, and `source_episode_ids` is a set rather than a list.
- EpisodeDecay.EpisodeTable.DecayEpisodes: one half to a real power is a function known only by its range and its value laws; floating-point rounding is not modelled.
- SecretReturn.SecretVanishesIff: exact for one known secret; for several together, secrets that can share no character with the marker are shown to vanish, and what bracketed ones can do to each other is not characterised.
- PayloadRedaction.RedactionIsComplete: the value grammar is JSON plus tuples; other Python objects pass through the code untouched and are not modelled. Lower-casing of key names and writing out a number are parameters; a secret that spans several values of the written JSON is not considered.
- CredentialRules.MatchLengthMeaning: the five patterns are given as sequences of character classes with repetitions, which is all they use; the regular-expression engine itself is not modelled.
- Workspace.Workspace.Run: the blocking poll, `stop` and the decoding of a message are reduced to a queue of events and malformed messages; several processes on one channel are not modelled. Timestamps and the module name of an event are left out.
- RouterBudget.SpendIsBounded: the premises are those under which the code can promise it: every call is logged (the database logger in production swallows its own failures), one call costs at most C, priced models are dear enough to be gated, and clocks agree. Concurrent calls are not modelled.
- Pricing.QuantizeIsNearest: decimals have unlimited precision before rounding.
- Router.LLMRouter.Attempt: temperature, token limits and latency are left out, a provider's own name is taken to be the name it is routed under, and a raising logger is not modelled.
- WorkingMemory.WorkingMemory.Decay: Redis returns a hash in no particular order, so the order of the evictions is left open; `contents` sorts for display and is left out, as are `count`, `clear` and the export.
- Consolidation.ClusterEpisodes: the cosine is any function of two vectors; summarising a cluster by a model and writing its fact are left out.
- Goals.Deliberation.Arbitrate: descriptions, plans and outcomes of goals are left out; what an action is and says is left to the oracle of the agency model.
- Agency.CognitiveCycle.Tick: perception, appraisal, attention, recall, narration and learning are stages that succeed or fail; cancellation and the pause gate are left out; the drive engine is taken to be wired, and what drains the queue when it is not is left out.
- Cadence.Heartbeat.Beat: deliberation settles after the tick's last stage instead of inside ACT, and arbitrates before its first; no stage in between reads what that changes. What is drafted for a goal is a parameter, and urges and mood are inputs of the tick.
- Sleep.SleepCycle.Sleep: what the stages compute is left out apart from the backup and the check.
- Dispatch.EffectorDispatch.Commit: the payload of the emitted event is reduced to the tool and its success.
- Drives.HeartbeatDoesNotMatter: the exponential is a function known by its laws; values outside [0, 1], which no step leaves behind, are outside the premise.
- DriveEngine.DriveEngine.Step: urgency and the ordering of urges for display are left out.
- Scheduler.Scheduler.FireDue: the answer of the due query is a parameter constrained by what the query promises, and a claim is atomic; items carry the id of their wakeup so that deliveries can be counted.
- ReconnectingSocket.ReconnectingSocket.OnClose: frames and their parsing are left out; of the status callback the last value is kept.
- LLM prompts, provider adapters, embeddings, vision, SQLAlchemy, Alembic beyond the edge table's keys, pgvector, FastAPI routes, React panels, the memory snapshot, the web fetcher, the voice filter and the sandbox runner: I/O, foreign libraries or straight-line code.
