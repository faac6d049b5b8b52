# Hermes Auto Router in Dafny

A model of the parts of the router in which several things happen at once, or in
which a failure half-way must leave no trace, and proofs of what they keep.

| file | models |
|---|---|
| `Supervision.dfy` | gateways and supervisors sharing one runtime record, as a transition system: every bind, read, probe, unlink and signal is a step, a run is any interleaving |
| `SupervisionRuns.dfy` | what undisturbed calls of `status` and `stop`, and undisturbed gateways, do from their first step to their last |
| `Salt.dfy` | first use of the per-install salt by any number of processes, with files as inodes |
| `Redaction.dfy`, `RedactionResults.dfy` | `redact` over Python object graphs, shared or cyclic, and what stands in its record entry by entry |
| `Routing.dfy`, `SessionHistory.dfy`, `RouterModel.dfy` | which candidates are tried in which order; which sessions are remembered; the router as a function of its history |
| `DecisionRouter.dfy` | the router object itself: an ordered session table and a bounded list sharing mutable decisions, each method proved to take the step of `RouterModel` |
| `Upstream.dfy`, `Relay.dfy`, `Completion.dfy` | async generators as small state machines, responses as objects that are closed or not, and the two failover loops |
| `Config.dfy` | from the parsed `candidates` block to what the router may rely on |
| `Text.dfy`, `CandidateNames.dfy` | fresh candidate names |
| `YamlLines.dfy`, `ConfigEdit.dfy`, `EditMeaning.dfy`, `EditTheorems.dfy` | the structure of a block-style file, the line edit, and when it adds the name to that structure |
| `Documents.dfy`, `EditValues.dfy`, `EditFinds.dfy`, `EditOutcome.dfy`, `EditDates.dfy` | the values such a file stands for, the comparison made after the edit, which edits pass it, and which documents it cannot be made for |
| `YamlText.dfy`, `EditedText.dfy` | characters: lines and what is told apart on them, the edit as text surgery, that it is the line edit, and the texts it makes |
| `Writers.dfy` | what the alias and the candidate writer make of a document |
| `Files.dfy`, `Setup.dfy`, `SetupTheorems.dfy` | files with operations that may fail, the shims, the configuration edits with their exceptions and how they end for any YAML, and the setup transaction |
| `EnableTheorems.dfy`, `EnableExamples.dfy` | all of this put together: from the bytes of the configuration to how enabling the plugin ends, and two files |
| `Template.dfy`, `ShimTemplate.dfy`, `ThreePasses.dfy` | single-pass substitution, templates laid out as the installed one, and the three string replacements it replaced |

Nondeterminism - the scheduler, the network, failing operations - is always an
input: a step label, a behaviour, a script of faults. Every result holds for all of
them.

## Where the code and its documentation part

The code was followed in each case; the lemma named gives the exact condition.

* `redact` is documented as idempotent. It is so exactly if the event was lost to an
  exception, or no surviving mapping at depth 11 or 12 drops a key and none at depth 12
  digests a session id (`Redaction.IdempotentIff`).
* `redact` is documented to drop a session id when the salt is unavailable. Only two
  kinds of failure do that. Any other - a salt file that is not ASCII, an id that UTF-8
  cannot encode - reaches the handler that its comment calls unreachable, and the record
  says neither what the event held nor what was dropped from it
  (`Redaction.RaisesIffMeets`, `Redaction.EventListsItsDropsIff`,
  `Redaction.RaisingDigestLosesTheEvent`).
* `stop` is documented to clear the record only once the port is quiet. Its last
  return also clears after "unresponsive" and "corrupt", and `_instance_gone` counts a
  failing read as evidence (`Supervision.DangerIffHasty`).
* Two processes can end up with different salts: by overlapping creators, and even
  with an atomic claim when a verification fails after a reader was served
  (`Salt.OverlapTrace`, `Salt.UnverifiedTrace`, `Salt.AgreementLastsIff`).
* A response passed over for its status stays open, because its generator is closed
  before it ever ran; so does a committed one that is never pulled
  (`Relay.StreamRequest`).
* With and without streaming, failover ends alike exactly if no candidate that is
  reached has a body that breaks where only one of the loops can still go on
  (`Relay.LoopsAgreeIff`).
* "Left unchanged" after a failed edit of the Hermes configuration means its decoded
  text: line ends are normalised, an absent file becomes an empty one in one writer
  and an empty file an absent one in the two others (`Setup.PutBackIff`,
  `Setup.PutBackOrRemovedIff`).
* The edited Hermes configuration is documented to equal the original plus exactly one
  name. The check accepts the name at any place in the list and any number of times, and
  no edit of a section or a list that was there but empty (`Documents.AcceptsIff`).
* Enabling the plugin is documented to end in success or in a refusal, "not a crash". It
  raises before anything is written if the file is not UTF-8 or a scalar in it cannot be
  constructed. Once the edited file is written it raises if the original document has no
  JSON form - a mapping with a date for a key is enough, unless a later key replaces it -
  and then the edited file stays (`EnableTheorems.EnableEnds`,
  `EnableExamples.DateKeyRaisesAfter`, `EnableExamples.ReplacedDateIsDone`).
* Setup is documented as a transaction. None of these exceptions is caught, so the
  rollback is skipped: tokens, shims and what was written of the configuration stay
  behind (`Setup.CmdSetup`, `EnableExamples.DateKeyEscapes`).
* The template guard does not imply that every placeholder is substituted: it asks
  whether a placeholder occurs, not whether an occurrence is free
  (`Template.SubstitutedIffFree`, `Template.GuardIsNotEnough`).

## Model

| member | source | states |
|---|---|---|
| Supervision.GatewayStepKeepsInv | src/hermes_auto/gateway/main.py:279-380 | every step of a gateway, from binding to retracting, keeps the global invariant: ports are held only by running gateways configured for them, publishing comes after both binds, what is on disk is the truth about its instance, a pending unlink sees what it read unless a publish came in between |
| Supervision.SupervisorStepKeepsInv | src/hermes_auto/supervisor.py:511-651 | every step of `status` and `stop` keeps it: what a supervisor remembers stays true while others move |
| Supervision.StepKeepsInv | src/hermes_auto/gateway/main.py:228-370 | so does every step of anybody, other processes on the ports included |
| Supervision.RunKeepsInv | src/hermes_auto/supervisor.py:940-1051 | and every run of any length |
| Supervision.StrandingStep | src/hermes_auto/supervisor.py:479-503 | from any state of the invariant, a step that removes the record of a gateway still holding its inference port is an overtaken unlink or a hasty clear; with compare-and-unlink in one step only the latter |
| Supervision.OnlyTwoWaysToStrand | src/hermes_auto/gateway/main.py:228-276 | the same over every reachable state: no gateway exit, failed start or `status` removes the record of a live gateway but by a publish landing between a read and its unlink |
| Supervision.CarefulRunAdvertises | src/hermes_auto/gateway/main.py:279-380 | without overtaken or hasty clears, every run keeps each serving gateway on disk |
| Supervision.ServingIsAdvertised | src/hermes_auto/gateway/main.py:279-380 | from the initial state: a serving gateway is the one on record, with its own pid and ports, if every two gateways share a port |
| Supervision.SignalsReachTheAnswerer | src/hermes_auto/supervisor.py:994-1010 | every signal ever sent carried the pid of the gateway that answered the probe before it |
| Supervision.ConfirmedBeforeSignal | src/hermes_auto/supervisor.py:994-1010 | a probe that leads to a signal was answered by the instance on record, on its own inference port |
| Supervision.DangerIffHasty | src/hermes_auto/supervisor.py:878-914 | a clear can be pending against a live, recorded gateway exactly for three reasons: final status unresponsive, final status corrupt, or a failed read taken for "gone" |
| Supervision.UnresponsiveTrace | src/hermes_auto/supervisor.py:1012-1024 | the run to a clear after "unresponsive" with the port held |
| Supervision.ReadFailsTrace | src/hermes_auto/supervisor.py:898-901 | the run to a clear after one failing read |
| Supervision.AbandonTrace | src/hermes_auto/supervisor.py:997-1006 | the run on which escalation is given up and the final status is asked for |
| Supervision.HastyTrace | src/hermes_auto/supervisor.py:1026-1051 | for each of the three reasons a run that ends in such a clear |
| Supervision.OvertakenTrace | src/hermes_auto/gateway/main.py:228-276 | two gateways on one port: the second serves with nothing on disk after the first one's late unlink |
| SupervisionRuns.ClearTakesEffect | src/hermes_auto/supervisor.py:479-503 | from every state in which a supervisor is clearing: with nothing failing and nobody else moving, the file is gone if it named the instance, and as it was otherwise |
| SupervisionRuns.WithoutARecord | src/hermes_auto/supervisor.py:524-549 | no file, or one that cannot be read: `status` and `stop` report it and change nothing |
| SupervisionRuns.WithItAnswering | src/hermes_auto/supervisor.py:551-564 | the instance on record answers: `status` reports it running, `stop` goes on; neither changes anything |
| SupervisionRuns.WithAnotherAnswering | src/hermes_auto/supervisor.py:566-597 | somebody else answers at the recorded port: `status` says so, `stop` refuses, the file stays |
| SupervisionRuns.WithNobodyAnswering | src/hermes_auto/supervisor.py:599-621 | nobody answers and the port is held: `status` says so, `stop` refuses, the file stays |
| SupervisionRuns.OnADeadPort | src/hermes_auto/supervisor.py:623-651 | nobody answers and the port is free: both report a stale file and take it off the disk, unless the read or the unlink of the clear fails, when it stays |
| SupervisionRuns.StopReads | src/hermes_auto/supervisor.py:966-968 | a file that is gone at the second read sends `stop` back to `status`, one that is unreadable then makes it raise |
| SupervisionRuns.StopAsks | src/hermes_auto/supervisor.py:977-992 | only an accepted shutdown request is waited for; otherwise escalation begins |
| SupervisionRuns.ReturnsRecordMoved | src/hermes_auto/supervisor.py:898-903 | wherever `stop` checks the instance: a file gone or naming another makes it return and stays as it is |
| SupervisionRuns.ReturnsPortFree | src/hermes_auto/supervisor.py:878-914 | a free port makes it return with the file gone |
| SupervisionRuns.ReturnsReadFailed | src/hermes_auto/supervisor.py:898-901 | a failing read makes it return too, and takes the file away if the next read finds the instance named |
| SupervisionRuns.Waits | src/hermes_auto/supervisor.py:906-914 | while the port is held it looks again until its time is up; then the soft rung follows the request, the hard rung the soft one, and the final status the hard one |
| SupervisionRuns.Abandons | src/hermes_auto/supervisor.py:997-1006 | any other answer than the recorded instance's own ends the escalation without a signal |
| SupervisionRuns.Signals | src/hermes_auto/supervisor.py:994-1010 | the instance's own answer is followed by the signal of that rung to its recorded pid, and an undelivered signal by the final status |
| SupervisionRuns.Escalates | src/hermes_auto/supervisor.py:940-1019 | a whole run against a gateway that refuses the request and outlives both signals: soft, then hard, then an error with the file in place |
| SupervisionRuns.HardAfterSoft | src/hermes_auto/supervisor.py:994-1012 | over every run: a hard signal has before it a soft one by the same caller to the same pid, confirmed by the same instance |
| SupervisionRuns.EndsAnswering | src/hermes_auto/supervisor.py:1014-1019 | a final status of "running", whoever the record names then, makes `stop` raise |
| SupervisionRuns.EndsWithoutARecord | src/hermes_auto/supervisor.py:1020-1038 | a final status of "not started" or "corrupt" makes it clear the record it was after |
| SupervisionRuns.EndsWithAnother | src/hermes_auto/supervisor.py:1020-1038 | so does one of "foreign" |
| SupervisionRuns.EndsSilent | src/hermes_auto/supervisor.py:1020-1038 | and one of "unresponsive", although the port is held |
| SupervisionRuns.EndsDead | src/hermes_auto/supervisor.py:1014-1038 | on a dead port the final status clears whatever record is there, and `stop` finds nothing left to clear |
| SupervisionRuns.StartsUp | src/hermes_auto/gateway/main.py:279-335 | a gateway binds its ports and then puts its own pid, ports and id on disk, with 0 for a missing admin port |
| SupervisionRuns.FailsAtOnce | src/hermes_auto/gateway/main.py:291 | one that cannot bind its inference port exits and changes nothing |
| SupervisionRuns.FailsLater | src/hermes_auto/gateway/main.py:305-379 | one whose admin bind or publish fails gives its port back and leaves the record on disk alone |
| SupervisionRuns.ClosesDown | src/hermes_auto/gateway/main.py:358-379 | a graceful exit gives all ports back and takes the record off the disk exactly if it still names this gateway |
| SupervisionRuns.Retracts | src/hermes_auto/gateway/main.py:228-276 | it stays if its read or its unlink fails |
| SupervisionRuns.KilledLeavesItsRecord | src/hermes_auto/supervisor.py:623-629 | a killed gateway's record stays for the next `status` |
| Salt.KeepingAgrees | src/hermes_auto/telemetry/redaction.py:339-394 | processes that obtained a salt obtained the same one in every run that never discards a finished salt |
| Salt.AtomicAgrees | src/hermes_auto/telemetry/redaction.py:366-374 | if claim and write were one step, and verification succeeds, they always agree |
| Salt.AloneAgrees | src/hermes_auto/telemetry/redaction.py:339-394 | as the code stands they agree if creators never overlap and no verification fails |
| Salt.CreatesAlone | src/hermes_auto/telemetry/redaction.py:339-394 | an undisturbed first call gets a salt of its own and leaves it on disk |
| Salt.ReadsWhatIsThere | src/hermes_auto/telemetry/redaction.py:270-297 | a call that finds the path taken, at its check or at its claim, gets the salt in the file, and fails if there is none in it or it cannot be read |
| Salt.ClaimRefused | src/hermes_auto/telemetry/redaction.py:370-374 | one that cannot claim the path for another reason fails and changes nothing |
| Salt.RefusedLeavesNothing | src/hermes_auto/telemetry/redaction.py:376-392 | a first call refused anywhere after its claim fails and leaves no file |
| Salt.LostSaltSplits | src/hermes_auto/telemetry/redaction.py:383-392 | once an obtained salt is off the path, a later creator splits the install |
| Salt.OverlapTrace | src/hermes_auto/gateway/auth.py:207-232 | creators overlapping around `unlink` in `secure_write`: the loser's cleanup removes the winner's file and a third process mints anew |
| Salt.UnverifiedTrace | src/hermes_auto/telemetry/redaction.py:376-392 | even with an atomic claim a reader may hold a salt its minter then removes |
| Salt.AgreementLastsIff | src/hermes_auto/telemetry/redaction.py:339-394 | once somebody has a salt and somebody else is about to look for one: processes agree in all continuations exactly if they agree now, nobody is creating a salt, the path holds a file, and no file on it holds another salt |
| Salt.AgreementAfterIff | src/hermes_auto/telemetry/redaction.py:339-394 | the same with no further condition for every state that a run from the beginning gets to |
| Redaction.RedactEvent | src/hermes_auto/telemetry/redaction.py:426-467 | the whole of `redact`: the specified tree, or the replacement that names the first exception |
| RedactionResults.RecordIs | src/hermes_auto/telemetry/redaction.py:459-467 | what is logged: what the event becomes, or, if anything raises, a note with the type of the first exception and nothing of the event |
| RedactionResults.ValuesBecome | src/hermes_auto/telemetry/redaction.py:470-501 | what any value becomes at any depth: strings and scalars themselves, other objects at most 64 characters of their `repr`, placeholders beyond depth 12 and for cycles, containers part by part |
| RedactionResults.EventSessionIdIsHashed | src/hermes_auto/telemetry/redaction.py:521-530 | in an event that is not lost the last session id with a digest leaves exactly that digest under `root_session_hash`, unless an entry of that name comes later |
| RedactionResults.SessionIdIsHashed | src/hermes_auto/telemetry/redaction.py:521-530 | the same for a mapping at any depth |
| RedactionResults.OthersAreKept | src/hermes_auto/telemetry/redaction.py:532 | the last entry under a name that is neither banned nor a session id leaves what its value becomes |
| RedactionResults.NothingElse | src/hermes_auto/telemetry/redaction.py:504-544 | no other field comes into the record |
| RedactionResults.DropsAreListed | src/hermes_auto/telemetry/redaction.py:535-542 | if anything is dropped, `_redacted` has the strings of an older list and then the dropped keys, in their order and each once |
| RedactionResults.FieldsStandInOrder | src/hermes_auto/telemetry/redaction.py:511-544 | fields stand in the order in which their names are first written |
| RedactionResults.FirstRaiseIs | src/hermes_auto/telemetry/redaction.py:504-558 | which exception is met first, item by item and entry by entry, in terms of keys, values and digests |
| Redaction.RedactNodeLoop | src/hermes_auto/telemetry/redaction.py:470-501 | the recursion with its loops computes the specified tree or stops at the first exception, and ends by the depth measure on any graph |
| Redaction.RedactMappingLoop | src/hermes_auto/telemetry/redaction.py:504-558 | one mapping: insertion order, drops, digest, and the merged `_redacted` list; a key that cannot be shown and a digest that raises end it |
| Redaction.RaisesIffMeets | src/hermes_auto/telemetry/redaction.py:459-467 | an event is lost exactly if the traversal comes to a key whose `repr` raises or to a session id whose digest raises |
| Redaction.EventListsItsDropsIff | src/hermes_auto/telemetry/redaction.py:429-441 | an event whose root drops a key lists what was dropped exactly if nothing raises; otherwise its record is the replacement |
| Redaction.RaisingDigestLosesTheEvent | src/hermes_auto/telemetry/redaction.py:547-558 | a session id whose digest raises, beside a token: the record does not name the token |
| Redaction.LevelListsItsDrops | src/hermes_auto/telemetry/redaction.py:535-544 | in an event that is not lost: the list at a level names every key dropped there and nothing else but what an existing list named |
| Redaction.EventIsClean | src/hermes_auto/telemetry/redaction.py:426-467 | for every graph, lost or not, the record is a tree of at most 14 levels in which no key folds to a banned or session-id key |
| Redaction.EventSecretsDoNotShow | src/hermes_auto/telemetry/redaction.py:459-533 | events that differ only in banned values, and in session ids with equal digests, leave the same record, also where something raises |
| Redaction.SecondPassCuts | src/hermes_auto/telemetry/redaction.py:470-544 | redacting a clean tree again only cuts it off at the depth limit |
| Redaction.CleanNeverRaises | src/hermes_auto/telemetry/redaction.py:504-533 | and raises nothing |
| Redaction.IdempotentIff | src/hermes_auto/telemetry/redaction.py:447-467 | redacting twice equals redacting once exactly if the event was lost, or no surviving mapping at depth 11 or 12 drops a key and none at depth 12 digests |
| Redaction.NotAlwaysIdempotent | src/hermes_auto/telemetry/redaction.py:447-449 | a token under eleven nested mappings breaks the unconditional claim |
| Routing.EligibleCandidates | src/hermes_auto/routing/selector.py:152-173 | the loop returns, in configuration order, exactly the candidates that have tools and vision where the request needs them and whose context window takes its tokens with a tenth to spare, and lists exactly the others with what they lack, in the order tools, vision, context |
| Routing.EligibleTakes | src/hermes_auto/routing/selector.py:152-173 | so does the function the loop is specified by |
| Routing.RequestedTierIs | src/hermes_auto/routing/selector.py:113-149 | the tier asked for, by mode or by how many small and great difficulties the request has |
| Routing.OrderedKeepsTiers | src/hermes_auto/routing/selector.py:183-192 | the fallback order moves whole tiers and keeps configuration order within each |
| Routing.OrderedIsSorted | src/hermes_auto/routing/selector.py:176-180 | tiers come at growing distance: from the request upwards, then downwards |
| Routing.OrderedIsPermutation | src/hermes_auto/routing/selector.py:183-192 | nothing is lost or doubled |
| Routing.FirstChoiceIsBest | src/hermes_auto/routing/selector.py:257-277 | the first choice is first in configuration order of the lowest tier at or above the request, else of the highest below |
| Routing.QualityAndEconomy | src/hermes_auto/routing/selector.py:143-149 | `auto:quality` gets the maximum eligible tier, `auto:economy` the minimum |
| Routing.ChoiceIsComplete | src/hermes_auto/routing/selector.py:249-277 | a choice exists exactly if some candidate can take the request; it holds each of those once; a pin leads exactly if it applies, moves nobody else, and says whether it is for a tool loop or for the session |
| SessionHistory.RememberedIsLastOfRecency | src/hermes_auto/routing/selector.py:235-240 | the bounded table's ordered keys are the last `max_sessions` distinct keys by last occurrence |
| SessionHistory.RecencyOrder | src/hermes_auto/routing/selector.py:235-240 | that order is the order of last occurrences |
| SessionHistory.RememberedIff | src/hermes_auto/routing/selector.py:235-240 | a session is remembered exactly if fewer than `max_sessions` others were routed since |
| RouterModel.ToolLoopSticks | src/hermes_auto/routing/selector.py:261-277 | over whole runs: every request of a tool loop selects the candidate the session last settled on, while it is eligible and fewer than `max_sessions` others intervene |
| RouterModel.ForgottenIff | src/hermes_auto/routing/selector.py:259-262 | a session is routed as new exactly if it never was routed or that many others intervened |
| DecisionRouting.DecisionRouter.Create | src/hermes_auto/routing/selector.py:216-229 | refused exactly for no candidates; otherwise an empty router whose bounds are those asked for, and at least one |
| DecisionRouting.DecisionRouter.EntryIsSettled | src/hermes_auto/routing/selector.py:259 | a table entry is what the history says the session settled on |
| DecisionRouting.DecisionRouter.OneSessionPerDecision | src/hermes_auto/routing/selector.py:300-304 | no two sessions share a decision object |
| DecisionRouting.DecisionRouter.Evict | src/hermes_auto/routing/selector.py:238-239 | drops the oldest entries and no others |
| DecisionRouting.DecisionRouter.Remember | src/hermes_auto/routing/selector.py:235-240 | keeps the heap invariant: keys are those remembered, decisions the last routes, every entry agrees with its decision |
| DecisionRouting.DecisionRouter.Order | src/hermes_auto/routing/selector.py:256-277 | the order tried is the one chosen for the session's settled candidate |
| DecisionRouting.DecisionRouter.Route | src/hermes_auto/routing/selector.py:242-291 | takes exactly the step of the history model; a refusal changes nothing; the decision carries the tier asked for and, for exactly the candidates that cannot take the request, what they lack |
| DecisionRouting.DecisionRouter.Repin | src/hermes_auto/routing/selector.py:301-304 | the walk changes the pin of the entry about this decision and of no other |
| DecisionRouting.DecisionRouter.Finalise | src/hermes_auto/routing/selector.py:293-304 | keeps the invariant under aliasing and takes the history's step, for decisions new, superseded or evicted |
| Upstream.Iterate.Next | src/hermes_auto/gateway/upstream.py:256-263 | yields the chunks in order, and closes the response when they end or break |
| Upstream.Iterate.Close | src/hermes_auto/gateway/upstream.py:256-263 | closing releases the response exactly if the generator was suspended in its body |
| Upstream.WithFirst.Next | src/hermes_auto/gateway/app.py:126-136 | hands on the first chunk and then the rest, nothing lost or doubled |
| Upstream.WithFirst.Close | src/hermes_auto/gateway/app.py:126-136 | passes the close on exactly if it was started |
| Relay.FailoverIs | src/hermes_auto/gateway/app.py:288-395 | each candidate is tried at most once and in order; the attempts are exactly the failed prefix with their reasons |
| Relay.LoopsAgreeIff | src/hermes_auto/gateway/upstream.py:250-298 | the loops end alike, candidate and attempts and all, exactly if no candidate the streaming one reaches is such |
| Relay.CandidatePayload | src/hermes_auto/gateway/app.py:206-211 | a sent body asks for the candidate's model and is otherwise the forwarded one |
| Relay.ServeRaw | src/hermes_auto/gateway/app.py:244-252 | an error body reaches the client in order, as far as it stayed; released exactly if pulled or cancelled |
| Relay.ServePrefixed | src/hermes_auto/gateway/app.py:126-136 | the same for a stream whose first chunk was pulled ahead; released exactly if pulled |
| Relay.TryStream | src/hermes_auto/gateway/app.py:290-340 | one try fails over, with its reason, exactly for a missing credential, no connection, a status of 401, 403, 429 or at least 500, or a successful answer broken by a coded error before its first chunk; its response is closed unless such a status or handed on |
| Relay.TryCandidates | src/hermes_auto/gateway/app.py:289-358 | the loop ends as `Failover` says, with every earlier response accounted for |
| Relay.StreamLoop | src/hermes_auto/gateway/app.py:288-358 | the router hears of the candidate that answered and of no other, the decision gets the attempts |
| Relay.StreamRequest | src/hermes_auto/gateway/app.py:288-358 | the candidates before the one that answers are exactly those that fail over so, each attempt with its reason; the client gets the answering one's chunks, or as many as it stayed for, and none of any other; which responses stay open, exactly |
| Completion.FlattenAppend | src/hermes_auto/gateway/upstream.py:289-298 | joining chunk by chunk is joining all of them |
| Completion.Complete | src/hermes_auto/gateway/upstream.py:267-298 | reads the whole body or says why not; whatever happens, an opened response is closed |
| Completion.TryOne | src/hermes_auto/gateway/app.py:362-377 | one candidate is passed over, with its reason, exactly for a missing credential, no connection, a body that breaks, or a status of 401, 403, 429 or at least 500 |
| Completion.CompleteRequest | src/hermes_auto/gateway/app.py:360-395 | answers with the whole body of the first candidate that does not fail so, or records all as failed, each with its reason; no error gets through, no response stays open |
| Config.RequiredString | src/hermes_auto/config.py:503-515 | a required string is one that is there, is a string and is not blank, and comes out stripped |
| Config.Reading | src/hermes_auto/config.py:532-586 | an item yields a candidate exactly if it is usable, and then says what the item says |
| Config.ReadsWhatItDescribes | src/hermes_auto/config.py:532-586 | an item yields a candidate exactly if it has the nine keys and no other, five of them strings with something in them that are taken stripped, two of those passing their checks, a tier's name, a positive context window and two flags |
| Config.BuildCandidate | src/hermes_auto/config.py:532-586 | the checks in their order amount to: usable, and its id not seen before |
| Config.BuildCandidates | src/hermes_auto/config.py:518-596 | a list is taken exactly if it is not empty and every item fits after those before it; otherwise it stops at the first that does not; what is taken is what the router may rely on |
| Config.LoadCandidates | src/hermes_auto/config.py:653-690 | from the root block on, refused exactly if that is no mapping or has an unknown key, if one of its blocks is no mapping or is refused, if the list is, or if both an upstream and a list are named; every loaded configuration, the legacy one included, resolves to a non-empty list with unique ids |
| Text.StripIs | src/hermes_auto/commands.py:725 | stripping takes off just what is to go at the two ends |
| CandidateNames.DashedRun | src/hermes_auto/commands.py:725 | a maximal run of characters not allowed becomes one dash, and what is around it is treated on its own |
| CandidateNames.DashedKeeps | src/hermes_auto/commands.py:725 | allowed text stays as it is |
| CandidateNames.BaseIsWellFormed | src/hermes_auto/commands.py:722-727 | the base is non-empty, of allowed characters, at most 64 long, and does not begin with a dash |
| CandidateNames.AllowedAre | src/hermes_auto/commands.py:725 | small letters, digits, dot, underscore and dash are allowed |
| CandidateNames.BaseIs | src/hermes_auto/commands.py:722-727 | the base is the dashed text, stripped of dashes and cut at 64 characters, or "candidate" if nothing is left |
| CandidateNames.VariantIs | src/hermes_auto/commands.py:728-732 | a numbered name is as much of the base as leaves room within 64 characters for a dash and the number |
| Text.DecimalReads | src/hermes_auto/commands.py:731 | the number's digits, without leading zeros |
| CandidateNames.VariantsDiffer | src/hermes_auto/commands.py:728-732 | numbered names differ, however the base is cut |
| CandidateNames.TakenVariants | src/hermes_auto/commands.py:728-732 | the pigeonhole bound: n taken numbered names are n names in use |
| CandidateNames.UsedNames.CandidateId | src/hermes_auto/commands.py:722-734 | ends within that bound with the first free variant, and adds it |
| CandidateNames.NthVariantIsUsable | src/hermes_auto/commands.py:722-734 | such a name is well-formed, survives stripping, and is at most 64 long while the suffix fits |
| CandidateNames.NameAll | src/hermes_auto/commands.py:901-919 | naming any discovery list gives pairwise distinct names |
| YamlText.EditText | src/hermes_auto/commands.py:187-270 | splitting, scanning with indices and joining give the specified text |
| YamlText.SplitIsWell | src/hermes_auto/commands.py:197 | splitting keeps every character, and all lines but the last end in a newline |
| YamlText.PlanReads | src/hermes_auto/commands.py:187-270 | the edited text has exactly the lines of the line edit, also where a last line without newline swallows what is put behind it |
| EditedText.SectionPut | src/hermes_auto/commands.py:184-202 | without a section the text gets an empty line, a comment and the section at its end, character by character |
| EditedText.ListPut | src/hermes_auto/commands.py:208-225 | without a list it gets two lines right under the first `plugins:` line |
| EditedText.ItemPut | src/hermes_auto/commands.py:227-270 | with one it gets one line behind the last item under the first `enabled:` line and as far to the right, or two further than that line if there is no item |
| EditedText.NothingPut | src/hermes_auto/commands.py:204-248 | exactly when no place is found |
| ConfigEdit.ScanForEnabled | src/hermes_auto/commands.py:230-248 | finds the first `enabled:` line of the block at any depth |
| ConfigEdit.ScanForItems | src/hermes_auto/commands.py:250-269 | stops behind the last item of the list, indented or not, and finds its indentation |
| EditMeaning.SwapPlugins | src/hermes_auto/commands.py:187-270 | two texts that differ only inside the plugins section mean the same but for that section |
| EditMeaning.ListGrowsIff | src/hermes_auto/commands.py:187-270 | the one entry an edit touches decides whether the list has grown by the name |
| EditTheorems.NewSectionAdds | src/hermes_auto/commands.py:200-202 | without a plugins section the edit always means the original plus the name |
| EditTheorems.NewListAdds | src/hermes_auto/commands.py:219-225 | without a list it does so exactly if the section is indented by two and has no `enabled` key |
| EditTheorems.LongerListAdds | src/hermes_auto/commands.py:227-270 | with a flat list it does so exactly if the first `enabled:` line under `plugins:` is the section's own and the file ends in a newline or does not end with the list |
| EditTheorems.OnlyInserts | src/hermes_auto/commands.py:187-270 | on a newline-terminated file every edit only puts lines in |
| Documents.Compare | src/hermes_auto/commands.py:396-413 | the comparison on dictionaries: the observed document with the name, and what is then empty, taken out, equals the expected one |
| Documents.WithoutTakesOut | src/hermes_auto/commands.py:402-403 | the name is taken out wherever it stands and every other value stays, in order |
| Documents.AcceptsIff | src/hermes_auto/commands.py:394-415 | what passes is exactly the original with the name put into its list at any places, or with a new list of only the name |
| EditValues.AddedIsAccepted | src/hermes_auto/commands.py:394-415 | where the line edit adds the name to the structure, the values pass the check |
| EditFinds.NewListUnderIsLost | src/hermes_auto/commands.py:218-224 | a new list in a section indented otherwise, or with an `enabled` key, is not found in the values |
| EditFinds.ItemElsewhereIsLost | src/hermes_auto/commands.py:226-248 | an item put under another key leaves the list as it was |
| EditFinds.GluedItemIsNotFound | src/hermes_auto/commands.py:247-270 | an item put behind an open last line is not found |
| EditOutcome.ShapesAgree | src/hermes_auto/commands.py:147-152 | the branch taken by the parsed document is the one taken by the lines |
| EditOutcome.AcceptedIff | src/hermes_auto/commands.py:187-270 | the edit passes the check exactly for files without a section, with a list-less section indented by two, or with a list whose own `enabled:` line comes first and that is not left open at the end of the file; otherwise the name is not found |
| EditDates.ItemKeepsDates | src/hermes_auto/commands.py:226-270 | an item put anywhere into a mapping, at any depth, leaves it with date keys exactly if it had some, also where later keys replace earlier ones |
| EditDates.GlueKeepsDates | src/hermes_auto/commands.py:226-270 | so does a last line that swallows what is put behind it |
| EditDates.LoadedAgain | src/hermes_auto/commands.py:394-398 | loading the edited text raises nothing that loading the original did not; the one document has a date for a key exactly if the other has; the name is there, and the rest as it was, exactly for the files of `WillAdd` |
| Files.NewlinesKeepIff | src/hermes_auto/commands.py:125-144 | reading as text keeps a text exactly if it has no carriage return |
| Setup.ReadExisting | src/hermes_auto/hermes_shim/installer.py:138-154 | a file counts as this project's only if it is readable text that begins with the marker |
| Setup.Install | src/hermes_auto/hermes_shim/installer.py:157-218 | writes the shim or changes nothing, and which of the two where nothing fails; an exception of rendering gets through |
| Setup.Uninstall | src/hermes_auto/hermes_shim/installer.py:310-340 | removes only a file of this project's, or changes nothing |
| Setup.InstallControl | src/hermes_auto/hermes_shim/installer.py:262-307 | both control files are new or, unless undoing fails, both have their old text or absence; an exception of rendering comes before any write |
| Setup.UndoneIff | src/hermes_auto/hermes_shim/installer.py:295-307 | undoing restores the bytes exactly if no carriage return was there |
| Setup.LoadYaml | src/hermes_auto/commands.py:125-144 | the document and its text; YAML's own errors are reported, decoding and constructor errors raise |
| Setup.EnableControlPlugin | src/hermes_auto/commands.py:352-428 | whatever fails: the plugin is enabled in what passes the comparison, or the file is as it was or as its text was unless the restore fails, or it raises - before the write only if the file cannot be loaded, after it only if the check raises, and then the edited text stays; without failures exactly as `Enable` says |
| EnableTheorems.EnableEnds | src/hermes_auto/commands.py:352-428 | for every file of the subset: done, refused or raised, with which bytes in the file and in the backup, by conditions on the file alone |
| EnableExamples.DateKeyRaisesAfter | src/hermes_auto/commands.py:386-398 | a one-line file with a date for a key: the edited file stays on disk |
| EnableExamples.ReplacedDateIsDone | src/hermes_auto/commands.py:394-428 | a date for a key in a mapping that a later key replaces: the plugin is enabled |
| EnableExamples.DateKeyEscapes | src/hermes_auto/commands.py:669-683 | both edits of the command stop at the first one's exception |
| Setup.PutBackIff | src/hermes_auto/commands.py:411-417 | that restore gives back the bytes exactly if there was a file without carriage returns |
| Setup.Rewrite | src/hermes_auto/commands.py:431-484 | any such writer: a checked new document, or the old text put back, or an exception before the write or, from the check, after it; without failures exactly as `Rewritten` says |
| Writers.AddAliasIs | src/hermes_auto/commands.py:444-458 | nothing to do exactly if the alias with its three fields is there; refused exactly for a `model_aliases` that is no mapping; else the alias is added and no other key or alias touched |
| Writers.SetCandidatesIs | src/hermes_auto/commands.py:771-778 | the candidates are put in, a fixed upstream taken out, and nothing else touched; refused exactly for an `auto_router` that is no mapping |
| SetupTheorems.UnreadableStays | src/hermes_auto/commands.py:125-144 | no edit touches a file it cannot load: it raises, or refuses if YAML objects |
| SetupTheorems.PluginEnds | src/hermes_auto/commands.py:352-428 | for any YAML and JSON: when enabling the plugin is done, refused or raises, and with which bytes in the file and beside it |
| SetupTheorems.AliasEnds | src/hermes_auto/commands.py:431-484 | the same for the alias: the document with the alias and nothing else different has to read back as itself |
| SetupTheorems.CandidatesEnd | src/hermes_auto/commands.py:761-803 | the same for the candidates: the document with them has to satisfy the loader |
| Setup.AliasKeepsPlugin | src/hermes_auto/commands.py:431-484 | after both edits one document on disk has the plugin enabled and the alias |
| Setup.WriteCandidates | src/hermes_auto/commands.py:761-803 | done only with the candidates in the file, the rest as it was, and the loader content; else the text put back, or an exception |
| Setup.PutBackOrRemovedIff | src/hermes_auto/commands.py:796-802 | their restore is exact unless the file was empty or had carriage returns |
| Setup.TakeSnapshots | src/hermes_auto/commands.py:305-330 | a snapshot of every managed path, absent, empty or with content |
| Setup.RestoreOne | src/hermes_auto/commands.py:333-349 | restores one path or leaves it |
| Setup.Rollback | src/hermes_auto/commands.py:333-349 | every managed path not reported is as in the snapshot, and no other path is touched |
| Setup.SecureWrite | src/hermes_auto/gateway/auth.py:173-232 | replaces the file or fails, touching no other path |
| Setup.EnsureToken | src/hermes_auto/commands.py:523-550 | an intact token is kept; one that is missing is minted; a damaged one is an error and stays, or is minted anew; exactly so where nothing fails |
| Setup.InstallTokens | src/hermes_auto/commands.py:620-646 | without failures: no problem exactly if a gateway token that is there is intact and both permission checks pass; tokens are kept as above |
| Setup.InstallFiles | src/hermes_auto/commands.py:611-663 | touches only tokens and shims; ends early exactly if rendering raises; otherwise without a problem exactly if the tokens and the shims fit |
| Setup.EditConfig | src/hermes_auto/commands.py:665-683 | touches only the configuration and its backups; without failing operations its files, its problems and whether it raises are those of `BothEdits` |
| Setup.Attempt | src/hermes_auto/commands.py:605-683 | without a failure everything is in place: both tokens, all three shims, and one configuration with the plugin enabled and the alias |
| Setup.CmdSetup | src/hermes_auto/commands.py:568-719 | failing without an unrestored path leaves all files as they were; nothing outside the managed paths changes; without failing operations it stops or escapes exactly as the configuration and the rendering of the shims make it; otherwise it succeeds exactly if a gateway token that is there is intact, both permission checks pass, nothing foreign is where the shims go, there is an executable, and both edits end well, and it is rolled back completely if not; intact tokens are kept |
| Template.SubstituteFills | src/hermes_auto/hermes_shim/template.py:174-189 | the output is the template's text with each hole filled by its literal, for every decomposition and all values |
| Template.ParseDecomposes | src/hermes_auto/hermes_shim/template.py:174-189 | such a decomposition exists and depends on the template alone |
| Template.OneTagAtMost | src/hermes_auto/hermes_shim/template.py:174-178 | the order of the alternation does not matter |
| Template.SubstitutedIffFree | src/hermes_auto/hermes_shim/template.py:170-189 | a placeholder is substituted exactly if one of its occurrences is free: no free occurrence ends on its opening quote |
| Template.GuardedIffSubstituted | src/hermes_auto/hermes_shim/template.py:170-172 | where placeholders share no quotes, exactly if the guard finds it |
| Template.UnsharedIff | src/hermes_auto/hermes_shim/template.py:161-189 | they share none exactly if none of nine short texts is in the template |
| Template.RenderIs | src/hermes_auto/hermes_shim/template.py:125-189 | rendering is refused exactly if some placeholder does not occur, and otherwise gives the text with each hole filled and nothing else changed |
| ShimTemplate.SubstituteLaid | src/hermes_auto/hermes_shim/template.py:174-189 | a template of placeholders between texts without their names: exactly the placeholders are replaced |
| ShimTemplate.LaidSharesNoQuotes | src/hermes_auto/hermes_shim/template.py:61-63 | and they share no quotes |
| ShimTemplate.ShimIs | src/hermes_auto/hermes_shim/template.py:36-122 | the installed layout, each placeholder once: rendering is never refused and gives its text with the three literals in their places |
| Template.GuardIsNotEnough | src/hermes_auto/hermes_shim/template.py:170-172 | a template that passes the guard and keeps a placeholder |
| ThreePasses.ReplaceConcat | src/hermes_auto/hermes_shim/template.py:144-157 | replacing in two halves is replacing in the whole, unless the text lies across the seam |
| ThreePasses.InTurnFills | src/hermes_auto/hermes_shim/template.py:144-157 | three replacements in turn fill each hole with what the later ones make of its literal |
| ThreePasses.InTurnIsOneIff | src/hermes_auto/hermes_shim/template.py:144-157 | on strings, for templates without shared quotes and literals as `repr` writes them: three replacements give the single pass exactly if no literal of a placeholder present holds one replaced later |
| ThreePasses.EdgeMakesATag | src/hermes_auto/hermes_shim/template.py:144-157 | with a shared quote they can differ although no literal holds a placeholder |
| Template.NamesAreProper | src/hermes_auto/hermes_shim/template.py:61-63 | the three actual names meet what the lemmas ask of names |

## Left out

- `start` and `restart`: both consist of `status` calls, a spawn and a kill of the spawned process, all of which may happen at any point of a modelled run; their own return values are not modelled.
- Sockets, HTTP, uvicorn, httpx and Starlette: their outcomes are inputs. Port 0 and the address a socket ends up on are not modelled.
- Clocks: a deadline is a choice made anew at every poll.
- Permission bits, ACLs, directories and temporary files; a file is its content.
- Supervision: a health probe is answered only by a gateway on its own inference port or by a process that never answers with an id of this install; `authority` and `probe_host` are not modelled.
- Salt: the in-process cache and its lock; a process is taken to ask once.
- Redaction.EventIsClean: asks of case folding only that it leaves this module's own strings alone, and of a digest only its length. The heap is a value here, so that the input is not written to is not a statement of its own. A digest gives the same answer throughout one call; exceptions that are not `Exception`, such as an interrupt, are not modelled.
- `_contains_image`, text length, fences, serialisation and fingerprints: what routing reads off a request is an input; a request's score and estimate are recomputed, not stored in the decision.
- The context limit is `9 * n / 10` in integers instead of the floating-point product.
- Session keys are numbers: hashing is taken to be injective.
- Header filtering, `_build`, `UpstreamClientPool` and the relay wrapper: taken as the identity on what is modelled; a candidate's id in an attempt is not sanitised.
- Relay.StreamRequest: concurrency within one request other than the client going away is not modelled.
- Config.Reading: the inside of URLs and credential references is two given checks, and whether the gateway and upstream blocks are accepted is given; messages of errors are not modelled, only where they arise. Unknown keys of kinds that cannot be sorted together raise another error than the loader's own; here they count as unknown.
- CandidateNames.BaseIsWellFormed: the lower-cased text is the input.
- YamlText.PlanReads: what the lexer takes is ASCII text in block style: plain scalars that begin with a letter or a digit, keys that are strings without a colon or dates, lists of scalars, and lists in brackets behind a key. Quotes, anchors, multi-line scalars, comments behind a value, tabs, separators other than the newline, points in time, numbers that could not be constructed, and nesting deep enough to exhaust the interpreter are outside; a line that is not of the subset makes the whole text unreadable here, which says nothing about the code.
- EnableTheorems.EnableEnds: asks that neither `plugins` nor, within it, `enabled` is a key twice. Scalars are told apart by their text, so two spellings of one number count as different.
- Setup.WriteCandidates: how a document is written as text, and whether the loader takes the text, are given functions.
- Setup.CmdSetup: the configuration is either given or read from the Hermes file; reading it from another place counts as given. Managed paths are distinct. Interrupts are not modelled.
- YamlText.SplitIsWell: of the separators that `splitlines` knows only the newline is one here; a text with another holds a character outside the subset.
- Setup.Uninstall: the removal of the empty plugin directory is not modelled.
- ShimTemplate.ShimIs: that the installed text is laid out so, with its three placeholders on lines 61 to 63 and their names nowhere else in it, is read off the source; the text itself is not part of this model.
- Doctor, printing, model discovery, the admin routes, the control plugin's templates and log rotation: wrappers or platform plumbing.
