# Wigo in Dafny

A Dafny model of the parts of Wigo (a distributed monitoring daemon with a web front end) whose correctness does not
show in any single function, with proofs of what they promise. `dafny verify dfyconfig.toml` checks everything.

**Push enrolment.** A push server keeps who waits, who is allowed and which tokens are in force; clients enrol over
RPC, an administrator allows and revokes, the allowed list lives in a file. `PushProtocol` is the server as a state
machine and its invariants over all runs, `TokenHistory` what a valid token proves about the past, `Admission` who is
waiting, allowed or revoked as told by the past, `AllowedList` the file's printer and parser, `PushServer` the objects
with their maps updated in place, each operation proved to take the state machine's step, restarts included.
`PushForest` is what all of this keeps of the server's tree of hosts. `PushClient` composes the client and its
reconnect loop with the server; `PushThread` is the client object driving the server object.

**The federation forest.** Each Wigo holds remote Wigos, recursively. `Forest` gives the pure meaning of pruning,
updating and erasing, and the path-by-path theorems, `ForestUnique` when a uuid occurs only once; `Notifications` the
comparison of two trees; `LocalWigo` the local object; `Monitoring` runs of the up/down monitor; `Groups` the queries by
group; `ProbeList` the round that reconciles a directory's probe list.

**Vendored algorithms of the front end.** `DeepEqual` is underscore's deep comparison on graphs that share and cycle,
`DeepEqualMeaning` and `DeepEqualCycles` what its verdict means without and with cycles; `Timers` and `TimerClosures` are
throttle and debounce as state machines and as closures; `HtmlEscape` escaping and its inverse. `FlotClip`, `FlotLines`,
`FlotOutline`, `FlotSweep` and `FlotArea` are flot's line clipper, its line loop, the outline of one pair of samples, the
two-direction area sweep in the abstract, and the area loop on the point array; `FlotRun` is what that loop traces over
a run of samples, `FlotCover` where its paths begin and that it draws every pair and nothing else.

Objects that the program updates in place are classes whose methods are proved against functions on values; the
theorems are lemmas about those functions. Time, generated tokens, map iteration order, network delivery and the uuid
library's verdict are parameters of the events, so every theorem holds for all of them.

Results a reader may not expect, each with a theorem that says exactly when it happens:

- Deduplication compares with top-level keys only, so a uuid can occur twice in the forest (`DuplicateSurvives`). It
  stays unique exactly as long as no accepted tree repeats a uuid among its kept nodes or brings one that stands below
  another entry (`UniqueUpdateIff`, `RunIsUniqueIff`); a server that is only pushed to is never affected
  (`ServedForestIsUnique`).
- A snapshot that arrives dead makes the monitor speak UP before any DOWN (`DeadArrivalSpeaksUpFirst`). A host's words
  and its liveness stay in step exactly when no accepted snapshot drops it silently (`NotificationsAlternateIff`), and
  the words alone alternate exactly when none follows such a drop (`WordsAlternateIff`).
- Deep comparison of cyclic graphs is one-sided (`CyclesAreOneSided`), and an own property named "constructor" tells
  structurally equal objects apart (`OwnConstructorTellsApart`). On acyclic values it decides equality of the trees and
  of own constructors (`DecidesTreeEquality`); on all graphs, congruence with loops that return to the same places
  (`EqualIffLoopsReturn`).
- A client with a hostname that is empty, longer than 65498 bytes, holds a newline or ends in a carriage return, or
  with a uuid not in canonical form, does not survive a restart, and one that is too long stops the program
  (`LoadSavedIff`).
- One round of the probe list does not reach the directory's listing once two probes vanished together
  (`ReachesListingIff`).

Where comments and code disagree, the code is modelled: the comment on `auth` (src/wigo/push_server.go:237-239)
promises token expiry and a flood check that the code does not have; `Update` shadows its error, so an undecodable
payload is answered like a good one (src/wigo/push_server.go:176-180); `GetToken` shadows its error, so a failing
generator hands out the empty token without an error (src/wigo/authority.go:255-266).

## Model

| member | source | states |
|---|---|---|
| PushProtocol.StepKeepsInvariant | src/wigo/authority.go:104-301 | every RPC, admin action and restart keeps: waiting and allowed disjoint, waiting list within its limit, one token per client, token owners allowed |
| PushProtocol.RunKeepsInvariant | src/wigo/authority.go:44-301 | that invariant in every state any sequence of events reaches from a state that has it, a start on any file in particular (BootedKeepsInvariant) |
| PushProtocol.RemotesAreAllowed | src/wigo/push_server.go:161-192 | when clients build requests from their own Wigo, every host the server keeps is an allowed client, over all runs |
| PushProtocol.RunFollows | src/wigo/authority.go:164-229 | in every reachable state the file is a printing of the allowed map, or the text it was loaded from |
| PushProtocol.RestartKeepsAllowed | src/wigo/authority.go:78-84 | with well-formed clients the file reads back as the allowed map; a restart keeps that map and forgets waiting clients, tokens and remotes |
| PushProtocol.StepKeepsWellFormed | src/wigo/authority.go:104-229 | no event makes a well-formed client list ill-formed, as long as registrations are well-formed |
| PushProtocol.GoodRunsNeverLose | src/wigo/authority.go:120-229 | over all runs with well-formed registrations (length included), restarts too, the server stays up and its file always equals its allowed map |
| TokenHistory.StepToken | src/wigo/authority.go:254-301 | exactly which events give, end or keep the validity of a (client, token) pair |
| TokenHistory.AuthenticIffIssued | src/wigo/push_server.go:132-203 | with fresh tokens a token is valid if and only if an earlier verified Hello of that client was answered with it, with no revocation, newer answered Hello, Goodbye with it or restart since |
| TokenHistory.AcceptedUpdate | src/wigo/push_server.go:161-192 | an Update gets past authentication if and only if its token is so claimed, and then its client is allowed at that moment |
| TokenHistory.TokenWasEarned | src/wigo/push_server.go:132-159 | behind every valid token stands a Hello of its owner that carried the server's signature of the owner's uuid while the owner was allowed |
| TokenHistory.ForgedHelloIsRefused | src/wigo/push_server.go:136-156 | a Hello with any other signature, or of a client not allowed, is refused and changes nothing |
| TokenHistory.SignatureIsForAllowed | src/wigo/push_server.go:111-128 | a signature is given to allowed clients only; the others are told WAITING or NOT ALLOWED |
| TokenHistory.EmptyTokenIsRefused | src/wigo/authority.go:253-269 | the empty token a failing generator hands out never authenticates its client, over any run |
| Admission.StepFollowsLists | src/wigo/authority.go:103-229 | every event puts a client, with its hostname, on either list or takes it off exactly when it should |
| Admission.AllowedIffAdmitted | src/wigo/authority.go:78-229 | over all runs of well-formed clients, restarts included: a client is allowed under a hostname if and only if the file said so at first or it was admitted under it (by the administrator while waiting, or automatically), and it was not revoked since |
| Admission.WaitingIffJoined | src/wigo/authority.go:103-229 | a client waits under a hostname if and only if it registered with it when on neither list and there was room, and was not admitted or revoked nor the server restarted since |
| Admission.RevokedIsOut | src/wigo/authority.go:199-229 | a revocation takes the client off both lists and drops its tokens and its host |
| Admission.RevokedStaysOut | src/wigo/authority.go:199-229 | until it registers again a revoked client stays off both lists and owns no token, whatever happens, restarts included |
| Admission.RevokedIsRefused | src/wigo/push_server.go:108-203 | until then every signature request, Hello, Update and Goodbye of it is answered NOT ALLOWED and changes nothing |
| AllowedList.NormalisedIsCanonical | src/wigo/authority.go:148-154 | re-printing a parsed uuid text gives the canonical form, and leaves canonical text alone |
| AllowedList.LinesOfLine | src/wigo/authority.go:137-140 | a line written with a newline is split off as that line, and the rest unchanged |
| AllowedList.FindsLeftmost | src/wigo/authority.go:132-154 | an entry is read at the first place of the line where a uuid text, a blank and something more stand |
| AllowedList.FindsNothing | src/wigo/authority.go:143-146 | a line without such a place is passed over |
| AllowedList.EntryOfLine | src/wigo/authority.go:131-145 | the scanner drops one trailing carriage return, and the unanchored pattern finds the written uuid and hostname at the start of the line, or nothing for an empty hostname |
| AllowedList.LoadOneLine | src/wigo/authority.go:137-159 | one printed line is fatal if too long or of a refused uuid, is passed over if its hostname is empty, and otherwise adds its client |
| AllowedList.LoadedIsReadable | src/wigo/authority.go:137-154 | whatever the file holds, what is loaded has canonical uuids and non-empty hostnames without newline |
| AllowedList.LoadPrinted | src/wigo/authority.go:120-178 | for any printing order and any map loaded onto, what becomes of each uuid, and when the load is not fatal |
| AllowedList.LoadSavedIff | src/wigo/authority.go:120-178 | loading what was saved gives back exactly the allowed map, for every order, if and only if every client is well-formed, which includes a hostname of at most 65498 bytes |
| PushServer.Authority.constructor | src/wigo/authority.go:78-84 | starts in the booted state of its file, or is stopped exactly when the file is fatal to load |
| PushServer.Authority.AddClientToWaitingList | src/wigo/authority.go:103-118 | the new state, an error exactly when the uuid is new and the list is full, and the New client notification exactly when the client joins |
| PushServer.Authority.LoadAllowedList | src/wigo/authority.go:120-162 | the scanner loop adds what the line-by-line meaning of the file says, and stops exactly on a refused uuid or a line longer than the scanner takes |
| PushServer.Authority.SaveAllowedList | src/wigo/authority.go:164-178 | the file becomes a printing of the allowed map in some order |
| PushServer.PrintOneMore | src/wigo/authority.go:171-173 | one more client adds its uuid, a blank, its hostname and a newline to the file |
| PushServer.Authority.AllowClient | src/wigo/authority.go:180-197 | moves a waiting client to the allowed list and saves; an error exactly for a client not waiting |
| PushServer.Authority.RevokeClient | src/wigo/authority.go:199-229 | removes the client from both lists, every token it owns and its remote, and saves only if it was allowed |
| PushServer.Authority.DropTokensOf | src/wigo/authority.go:217-222 | deleting while iterating removes exactly the tokens of one owner |
| PushServer.Authority.GetToken | src/wigo/authority.go:253-269 | a generated token replaces all previous ones of the client; a failing generator changes nothing and yields the empty token |
| PushServer.Authority.VerifyToken | src/wigo/authority.go:271-284 | an error exactly when the token is not in force for this client |
| PushServer.Authority.RevokeToken | src/wigo/authority.go:286-301 | removes the token exactly when it is in force for this client |
| PushServer.PushServer.Register | src/wigo/push_server.go:89-106 | takes the state machine's step, automatic acceptance included, and sends exactly the notification of a client that joins the waiting list |
| PushServer.PushServer.GetUuidSignature | src/wigo/push_server.go:108-128 | answers as the state machine: signature, WAITING or NOT ALLOWED |
| PushServer.PushServer.Hello | src/wigo/push_server.go:130-159 | takes the step and gives the answer of the state machine |
| PushServer.PushServer.Update | src/wigo/push_server.go:161-192 | takes the step and gives the answer of the state machine for legacy, undecodable and decodable payloads, and sends exactly the callbacks an accepted update owes |
| PushServer.PushServer.Goodbye | src/wigo/push_server.go:194-203 | takes the step and gives the answer of the state machine |
| PushServer.PushServer.Allow | src/wigo/authority.go:180-197 | takes the step of the administrator's allow event |
| PushServer.PushServer.Revoke | src/wigo/authority.go:199-229 | takes the step of the administrator's revoke event, forest included |
| PushServer.PushServer.Restart | src/wigo/authority.go:44-84 | a new server object on the file the old one left takes the restart step, or none exists exactly when that step stops the program |
| PushServer.Start | src/wigo/authority.go:44-84 | a new local Wigo and a new authority on a file are the booted state |
| PushForest.ServedForestIsClean | src/wigo/push_server.go:161-192 | over all runs of the server, revocations and restarts included, hosts stand under their own uuids and the server's own uuid is not among them |
| PushForest.ServedForestIsUnique | src/wigo/push_server.go:175-184 | a server that is only pushed to keeps its clients one level deep, so no uuid ever occurs twice |
| PushForest.StepKeepsClean | src/wigo/push_server.go:93-203 | every event keeps the forest clean |
| PushForest.FlatIsUnique | src/wigo/push_server.go:175-184 | a forest one level deep and keyed by uuids repeats none |
| PushForest.AcceptedUpdateIsStored | src/wigo/push_server.go:161-186 | an authentic, decodable update is stored under its uuid, without the hosts below it, at its arrival time, its status recomputed from its probes |
| PushForest.WhoChangesTheForest | src/wigo/push_server.go:93-203 | nothing changes the forest but authentic, decodable updates, revocations of hosts in it, and restarts |
| PushForest.UpdateAnswers | src/wigo/push_server.go:161-192 | what an update is answered: refused, too old, or accepted, which an undecodable one looks like too |
| PushClient.ReconnectStores | src/wigo/push_client.go:91-142 | a move ends in RECONNECT exactly when it stores one of the missing files |
| PushClient.ReconnectsAreFiles | src/wigo.go:633-669 | over any run, whatever the network and everybody else do, RECONNECTs plus files still missing equal files missing at the start; at most two |
| PushClient.OthersKeepOnTrack | src/wigo/push_server.go:89-203 | events of others that do not touch the client keep its signature, place and token good |
| PushClient.ClientMove | src/wigo/push_client.go:112-247 | one friendly move waits only while not allowed, or comes one move closer, or is an accepted update; never an error |
| PushClient.ThreeConnections | src/wigo.go:633-669 | over a friendly run every move is accounted for and at most three connections are opened |
| PushClient.AllowedNeverWaits | src/wigo/push_client.go:172-230 | over a friendly run an allowed client stays allowed and never waits |
| PushClient.ReachesAcceptedUpdate | src/wigo.go:633-669 | a client that is allowed gets an update accepted within six friendly moves of its own and three connections |
| PushClient.ReachesOnceAllowed | src/wigo.go:633-669 | a client that becomes allowed on the way, however long it waited, gets an update accepted within its next six moves; the whole run opens at most three connections |
| PushClient.ReachAfter | src/wigo.go:633-669 | a run in two parts leads where its second part leads from the end of the first |
| PushClient.StartsOnTrack | src/wigo/push_client.go:36-143 | a disconnected client with no signature file or a good one is on track |
| PushClient.FailureDisconnects | src/wigo.go:639-666 | after any failure, a lost call, a lost reply or a refusal in any phase, the client drops connection and token and keeps its files |
| PushClient.FailureRecovers | src/wigo.go:639-666 | so every failure puts a client with a good signature file back on track |
| PushClient.RefusedPush | src/wigo.go:661-666 | an update with a token no longer in force is an error and changes nothing on the server |
| PushClient.RefusedPushRecovers | src/wigo.go:633-669 | a client whose token is gone, say by revocation, gives up at its next update and, once allowed again, gets an update accepted within its next six moves and three connections |
| PushThread.PushClientObject.constructor | src/wigo/push_client.go:36-39 | a new client object is a disconnected client with the files found on disk |
| PushThread.PushClientObject.Close | src/wigo.go:643-666 | dropping the client object forgets token and signature, the files stay |
| PushThread.PushClientObject.Request | src/wigo/push_client.go:112-247 | the client's pending call takes the server's part of the move and brings its reply |
| PushThread.PushClientObject.Turn | src/wigo.go:633-669 | one turn of the loop against the server object is one move of the composed system, for every network outcome |
| PushThread.PushClientObject.Handle | src/wigo/push_client.go:128-247 | what the client does with each reply |
| Forest.WorstIsUnique | src/wigo/global.go:314-329 | the recomputed status is the only number that is at least 0, at least every probe status, and reached |
| Forest.KeysMatchByPath | src/wigo/global.go:350-355 | the success condition of Deduplicate, said by paths: every strict descendant is reached by its own uuid |
| Forest.PruneKeeps | src/wigo/global.go:348-369 | after pruning exactly the nodes whose path meets no dropped key remain |
| Forest.PruneKeepsKeys | src/wigo/global.go:348-369 | pruning keeps every node under its own uuid |
| Forest.PrunedAvoids | src/wigo/global.go:356-363 | after pruning no descendant has a dropped uuid |
| Forest.UpdateByPath | src/wigo/global.go:371-398 | which paths exist after an accepted update |
| Forest.NodeAtUpdated | src/wigo/global.go:371-398 | what stands at each path after an accepted update |
| Forest.UpdateOutcome | src/wigo/global.go:371-398 | an update changes nothing exactly when it carries the local uuid or a node under a foreign key; otherwise it is stored as sent, stamped with its arrival, dead if it or its predecessor was, and the local status is recomputed |
| Forest.UpdateKeepsClean | src/wigo/global.go:371-398 | an update, accepted or not, keeps keys equal to uuids and the local uuid out of the forest |
| Forest.RunIsClean | src/wigo/global.go:371-398 | that invariant over all runs of updates from an empty forest |
| Forest.OwnUuidRepeatsIff | src/wigo/global.go:356-363 | a stored entry contains its own uuid again if and only if it was new and came with it on a kept path (one cause of repetition; ForestUnique.UniqueUpdateIff has them all) |
| Forest.DuplicateSurvives | src/wigo/global.go:356-363 | one reachable forest in which two paths name the same host |
| ForestUnique.UuidUpdated | src/wigo/global.go:371-398 | which uuid stands at each path after an accepted update |
| ForestUnique.UniqueUpdateIff | src/wigo/global.go:348-398 | after an accepted update no uuid occurs twice if and only if none did outside the replaced entry, no two kept incoming nodes share one, and no kept incoming node carries one that stands below another entry |
| ForestUnique.StaysUniqueIff | src/wigo/global.go:348-398 | from a forest without repetition an update keeps it so if and only if it is rejected or does not clash |
| ForestUnique.RunIsUniqueIff | src/wigo/global.go:371-398 | over every run of updates from an empty forest no uuid ever occurs twice if and only if no accepted update clashes |
| ForestUnique.ThinnerIsUnique | src/wigo/authority.go:223-227 | dropping nodes never makes a uuid occur twice |
| ForestUnique.ThinnerIsClean | src/wigo/authority.go:223-227 | dropping nodes keeps keys equal to uuids and the local uuid out of the forest |
| ForestUnique.DroppingThins | src/wigo/authority.go:223-227 | removing a top-level entry only drops nodes |
| Forest.EraseKeeps | src/wigo/global.go:820-839 | erasing keeps exactly the nodes at levels below the depth |
| Forest.EraseRecomputes | src/wigo/global.go:822-839 | a visited node keeps everything but its remotes and its status, which becomes that of its probes; the root only where the cut is at the root |
| Forest.EraseErase | src/wigo/global.go:820-839 | two erasures are one at the smaller depth, recomputed statuses included |
| Notifications.NewNotificationProbe | src/wigo/notification.go:104-121 | sends exactly when enabled, both probes present and the worse status high enough |
| Notifications.CompareProbes | src/wigo/global.go:400-441 | one notification per changed probe of one host, none for new or vanished ones |
| Notifications.DueSplit | src/wigo/global.go:400-454 | a notification is due either for the root or below exactly one child |
| Notifications.CompareTwoWigosAndRaiseNotifications | src/wigo/global.go:400-454 | sends exactly one notification for each probe on both sides of a shared path whose status changed with the worse status high enough, and no other |
| LocalWigo.WorstStatus | src/wigo/global.go:314-329 | the loop computes the worst status for any iteration order |
| LocalWigo.EraseRemoteWigos | src/wigo/global.go:820-839 | the recursive loop computes the erasure for any iteration order |
| LocalWigo.Local.constructor | src/wigo/global.go:58-90 | a local Wigo starts alive, with status 100 and no remotes |
| LocalWigo.Local.RecomputeGlobalStatus | src/wigo/global.go:314-329 | sets the status to the worst probe status and nothing else |
| LocalWigo.Local.Deduplicate | src/wigo/global.go:348-369 | succeeds if and only if every strict descendant is stored under its own uuid, and then yields the pruned tree whatever the iteration order |
| LocalWigo.Local.AddOrUpdateRemoteWigo | src/wigo/global.go:371-398 | the new tree is the update's meaning; a rejected update changes nothing; the callbacks added are exactly those due, once each |
| LocalWigo.Local.CheckHost | src/wigo/global.go:236-247 | the loop body for one host: its new state and what is said |
| LocalWigo.Local.Monitor | src/wigo/global.go:232-251 | one sweep: the new tree, and one callback for each host whose liveness no longer fits its age |
| LocalWigo.DueIgnoresStamp | src/wigo/global.go:391-395 | the comparison does not depend on the time stamp set after it |
| LocalWigo.OwesWhatChanges | src/wigo/global.go:371-454 | the callbacks of an update are exactly the status changes of probes whose host stands in the forest before and after it |
| Monitoring.StepFitsIff | src/wigo/global.go:232-398 | one event keeps a host's words and liveness in step if and only if it does not drop the host silently |
| Monitoring.StepStaysOut | src/wigo/global.go:232-398 | what is out of step stays so under every event |
| Monitoring.NotificationsAlternateIff | src/wigo/global.go:232-398 | over every run a host's words strictly alternate DOWN, UP, DOWN and the last one tells its liveness if and only if no accepted snapshot dropped it silently |
| Monitoring.WordsAlternateIff | src/wigo/global.go:232-398 | the words about a host alternate if and only if nothing is said about it after a silent drop |
| Monitoring.NotificationsAlternate | src/wigo/global.go:232-312 | in particular words alternate and tell the liveness over every run whose snapshots arrive alive |
| Monitoring.DeadArrivalSpeaksUpFirst | src/wigo/global.go:371-398 | without the assumption that snapshots arrive alive the first word can be UP |
| Monitoring.SweepTellsTheTruth | src/wigo/global.go:236-247 | right after a sweep a host is alive if and only if it was heard of recently enough |
| Monitoring.SweepTouches | src/wigo/global.go:232-312 | a sweep changes a host only when its liveness changes: all but the message going up, statuses to 999 going down |
| Monitoring.SnapshotLastsTimeout | src/wigo/global.go:236-247 | a live snapshot keeps a host alive for exactly the timeout from its arrival, unless the host was dead |
| Monitoring.StampIsLastHeard | src/wigo/global.go:371-398 | over every run the forest holds exactly the hosts it heard of, each stamped with the last accepted snapshot |
| Monitoring.AliveIffHeardLately | src/wigo/global.go:232-251 | after a sweep at the end of any run a host is alive if and only if it was last heard of within the timeout |
| Monitoring.LastHeardIsLatest | src/wigo/global.go:371-398 | on a monotone clock the last snapshot is late enough if and only if some accepted one is |
| Monitoring.AliveIffHeardSince | src/wigo/global.go:232-398 | on a monotone clock a host is alive after a sweep if and only if an accepted snapshot of it arrived within the timeout |
| Monitoring.DownUntilSnapshot | src/wigo/global.go:289-312 | a host forced to 999 stays as it is, unmentioned, until a new snapshot of it |
| Monitoring.SweepThins | src/wigo/global.go:232-251 | a sweep leaves every uuid where it is |
| Monitoring.StateIsClean | src/wigo/global.go:232-398 | over every run of updates and sweeps keys equal uuids and the local uuid stays out of the forest |
| Groups.IsStringInArray | src/wigo/utils.go:80-89 | finds the string exactly when it is there |
| Groups.ListGroupsNames | src/wigo/global.go:841-869 | no duplicates, and exactly the non-empty groups of strict descendants and of the local host |
| Groups.MergeNames | src/wigo/global.go:861-865 | merging keeps the list free of duplicates and adds exactly the other names |
| Groups.GroupSummary | src/wigo/global.go:871-909 | one entry per matching host with its own name, message, status, liveness and probes, and the maximum of 0 and their host and global statuses |
| Groups.SummariseOneMore | src/wigo/global.go:894-906 | adding one child's summaries keeps entries and status exact |
| Groups.ListedIffSummarised | src/wigo/global.go:841-909 | at the local root a non-empty group is listed if and only if its summary is not empty |
| ProbeList.ProbeDirectory.AddNew | src/wigo.go:201-219 | appends the new names in listing order |
| ProbeList.ProbeDirectory.RemoveDeleted | src/wigo.go:221-240 | removes the first vanished name and its result, and no other, because removing ends the walk |
| ProbeList.ProbeDirectory.DeleteProbeByName | src/wigo/host.go:77-83 | drops the probe's result if there is one |
| ProbeList.ProbeDirectory.Update | src/wigo.go:195-240 | a round is both passes, on the list and on the results |
| ProbeList.RoundReconciles | src/wigo.go:195-240 | after a round every listed name is in the list, no name is twice, and one vanished name less remains |
| ProbeList.DropsWhatLeaves | src/wigo.go:221-240 | the result a round drops is that of the name that leaves the list |
| ProbeList.RoundsDrain | src/wigo.go:165-240 | while the directory does not change, vanished names leave in order, one a round |
| ProbeList.ReachesListingIff | src/wigo.go:165-240 | after k rounds the list equals the listing if and only if at most k names had vanished |
| DeepEqual.PairedFinds | public/bower_components/underscore/underscore.js:939-946 | the stack search finds exactly the objects on the path, with a partner they were compared to |
| DeepEqual.Pushed | public/bower_components/underscore/underscore.js:955-957 | the measure that makes the recursion end on cyclic graphs |
| DeepEqual.Comparison.Eq | public/bower_components/underscore/underscore.js:902-992 | terminates on every finite graph, leaves both stacks as found, and gives the verdict of its specification |
| DeepEqual.Comparison.SearchStack | public/bower_components/underscore/underscore.js:939-946 | the loop from the top finds the innermost pairing |
| DeepEqual.Comparison.EqArrays | public/bower_components/underscore/underscore.js:955-969 | compares lengths, then elements from the last to the first |
| DeepEqual.Comparison.EqProperties | public/bower_components/underscore/underscore.js:970-992 | two plain objects are alike when key sets and values agree |
| DeepEqual.Comparison.EqEach | public/bower_components/underscore/underscore.js:971-979 | the first loop checks every property for any iteration order and counts them |
| DeepEqual.Comparison.CountMatches | public/bower_components/underscore/underscore.js:980-987 | counting down past zero decides equality of the key sets |
| DeepEqualMeaning.Explore | public/bower_components/underscore/underscore.js:939-992 | a successful comparison leaves a set of visited pairs that match one another, given the pairs on the path |
| DeepEqualMeaning.EqualMeansBisimilar | public/bower_components/underscore/underscore.js:994-997 | isEqual is true only of bisimilar graphs, cycles included |
| DeepEqualMeaning.EqualMeansCongruent | public/bower_components/underscore/underscore.js:994-997 | isEqual is true only of graphs that are bisimilar and agree on own constructors |
| DeepEqualMeaning.DecidesTreeEquality | public/bower_components/underscore/underscore.js:947-992 | on acyclic values the verdict is structural equality and agreeing own constructors, if and only if |
| DeepEqualMeaning.EqualIsStructural | public/bower_components/underscore/underscore.js:994-997 | without own constructors isEqual on acyclic values is exactly structural equality |
| DeepEqualMeaning.OwnConstructorTellsApart | public/bower_components/underscore/underscore.js:947-954 | two structurally equal objects that isEqual tells apart |
| DeepEqualMeaning.CyclesAreOneSided | public/bower_components/underscore/underscore.js:939-946 | two bisimilar loops that isEqual refuses from one side and accepts from the other |
| DeepEqualCycles.EqualMeansLoopsReturn | public/bower_components/underscore/underscore.js:939-992 | when isEqual is true, every loop a simple chain closes on the first side closes at the same place on the second |
| DeepEqualCycles.LoopsReturnMeansSame | public/bower_components/underscore/underscore.js:939-992 | congruent graphs whose loops return compare equal at the end of every simple chain, with the chain on the stacks |
| DeepEqualCycles.EqualIffLoopsReturn | public/bower_components/underscore/underscore.js:902-997 | on every finite graph, cycles included, isEqual is true if and only if the graphs are congruent and their loops return to the same places |
| HtmlEscape.UnescapeEscape | public/bower_components/underscore/underscore.js:1135-1161 | unescape undoes escape on every string |
| HtmlEscape.EscapeUnescapeIff | public/bower_components/underscore/underscore.js:1135-1161 | escape undoes unescape if and only if the string is well escaped |
| HtmlEscape.EscapeIsWellEscaped | public/bower_components/underscore/underscore.js:1135-1161 | escape's output holds special characters only in entities of the table |
| HtmlEscape.EscapeTable | public/bower_components/underscore/underscore.js:1136-1144 | which character becomes which entity; every other character stays |
| HtmlEscape.EscapeConcat | public/bower_components/underscore/underscore.js:1155-1159 | escaping works character by character |
| HtmlEscape.EscapedIsInert | public/bower_components/underscore/underscore.js:1153-1161 | escaped text holds no angle bracket and no quote |
| Timers.ThrottleStepLog | public/bower_components/underscore/underscore.js:680-708 | one call or firing keeps invocations at least `wait` apart |
| Timers.ThrottleStepValid | public/bower_components/underscore/underscore.js:680-708 | one call or firing keeps the whole throttle invariant |
| Timers.ThrottleRunValid | public/bower_components/underscore/underscore.js:675-708 | for every leading/trailing combination, over every run: invocations spaced, one timer at most, latest arguments never lost |
| Timers.ThrottleDelivers | public/bower_components/underscore/underscore.js:686-691 | a firing timer delivers the latest arguments, due within `wait` of their call |
| Timers.LeadingInvokesIff | public/bower_components/underscore/underscore.js:692-707 | with leading calls on, a call goes through at once if and only if it is the first or at least `wait` after the last invocation |
| Timers.OpeningCallWaits | public/bower_components/underscore/underscore.js:694-705 | with leading calls off, the call that opens a window waits, and is due exactly `wait` later |
| Timers.DebounceStepValid | public/bower_components/underscore/underscore.js:714-745 | one call or firing keeps the invariant and invokes only when allowed |
| Timers.DebounceRunValid | public/bower_components/underscore/underscore.js:710-745 | over every run: one timer at most, trailing invocations at least `wait` after the latest call, immediate ones on a first call or after a pause |
| Timers.RearmsOnce | public/bower_components/underscore/underscore.js:717-728 | an early timer is re-armed for exactly `wait` after the latest call, and then ends the burst |
| Timers.DebounceInvokesIff | public/bower_components/underscore/underscore.js:714-745 | immediate mode invokes on exactly the calls with no timer pending; otherwise exactly the firings at least `wait` after the latest call invoke, with its arguments |
| Timers.CallLeavesTimer | public/bower_components/underscore/underscore.js:730-737 | every call leaves exactly one timer pending |
| TimerClosures.Host.SetTimeout | public/bower_components/underscore/underscore.js:703-705 | adds one timer with a new number, due after the delay |
| TimerClosures.Host.ClearTimeout | public/bower_components/underscore/underscore.js:698 | removes that timer and no other |
| TimerClosures.Throttled.constructor | public/bower_components/underscore/underscore.js:680-685 | the closure starts in the state machine's start state |
| TimerClosures.Throttled.Call | public/bower_components/underscore/underscore.js:692-707 | the closure takes the state machine's step on a call |
| TimerClosures.Throttled.Later | public/bower_components/underscore/underscore.js:686-691 | the timer's closure takes the state machine's step on a firing |
| TimerClosures.Debounced.constructor | public/bower_components/underscore/underscore.js:714-715 | the closure starts in the state machine's start state |
| TimerClosures.Debounced.Call | public/bower_components/underscore/underscore.js:730-744 | the closure takes the state machine's step on a call |
| TimerClosures.Debounced.Later | public/bower_components/underscore/underscore.js:717-728 | the timer's closure takes the state machine's step on a firing |
| FlotClip.YMinIsExact | public/js/plugins/flot/jquery.flot.js:1731-1744 | the first stage keeps exactly the points of the segment at or above the lower border |
| FlotClip.YMaxIsExact | public/js/plugins/flot/jquery.flot.js:1746-1758 | the second stage keeps exactly the points at or below the upper border |
| FlotClip.XMinIsExact | public/js/plugins/flot/jquery.flot.js:1760-1772 | the third stage keeps exactly the points at or right of the left border |
| FlotClip.XMaxIsExact | public/js/plugins/flot/jquery.flot.js:1774-1786 | the fourth stage keeps exactly the points at or left of the right border |
| FlotClip.ClipIsIntersection | public/js/plugins/flot/jquery.flot.js:1731-1786 | the four stages emit exactly the intersection of the segment with the axis box |
| FlotClip.SkipsIffOutside | public/js/plugins/flot/jquery.flot.js:1731-1786 | a segment is skipped if and only if no point of it is in the box |
| FlotClip.SplitAt | public/js/plugins/flot/jquery.flot.js:1731-1786 | cutting a segment at one of its points loses and adds nothing |
| FlotLines.OutsideIsNull | public/js/plugins/flot/jquery.flot.js:1807-1816 | reading before or after the samples is reading a gap |
| FlotLines.SegmentDrawn | public/js/plugins/flot/jquery.flot.js:1788-1793 | leaving out the move when the pen is already there draws the same segment |
| FlotLines.PlotLine | public/js/plugins/flot/jquery.flot.js:1718-1796 | what is drawn is exactly the visible part of each segment between neighbouring samples, in order |
| FlotLines.PictureIsExact | public/js/plugins/flot/jquery.flot.js:1718-1796 | a point is drawn if and only if it is in the box and on the data between two neighbouring samples that are no gaps |
| FlotOutline.ClipXIsExact | public/js/plugins/flot/jquery.flot.js:1841-1869 | the two horizontal stages keep exactly the part of the segment in the x range |
| FlotOutline.CutParts | public/js/plugins/flot/jquery.flot.js:1894-1917 | cutting both ends at the borders loses nothing: the clamped segment is the clamped three parts |
| FlotOutline.OutlineIsClamped | public/js/plugins/flot/jquery.flot.js:1878-1936 | the outline of a pair is exactly its data segment clamped to the value axis |
| FlotSweep.StaysOnCourse | public/js/plugins/flot/jquery.flot.js:1808-1839 | each turn of the loop, away from its turning points, at the gap and at the start, keeps what was drawn plus what is left equal to the two-pass reference |
| FlotSweep.SweepProgress | public/js/plugins/flot/jquery.flot.js:1808-1839 | the loop's measure: segmentStart advances, or the sweep turns, or it moves along |
| FlotSweep.Decisions | public/js/plugins/flot/jquery.flot.js:1809-1836 | the flag tests hold exactly at the gap the sweep turns at and at the sample it began with |
| FlotSweep.SweepFillsPaths | public/js/plugins/flot/jquery.flot.js:1808-1938 | the reference fills every path it opens exactly once before it opens another and before it ends |
| FlotArea.PairIsClamped | public/js/plugins/flot/jquery.flot.js:1838-1936 | on the point array: the outline of two samples is exactly their segment within the x range clamped to the value axis, nothing next to a gap, never outside the box |
| FlotArea.PairEmits | public/js/plugins/flot/jquery.flot.js:1838-1876 | away from its turning points a state of the loop draws the pair it moves over, opening a path if none is open |
| FlotArea.DrawPair | public/js/plugins/flot/jquery.flot.js:1838-1936 | the loop body draws what the state emits and opens a path exactly when it should |
| FlotArea.PlotLineArea | public/js/plugins/flot/jquery.flot.js:1798-1938 | the flag-driven loop terminates on every array of samples, gaps anywhere, and draws exactly the two-pass reference |
| FlotArea.AreaFillsPaths | public/js/plugins/flot/jquery.flot.js:1798-1938 | whatever the data, every path the drawing opens is filled exactly once |
| FlotRun.OutlineEnds | public/js/plugins/flot/jquery.flot.js:1878-1936 | an outline starts and ends at the clamped ends of its segment |
| FlotRun.PathsJoin | public/js/plugins/flot/jquery.flot.js:1878-1936 | a path continued from where it ends gains nothing but the continuation |
| FlotRun.TopIsClamped | public/js/plugins/flot/jquery.flot.js:1808-1936 | over a run of samples in the x range up to a gap, the top traces exactly the clamped data |
| FlotRun.BottomIsClamped | public/js/plugins/flot/jquery.flot.js:1808-1936 | back from the gap, the bottom traces exactly the clamped data of the second height |
| FlotCover.OpeningIsBelow | public/js/plugins/flot/jquery.flot.js:1871-1876 | a path is opened straight below the first point of its outline, at zero clamped to the value axis |
| FlotCover.AreaPathsRise | public/js/plugins/flot/jquery.flot.js:1798-1938 | every path of the whole drawing begins so |
| FlotCover.AreaDrawsEveryPair | public/js/plugins/flot/jquery.flot.js:1798-1938 | whatever the gaps, every pair of neighbouring samples that shows is outlined forward at its upper and back at its lower height |
| FlotCover.AreaIsOnlyPairs | public/js/plugins/flot/jquery.flot.js:1798-1938 | every line of the drawing belongs to such an outline |

## Left out

- Concurrency inside a handler: each RPC, admin action, sweep and update is one atomic step; the maps of Authority are unlocked in the program and the monitor may hold a stale pointer.
- The tree of Wigos is a value, not shared objects: updates in place below the local Wigo are modelled as new trees, so aliasing between a stored tree and its sender is not captured.
- Map iteration order is arbitrary in every loop; entries inserted or removed by others while a loop runs are not modelled.
- TLS, RSA and SHA, gob, net/rpc, JSON, SQLite, SMTP and HTTP callbacks, OpenTSDB: a signature is a deterministic function of the uuid, and a payload arrives legacy, undecodable or decoded.
- Read and write errors, a missing private key, and the program's fatal exits other than those a line of the allowed list causes.
- Which uuid variants the uuid library accepts (a parameter).
- Polling and sleeping: a client that polls while WAITING repeats its move; timeouts are lost calls or lost replies; the client's Goodbye is never called by the loop.
- Status labels, notification texts, the list of probes in error, hostname compatibility, text summaries, command line, HTTP handlers, configuration, certificate generation, FindRemoteWigoByUuid.
- Revocation in the monitor's runs: revoking drops a host outside the two events modelled.
- Probe execution, directory reading, disabled probes and the removal of a whole directory.
- Deep comparison: NaN, signed zero, boxed primitives, wrapped `_` objects, sparse arrays, inherited enumerable properties, constructors other than Object and Array, and own "constructor" properties holding Object or Function itself.
- Throttle and debounce: re-entrant functions, the `this` context and return values, and calls across a clock set back.
- flot: rounding of floating point, the mapping from data to canvas coordinates and its offsets, shadows and styles, and undefined heights beside a present x (a null height counts as 0).
- Linked lists of probe names are sequences; removing an element ends the walk, as container/list does.
- Lines of the area drawing that join outlines clipped at the x range: FlotRun covers runs whose samples lie in the range, FlotArea.PairIsClamped every pair.
- PushServer.Authority.LoadAllowedList: says nothing about the allowed map when loading stops the program.
- Groups.GroupSummary: does not carry the message of each probe into a host's summary, because a probe is its status here.
- DeepEqualMeaning.EqualMeansBisimilar: has no converse, because it is false on cyclic graphs (CyclesAreOneSided); DeepEqualCycles.EqualIffLoopsReturn has the exact condition.
