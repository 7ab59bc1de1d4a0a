# Matchmaking and leaderboards: a verified model

This project models the stateful parts of the Hyrule Warriors server: the
matchmaking gatherings with their tracking log, the search for sessions, and the
leaderboard. `dafny verify dfyconfig.toml` checks everything.

## Gatherings

`Manager.MatchmakingManager` is the service: a class whose fields are the tables
(`gatherings`, `matchmake_sessions`, `persistent_gatherings`,
`community_participations`) and the tracking log, kept as one list in the order the
rows are written. Its methods are the database steps and the request handlers, with
their loops. Handlers hold one mutex, so each of them is one atomic step.

`Actions` names eight atomic changes of the store, with the guard under which the
handlers make them. Every handler is specified by the exact store it leaves and by a
run of enabled actions that it amounts to (`Leads`). The run properties in `Safety`
are proved once, for all runs of actions, and therefore hold for all runs of handlers.
`Handlers` takes a fresh server, request by request, into the states that `Safety`
names as counterexamples. Beside each specification function there is a statement on the columns themselves,
which does not name it. The handlers that edit a session's own columns
(participation, attributes, buffer, progress score) appear as the action
`EditSession`, which may change everything but the number of attributes.

Conventions:
- Statements succeed, there is no restart inside a run, and `bigserial` ids are fresh.
- A query without ORDER BY returns its rows in any order; ties in an ORDER BY too.
- `array_length` of an empty array is NULL, so an empty session can neither be found
  nor loaded for joining, although it can stay registered.
- PIDs of connections are not 0, which the code uses for nobody. PIDs that a client
  lists as guests may be 0. The repository itself does not turn PID 0 away
  (`globals/accounts.go:20-59` and `globals/password_from_pid.go:22-37` derive a password
  for any PID); the login tokens of the account server, or the accounts in
  `settings.json`, decide, and neither is part of this model.
  `Safety.DepartureKeepsMembership` says exactly what depends on it.
- Maxima fit the `integer` column, and guest lists are shorter than 2^31.
- The hooks are those wired in `nex/secure.go`: both clean-ups do nothing, and the
  default join permission asks for open participation.
- `GetPersistentGatheringByID` never reports an error
  (`internal/nex-protocols-common-go-patch/matchmake-extension/database/get_persistent_gathering_by_id.go:75-77`), so a participation is counted even
  for a community that does not exist.

Two places differ from what the comments beside them say. The comment at
`internal/nex-protocols-common-go-patch/match-making/database/end_gathering_participation.go:77-78` claims the new owner is never 0 because
the gathering would have been unregistered; the owner can only be 0 if a PID 0
connection owned it. And a maximum of 0 is unlimited in one join path and always full
in the other.

## Search

`Criteria` parses and compiles the text fields and compares the compiled conjunction
with a direct reading of the text. `Search` runs the queries, including the uint32
limit shared by several criteria. The number 98 for friends-only sessions only
matters in `FindMatchmakeSession`; the other search ignores it. Criteria carry ranges
of their own only from NEX 4.0 on
(`internal/nex-protocols-common-go-patch/matchmake-extension/database/find_matchmake_session_by_search_criteria.go:279`), and this server is 3.8.13
(`globals/config.go:25-27`); the lemmas about the shared limit cover both cases.

## Leaderboard

`Leaderboard` is the conditional upsert, `Ranks` the window functions (`<window
function>` of SQL, ISO/IEC 9075-2) as walks along the sorted rows together with their
meaning as counts, and `Rankings` the query with its modes, clamps and paging.

## Model

| member | source | states |
|---|---|---|
| Participants.WithoutKeepsOrder | internal/nex-protocols-common-go-patch/match-making/database/remove_participant_from_gathering.go:14 | array_remove keeps exactly the slots of the other players, in their old order (against an independent list of kept slots) |
| Participants.WithoutCounts | internal/nex-protocols-common-go-patch/match-making/database/remove_participant_from_gathering.go:14 | array_remove drops every copy of the player and keeps everybody else's multiplicity |
| Participants.JoinThenLeave | internal/nex-protocols-common-go-patch/match-making/database/join_gathering.go:49-61 | a join of k copies followed by a leave restores the old participant list, for every list without the player and every k |
| Participants.RemoveDuplicates | internal/nex-protocols-common-go-patch/globals/utils.go:24-35 | the loop returns the first occurrences: no repeats, same members, in order |
| Participants.DedupFirstOther | internal/nex-protocols-common-go-patch/match-making/database/migrate_gathering_ownership.go:16-23 | searching the deduplicated list for a new owner finds the first other player of the full list |
| Participants.FirstOtherMeans | internal/nex-protocols-common-go-patch/match-making/database/migrate_gathering_ownership.go:18-23 | the new owner stands right after a run of entries that are all the old owner; without one the search leaves 0 |
| Manager.MatchmakingManager.RegisterGathering | internal/nex-protocols-common-go-patch/match-making/database/register_gathering.go:12-68 | a fresh registered row without participants, and its tracking row |
| Manager.MatchmakingManager.RemoveParticipantFromGathering | internal/nex-protocols-common-go-patch/match-making/database/remove_participant_from_gathering.go:12-24 | SessionVoid without a row; otherwise the list loses every copy of the player and nothing else changes |
| Manager.MatchmakingManager.UpdateSessionHost | internal/nex-protocols-common-go-patch/match-making/database/update_session_host.go:10-27 | owner and host of one row are set, or SessionVoid |
| Manager.MatchmakingManager.UnregisterRow | internal/nex-protocols-common-go-patch/match-making/database/unregister_gathering.go:11-32 | the registered bit is cleared and logged, or SessionVoid |
| Manager.MatchmakingManager.MigrateGatheringOwnership | internal/nex-protocols-common-go-patch/match-making/database/migrate_gathering_ownership.go:14-75 | the first other participant becomes owner; if that is nobody (PID 0 included) the gathering is unregistered and 0 returned; SessionVoid without a row |
| Manager.MatchmakingManager.SettleDeparture | internal/nex-protocols-common-go-patch/match-making/database/end_gathering_participation.go:37-102 | the multi-step tail of a departure (persistence flags, end, migration, host hand-over) amounts to the one-step row change Departed and exactly its tracking rows |
| Departures.DepartedOnColumns | internal/nex-protocols-common-go-patch/match-making/database/end_gathering_participation.go:37-84 | that change on the columns: persistent gatherings lose the player only, empty ones end, an owner is succeeded by the first remaining entry exactly if DisconnectChangeOwner is set and that entry is not 0, and a departed host is replaced by the owner |
| Departures.DepartureIsLogged | internal/nex-protocols-common-go-patch/match-making/database/end_gathering_participation.go:32-102 | its tracking rows are what the row before and after it differ in, in the order of the writes |
| Manager.MatchmakingManager.EndGatheringParticipation | internal/nex-protocols-common-go-patch/match-making/database/end_gathering_participation.go:16-126 | the error cases; otherwise the new row, column by column, and the tracking rows, column by column |
| Manager.MatchmakingManager.DisconnectFrom | internal/nex-protocols-common-go-patch/match-making/database/disconnect_participant.go:49-140 | one round of the disconnect loop: exempt rows stay, by the flags on the row; any other row departs and is logged as a disconnect |
| Manager.MatchmakingManager.DisconnectParticipant | internal/nex-protocols-common-go-patch/match-making/database/disconnect_participant.go:16-165 | the loop visits each registered gathering of the player once, in any order the database chooses |
| Manager.MatchmakingManager.EndMatchmakeSessionsParticipation | internal/nex-protocols-common-go-patch/matchmake-extension/database/end_matchmake_sessions_participation.go:10-29 | the loop visits each matchmake session that lists the player once; dead ones are refused and unchanged |
| Departures.ExitAllRows | internal/nex-protocols-common-go-patch/match-making/database/disconnect_participant.go:25-83 | whatever the visiting order, the rows end up the same: each visited gathering departs on its own, all others are untouched |
| Departures.ExitAllLeaves | internal/nex-protocols-common-go-patch/match-making/database/disconnect_participant.go:25-83 | each visited row is left as if the player had left that gathering alone |
| Departures.ExitAllClears | internal/nex-protocols-common-go-patch/match-making/database/disconnect_participant.go:49-61 | after the loop the player is in no visited, still registered gathering that was open to departure |
| Departures.ExitAllKeepsOthers | internal/nex-protocols-common-go-patch/match-making/database/disconnect_participant.go:57 | everybody else keeps order and multiplicity in every gathering |
| Requests.EndedEverywhere | internal/nex-protocols-common-go-patch/matchmake-extension/database/end_matchmake_sessions_participation.go:11-26 | after EndMatchmakeSessionsParticipation the player is in no registered matchmake session |
| Requests.EndedRows | internal/nex-protocols-common-go-patch/matchmake-extension/database/end_matchmake_sessions_participation.go:11-26 | row by row: exactly the registered matchmake sessions that list the player are left, all other rows and tables stay |
| Requests.DisconnectedEverywhere | internal/nex-protocols-common-go-patch/match-making/database/disconnect_participant.go:19-54 | after a disconnect every registered gathering that still lists the player is one of the exempt persistent ones |
| Requests.DroppedRows | internal/nex-protocols-common-go-patch/match-making/database/disconnect_participant.go:19-54 | row by row: exactly the registered gatherings that list the player are left, but those with the persistence flag and the communities without the leave flag |
| Manager.MatchmakingManager.JoinGathering | internal/nex-protocols-common-go-patch/match-making/database/join_gathering.go:19-132 | answer with the uint32 arithmetic (max 0 is unlimited); while the sum does not wrap SessionFull and AlreadyParticipated exactly by population and list; a listed caller is never admitted; success appends k copies and takes k slots |
| Manager.MatchmakingManager.JoinGatheringWithParticipants | internal/nex-protocols-common-go-patch/match-making/database/join_gathering_with_participants.go:19-142 | answer with the uint32 arithmetic (max 0 is full); below 2^32 each error exactly by population and list; success appends the guests, after the caller unless already listed |
| Requests.JoinTestExactly | internal/nex-protocols-common-go-patch/match-making/database/join_gathering.go:39-43 | on every sound row the uint32 sum cannot wrap: SessionFull exactly when the true population would exceed a non-zero maximum |
| Requests.JoinVerdictMeans | internal/nex-protocols-common-go-patch/match-making/database/join_gathering.go:39-47 | so on every sound row the whole answer is about the true population, and a listed player is never admitted |
| Requests.GroupTestExactly | internal/nex-protocols-common-go-patch/match-making/database/join_gathering_with_participants.go:33-35 | the same for the other join path, for guest lists below 2^31 |
| Requests.GroupTestWraps | internal/nex-protocols-common-go-patch/match-making/database/join_gathering_with_participants.go:33 | for all lists: that test lets an overfull join through exactly when the sum reaches 2^32 and wraps below the maximum |
| Manager.MatchmakingManager.UpdateParticipationCount | internal/nex-protocols-common-go-patch/matchmake-extension/database/update_persistent_gathering_participation_count.go:10-31 | the counter upsert; a count that does not fit uint32 is stored but reported as an error |
| Manager.MatchmakingManager.JoinMatchmakeSession | internal/nex-protocols-common-go-patch/matchmake-extension/database/join_matchmake_session.go:13-43 | join, then one numbered participation when the session is attached to a community |
| Manager.MatchmakingManager.JoinMatchmakeSessionWithParticipants | internal/nex-protocols-common-go-patch/matchmake-extension/database/join_matchmake_session_with_participants.go:14-48 | group join, then one numbered participation for each guest and the caller, repeats included |
| Requests.CountedAllEverywhere | internal/nex-protocols-common-go-patch/matchmake-extension/database/join_matchmake_session_with_participants.go:21-42 | the counter loop raises each count by the times the player is listed, and no other count |
| Manager.MatchmakingManager.CreateMatchmakeSession | internal/nex-protocols-common-go-patch/matchmake-extension/database/create_matchmake_session.go:15-100 | owner = host = creator, both tables written, system password off |
| Manager.MatchmakingManager.CreatePersistentGathering | internal/nex-protocols-common-go-patch/matchmake-extension/database/create_persistent_gathering.go:13-54 | owner = creator, host = 0 |
| Manager.MatchmakingManager.CheckGatheringForParticipation | internal/nex-protocols-common-go-patch/matchmake-extension/database/check_gathering_for_participation.go:13-26 | Ok exactly when the gathering is registered and lists everybody named |
| Manager.MatchmakingManager.EndParticipation | internal/nex-protocols-common-go-patch/match-making-ext/end_participation.go:11-32 | the exact error of each refusal; otherwise the Exit action |
| Manager.MatchmakingManager.ConnectionEnded | internal/nex-protocols-common-go-patch/match-making/protocol.go:167-171 | the handler is a run of enabled actions and leaves the player only in exempt gatherings |
| Manager.MatchmakingManager.ClaimSession | internal/nex-protocols-common-go-patch/match-making/update_session_host.go:16-88 | who may claim the host's seat and the owner's, the exact errors, and the new row with both tracking rows |
| Manager.MatchmakingManager.UpdateSessionHostV1 | internal/nex-protocols-common-go-patch/match-making/update_session_host_v1.go:16-84 | the exact errors; the flag decides whether ownership moves too |
| Manager.MatchmakingManager.UpdateSessionURL | internal/nex-protocols-common-go-patch/match-making/update_session_url.go:14-48 | the exact errors; changes the host only |
| Manager.MatchmakingManager.UnregisterGathering | internal/nex-protocols-common-go-patch/match-making/unregister_gathering.go:13-38 | owner only, registered only |
| Manager.MatchmakingManager.OpenCommunity | internal/nex-protocols-common-go-patch/matchmake-extension/create_community.go:13-51 | refused exactly for an invalid offer (the clock is a parameter) or at the creation cap; otherwise it cannot fail and the creator is the only participant |
| Manager.MatchmakingManager.OpenSession | internal/nex-protocols-common-go-patch/matchmake-extension/create_matchmake_session.go:12-63 | exact store on every path, including the departures before a rejection; InvalidArgument exactly by the lengths; the fresh row and the stored session column by column; the creator plays only there |
| Requests.FirstJoin | internal/nex-protocols-common-go-patch/match-making/database/join_gathering.go:39-61 | the first join of a fresh session: refused exactly when the party exceeds a non-zero maximum |
| Manager.MatchmakingManager.OpenSessionWithParam | internal/nex-protocols-common-go-patch/matchmake-extension/create_matchmake_session_with_param.go:13-60 | exact store on every path of the variant with guests |
| Manager.MatchmakingManager.JoinById | internal/nex-protocols-common-go-patch/matchmake-extension/join_matchmake_session.go:11-58 | every answer exactly, on the columns of the row and the session; empty sessions cannot be loaded; on success the caller holds exactly the slots asked for |
| Manager.MatchmakingManager.JoinByIdWithParam | internal/nex-protocols-common-go-patch/matchmake-extension/join_matchmake_session_with_param.go:12-72 | exact answer and store with participation check, passwords and both behaviours |
| Manager.MatchmakingManager.AutoMatchmake | internal/nex-protocols-common-go-patch/matchmake-extension/auto_matchmake_postpone.go:12-78 | from every sound state a valid request cannot fail: the caller ends up once, in exactly one registered session, a suitable one nearest in attribute 1 if there is any, and the answer is its population |
| Manager.MatchedOnColumns | internal/nex-protocols-common-go-patch/matchmake-extension/auto_matchmake_postpone.go:53-76 | that session on the columns: the one found with the caller last, or a fresh one with the caller alone |
| Requests.SettledMeans | internal/nex-protocols-common-go-patch/matchmake-extension/auto_matchmake_postpone.go:53-66 | settling on a found session changes nothing; otherwise one empty session of the caller's is added, without its system password |
| Manager.MatchmakingManager.AutoMatchmakeWithCriteria | internal/nex-protocols-common-go-patch/matchmake-extension/auto_matchmake_with_search_criteria_postpone.go:20-112 | exact store on every path; on success the caller plays in exactly one registered session, in k slots; refused callers play nowhere |
| Manager.MatchmakingManager.SearchOrOpen | internal/nex-protocols-common-go-patch/matchmake-extension/auto_matchmake_with_search_criteria_postpone.go:72-108 | search, password check, opening and joining: the exact outcome as a run of enabled actions |
| Manager.FoundOnColumns | internal/nex-protocols-common-go-patch/matchmake-extension/auto_matchmake_with_search_criteria_postpone.go:89-108 | a found session: PermissionDenied exactly for a password, SessionFull exactly for want of room, otherwise the party is appended |
| Manager.OpenedOnColumns | internal/nex-protocols-common-go-patch/matchmake-extension/auto_matchmake_with_search_criteria_postpone.go:80-108 | nothing found: a fresh session with the party, or SessionFull exactly when the party exceeds the maximum |
| Manager.MatchmakingManager.AutoMatchmakeWithParam | internal/nex-protocols-common-go-patch/matchmake-extension/auto_matchmake_with_param_postpone.go:13-87 | the same with guests: exact store, one session, SessionFull by the true population, and after the checks no other error than a password or an index panic |
| Manager.GroupOutcomeOnColumns | internal/nex-protocols-common-go-patch/matchmake-extension/auto_matchmake_with_param_postpone.go:48-87 | its answers on the columns, where a maximum of 0 is always full |
| Manager.VacancyMayNotSuffice | internal/nex-protocols-common-go-patch/matchmake-extension/auto_matchmake_with_search_criteria_postpone.go:72-104 | with vacancy-only criteria a found session is too small for the party only if a later criterion found it that asks for fewer seats than the first one |
| Handlers.VacancyNotEnough | internal/nex-protocols-common-go-patch/matchmake-extension/auto_matchmake_with_search_criteria_postpone.go:72-108 | and for every two such numbers of seats a request that the server gets ends in SessionFull that way |
| Requests.JoinsExactlyOne | internal/nex-protocols-common-go-patch/matchmake-extension/auto_matchmake_postpone.go:34-76 | a player in no session who joins one, with any company, plays there and nowhere else, in as many slots as were added |
| Requests.LoneJoin | internal/nex-protocols-common-go-patch/match-making/database/join_gathering.go:39-47 | a player in no session is refused exactly when the party is too large, and never as a participant already |
| Requests.LoneGroupJoin | internal/nex-protocols-common-go-patch/match-making/database/join_gathering_with_participants.go:33-57 | the same with guests, where a maximum of 0 is always full |
| Requests.VacancyAdmits | internal/nex-protocols-common-go-patch/match-making/database/join_gathering.go:39-61 | one more player is admitted to a fresh session and to any with a vacancy |
| Requests.CanonicalExactly | internal/nex-protocols-common-go-patch/matchmake-extension/auto_matchmake_with_search_criteria_postpone.go:14-18 | two game modes meet exactly when they differ at most in the region bits; canonical modes are fixed points |
| Invariants.ApplyKeepsInv | internal/nex-protocols-common-go-patch/match-making/database/end_gathering_participation.go:16-126 | every enabled action keeps all invariants: row soundness, table joins, creation cap, numbering, faithful log |
| Invariants.ApplyReplays | internal/nex-protocols-common-go-patch/match-making/database/end_gathering_participation.go:27-102 | replaying the tracking rows of any one action takes the table before it to the table after it, old values and totals checked |
| Safety.HandlersStayReachable | internal/nex-protocols-common-go-patch/match-making/protocol.go:160-171 | what holds of all reachable states holds after every handler |
| Safety.LogRebuildsGatherings | internal/nex-protocols-common-go-patch/match-making/protocol.go:65-148 | in every run, replaying the whole tracking log from nothing rebuilds owner, host, participants and registered bit of every gathering |
| Safety.CountsMatchLog | internal/nex-protocols-common-go-patch/matchmake-extension/database/update_persistent_gathering_participation_count.go:12-24 | in every run the counts logged for a player and community are 1, 2, 3, ... and the stored count is their number (below 2^32) |
| Safety.MembershipExactly | internal/nex-protocols-common-go-patch/match-making/database/end_gathering_participation.go:38-102 | owner and host are among the participants in every reachable, registered, non-empty session, exactly for terms with neither persistence flag set or with a single slot; for all others `AfterOwnerLeft` is a counterexample |
| Safety.SlotOrderExactly | internal/nex-protocols-common-go-patch/match-making/database/join_gathering.go:56-61 | the owner holds slot 0 in every such session exactly when, in addition, participants may not change the owner; for all others `AfterOwnerLeft` or `AfterOwnerClaim` is a counterexample |
| Handlers.OwnerLeavesPair | internal/nex-protocols-common-go-patch/match-making-ext/end_participation.go:11-32 | three requests, for all those terms, bring a fresh server into the store AfterOwnerLeft |
| Handlers.GuestClaimsPair | internal/nex-protocols-common-go-patch/match-making/update_session_host.go:16-88 | three requests bring a fresh server into the store AfterOwnerClaim |
| Safety.DepartureKeepsMembership | internal/nex-protocols-common-go-patch/match-making/database/end_gathering_participation.go:38-84 | for every ordinary session and departure that leaves it registered: owner and host still play, exactly unless the host, not being the owner, leaves while the owner is PID 0 |
| Safety.NobodyMustNotConnect | internal/nex-protocols-common-go-patch/match-making/database/end_gathering_participation.go:79 | such a session comes about when a connection with PID 0 opens one |
| Safety.OwnersAreSomebody | internal/nex-protocols-common-go-patch/match-making/database/migrate_gathering_ownership.go:16-25 | and in no other way: in every reachable state no owner is PID 0, although PID 0 may be listed as a guest |
| Safety.CapacityHeld | internal/nex-protocols-common-go-patch/match-making/database/join_gathering.go:39-43 | in every reachable state a non-zero maximum is respected, across both join paths |
| Safety.UnregisteredIsFinal | internal/nex-protocols-common-go-patch/match-making/database/find_gathering_by_id.go:16 | over every run an unregistered gathering never changes again |
| Safety.CreationMaxHeld | internal/nex-protocols-common-go-patch/matchmake-extension/create_community.go:28-37 | in every reachable state nobody owns more than four registered communities |
| Safety.CommunityStaysWithCreator | internal/nex-protocols-common-go-patch/matchmake-extension/database/get_matchmake_session_by_id.go:53-56 | over every run a community keeps its owner and never has another participant |
| Search.FindMatchmakeSession | internal/nex-protocols-common-go-patch/matchmake-extension/database/find_matchmake_session.go:15-145 | None exactly when no session suits; otherwise a suitable one, and no suitable one is nearer in attribute 1, the differences written out |
| Search.SuitsExactly | internal/nex-protocols-common-go-patch/matchmake-extension/database/find_matchmake_session.go:53-69 | the WHERE clause on the columns: openness, passwords, vacancy, maxima, mode, codeword, attributes but the second, friends |
| Criteria.ParseUint | internal/nex-protocols-common-go-patch/matchmake-extension/database/find_matchmake_session_by_search_criteria.go:86 | accepts exactly the decimal numerals below 2^16 or 2^32, with their value |
| Criteria.CompileField | internal/nex-protocols-common-go-patch/matchmake-extension/database/find_matchmake_session_by_search_criteria.go:116-138 | the clause of one field selects exactly the values its text reads (nothing, a number, a pair); None exactly for ill-formed text |
| Criteria.NumberReads | internal/nex-protocols-common-go-patch/matchmake-extension/database/find_matchmake_session_by_search_criteria.go:99-106 | a printed number asks for that number, exactly below 2^16 or 2^32 |
| Criteria.PairReads | internal/nex-protocols-common-go-patch/matchmake-extension/database/find_matchmake_session_by_search_criteria.go:84-98 | two printed numbers with a comma ask for what lies between them, ends included |
| Criteria.CompileAttribs | internal/nex-protocols-common-go-patch/matchmake-extension/database/find_matchmake_session_by_search_criteria.go:76-109 | the attribute loop, without attribute 1 |
| Criteria.Compile | internal/nex-protocols-common-go-patch/matchmake-extension/database/find_matchmake_session_by_search_criteria.go:76-220 | the compiled conjunction accepts a row exactly when the criterion read directly does; None exactly when a filter field is ill-formed |
| Criteria.FlagsFilter | internal/nex-protocols-common-go-patch/matchmake-extension/database/find_matchmake_session_by_search_criteria.go:71-74 | each exclusion filters by its own column and by nothing else |
| Criteria.VacancyFilters | internal/nex-protocols-common-go-patch/matchmake-extension/database/find_matchmake_session_by_search_criteria.go:211-220 | VacantOnly filters by room for the seats asked for |
| Criteria.FixedColumns | internal/nex-protocols-common-go-patch/matchmake-extension/database/find_matchmake_session_by_search_criteria.go:64-70 | every criterion asks for the fixed columns, and one without texts and flags for nothing else |
| Criteria.FieldsFilter | internal/nex-protocols-common-go-patch/matchmake-extension/database/find_matchmake_session_by_search_criteria.go:116-162 | the two participant texts filter by their own columns |
| Criteria.ModesFilter | internal/nex-protocols-common-go-patch/matchmake-extension/database/find_matchmake_session_by_search_criteria.go:164-209 | the mode and system type texts filter by their own columns |
| Criteria.AttributesFilter | internal/nex-protocols-common-go-patch/matchmake-extension/database/find_matchmake_session_by_search_criteria.go:76-109 | each attribute text filters by its own attribute, and the second not at all |
| Search.ChooseOrder | internal/nex-protocols-common-go-patch/matchmake-extension/database/find_matchmake_session_by_search_criteria.go:222-277 | the ORDER BY of each selection method; an index panic exactly when attribute 1 is used and missing |
| Search.NearestByAttribute | internal/nex-protocols-common-go-patch/matchmake-extension/database/find_matchmake_session_by_search_criteria.go:226-244 | the neighbour methods: each page lists nearer sessions first by attribute 1, and one result is a nearest of all that meet the criterion |
| Search.NearestByProgress | internal/nex-protocols-common-go-patch/matchmake-extension/database/find_matchmake_session_by_search_criteria.go:245-253 | the same by progress score |
| Search.NearestBySum | internal/nex-protocols-common-go-patch/matchmake-extension/database/find_matchmake_session_by_search_criteria.go:254-273 | the same by the sum of both differences, which may cancel out |
| Search.TargetMeans | internal/nex-protocols-common-go-patch/matchmake-extension/database/find_matchmake_session_by_search_criteria.go:228-232 | the number of a criterion is the one printed in its second attribute, and 0 otherwise |
| Search.PanicsExactly | internal/nex-protocols-common-go-patch/matchmake-extension/database/find_matchmake_session_by_search_criteria.go:228-262 | indexing panics exactly for a well-formed criterion that needs the second attribute and has none |
| Search.ProgressNeedsSource | internal/nex-protocols-common-go-patch/matchmake-extension/database/find_matchmake_session_by_search_criteria.go:248-260 | without a session that is looked for the progress methods return nothing |
| Search.PageMembers | internal/nex-protocols-common-go-patch/matchmake-extension/database/find_matchmake_session_by_search_criteria.go:289-354 | a page holds different, populated sessions that meet the criterion |
| Search.PageSize | internal/nex-protocols-common-go-patch/matchmake-extension/database/find_matchmake_session_by_search_criteria.go:279-287 | with vacancy criteria exactly as many as the range leaves of the matches |
| Search.SearchOne | internal/nex-protocols-common-go-patch/matchmake-extension/database/find_matchmake_session_by_search_criteria.go:279-354 | one round: a window of the sorted matches, minus rows with a NULL count; ill-formed criteria contribute nothing |
| Search.FindBySearchCriteria | internal/nex-protocols-common-go-patch/matchmake-extension/database/find_matchmake_session_by_search_criteria.go:19-360 | the reply is one page per criterion, each limited by what was found before; an index panic exactly when some criterion causes it |
| Search.RemainingExactly | internal/nex-protocols-common-go-patch/matchmake-extension/database/find_matchmake_session_by_search_criteria.go:286 | the uint32 difference is the plain one exactly while at most Length sessions were found |
| Search.AtMostLength | internal/nex-protocols-common-go-patch/matchmake-extension/database/find_matchmake_session_by_search_criteria.go:281-287 | without ranges of their own the criteria never make the limit wrap and return at most Length sessions |
| Search.AtMostSpent | internal/nex-protocols-common-go-patch/matchmake-extension/database/find_matchmake_session_by_search_criteria.go:281-287 | with any ranges: the limit does not wrap, and the total is bounded, whenever what the criteria before each sharing one may spend is within Length |
| Search.FullPagesWrap | internal/nex-protocols-common-go-patch/matchmake-extension/database/find_matchmake_session_by_search_criteria.go:286 | past that bound the limit does wrap, as soon as the earlier pages are full |
| Search.OwnRangeMakesLimitWrap | internal/nex-protocols-common-go-patch/matchmake-extension/database/find_matchmake_session_by_search_criteria.go:281-287 | two criteria and two sessions where it wraps: Length 1, four results |
| Search.EarliestWins | internal/nex-protocols-common-go-patch/matchmake-extension/database/find_matchmake_session_by_search_criteria.go:34-354 | with Length 1 and vacancy criteria the answer starts with a session of the earliest criterion with more matches than it skips, and is empty exactly when there is no such criterion |
| Leaderboard.RankingDatabase.InsertRanking | database/hyrulewarriors_insert_ranking.go:12-81 | the conditional upsert of both tables, column by column, with the exact condition for storing; other keys untouched |
| Leaderboard.SignedRoundTrip | database/parse_ranking_data_list.go:44-45 | 64-bit identifiers survive the signed columns, and only 0 is stored as 0 |
| Rankings.UploadReadBack | database/parse_ranking_data_list.go:41-52 | a line made from an uploaded entry has every field of the upload |
| Leaderboard.UploadsKeepOrder | database/hyrulewarriors_insert_ranking.go:27-57 | after any uploads every row has a category row, and a category's order never changes |
| Leaderboard.StoredIsKept | database/hyrulewarriors_insert_ranking.go:40-57 | for any interleaving of uploads, of any orders, the stored row of a key is the survivor of its own history |
| Leaderboard.StoredIsBest | database/hyrulewarriors_insert_ranking.go:40-57 | that row is the best from the last forced upload on, at the time it was first reached, when these uploads, the newest aside, share one order |
| Leaderboard.KeptIsBestExactly | database/hyrulewarriors_insert_ranking.go:40-57 | and it is the best for all scores exactly then |
| Ranks.UniformOrder | database/hyrulewarriors_get_rankings.go:80-108 | in a sound board the CASE keys with their NULLs compare all rows of a category by score in the category's order, and ROW_NUMBER's ordering is total |
| Ranks.RankCountsBetter | database/hyrulewarriors_get_rankings.go:96-100 | RANK, computed along any sort the window allows, is one more than the number of strictly better rows |
| Ranks.RowNumberCountsAhead | database/hyrulewarriors_get_rankings.go:101-108 | ROW_NUMBER is one more than the number of rows ahead |
| Ranks.RankExactly | database/hyrulewarriors_get_rankings.go:96-100 | smaller RANK exactly for better rows |
| Ranks.RowNumberExactly | database/hyrulewarriors_get_rankings.go:101-108 | ROW_NUMBER is injective into 1..n and refines RANK |
| Ranks.EveryNumberTaken | database/hyrulewarriors_get_rankings.go:101-108 | and every number from 1 to n is taken, in every sound board |
| Ranks.RowNumberBreaksTies | database/hyrulewarriors_get_rankings.go:105-107 | equal scores are numbered by update time, then owner, then unique id |
| Ranks.BaseMeans | database/hyrulewarriors_get_rankings.go:86-91 | base holds the stored rows of the category whose group byte, if one is asked for, is the given number |
| Rankings.NumberOnColumns | database/hyrulewarriors_get_rankings.go:95-109 | both calculations as counts over scores, times and identifiers |
| Ranks.UploadMovesRanks | database/hyrulewarriors_insert_ranking.go:53-56 | the uploader's own RANK: when it worsens and when it improves, each exactly, by the orders, the mode and the rows between the old score and the new one; so a voluntary upload never worsens it where the orders agree |
| Ranks.UploadMovesOthers | database/hyrulewarriors_insert_ranking.go:40-57 | any acceptable upload: another row's RANK changes by what the uploader's row contributes, at most one in either direction |
| Ranks.MismatchedUploadNeverImproves | database/hyrulewarriors_insert_ranking.go:53-56 | with a disagreeing stored order a voluntary upload never improves the RANK, and worsens it exactly when another row lies between |
| Ranks.MismatchedUploadCanWorsen | database/hyrulewarriors_insert_ranking.go:27-57 | four uploads after which it has worsened |
| Rankings.ParseRankingDataList | database/parse_ranking_data_list.go:11-62 | one line per row; the total of the last row, or 0 |
| Rankings.NumberRows | database/hyrulewarriors_get_rankings.go:92-110 | every base row gets a number the window function allows |
| Rankings.RunQuery | database/hyrulewarriors_get_rankings.go:69-143 | the window of the full answer with each row's number and the full count |
| Rankings.GetRankings | database/hyrulewarriors_get_rankings.go:31-165 | errors exactly for unsupported requests; otherwise the page of the full answer with its count, and in User and Friend-range mode the own rows only |
| Rankings.ReplyOnColumns | database/hyrulewarriors_get_rankings.go:56-67 | a reply on the columns: the clamps of limit and offset, which row is in which line, and every field |
| Rankings.ReplyIsOwn | database/hyrulewarriors_get_rankings.go:115-119 | User and Friend-range mode: every line names the principal, and the total is the number of the principal's rows |
| Rankings.UserIsOwn | database/hyrulewarriors_get_rankings.go:115-119 | User and Friend-range mode: the whole answer is exactly the stored rows with that owner and, unless 0, that unique id |
| Rankings.NearIsAround | database/hyrulewarriors_get_rankings.go:120-126 | Near mode: exactly the rows numbered within L/2 of the smallest number of an own row |
| Rankings.AnswerSorted | database/hyrulewarriors_get_rankings.go:140 | every answer comes by number, owner and unique id |
| Rankings.SameAnswer | database/hyrulewarriors_get_rankings.go:140 | the final order leaves the database no choice |
| Rankings.SameNumberInAllModes | database/hyrulewarriors_get_rankings.go:92-126 | a row has the same number in every mode, page and for every principal, however ties were sorted |
| Rankings.RangeIsWhole | database/hyrulewarriors_get_rankings.go:114 | Range mode lists every row of the filtered category once, by non-decreasing rank |
| Rankings.PagesPartition | database/hyrulewarriors_get_rankings.go:140-142 | pages at offsets 0, L, 2L, ..., asked separately, concatenate to a prefix of that list, and to all of it in the end |
| Rankings.NearPrecedesFew | database/hyrulewarriors_get_rankings.go:120-126 | Near mode, both calculations, any ties: at most L/2 rows stand before the principal's best tie group |
| Rankings.NearIsContiguous | database/hyrulewarriors_get_rankings.go:120-142 | Near mode under ROW_NUMBER: at most L rows, consecutive numbers, the principal's best row among them |
| Rankings.ShownExactly | database/hyrulewarriors_get_rankings.go:140-142 | in every mode a selected row is on the first page exactly when fewer than L selected rows are listed before it |
| Rankings.BestRowShownExactly | database/hyrulewarriors_get_rankings.go:120-142 | Near mode: a row with the principal's best number is in the reply exactly when the rows numbered up to L/2 below it and its ties with smaller identifiers are fewer than L |
| Rankings.PrincipalShownExactly | database/hyrulewarriors_get_rankings.go:120-142 | and the principal is in the reply exactly when one of their best rows meets that condition |
| Rankings.NearShowsSmallTies | database/hyrulewarriors_get_rankings.go:120-142 | Near mode shows the principal's best row whenever its tie group fits into L - L/2 places |
| Rankings.NearMayHideThePrincipal | database/hyrulewarriors_get_rankings.go:96-142 | three uploads after which the principal is not in the reply under RANK |

## Left out

- Notifications: who is told about a change is not modelled, and neither are the verbose flags, which only choose the recipients.
- Wire formats, login, tickets, NAT traversal, DataStore and S3: plumbing over libraries that are not part of this model.
- Failed statements and restarts: a handler is not a database transaction, so the run properties are about runs whose statements succeed.
- Random order, clocks, session keys, buffers, descriptions beyond their length checks: opaque. The time at which a community is checked is a parameter.
- Read-only listings of communities and notification data: filters with nothing to prove across calls.
- The common data attached to a ranking row: a left join by key.
- Criteria.ParseUint: models the base-10 conversion only, which is how the code calls it.
- Search.AtMostLength: is the case without own ranges; AtMostSpent and FullPagesWrap are about all ranges.
- Leaderboard.StoredIsBest: says nothing about a key whose uploads disagree on the order; KeptIsBestExactly shows that no such statement holds for all scores.
- Ranks.UploadMovesRanks: is about RANK, not ROW_NUMBER, and about uploaders who are in the filtered group before and after; an upload may also change the groups the filter looks at.
