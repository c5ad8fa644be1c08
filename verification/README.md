# A verified model of the Contest Management System's stateful engines

The Contest Management System (CMS) runs programming contests. This project models the parts of it that
keep state which has to agree with something simpler, and proves that it does, for every input and over
every run:

- **The ranking's scores** (`ScoreSpec`, `ScoreLaws`, `ScoreMeaning`, `Score`, `Freeze`, `GlobalHistory`,
  `Mirror`, `MirrorSteps`, `Holding`, `ScoringStore`, `FrozenBoard`). The history of a user's score on a
  task is kept incrementally in three score modes. It is proved equal to a replay of all changes, and independent of the
  order in which things arrived; answers as of a freeze time are proved to depend on the data up to that
  time alone.
- **The ranking's stores** (`Stores`, `Tracking`, `Deletion`, `Server`, `StoreMeaning`, `BoardMeaning`).
  Creations, updates, merges and cascading deletions, in any order and of any data, keep every reference valid and keep a listener that
  applies every score notice up to date. The scores stay what a restart would compute, and for updates the
  exact condition of that is proved.
- **The event publisher** (`Hex`, `EventFormat`, `EventParser`, `EventLog`, `EventReplay`, `Publisher`,
  `EventBrowser`).
  Bounded caches and eviction marks are proved to be functions of an unbounded log. From that follow exact
  delivery over a whole run and the absence of any trace of the types that a client must not get. What
  `format_event` prints is read back by the parser of sections 9.2.5 and 9.2.6 of the HTML Living Standard,
  so that what a browser dispatches over a whole run is known too.
- **Dumps** (`Codec`, `DecimalIds`, `DumpModel`, `DumpExporter`, `DumpImporter`, `DumpRoundTrip`,
  `DumpMeaning`). The worklist of the exporter, the two passes of the importer, and the round trip:
  an isomorphism between the reachable part of the original graph and what is restored.
- **Visibility windows** (`Visibility`): which view the public gets, and when the write guard may let data
  through.
- **The file cache** (`FileCopy`, `FileCache`, `FileService`): copy loops under short reads and writes,
  and a protocol of interleaved processes over a content-addressed store.
- **Structural merges** (`StructuralMerge`): updating collections of objects in place with object identity.

Each imperative part is a class or a method that is proved against a function or a predicate on values,
and the laws are proved about those. The modules and lemmas whose names say `Meaning` or `Mean` state what
the definitions come to in the terms of the data: fields, times, keys, classes and bytes.
`dafny verify dfyconfig.toml` checks everything.

## Where the code does less than one might expect

These are results of the model. For each there is a lemma with an input, one with the exact condition, or
both.

- A submission that moves to another user or task loses its changes, a change that is replaced stays where
  the old one was, and a new score mode does not rebuild histories (`MoveSubmissionMirrors`,
  `ReplaceChangeMirrors`, `ModeChangeMirrors`, and `InScope` in `Tracking` for the stores). The scores are
  then not those of a restart; references and notices are not affected.
- Below zero, adding a submission would change the score although nothing is recomputed
  (`NegativeScoreBreaksReplay`, and exactly when: `NewSubmissionScoreIff`, `NewSubmissionIsReplayedIff`).
- A change dated before its submission, or a score below zero, can make the two frozen views disagree
  (`EarlyChangeBreaksAgreement`, `NegativeScoreBreaksAgreement`, and exactly when: `FrozenViewsAgreeIff`).
- A client without dropped types can be asked to reinit though it missed nothing
  (`ReinitThoughNothingMissed`, `NeedlessReinitIff`); with dropped types it is asked exactly when it must be
  (`ReinitIffMissed`).
- Dates beyond what the importing system can represent become the first of January 2030
  (`ValueRoundTrip`).
- The write guard can be defeated by an update that drops a boundary already passed, or that comes in the
  same instant as the request (`DroppedBoundaryDefeatsGuard`, `SameInstantDefeatsGuard`, `GuardIsSoundIff`).
- The integrity check lists the temporary files of the backend directory, so it is not true while a put is
  storing its file or after one failed then (`FailedPutIsReported`, and exactly when: `CheckAfterRun`);
  deleting what it finds makes a put that is storing fail (`DeletedTempFailsPut`). It never deletes a wrong
  file that has the name of the tombstone (`CheckedIsRight`).
- A deleted file can come back into the cache if a get had opened it or a put was storing it
  (`DeletedIsRevived`, and exactly when: `AbsentIff`).
- Structural updates take what they move out of their source, so repeating one from the same source deletes
  it again (`AgainFromSameSource`).

## Assumptions

- Scores and extras are real numbers; times of changes and submissions are integers, the clock of the
  visibility guard is real. Where scores must not be negative, the theorem says so.
- Stores that are loaded from disk are consistent: loading checks no references.
- Each store operation, `put` and `get_subscriber` is one atomic step. The file cache is modelled in the
  steps between which other processes can run.
- Keys of messages are the clock in microseconds. Where they must increase strictly, the theorem says so.
- `hash` stands for SHA-1 and is any function. Whether a password string is valid is a parameter.
- Relationships of the data model are plain fields: the object graph is finite and closed, and property
  names are distinct within a class.

## Model

| member | source | states |
|---|---|---|
| `Score.Score.AppendChange` | cmsranking/Scoring.py:104-142 | applying one change to the table, the released scores, the last submission and the history is one step of the replay |
| `Score.Score.ResetHistory` | cmsranking/Scoring.py:192-206 | whatever the live state was, afterwards it is the replay of the sorted changes over the submissions |
| `Score.Score.CreateSubchange` | cmsranking/Scoring.py:208-229 | a change later than all others is appended without a replay, any other is inserted and everything replayed; the object stays usable |
| `Score.FastPathIsReplay` | cmsranking/Scoring.py:212-217 | from a replayed state, the fast path leaves exactly the state that clearing everything and replaying the sorted list would |
| `Score.Score.UpdateSubchange` | cmsranking/Scoring.py:231-242 | the change with that key is replaced where it stands and everything is replayed |
| `Score.Score.DeleteSubchange` | cmsranking/Scoring.py:244-249 | the change with that key goes, the order of the others stays, and everything is replayed |
| `Score.Score.CreateSubmission` | cmsranking/Scoring.py:251-257 | the submission is added without results and the history stays; that is what a replay gives if the best was never below zero |
| `Score.Score.UpdateSubmission` | cmsranking/Scoring.py:259-264 | the replaced submission is scored again by a full replay |
| `Score.Score.DeleteSubmission` | cmsranking/Scoring.py:266-274 | the submission and exactly its changes go, and the rest is replayed; an unknown one changes nothing |
| `Score.Score.UpdateScoreMode` | cmsranking/Scoring.py:276-277 | only the mode changes: the history is not rebuilt |
| `Score.Score.GetScore` | cmsranking/Scoring.py:144-145 | the last history entry; in a replayed state, the rule of the mode applied to the current submissions |
| `Score.Score.ScoreAsOf` | cmsranking/Scoring.py:147-160 | the score of the last history entry not after the time |
| `Score.Score.SubmissionsAsOf` | cmsranking/Scoring.py:162-190 | the submissions made by the time with only the changes up to the time applied |
| `Score.SumOfBestColumns` | cmsranking/Scoring.py:129-134 | the loops compute the sum over the columns of the best extra, missing columns counting as zero |
| `Score.InsertedIsSorted` | cmsranking/Scoring.py:208-229 | inserting keeps the list strictly sorted by time and key and adds exactly the new change |
| `Score.NewSubmissionIsReplayed` | cmsranking/Scoring.py:251-257 | if the best was never below zero, a replay with an extra submission without changes differs only in that submission |
| `Score.NewSubmissionScoreIff` | cmsranking/Scoring.py:251-257 | for changes of any score: the score kept is the score of a replay if and only if the best, on every subtask, is not below zero now |
| `Score.NewSubmissionIsReplayedIff` | cmsranking/Scoring.py:251-257 | with one change per instant, the history kept is the history of a replay if and only if the best was never below zero |
| `Score.NegativeScoreBreaksReplay` | cmsranking/Scoring.py:251-257 | an input with a negative score for which it does differ |
| `ScoreLaws.ReplayIsGood` | cmsranking/Scoring.py:104-142 | after every replay the released multiset is exactly the scores of tokened submissions, the last submission is the first scored one of the latest time, and the current score is the rule of the mode |
| `ScoreLaws.TokenIsReleased` | cmsranking/Scoring.py:60-61 | the score to remove is always in the released list, so `remove` never fails |
| `ScoreLaws.FormulaIsRule` | cmsranking/Scoring.py:125-139 | computing the score from the released list and the loops is the rule stated on the table alone, in all three modes |
| `ScoreLaws.ReplayHistoryIsGood` | cmsranking/Scoring.py:141-142 | the history is in time order and no two consecutive scores are equal |
| `ScoreLaws.FormulaIgnoresBlankIff` | cmsranking/Scoring.py:125-139 | a submission without results leaves the formula as it was if and only if the mode is max-tokened-last or the best, on every subtask, is not below zero |
| `ScoreLaws.RuleWithMore` | cmsranking/Scoring.py:125-139 | more submissions, of any results, leave the formula as it was if and only if none of them is better on any subtask |
| `ScoreLaws.ReplayIgnoresUntouched` | cmsranking/Scoring.py:251-257 | submissions without changes do not influence any result of a replay in which the best was never below zero |
| `ScoreLaws.ReplayKeepsIdentity` | cmsranking/Scoring.py:192-206 | a replay changes only results: identity, time, user and task of the submissions stay |
| `ScoreMeaning.OrderOfChanges` | cmsranking/Scoring.py:208-229 | changes are processed by time, and those of one time by the code points of their keys |
| `ScoreMeaning.ReplayedResults` | cmsranking/Scoring.py:104-123 | after a replay the score, the token and the extra of each submission are each those of its last change that carries the field, and 0, false and nothing without one; its user, task and time are untouched |
| `ScoreMeaning.FrozenResults` | cmsranking/Scoring.py:162-190 | the submissions as of t are those made by t, each field that of its last change up to t that carries it |
| `ScoreMeaning.MaxMeans` | cmsranking/Scoring.py:125-128 | the score in the max mode: a score that some submission has and none exceeds, zero without submissions |
| `ScoreMeaning.SubtasksMean` | cmsranking/Scoring.py:129-134 | in the max-subtask mode: the sum, over all subtasks that any submission has, of a result that some submission has there and none exceeds; a submission without extra fields counts with its score as the first subtask |
| `ScoreMeaning.TokenedMeans` | cmsranking/Scoring.py:135-137 | in the max-tokened-last mode: the best of zero, the scores with a token and the score of the last submission |
| `ScoreMeaning.ScoreMeans` | cmsranking/Scoring.py:104-142 | the current score from the list of changes alone, in all three modes |
| `Freeze.HistoryUpTo` | cmsranking/Scoring.py:147-160 | the history up to t is the history that the changes up to t alone make |
| `Freeze.FreezeIsReplayOfOldData` | cmsranking/Scoring.py:147-190 | every answer as of t is the live answer of a server that has only the data up to t |
| `Freeze.FreezeHidesTheFuture` | cmsranking/Scoring.py:147-190 | two states that agree on the data up to t give the same answers as of t |
| `Freeze.FrozenViewsAgree` | cmsranking/Scoring.py:125-134 | in the max and max-subtask modes, if no change predates its submission, the score as of t is the rule applied to the submissions as of t |
| `Freeze.FrozenViewsAgreeIff` | cmsranking/Scoring.py:147-190 | for changes of any time and score, it is so if and only if no submission made after t has a better result from changes up to t, on any subtask |
| `Freeze.FreezeAfterTheEnd` | cmsranking/Scoring.py:147-190 | past every event the frozen answers are the live ones |
| `Freeze.EarlyChangeBreaksAgreement` | cmsranking/Scoring.py:162-190 | a change dated before its submission makes the two frozen answers disagree |
| `Freeze.NegativeScoreBreaksAgreement` | cmsranking/Scoring.py:147-190 | so does a score below zero with a submission made later |
| `GlobalHistory.Collect` | cmsranking/Scoring.py:470-502 | the priority-queue loop ends and returns the merge of all histories, cut where an entry is later than `until` |
| `GlobalHistory.MergeInterleaves` | cmsranking/Scoring.py:485-502 | every history is the part of the merge that belongs to its user and task, and the lengths add up |
| `GlobalHistory.MergeIsInOrder` | cmsranking/Scoring.py:485-502 | the merge of histories in time order is in time order |
| `GlobalHistory.MergeTakesFirst` | cmsranking/Scoring.py:485-502 | at every point of the merge the line taken comes before what is next in any other history: by time, then score, then user, then task |
| `GlobalHistory.MergeTruncated` | cmsranking/Scoring.py:485-502 | stopping the merge at t is merging the histories up to t |
| `Freeze.LeadingKeepsAllUpTo` | cmsranking/Scoring.py:485-502 | stopping at t keeps exactly the entries with a time up to t |
| `Mirror.MirrorIsUnique` | cmsranking/Scoring.py:311-321 | for given stores there is one possible content of the scores: whatever the order of arrival, it is the one of a restart |
| `Mirror.SortedListIsUnique` | cmsranking/Scoring.py:208-229 | the sorted list of given changes is unique |
| `MirrorSteps.PutSubmissionMirrors` | cmsranking/Scoring.py:336-349 | after creating or replacing a submission the scores are again those of the stores |
| `MirrorSteps.DropSubmissionMirrors` | cmsranking/Scoring.py:372-384 | so they are after deleting a submission with its changes, and an emptied entry is removed |
| `MirrorSteps.AddChangeMirrors` | cmsranking/Scoring.py:386-393 | so they are after a new change |
| `MirrorSteps.RemoveChangeMirrors` | cmsranking/Scoring.py:411-423 | so they are after removing a change |
| `MirrorSteps.ReplaceChangeMirrors` | cmsranking/Scoring.py:395-409 | replacing a change in place gives the scores of the stores if and only if the new change keeps its place in the order |
| `MirrorSteps.MoveSubmissionMirrors` | cmsranking/Scoring.py:351-370 | moving a submission to another user or task does so if and only if it had no changes |
| `MirrorSteps.ModeChangeMirrors` | cmsranking/Scoring.py:366-367 | a new score mode leaves the states of a restart, mode included, if and only if it is the old one or the task has no submissions |
| `Holding.MirrorsHold` | cmsranking/Scoring.py:311-321 | scores that are those of the stores hold every submission, and every operation on them is possible |
| `Holding.NewSubmissionHolds` | cmsranking/Scoring.py:336-349 | over any run, creating a submission keeps one usable object for every user and task, with exactly their submissions |
| `Holding.NewDataHolds` | cmsranking/Scoring.py:351-370 | so does replacing one |
| `Holding.DropHolds` | cmsranking/Scoring.py:372-384 | so does deleting one, and the object goes with the last |
| `Holding.EditHolds` | cmsranking/Scoring.py:386-423 | so does any edit of the changes |
| `ScoringStore.ScoringStore.CreateSubmission` | cmsranking/Scoring.py:336-349 | from any state of a run: listeners hear of every changed score and no change is added; scores that were right stay right if the user was never below zero on the task |
| `ScoringStore.ScoringStore.UpdateSubmission` | cmsranking/Scoring.py:351-370 | listeners hear of every changed score; scores that were right stay right if and only if the submission stays with its user and task or had no changes; one that moves loses its changes |
| `ScoringStore.ScoringStore.DeleteSubmission` | cmsranking/Scoring.py:372-384 | listeners hear of it, an emptied entry vanishes, right scores stay right |
| `ScoringStore.ScoringStore.CreateSubchange` | cmsranking/Scoring.py:386-393 | listeners hear of it, right scores stay right |
| `ScoringStore.ScoringStore.UpdateSubchange` | cmsranking/Scoring.py:395-409 | listeners hear of it; right scores stay right if and only if the change goes to another submission or keeps its place |
| `ScoringStore.ScoringStore.DeleteSubchange` | cmsranking/Scoring.py:411-423 | listeners hear of it, right scores stay right; a change whose submission is gone already is left to the deletion of that one |
| `ScoringStore.InitStore` | cmsranking/Scoring.py:311-321 | the scores built from scratch are those of the stores, whatever the order of the keys |
| `ScoringStore.InformsInTwoSteps` | cmsranking/Scoring.py:332-334 | a listener that applies every notice holds the live scores after any sequence of operations, and no notice tells it a score that it has |
| `ScoringStore.GetScoresAt` | cmsranking/Scoring.py:437-452 | the positive scores as of t of all users and tasks |
| `ScoringStore.GetSubmissionsAt` | cmsranking/Scoring.py:454-468 | the submissions as of t of one user and task |
| `ScoringStore.GetGlobalHistory` | cmsranking/Scoring.py:470-502 | the merge of all histories, up to `until` |
| `FrozenBoard.FrozenBoardHidesTheFuture` | cmsranking/Scoring.py:437-502 | stores that agree up to t give the same scores, submissions and global history as of t, whatever happened later |
| `FrozenBoard.FrozenBoardAfterTheEnd` | cmsranking/RankingWebServer.py:391-401 | past every event the frozen scores are the live /scores answer and the frozen submissions the live tables |
| `BoardMeaning.OnBoardIff` | cmsranking/Scoring.py:336-349 | in every sound state, a user is on the board for a task if and only if there is a stored submission |
| `BoardMeaning.BoardMeans` | cmsranking/Scoring.py:311-349 | in every sound state, the score on the board is what the mode of the stored task makes of the stored submissions of that user, with their stored times, each with the results that its stored changes last gave it |
| `Stores.DoomedIsGone` | cmsranking/Store.py:283-299 | removing referrers until nothing dangles removes every transitive referrer |
| `Stores.DoomedIsBelow` | cmsranking/RankingWebServer.py:663-679 | a transitive referrer is in a store below, so the wiring of the stores reaches it and the recursion ends |
| `Stores.RemovalKeepsIntegrity` | cmsranking/Store.py:283-299 | removing an entity with its transitive referrers leaves every other reference valid |
| `Deletion.WholeDeletion` | cmsranking/Store.py:269-299 | a finished cascade removed exactly the entity and its transitive referrers; scores that were those of a restart still are |
| `Deletion.DeletionIsNonNegative` | cmsranking/Store.py:269-299 | a deletion brings no score below zero into the stores |
| `Tracking.RestartedAfterDeletion` | cmsranking/Store.py:283-299 | when no deletion is pending, scores that mirror what was told mirror the stores |
| `Server.Server.DeleteEntity` | cmsranking/Store.py:269-299 | from any state of a run with valid references below: the recursion ends, only removes doomed entities, calls back once for each with referrers first, and never looks up a missing key |
| `Server.Server.Delete` | cmsranking/Store.py:269-299 | from any state of a run: exactly the transitive referrers go, one callback each with referrers first, every reference left is valid, listeners follow, right scores stay right; a missing key changes nothing |
| `Server.Server.constructor` | cmsranking/RankingWebServer.py:661-681 | empty stores: everything holds at the start of a run |
| `Server.Server.Load` | cmsranking/RankingWebServer.py:681-693 | stores loaded from disk, if consistent: the scores are built from them and everything holds |
| `Server.Server.Create` | cmsranking/Store.py:136-173 | from any state of a run: refused for an invalid or present key or for inconsistent data, and then nothing changes; otherwise integrity holds and listeners follow, and right scores stay right unless a submission comes to a user who was below zero |
| `Server.NonNegativeIsSafe` | cmsranking/Scoring.py:251-257 | which cannot be if no stored score is negative |
| `Server.Server.Update` | cmsranking/Store.py:175-212 | from any state of a run: integrity is kept and listeners follow for every accepted update; scores that were those of a restart still are if and only if the update is in scope |
| `Server.Server.MergeList` | cmsranking/Store.py:214-267 | from any state of a run: all of the entities or none, and nothing changes if one is refused; integrity and listeners follow for any merge; right scores stay right if every entity is calm, and, but for changes, only then |
| `Server.SoundWasCalm` | cmsranking/Store.py:242-256 | a merge that changes the mode of a task with submissions, or moves a submission with changes, leaves scores that are not those of a restart |
| `Tracking.CalmIsInScope` | cmsranking/Store.py:242-256 | calm entities are in scope: a task keeps its mode or has no submissions, a submission keeps its user and task or has no changes, a change goes to another submission or keeps its time |
| `Server.CalmStays` | cmsranking/Store.py:242-256 | whether an entity is calm does not depend on the others of the merge |
| `Server.MergeKeepsIntegrity` | cmsranking/Store.py:214-267 | a merge of acceptable entities keeps every reference valid, whatever it changes |
| `Server.Server.DeleteList` | cmsranking/Store.py:301-310 | exactly the entities of the store and their transitive referrers go, listeners follow, right scores stay right |
| `Server.Server.Restart` | cmsranking/Scoring.py:311-321 | a restart over the same stores builds the live scores if and only if those were right |
| `StoreMeaning.StoredFindsItsKeys` | cmsranking/Submission.py:79-81 | in every state of a run, the user and the task of a stored submission are stored, and so are the submission of a change, the contest of a task and the team of a user, if any |
| `StoreMeaning.AcceptableMeans` | cmsranking/Subchange.py:91-93 | data is accepted if and only if it is of the kind of the store and the keys that it names, field by field, are in their stores |
| `StoreMeaning.CreateMeans` | cmsranking/Store.py:136-173 | a creation succeeds exactly for a new key of letters, digits and underscores, data of the right kind, and keys that are all present; what is stored is the data, under its key, and nothing else changes |
| `StoreMeaning.UpdateMeans` | cmsranking/Store.py:175-212 | an update succeeds exactly for a present key and such data, and changes that entity alone |
| `StoreMeaning.DeleteMeans` | cmsranking/Store.py:269-299 | deleting a change takes only it; a submission, its changes too; a user or a task, its submissions and their changes too; a team its users and a contest its tasks with all of theirs; nothing else goes or changes |
| `StoreMeaning.EmptiedMeans` | cmsranking/Store.py:301-310 | emptying a store takes exactly what falls with any of its entities |
| `EventFormat.FormatEvent` | cmscommon/eventsource.py:59-78 | an illegal name is refused; otherwise the text is the lines id, event and data, with every kind of line break in the data starting a new data line |
| `EventFormat.JoinedLines` | cmscommon/eventsource.py:73-74 | the data lines joined with line feeds are the data with CRLF and CR turned into LF |
| `EventFormat.RefusedIff` | cmscommon/eventsource.py:65-70 | a name is refused if and only if it has a colon or a line break; the default name prints as no name |
| `EventParser.NameIsReadBack` | cmscommon/eventsource.py:65-70 | a name is read back if and only if it is not empty and does not start with a space |
| `EventParser.DataIsReadBack` | cmscommon/eventsource.py:72-76 | data is read back, up to line breaks, if and only if no line of it starts with a space |
| `EventParser.StreamRoundTrip` | cmscommon/eventsource.py:429-451 | a stream of events and pings, read by the rules of sections 9.2.5 and 9.2.6 of the HTML Living Standard, gives exactly the events that were sent |
| `EventParser.EventRoundTrip` | cmscommon/eventsource.py:59-78 | one event is read back if and only if its id, name and data are readable |
| `Hex.IdIsReadBack` | cmscommon/eventsource.py:128-129 | an id names exactly the message that it was sent with |
| `Hex.IdsAre` | cmscommon/eventsource.py:168-170 | an id is one or more hexadecimal digits, of either case, and perhaps a final line feed |
| `Publisher.Publisher.constructor` | cmscommon/eventsource.py:91-116 | no messages, no clients, and the time of creation |
| `Publisher.Publisher.Put` | cmscommon/eventsource.py:118-144 | an unprintable name changes nothing; otherwise the log grows by one message, the bounded caches and the eviction marks stay those of the log, and exactly the clients that get the type are sent it |
| `Publisher.Publisher.GetSubscriber` | cmscommon/eventsource.py:146-185 | the new client is first sent the answer that the log, its last id and its types call for, and is served from then on |
| `Publisher.Publisher.ReplaySome` | cmscommon/eventsource.py:187-211 | what is sent is the merge of the kept caches newer than the last id, or a request to reinit if they are not complete since then |
| `Publisher.Subscriber.Get` | cmscommon/eventsource.py:232-253 | everything that is waiting is taken, once and in order |
| `Publisher.HoldsNext` | cmscommon/eventsource.py:118-144 | storing a message keeps the shared cache, the caches per type, the order of the types and the eviction marks equal to functions of the unbounded log |
| `Publisher.MergeByKey` | cmscommon/eventsource.py:200-205 | the merging loop ends and gives the merge by key |
| `Publisher.ClientGetsEverything` | cmscommon/eventsource.py:118-253 | in every state, what a client took and what waits for it are exactly the messages of its types ever put after its last id, in order, if and only if its last id is not ahead of the messages put since it came |
| `EventReplay.DeliveryIsExact` | cmscommon/eventsource.py:118-211 | replay and live messages together are all kept messages newer than the last id, none lost or doubled, despite bounded caches |
| `EventReplay.DeliveryAfterOwnMessage` | cmscommon/eventsource.py:132-211 | so it is for a client whose last id is that of a message once put |
| `EventReplay.OtherwiseReceived` | cmscommon/eventsource.py:165-211 | without a readable id a client is sent only what is put from then on; with one that is too old, the request to reinit and then that |
| `EventReplay.StreamsMean` | cmsranking/RankingWebServer.py:290-301 | a live stream gets every message, a frozen one all but the scores |
| `EventReplay.DroppedTypesLeaveNoTrace` | cmscommon/eventsource.py:132-144 | what a client that drops some types is sent, and whether it is asked to reinit, depends only on the messages of the types that it gets |
| `EventReplay.FrozenStreamHidesScores` | cmsranking/RankingWebServer.py:290-301 | a frozen stream is the same whatever scores were announced |
| `EventReplay.ReinitIffMissed` | cmscommon/eventsource.py:196-211 | such a client is asked to reinit if and only if its id predates the publisher or a kept message newer than its id was evicted |
| `EventReplay.ReinitIsNeeded` | cmscommon/eventsource.py:196-211 | even with a clock that jumps, it is asked only if so |
| `EventReplay.NeedlessReinitIff` | cmscommon/eventsource.py:171-181 | a client without dropped types is asked to reinit though nothing it missed is gone exactly when its id is older than the oldest cached message but not than the newest forgotten one |
| `EventReplay.ReinitThoughNothingMissed` | cmscommon/eventsource.py:171-181 | a client without dropped types can be asked to reinit though nothing was ever put |
| `EventReplay.MergedIsIncreasing` | cmscommon/eventsource.py:200-205 | merging caches with increasing and different keys gives increasing keys |
| `EventBrowser.BrowserDispatchesAll` | cmscommon/eventsource.py:118-451 | whatever pings are mixed in, a browser dispatches exactly the events with data ever put after its last id, of the types it gets, once each and in order |
| `EventBrowser.BrowserDispatchesReinit` | cmscommon/eventsource.py:178-211 | the request to reinit with a data line is dispatched, the one without is not, and neither disturbs the live events that follow |
| `EventBrowser.IdsAreReadable` | cmscommon/eventsource.py:128-129 | the ids of a publisher are read back as they are |
| `EventLog.TypesOfKept` | cmscommon/eventsource.py:196-197 | the order in which the kept types are met depends on kept messages alone |
| `Codec.EncodesIffDumpable` | cmscontrib/DumpExporter.py:128-153 | encoding fails if and only if the value, or an item of it, is of a type that a dump cannot hold |
| `Codec.ValueRoundTrip` | cmscontrib/DumpImporter.py:111-143 | decoding an encoded value, nested arrays included, gives it back if and only if its dates fit the system that reads it |
| `Codec.DecodedHasType` | cmscontrib/DumpImporter.py:111-143 | a decoded value has the type of its column |
| `Codec.EncodedStandsFor` | cmscontrib/DumpExporter.py:128-153 | the JSON form of a value: times and spans in seconds, arrays item by item, everything else as it is |
| `Codec.DecodedReadsAs` | cmscontrib/DumpImporter.py:111-143 | what is read: the nearest microsecond, the even one of two, and the first of January 2030 for a date that the system cannot represent |
| `DecimalIds.DecimalIsInjective` | cmscontrib/DumpExporter.py:307-314 | different numbers are different ids |
| `DumpModel.IdsAreDistinct` | cmscontrib/DumpExporter.py:307-314 | no two objects share an id |
| `DumpModel.ClosedHasReachable` | cmscontrib/DumpExporter.py:352-398 | a set with the roots and all successors of its members has everything reachable |
| `DumpExporter.Exporter.GetId` | cmscontrib/DumpExporter.py:307-314 | a new object gets the next number and joins the queue; an old one keeps its id |
| `DumpExporter.ExportColumns` | cmscontrib/DumpExporter.py:341-349 | the record has the class and the encoded columns, or fails if and only if one cannot be encoded |
| `DumpExporter.Exporter.ExportRelation` | cmscontrib/DumpExporter.py:386-398 | an id, a list or a dictionary of ids stands for the related objects, which all have ids afterwards |
| `DumpExporter.Exporter.ExportObject` | cmscontrib/DumpExporter.py:316-400 | the record has exactly the class, the columns and the followed relationships, and everything it mentions has an id |
| `DumpExporter.Exporter.Export` | cmscontrib/DumpExporter.py:267-290 | the worklist ends on every graph, cyclic ones too; ids are dense from 0, exactly the reachable objects have a record, and it fails if and only if one of them cannot be dumped |
| `DumpRoundTrip.MentionedIsRecorded` | cmscontrib/DumpExporter.py:283-286 | every id that a record mentions has a record |
| `DumpMeaning.RecordMeans` | cmscontrib/DumpExporter.py:352-398 | a record has a relationship if and only if the class at its other end is not a ranking group, nor a submission, user test, participation, announcement or result that an option leaves out; it is written with the ids of its objects, all of which are in the dump |
| `DumpMeaning.ExportedIffLed` | cmscontrib/DumpExporter.py:267-290 | an object is in the dump if and only if relationships to classes that are not left out lead to it from a root |
| `DumpMeaning.RootsMean` | cmscontrib/DumpExporter.py:274-283 | the list of objects has the ids of the roots, each once, from 0 |
| `DumpImporter.ImportObject` | cmscontrib/DumpImporter.py:410-448 | the object has the class of the record and every column: decoded, or else its default |
| `DumpImporter.AddRelationships` | cmscontrib/DumpImporter.py:450-485 | every relationship in the record is linked to the objects of its ids, without those that were left out |
| `DumpImporter.Deactivate` | cmscontrib/DumpImporter.py:279-282 | contests become inactive and nothing else changes |
| `DumpImporter.LeaveOut` | cmscontrib/DumpImporter.py:284-303 | exactly the objects of the skipped classes are left out |
| `DumpImporter.Import` | cmscontrib/DumpImporter.py:268-307 | one new object for every record that is not left out, with its columns and its links |
| `DumpMeaning.ImportedIff` | cmscontrib/DumpImporter.py:268-303 | an entry becomes an object if and only if its class is none that an option leaves out |
| `DumpMeaning.ImportedColumns` | cmscontrib/DumpImporter.py:410-448 | every column is decoded from the record, or else its default or null; without a dropped database every contest is inactive |
| `DumpMeaning.ImportedRelations` | cmscontrib/DumpImporter.py:450-485 | an object has exactly the relationships of its record, each to the imported objects of its ids |
| `DumpMeaning.LinkedInOrder` | cmscontrib/DumpImporter.py:478-479 | a list keeps its order, without the ids that were left out |
| `DumpRoundTrip.ExportIsReadable` | cmscontrib/DumpImporter.py:268-307 | whatever the exporter writes, the importer can read |
| `DumpRoundTrip.ColumnsRoundTrip` | cmscontrib/DumpImporter.py:410-448 | the columns of an object are read back if and only if its dates fit |
| `DumpRoundTrip.RelationRoundTrip` | cmscontrib/DumpImporter.py:450-485 | a relationship is read back as the same relationship between the new objects |
| `DumpRoundTrip.DumpRoundTrip` | cmscontrib/DumpExporter.py:23-24 | a full restore of an export has one object for every reachable object and no others, different for different, with the same class, columns (if dates fit) and relationships mapped through the ids |
| `Visibility.ViewIsSteady` | cmsranking/visibility.py:243-287 | the public view is constant on an interval without boundaries |
| `Visibility.PublicViewIs` | cmsranking/visibility.py:243-279 | hidden exactly while the hide time has come and the show time has not; else frozen exactly while the freeze time has come and the unfreeze time has not; else live |
| `Visibility.SettingsRoundTrip` | cmsranking/visibility.py:289-345 | settings are read back as sent if and only if their windows and password are proper |
| `Visibility.ParsedIsProper` | cmsranking/visibility.py:302-345 | whatever is accepted has proper windows; the old format hides always or never |
| `Visibility.ParsedIsSent` | cmsranking/visibility.py:302-345 | exactly the data of the two formats is accepted, field by field, and it is read as the settings that it was sent for |
| `Visibility.LastChangeIs` | cmsranking/visibility.py:436-446 | nothing changed since a time if and only if no update changed the view and no boundary passed |
| `Visibility.VisibilityState.constructor` | cmsranking/visibility.py:353-363 | a restart counts as a change unless the group is live |
| `Visibility.VisibilityState.UpdateSettings` | cmsranking/visibility.py:396-424 | the time of change moves only if the view of now changes |
| `Visibility.VisibilityState.LastChangeAt` | cmsranking/visibility.py:436-446 | the loop computes the latest of the last change and the boundaries passed |
| `Visibility.VisibilityState.MayWrite` | cmsranking/visibility.py:740-755 | the decision of the write guard, which LetThroughIs spells out |
| `Visibility.LetThroughIs` | cmsranking/visibility.py:740-755 | data goes through if and only if there was no change since the request came, none of the four times passed since, and the client is staff or the ranking is not hidden, nor frozen for one that was served as staff |
| `Visibility.UnseenIsLetThrough` | cmsranking/visibility.py:396-446 | so it is after any updates: only those that the public could see count as changes |
| `Visibility.GuardIsSound` | cmsranking/visibility.py:740-755 | when data goes through, the public view is the one the request came under, across any updates that keep the boundaries passed since; a public client is not served a hidden group, nor one that was staff a frozen group |
| `Visibility.GuardIsSoundWithoutUpdates` | cmsranking/visibility.py:740-755 | so it is without updates |
| `Visibility.GuardIsSoundIff` | cmsranking/visibility.py:740-755 | after arbitrary updates it is so exactly when the settings of now agree with those of then about then |
| `Visibility.DroppedBoundaryDefeatsGuard` | cmsranking/visibility.py:418-424 | an update that drops a passed boundary lets data through under another view |
| `Visibility.SameInstantDefeatsGuard` | cmsranking/visibility.py:418-424 | so does an update in the very instant of the request |
| `Visibility.ResumedUnderSameView` | cmsranking/visibility.py:864-880 | a stream that may resume does so under the view of its last event |
| `Visibility.MissedIff` | cmsranking/visibility.py:864-880 | a client is told to reload if and only if its id can be read and a change or a passed boundary is later than its last event |
| `FileCopy.CopyFileObject` | cms/db/filecacher.py:54-78 | all that is left of the source is appended, once and in order, however short the reads and writes |
| `FileCopy.DigestOf` | cms/db/filecacher.py:952-957 | the digest is that of everything read |
| `FileCopy.SaveAndDigest` | cms/db/filecacher.py:767-779 | the digest is that of everything read, and what is saved is what was read if and only if no write was refused |
| `FileCache.EveryRunIsGood` | cms/db/filecacher.py:588-899 | in every interleaving of puts, gets, drops, deletes and failures, every file visible in the cache or the backend hashes to its name and every get gives such a file |
| `FileCache.StoredStays` | cms/db/filecacher.py:740-811 | while nothing is deleted the backend keeps every file that was stored |
| `FileCache.StoredIsNeverMissed` | cms/db/filecacher.py:588-634 | while nothing is deleted, nobody who asks for a stored file is told that it is missing |
| `FileCache.StoredIsGot` | cms/db/filecacher.py:588-634 | a get of a file that the backend has ends, after a number of steps known from the start, with a file of that digest |
| `FileCache.EveryStepIsProgress` | cms/db/filecacher.py:599-634 | every step brings an operation nearer to its end |
| `FileService.PutIsStored` | cms/db/filecacher.py:740-811 | a put of any content ends after 3n + 5 steps of its own with the digest of that content, and the backend has a file of that digest, whatever others do and however they fail, as long as nothing is deleted |
| `FileService.PutOfStoredIsQuiet` | cms/db/filecacher.py:231-239 | a put of a file that the backend has writes nothing there |
| `FileService.EveryRunCopies` | cms/db/filecacher.py:231-246 | in every interleaving the temporary file of a put has exactly what was copied so far |
| `FileService.GetIsServed` | cms/db/filecacher.py:588-634 | a get of a file that the backend has ends with a file of that digest in every interleaving without deletions |
| `FileService.PutThenGet` | cms/db/filecacher.py:655-811 | what one process puts, any process gets, byte for byte, if no other content has that digest |
| `FileService.RequestsMean` | cms/db/filecacher.py:656-899 | requests for the tombstone change nothing, a cached file is given at once, and a drop takes the file from the cache alone |
| `FileService.DeleteRemoves` | cms/db/filecacher.py:875-886 | a delete takes the file out of the cache and then, whatever happens in between, exactly that file out of the backend |
| `FileService.AbsentStays` | cms/db/filecacher.py:588-899 | a file that is nowhere, and that nobody is storing or fetching, stays away in every run that does not put it again |
| `FileService.AbsentIsMissing` | cms/db/filecacher.py:588-634 | and whoever asks for it is told that it is missing |
| `FileService.AbsentIff` | cms/db/filecacher.py:588-899 | a deleted file can be seen again without being put if and only if some process was storing or fetching it |
| `FileService.DeletedIsRevived` | cms/db/filecacher.py:599-634 | a get that has opened the file when it is deleted puts it back into the cache |
| `FileCache.FileCacher.Delete` | cms/db/filecacher.py:875-899 | the file goes from both places, but for the tombstone |
| `FileCache.FileCacher.CheckBackendIntegrity` | cms/db/filecacher.py:934-964 | true if and only if every listed file hashes to its name; on demand exactly the wrong ones are deleted, but for the tombstone |
| `FileCache.EveryRunIsAccounted` | cms/db/filecacher.py:231-267 | the temporary files in the backend directory are those of the puts that are storing and those of the puts that failed then |
| `FileCache.CheckAfterRun` | cms/db/filecacher.py:934-964 | after any run in which nobody deletes temporary files the check finds nothing wrong if and only if no put is storing and none has failed while it was |
| `FileCache.WrongAreTemps` | cms/db/filecacher.py:958-962 | what it then finds wrong, and deletes on demand, are exactly those temporary files |
| `FileCache.FailedPutIsReported` | cms/db/filecacher.py:241-246 | a run with one failed put after which the check finds something wrong |
| `FileCache.DeletedTempFailsPut` | cms/db/filecacher.py:249-267 | a put whose temporary file was deleted fails |
| `FileCache.CheckedIsRight` | cms/db/filecacher.py:958-962 | after a check that deletes nothing is wrong if and only if no wrong file has the name of the tombstone |
| `StructuralMerge.UpdateColumns` | cmscontrib/importing.py:117-131 | the columns that are not excluded are taken over where the new object has them, the others stay |
| `StructuralMerge.OverlaidMeans` | cmscontrib/importing.py:117-131 | column by column: taken over if the new object has it, the class has it and it is not excluded; else it stays as it was |
| `StructuralMerge.OverlaidIsNew` | cmscontrib/importing.py:117-131 | the result equals the new columns if and only if the excluded ones agree |
| `StructuralMerge.UpdateList` | cmscontrib/importing.py:208-238 | for any update function: positions match the new list, old objects stay on the common part and are updated, the tail moves in order and leaves the new list |
| `StructuralMerge.UpdateDict` | cmscontrib/importing.py:241-268 | for any update function and every order of the keys the dictionary has exactly the new keys, shared keys keep their object with its updated content, the others are moved or deleted |
| `StructuralMerge.UpdateListWithKey` | cmscontrib/importing.py:271-305 | for any update function and every order of the keys the list has exactly the objects of the merged dictionary, each once, old ones first and in order, with the merged contents |
| `StructuralMerge.MergedContentsTwice` | cmscontrib/importing.py:241-305 | updating again from the same contents changes none, of the overwritten objects and of the moved ones |
| `StructuralMerge.ColumnsTwice` | cmscontrib/importing.py:117-131 | so it is when columns are copied |
| `StructuralMerge.MergedAgain` | cmscontrib/importing.py:241-305 | updating again from objects under the same keys keeps every object |
| `StructuralMerge.AgainFromSameSource` | cmscontrib/importing.py:256-262 | updating again from the very same source deletes what was moved |

## Left out

- Server.Server.MergeList: for changes the condition is sufficient only, because whether a change that stays with its submission at another time ends up in order can depend on the order of the dictionary; `Server.Server.Update` has the exact condition for one change.
- Server.Server.Create: that a submission of a user below zero does leave other scores than a restart is stated for the `Score` alone (`Score.NewSubmissionIsReplayedIff`).
- ScoringStore.ScoringStore.CreateSubmission: the `Score` objects inside the scoring store are held as values, and the dictionary of dictionaries as one map from user and task, so removal of an emptied inner dictionary is not captured.
- Publisher.Publisher.Put: clients stay subscribed; the queues that vanish when their reader does are not modelled.
- Publisher.HoldsNext: cached messages carry their type along, which nothing reads.
- Publisher.Subscriber.Get: waiting for the first message is a precondition.
- EventFormat.FormatEvent: text is a sequence of characters; UTF-8 and the type errors for arguments that are not strings are not modelled.
- GlobalHistory.Collect: the heap is a priority map from which the least entry is taken; the layout of the heap array is not modelled.
- DumpImporter.Import: dumps are taken to be of the current data model and well formed, as the code does; updaters of older dumps, the refusal of newer ones, and the session that saves the linked objects are not modelled.
- DumpExporter.Exporter.Export: JSON text and the files of a dump are not modelled, nor are archives; roots are objects that exist.
- Codec.ValueRoundTrip: an IP network is identified with its text, numbers are reals, and the rounding of floats is not modelled.
- FileCache.EveryRunIsGood: the database backend and the null backend are not modelled, nor are the temporary files of the cache directory, which have a directory of their own.
- FileCache.CheckAfterRun: the random part of the name of a temporary file is a number.
- FileCopy.CopyFileObject: every write takes at least one byte; a file object that refuses writes would make the loop wait.
- FileCopy.SaveAndDigest: the branch for a refused write is modelled, but the buffered temporary file that `put_file_from_fobj` writes to never refuses one, so `FileCache` has no such step.
- StructuralMerge.UpdateListWithKey: keys are distinct within each list; of several old objects with one key the code updates the last and ignores the others.
- StructuralMerge.UpdateList: an update function is taken to change the old object only, to something that depends on the two contents; which function each relationship has is not modelled.
- Visibility.VisibilityState.constructor: the settings file, its secret and cookies are not modelled.
- Field validation of the ranking entities, unknown score modes and persistence of the stores: one-branch checks and plumbing.
- HTTP and WSGI handling, login, banners, locks, timeouts, logging, command-line tools and the database layer.
