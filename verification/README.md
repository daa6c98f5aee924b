# Multicore projects: a model with proofs

A Dafny model of the concurrent protocols and of some sequential cores of the
multicore-project repository, with proofs of what they guarantee in every run.

- **Bakery lock** (`Bakery`, `BakeryInvariant`, `BakeryTheorems`, `BakeryProgress`): any
  number of threads, one shared read or write per step, so the double read in the
  maximum scan and the three reads of the wait guard interleave freely.
- **Multi-version updates with a collector** (`Mvcc`, `MvccChains`, `MvccInvariant`,
  `MvccSteps`, `MvccTheorems`, `MvccReads`, `MvccWatermarks`, `MvccCollector`, `MvccReplay`,
  `MvccDirtyRead`): the two regions under the mutex are one step each, everything else
  moves by single reads and writes. `VersionLists` holds
  the reader queue and the version chains as heap objects with their link fields.
- **Searches that meet** (`Graph`, `Search`, `SearchInvariant`, `SearchMeeting`,
  `SearchTheorems`, `SearchResult`, `SearchAnswer`, `SearchTermination`,
  `SearchOvershoot`): one breadth-first search per house, all marking one flag array with fetch-and-or.
- **Lock-free list ends** (`FreeList`, `FreeListProof`, `FreeListTheorems`, `FreeListRaces`): prepend
  and append as mirror images, one shared access per step.
- **Prefix completion** (`CompletionHash`): the hash table against a plain list of
  words, for any hash function and any positive table size.
- **The client's line lexer** (`LineLexer`, `LineLexerInPlace`, `LineLexerQuotes`,
  `LineLexerSegments`, `LineLexerPieces`, `LineLexerLines`, `LineLexerTotal`,
  `LineLexerComments`): the lexer that edits one buffer in place against a reference that
  reads an untouched line, and that reference against a grammar of pieces that says what
  each piece of a line looks like and yields.
- **Two emitters of the dump tool** (`DumpEmitters`): CDATA sections and extended
  INSERT statements.

Schedules are arbitrary sequences of thread names, so a statement about `Exec` or `IsRun`
speaks about every interleaving. Memory is sequentially consistent and integers are
mathematical, except where a width is named.

## Where the code and its documentation disagree

- `CreateQueue` allocates with malloc and does not assign `minimum` and `delete_front`
  (Project2/src/Project2.cpp:470-476); the member initialisers at
  Project2/src/Project2.cpp:24-25 intend 0, and the model starts there.
- The sums before and after the updates are printed side by side as a check of
  correctness (Project2/src/Project2.cpp:286-297). They can differ: a reader that finds
  its partner inactive is not queued, and its node can be collected between its two
  reads. `MvccDirtyRead.SumNotConserved` is such a run. `MvccReplay.ConservedExactly`
  says when the sum is kept whatever a collected node is found to hold: exactly if every
  insertion was by a reader that had found its partner active or that read its node both
  times before it was collected.
- The comment at lab4/project1_TA.cpp:250-266 says that the two meeting vertices decide
  between D1+D2 and D1+D2-1. They do not: `SearchOvershoot.PrintedMaxTooLarge` is a
  finished run in which the printed maximum is one too large. `SearchResult.PrintedMaxExact` says exactly when it is
  right, in terms of the finished queues.
- The list operations test for an empty list (README.md:23-25, 48-50), but any two of
  them, on either side, can race on an empty list so that the first element is lost.
  `FreeListRaces.SafeExactly` says that a set of calls is safe exactly if the list is not
  empty or there is at most one call.
- The minimum is meant to be corrected as well (lab4/project1_TA.cpp:307-351), but the loop
  reads the fence behind the meeting depth, and every finished search has a meeting for
  which there is none (`SearchAnswer.SomeFencePast`); with two houses that is always the
  case (`SearchAnswer.TwoHousesPast`). Where the fences exist,
  `SearchAnswer.MakeResult` says exactly when the corrected minimum is right.
- A comment is meant to be replaced by a space (Project3/mariadb/server/client/mysql.cc:2488-2505),
  but the client does not always see its end: in `a/*/*/b` the second slash and star are
  taken for the start of a comment, and the rest of the line is lost
  (`LineLexerComments.SlashComment`). `LineLexerComments.CommentIsSpace` says exactly when
  a comment whose text holds no end mark stands for a space: if its text neither ends in a
  slash nor holds the start of a server-side comment.
- The comment of `print_xml_cdata` names the text `[[>`; the code splits at `]]>`.

## Model

| member | source | states |
|---|---|---|
| BakeryInvariant.BehindStep | Project2/src/Project2.cpp:111-131 | While thread i keeps its ticket, a thread bound to draw a larger one stays bound to it whoever moves, also between the two reads of the maximum scan |
| BakeryInvariant.InvStep | Project2/src/Project2.cpp:111-153 | Every single read or write by any thread keeps the lock's invariant |
| BakeryTheorems.MutualExclusion | Project2/src/Project2.cpp:125-153 | In every interleaving of any number of threads, two different threads are never both in the critical section |
| BakeryTheorems.FirstComeFirstServed | Project2/src/Project2.cpp:125-153 | If i lowered its choosing flag while j had not raised its own, j is not in the critical section at any time before i leaves |
| BakeryProgress.FinishDoorway | Project2/src/Project2.cpp:128-130 | A thread running alone gets the ticket that the rest of its scan leads to and lowers its flag, and moves nobody else |
| BakeryProgress.LoneTicket | Project2/src/Project2.cpp:111-130 | A thread that takes its ticket undisturbed gets one more than the largest in use, and 1 if there is none |
| BakeryProgress.ForemostEnters | Project2/src/Project2.cpp:133-145 | With all doorways empty, the holder of the least (ticket, index) pair reaches the critical section running alone |
| BakeryProgress.DeadlockFreedom | Project2/src/Project2.cpp:125-153 | From every reachable state, every thread inside the lock has a continuation into the critical section |
| MvccChains.LookupCapture | Project2/src/Project2.cpp:354-379 | Looking a thread up in the reversed capture finds its one entry in the active list |
| MvccChains.RemoveActiveSpec | Project2/src/Project2.cpp:315-339 | Leaving the active list removes exactly the thread's entry and keeps indices distinct |
| MvccSteps.CapturedView | Project2/src/Project2.cpp:532-551 | Under the mutex, the captured view of the partner is the version of its current update, and none if it is inactive |
| MvccInvariant.ReaderProtected | Project2/src/Project2.cpp:540-571 | A queued reader's view lies above the collector's minimum, and the newest version below it exists and is not below the minimum |
| MvccSteps.ReleaseOk | Project2/src/Project2.cpp:421-467 | Ending an update keeps the partner's queue sorted above its watermarks, and the minimum never falls |
| MvccWatermarks.DrainedIs | Project2/src/Project2.cpp:582-600 | In every run delete_front is the view of the last reader whose update ended while no registered reader had a smaller view, 0 if there was none |
| MvccWatermarks.MinimumMoves | Project2/src/Project2.cpp:582-600 | In every run, the end of an update with view a sets the minimum to a if the registered readers that remain all have later views, to the view drained before it (if that differs from a) if none remains, and leaves it while one with view a or an earlier one remains |
| MvccWatermarks.MinimumStays | Project2/src/Project2.cpp:582-600 | No other step of any thread moves a minimum |
| MvccSteps.ReleaseCount | Project2/src/Project2.cpp:582-600 | Ending an update takes exactly one occurrence of its version off the queue |
| MvccSteps.CutShape | Project2/src/Project2.cpp:619-638 | When the collector cuts it has a predecessor, keeps the head and everything at or above the minimum it read, and drops only what lies below |
| MvccSteps.InvNext | Project2/src/Project2.cpp:503-642 | Every step of every thread and of the collector keeps the protocol's invariant |
| MvccTheorems.NoFault | Project2/src/Project2.cpp:557-602 | In every run no registered reader meets a null or freed node, no update ends on an empty queue, and the collector never writes through null |
| MvccTheorems.QueueDiscipline | Project2/src/Project2.cpp:421-501 | In every state each queue is sorted, equals as a multiset the views of its outstanding readers, lies above minimum <= delete_front, and the minimum is the version of a node in the chain |
| MvccTheorems.MinimumMonotone | Project2/src/Project2.cpp:582-600 | Along every run no queue's minimum decreases |
| MvccTheorems.HeadKept | Project2/src/Project2.cpp:619-638 | Every step of the collector keeps the head of every chain and leaves a front part of it |
| MvccTheorems.CollectorSafety | Project2/src/Project2.cpp:614-642 | Every node a cut removes is older than the snapshot of every registered reader of that chain, and the node the reader stands on stays |
| MvccCollector.CollectorGetsRound | Project2/src/Project2.cpp:614-642 | In every run, whenever the collector starts a round, some number of its own steps bring it to the start of the next, with no version below its queue's minimum left in any chain and nothing else changed |
| MvccTheorems.SnapshotStable | Project2/src/Project2.cpp:532-571 | From capture to end of update, the newest version below a registered reader's view is one and the same node |
| MvccChains.Rem100Is | Project2/src/Project2.cpp:569-570 | The remainder is less than a hundred in size, differs from the value by a multiple of a hundred and has its sign |
| MvccTheorems.SnapshotRead | Project2/src/Project2.cpp:557-576 | What a registered reader inserts is its newest values, A raised and B lowered by the remainder by a hundred of the partner's A as of the capture, however the partner went on |
| MvccReads.HeadRead | Project2/src/Project2.cpp:569-576 | A reader that found its partner inactive and its node in the chain both times inserts its newest values moved by the remainder of the A at the head of the partner's chain when it began to read |
| MvccReads.VersionIsNumber | Project2/src/Project2.cpp:534-537 | In every run the n-th update to start gets version n |
| MvccTheorems.VersionsDistinct | Project2/src/Project2.cpp:534-537 | In every state versions strictly decrease along a chain, and no version but 0 occurs in two chains |
| MvccTheorems.DriftStep | Project2/src/Project2.cpp:557-576 | A step changes the sum of A+B over the chain heads by what an insertion adds to A less what it takes from B, collection included |
| MvccReplay.NextAlike | Project2/src/Project2.cpp:503-642 | No step depends on the values of A and B, so what is found in a collected node never changes what happens next |
| MvccReplay.ConservedExactly | Project2/src/Project2.cpp:572-576 | Whatever collected nodes are found to hold, the sum equals its initial value in every state so far if and only if every insertion was by a registered reader or by one that found its node in the chain both times |
| MvccReplay.UnsoundBreaks | Project2/src/Project2.cpp:572-576 | Any insertion that rests on a collected node can break the sum: one of two findings at its second read does |
| MvccTheorems.DriftIsDirty | Project2/src/Project2.cpp:572-576 | Only an unregistered reader one of whose reads missed the chain can insert with a drift |
| MvccTheorems.TotalConserved | Project2/src/Project2.cpp:203-208 | The sum is conserved in every run whose updates are registered or read their node before it is collected |
| MvccDirtyRead.SumNotConserved | Project2/src/Project2.cpp:572-576 | There is a run with three threads after which the sum differs from the initial one |
| VersionLists.ReaderQueue.constructor | Project2/src/Project2.cpp:470-476 | A new queue is empty with both watermarks 0 |
| VersionLists.ReaderQueue.AddRear | Project2/src/Project2.cpp:487-501 | The linked queue becomes the old sequence with the version at its rear |
| VersionLists.ReaderQueue.RemoveFront | Project2/src/Project2.cpp:421-433 | The linked queue loses its first element, and an empty one stays as it is |
| VersionLists.ReaderQueue.RemoveVersion | Project2/src/Project2.cpp:436-467 | The linked queue loses the first occurrence of the version and nothing else, links and rear staying right |
| VersionLists.ReaderQueue.EndUpdate | Project2/src/Project2.cpp:582-600 | The heap operations together do to the queue what the protocol's release step does, and fault exactly on an empty queue |
| VersionLists.VersionChain.Insert | Project2/src/Project2.cpp:399-408 | The chain becomes the new node followed by the old chain |
| VersionLists.VersionChain.FindBelow | Project2/src/Project2.cpp:563-568 | The pointer walk stops at the newest version below the view, or runs off the chain exactly if there is none |
| VersionLists.VersionChain.Truncate | Project2/src/Project2.cpp:619-638 | One undisturbed pass ends the chain before the first version below the minimum, and faults exactly if that is the head |
| VersionLists.FirstBelowCuts | Project2/src/Project2.cpp:619-638 | In a chain as the protocol keeps it, that removes exactly the versions below the minimum |
| MvccChains.RemoveFirstAt | Project2/src/Project2.cpp:436-467 | Removing a version takes out the position of its first occurrence |
| Graph.BallIsWalk | lab4/project1_TA.cpp:250-266 | The reference notion of distance: within n edges exactly if some walk of at most n edges leads there |
| SearchInvariant.CompleteAtFence | lab4/project1_TA.cpp:186-203 | When a search passes a fence it has found everything one edge further out |
| SearchMeeting.MarkTied | lab4/project1_TA.cpp:205-239 | The fetch-and-or makes the later of two searches notice the earlier at every vertex both have found |
| SearchMeeting.InvNext | lab4/project1_TA.cpp:150-248 | Every step of every search keeps the joint invariant of all of them |
| SearchTheorems.LayersExact | lab4/project1_TA.cpp:167-244 | In every interleaving the queue between consecutive fences holds exactly the vertices at that distance from the house, each once |
| SearchTheorems.NotCloser | lab4/project1_TA.cpp:205-239 | Two houses are never closer than the two meeting depths less one |
| SearchTheorems.MeetingBound | lab4/project1_TA.cpp:250-266 | In every interleaving the distance of two houses is D1+D2 or D1+D2-1 |
| SearchTheorems.StoppedHasMetAll | lab4/project1_TA.cpp:196-199 | A search that has stopped has a record of every other, at a depth whose fence it recorded |
| SearchTheorems.DepthBounded | lab4/project1_TA.cpp:186-203 | No search goes deeper than needed: beyond depth 1 some house is at least that far away |
| SearchTermination.OwnStepWorks | lab4/project1_TA.cpp:182-244 | Each step of a search uses up some of its work |
| SearchTermination.OtherStepKeeps | lab4/project1_TA.cpp:182-244 | No step of another search changes what that work is computed from |
| SearchTermination.SearchStops | lab4/project1_TA.cpp:182-244 | In every schedule, a search of connected houses that has had a number of turns fixed by the graph has stopped |
| SearchTermination.AllStop | lab4/project1_TA.cpp:182-244 | Every schedule that gives each search that many turns is a finished run |
| SearchResult.ExtremeSums | lab4/project1_TA.cpp:275-288 | The pair scan returns the least and the greatest sum of two meeting depths, each attained |
| SearchResult.Candidates | lab4/project1_TA.cpp:289-304 | The candidates are exactly the pairs with the given sum |
| SearchResult.FindInSegment | lab4/project1_TA.cpp:371-389 | The scan between two fences stops early exactly if the vertex is there |
| SearchResult.CorrectMax | lab4/project1_TA.cpp:353-397 | The correction passes its last candidate exactly if every candidate's meeting vertex lies one layer early |
| SearchResult.MetEarlierIs | lab4/project1_TA.cpp:371-389 | A vertex lies between the fences before depth d of a finished search exactly if it is at distance d-1 from the house |
| SearchResult.ShortIsEarly | lab4/project1_TA.cpp:366-392 | In a finished run a pair is short exactly if one search's meeting vertex is, from the other's house, one edge nearer than the other's meeting depth |
| SearchResult.ShortIsShorter | lab4/project1_TA.cpp:366-378 | A meeting vertex one layer early means that the houses are at most D1+D2-1 apart |
| SearchResult.TouchExact | lab4/project1_TA.cpp:250-266 | A pair is D1+D2-1 apart exactly if an edge joins what the two searches found before their meeting depths |
| SearchResult.FarthestNear | lab4/project1_TA.cpp:275-304 | The greatest sum is the greatest distance or one more |
| SearchResult.FarthestExact | lab4/project1_TA.cpp:353-397 | If all candidates are short the greatest distance is the greatest sum less one |
| SearchResult.PrintedMaxExact | lab4/project1_TA.cpp:353-399 | The printed maximum is the greatest distance if and only if all candidates are short, which ShortIsEarly says in distances, or one of them does not touch |
| SearchResult.NearestNear | lab4/project1_TA.cpp:275-288 | The least sum is the least distance or one more |
| SearchResult.SmallestSumExact | lab4/project1_TA.cpp:275-288 | The least sum is the least distance if and only if no pair with that sum touches |
| SearchResult.FarthestUnique | lab4/project1_TA.cpp:250-266 | There is only one greatest distance |
| SearchResult.NearestUnique | lab4/project1_TA.cpp:250-266 | There is only one least distance |
| SearchAnswer.CorrectMin | lab4/project1_TA.cpp:307-347 | The correction ends at the first candidate whose meeting vertex is not in the layer it looks at, or whose fence was never recorded |
| SearchAnswer.JudgeIs | lab4/project1_TA.cpp:307-347 | In a finished run what it finds for a pair is decided by the distances of the two meeting vertices from the other's house and by the depths the searches stopped at |
| SearchAnswer.FenceInRange | lab4/project1_TA.cpp:325-343 | The fence it looks at exists exactly if the meeting was not at the search's last depth |
| SearchAnswer.SomeFencePast | lab4/project1_TA.cpp:325-343 | In every finished run each search has a meeting for which that fence does not exist |
| SearchAnswer.TwoHousesPast | lab4/project1_TA.cpp:307-351 | With two houses the correction always reads past the recorded fences |
| SearchAnswer.NearestIs | lab4/project1_TA.cpp:348-351 | The least distance is the least sum if no pair with that sum touches, and one less otherwise |
| SearchAnswer.MakeResult | lab4/project1_TA.cpp:267-400 | From any finished run: the printed maximum is the greatest sum, less one exactly if every pair with that sum has a meeting vertex one edge nearer to the other house than the other's meeting depth, and it is exact if and only if that is so or one such pair does not touch; the corrected minimum, where it reads no missing fence, is the least sum or one less as the distances of the meeting vertices say, and exact if and only if it subtracts exactly when some pair touches; the start values with fewer than two houses |
| SearchResult.SmallGraphFits | lab4/project1_TA.cpp:32-35 | The sixteen-bit depth field cannot overflow if the graph has at most 65536 vertices |
| SearchOvershoot.PrintedMaxTooLarge | lab4/project1_TA.cpp:353-399 | There is a finished run on six vertices that prints 3 for a greatest distance of 2 |
| FreeListProof.StepInv | README.md:6-54 | Every step of every call keeps the half-linked list recoverable from the logs of exchanges |
| FreeListTheorems.FinishedList | README.md:6-54 | From a non-empty list, when all calls have finished the fields describe exactly the reversed prepend order, the old list, the append order, with next and prev inverse and the count right |
| FreeListRaces.TwoCallsRace | README.md:23-25 | Any set of at least two calls on the empty list, whatever their sides, can finish so that the first call's element is not linked where it belongs |
| FreeListRaces.FewCallsSafe | README.md:23-25 | A single call on the empty list leaves the list of its element |
| FreeListRaces.SafeExactly | README.md:6-54 | For every list and every set of calls: every schedule leaves the expected list if and only if the list is not empty or there is at most one call |
| CompletionHash.LookupIsMatches | Project3/mariadb/server/client/completion_hash.cc:219-225 | Storing each word under each of its prefixes makes every lookup the list of words with that prefix, newest first with multiplicity |
| CompletionHash.MatchesSound | Project3/mariadb/server/client/completion_hash.cc:113-133 | What a lookup yields are added words that start with the key |
| CompletionHash.MatchesComplete | Project3/mariadb/server/client/completion_hash.cc:113-133 | Every added word that starts with the key is among them |
| CompletionHash.MatchesShrink | Project3/mariadb/server/client/completion_hash.cc:192-199 | A longer key matches no more words, and equally many only if the same ones |
| CompletionHash.CommonIffSame | Project3/mariadb/server/client/completion_hash.cc:192-199 | A prefix is common to all matches exactly if it has as many matches |
| CompletionHash.ExtendByOne | Project3/mariadb/server/client/completion_hash.cc:192-199 | Comparing counts decides whether one more character is common to all matches |
| CompletionHash.HashTable.constructor | Project3/mariadb/server/client/completion_hash.cc:42-57 | A new table of any positive size has no keys |
| CompletionHash.HashTable.Update | Project3/mariadb/server/client/completion_hash.cc:60-111 | The table gains the word in front under that key alone, an empty key being refused |
| CompletionHash.HashTable.AddWord | Project3/mariadb/server/client/completion_hash.cc:219-225 | The table gains the word under every non-empty prefix of it |
| CompletionHash.HashTable.AddWords | Project3/mariadb/server/client/completion_hash.cc:219-225 | After any sequence of additions the table stands for all words added so far |
| CompletionHash.HashTable.Find | Project3/mariadb/server/client/completion_hash.cc:113-133 | The chain search returns the bucket with exactly the words that start with the key and their number, or nothing if there are none |
| CompletionHash.HashTable.FindAllMatches | Project3/mariadb/server/client/completion_hash.cc:158-171 | The same, with the length of the query or 0 |
| CompletionHash.HashTable.FindLongestMatch | Project3/mariadb/server/client/completion_hash.cc:173-202 | The returned length is that of the longest common prefix of all words that start with the query, and the bucket holds those words |
| LineLexer.StepGood | Project3/mariadb/server/client/mysql.cc:2294-2526 | For every line, session and state a turn moves on, stays inside the line, never lets the write cursor overtake the read cursor, and leaves a free cell while a space is owed |
| LineLexer.ParametersInside | Project3/mariadb/server/client/mysql.cc:2347-2371 | Skipping a command's parameters stops inside the line, for any delimiter without a terminator |
| LineLexer.PrefixInside | Project3/mariadb/server/client/mysql.cc:2383-2386 | A delimiter that matches ends inside the line |
| LineLexerInPlace.BackslashTurn | Project3/mariadb/server/client/mysql.cc:2322-2382 | In place, a backslash does what the reference does on the untouched line |
| LineLexerInPlace.NamedTurn | Project3/mariadb/server/client/mysql.cc:2336-2381 | In place, a command is handed the same buffer and the same rest of the line as from the untouched line |
| LineLexerInPlace.DelimiterTurn | Project3/mariadb/server/client/mysql.cc:2383-2424 | In place, a delimiter hands over the same statement, with trailing spaces and comment if they are kept |
| LineLexerInPlace.LineCommentTurn | Project3/mariadb/server/client/mysql.cc:2425-2469 | In place, a comment to the end of the line flushes, keeps or sends what the reference does |
| LineLexerInPlace.CommentTurn | Project3/mariadb/server/client/mysql.cc:2470-2505 | In place, entering or leaving a comment agrees with the reference |
| LineLexerInPlace.PlainTurn | Project3/mariadb/server/client/mysql.cc:2506-2525 | In place, any other character agrees with the reference, the owed space included |
| LineLexerInPlace.WideTurn | Project3/mariadb/server/client/mysql.cc:2305-2321 | In place, a multi-byte character agrees with the reference |
| LineLexerInPlace.FinishInPlace | Project3/mariadb/server/client/mysql.cc:2527-2551 | The final newline is written inside the line's cells and the buffer gets what the reference gives it |
| LineLexerInPlace.AddLineInPlace | Project3/mariadb/server/client/mysql.cc:2276-2552 | The whole in-place call leaves the buffer, the lexer state, the delimiter and the calls that the out-of-place reference computes from the untouched line |
| LineLexerTotal.LexerIsGrammar | Project3/mariadb/server/client/mysql.cc:2276-2552 | For every line, session and carried state, the call leaves a result if and only if the line can be read as pieces (skipped spaces, plain text, strings with escapes, dropped and kept comments, server-side comments, delimiters, commands, escapes) that yield that buffer, open quote or comment, delimiter and calls |
| LineLexerTotal.NextPiece | Project3/mariadb/server/client/mysql.cc:2294-2526 | Wherever the loop stands, one more piece fits or the line is over |
| LineLexerTotal.SessionGoesOn | Project3/mariadb/server/client/mysql.cc:2527-2551 | What a line leaves is a state the next line may start with |
| LineLexerLines.LineIs | Project3/mariadb/server/client/mysql.cc:2276-2552 | Every line that is made of pieces leaves what they yield, with a newline unless it is truncated, a delimiter command or inside a dropped comment |
| LineLexerLines.FitsGoes | Project3/mariadb/server/client/mysql.cc:2294-2526 | The loop takes every piece, described by its characters alone, to the state written out for it |
| LineLexerSegments.PlainGoes | Project3/mariadb/server/client/mysql.cc:2506-2525 | Plain text of any length, multi-byte characters included, is accepted as it stands behind the one space a comment owes |
| LineLexerSegments.StringGoes | Project3/mariadb/server/client/mysql.cc:2506-2525 | A string is accepted verbatim from its quote to the same quote, escapes included where the server has them |
| LineLexerSegments.CommentGoes | Project3/mariadb/server/client/mysql.cc:2470-2505 | A comment is dropped and leaves a space to write |
| LineLexerSegments.KeptCommentGoes | Project3/mariadb/server/client/mysql.cc:2470-2505 | Where comments are kept, a comment goes to the buffer whole and leaves a space to write all the same |
| LineLexerPieces.DelimiterIs | Project3/mariadb/server/client/mysql.cc:2383-2424 | A delimiter executes the statement collected so far, with the spaces and the comment behind it if they are kept, and empties the buffer; or it quits |
| LineLexerPieces.CommandIs | Project3/mariadb/server/client/mysql.cc:2336-2371 | A command gets the statement so far and the rest of the line; reading goes on behind its parameters: at the end of the line, behind the delimiter the command leaves, or at the end of a server-side comment |
| LineLexerPieces.EscapeIs | Project3/mariadb/server/client/mysql.cc:2322-2381 | A backslash with a character that names no command is kept, with a complaint unless it is N |
| LineLexerPieces.RemarkIs | Project3/mariadb/server/client/mysql.cc:2425-2469 | A comment to the end of the line is dropped, kept with its statement, or executed if it is alone |
| LineLexerPieces.ServerOpen | Project3/mariadb/server/client/mysql.cc:2506-2511 | The start of a server-side comment is accepted, and what follows is inside it |
| LineLexerPieces.ServerClose | Project3/mariadb/server/client/mysql.cc:2506-2511 | The end of a server-side comment is accepted, and what follows is outside it |
| LineLexerComments.CommentIsSpace | Project3/mariadb/server/client/mysql.cc:2470-2525 | A line of plain text, a comment without end mark in its text, and plain text leaves the buffer extended by the two texts with one space between (none before a space or nothing) and a newline, if and only if the comment's text neither ends in a slash nor holds the start of a server-side comment |
| LineLexerComments.CommentInStatement | Project3/mariadb/server/client/mysql.cc:2383-2525 | With the delimiter at the end and the comment's end seen, exactly one call is made, the execution of the buffer and the two texts with that space, and nothing stays in the buffer |
| LineLexerComments.StatementIsSpaced | Project3/mariadb/server/client/mysql.cc:2383-2525 | With the delimiter at the end, that execution is the one call made if and only if the comment's text neither ends in a slash nor holds the start of a server-side comment |
| LineLexerComments.SlashComment | Project3/mariadb/server/client/mysql.cc:2470-2505 | The line `a/*/*/b` leaves `a` and an open comment |
| LineLexerQuotes.StringsKept | Project3/mariadb/server/client/mysql.cc:2294-2526 | Every turn leaves each open string outside comments, without an owed space and with something of it accepted, and none is open when the client quits |
| LineLexerQuotes.QuotedTextKept | Project3/mariadb/server/client/mysql.cc:2294-2526 | Wherever the loop stands inside a string, in any line of a session, the text up to the closing quote or the end of the line is accepted verbatim with nothing executed; only a lone final backslash is lost |
| LineLexerQuotes.SessionCarries | Project3/mariadb/server/client/mysql.cc:2527-2551 | What a call leaves for the next line is what that theorem asks of a carried string |
| DumpEmitters.PrintCdata | Project3/mariadb/server/client/mysqldump.c:2041-2064 | For any memory behind the string: the loop writes the string split before every closing mark, and overruns exactly if a closing mark straddles the end |
| DumpEmitters.TerminatedFits | Project3/mariadb/server/client/mysqldump.c:2041-2064 | Behind a terminated string no closing mark straddles the end |
| DumpEmitters.NoFalseClose | Project3/mariadb/server/client/mysqldump.c:2041-2064 | No character it copies starts a closing mark in the output |
| DumpEmitters.ReadSplit | Project3/mariadb/server/client/mysqldump.c:2050-2055 | The replacement text reads back as the three characters it stands for |
| DumpEmitters.CdataRoundTrip | Project3/mariadb/server/client/mysqldump.c:2041-2064 | Reading the output as consecutive CDATA sections, section 2.7 of W3C XML 1.0, gives the string back between the two added newlines |
| DumpEmitters.PackRows | Project3/mariadb/server/client/mysqldump.c:4015-4049 | The output is a sequence of statements that together hold all rows in order, each with one row or shorter than the limit, and a row is in the statement of the row before it exactly if the bytes so far, the rows so far, five and its length stay below the limit |
| DumpEmitters.CountedIs | Project3/mariadb/server/client/mysqldump.c:4015-4049 | The running count is the bytes of the statement, one more for each row, and three |
| DumpEmitters.PackedFits | Project3/mariadb/server/client/mysqldump.c:3808-3811 | The running count bounds the bytes of the statement |

## Left out

- SearchAnswer.MakeResult: finished runs whose depths overflow the sixteen-bit field are excluded; SearchResult.SmallGraphFits gives a bound on the graph that rules them out. A read past the recorded fences is a separate result, and what the source then prints is not modelled.
- LineLexerInPlace.AddLineInPlace: the commands, the server and the put_info messages are an oracle that answers the n-th call; the character set stays fixed during one call; the readline history and the failure of the buffer's allocation are not modelled.
- LineLexerTotal.LexerIsGrammar: assumes that punctuation is no space and that no multi-byte character starts with one, as in every character set of the server, and a carried state as an earlier line leaves it.
- LineLexerComments.CommentIsSpace: lines of single-byte characters; a multi-byte character right behind a comment does not get the space, which the grammar's piece for it says.
- VersionLists.VersionChain.Truncate: a pass without concurrent updates; the concurrent passes are steps of the state machine, where freed memory is a missing version.
- The global active list exists only as a sequence, not as a heap object.
- The bakery lock's calls are commented out in the update threads in favour of a mutex; the lock is modelled on its own, and the mutex regions are single steps.
- Snapshot and collection claims for readers that find their partner inactive, which do not hold.
- Weak memory, integer widths other than the depth field, allocation failure, sleeping, random choices (any choice is allowed), verbose output and throughput.
- Reading the graph (lab4/project1_TA.cpp:105-142): a list with each edge at both ends is assumed, with distinct houses.
- Project1, lab1, lab2, lab3 and lab5; the earlier copy of the search in Project1.
- completion_hash_exists, hashpjw (any function is allowed) and the freeing of tables.
- All other MariaDB client code.
