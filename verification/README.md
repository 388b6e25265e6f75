# What the voice-agent runtime computes, proved

A Dafny 4.11 model of the parts of the LiveKit Agents runtime that are
algorithms and protocols rather than network code, with proofs that they do
what they are for. `dafny verify dfyconfig.toml` checks all of it.

Code that changes objects step by step is modelled as classes and loops, each
method proved against a specification function or a state machine; the
theorems are about those, over all inputs, all runs or all interleavings. A
task that awaits is modelled by what it does between two awaits, so a "step"
below is atomic and a "run" is any sequence of enabled steps of any tasks.

| area | files | main results |
|---|---|---|
| Chat history synchronisation | `Lcs`, `ChatDiff`, `RemoteChat`, `ChatSync` | the diff is minimal; applied to the linked list it ends with the new history, exactly if that has no repeated id |
| Speech scheduling | `Scheduler`, `SpeechOrder`, `Draining`, `AgentActivity` | no lost wake-up, one speech at a time, the order of the speeches told from the calls, a complete drain, and exactly when a drain can end |
| Incremental text | `Words`, `ReplaceWords`, `TokenStream` | what a word is and what stands for it; the streaming forms agree with the batch forms for every chunking |
| Hyphenation | `Patterns`, `WordPieces`, `Anchors`, `Hyphenator` | the trie computes the maximum over all matching patterns; for which words the pieces are good whatever patterns are loaded |
| Wire codec | `Channel`, `Messages`, `MessageCodec` | where every field stands; reading undoes writing; what is lost, and when; encodings are unambiguous |
| Fallback adapters | `Fallback`, `Recoveries`, `TtsReplay` | who is tried and who is recovered, one recovery per instance, alternating events, replay of the whole text, exactly when outputs mix |
| Audio framing | `AudioStream`, `AudioEmission`, `AudioSegments`, `AudioEmitter` | rechunking independent of the pushes, what every segment sends, one final frame per segment, exact durations, conservation of bytes |
| Pools | `Pool`, `Losses`, `ConnectionPool`, `Processes`, `Shortages`, `ProcPool` | ownership and conservation of connections, exactly when one is lost or closed twice, distinct executors, exactly when every waiting launch can be served, in every interleaving |

`Sequences` holds bytes, concatenation and repetition-free sequences, `Division` facts about quotients, `Wrappers` Option and Result.

## Where the code keeps its promise only sometimes

Each of these is stated with its exact condition, and with a run or an input of
the model where the promise fails.

- A new history with a repeated id is not reached by the diff (`DiffReachesTarget`).
- `say` under drain creates a task before it raises. Once that task waits for the authorisation it will never get, the drain cannot end until somebody interrupts the refused speech (`RefusedSpeechHoldsTheDrain`). A drain can end on its own if and only if no such task is there (`DrainCanEndIffNotHeldUp`, `HeldUpByRefusal`), and a speech said before the end is played if and only if it was not said while draining (`SaidIsPlayedIffNotDraining`).
- A word whose lower case is longer can be cut one letter before its end, or at it. It is safe from every list of patterns if and only if the points there are not next to a pattern letter (`EdgesAreSafeIffNotExposed`); `x\u0130abcd`, which holds a capital I with a dot, with the pattern `b1c` loses its last letter to a piece of its own (`DottedCapitalIsCut`).
- A pattern is parsed without loss if and only if none of its numbers begins with a zero (`ParsingLosesOnlyZeros`).
- Accept attributes of a job are not on the wire, and floats only in single precision; a message comes back the same if and only if it has no accept attributes and only single-precision floats (`LosslessIff`).
- A new attempt of the streaming TTS fallback is sent the text again, but no flush marks: it is offered the very data received if and only if no flush mark and no empty text came before it began (`OfferedIsAllIff`).
- A TTS stream can mix two instances' audio. A failed attempt is passed over if and only if its emitter has not yet handled two full frames of audio (`GoesOnIffInaudible`); the output is a mixture if and only if the stream went on past an attempt that had passed audio on, and then passed on more (`ChunkMixesIffWentOn`, `MixtureIff`). Such a failure mixes whenever the next instance is available and passes on some audio (`InaudibleFailureMixes`), and is reached (`TtsMixtureHappens`).
- `AudioByteStream.flush` keeps its buffer, so what it returns comes out again: bytes are conserved if and only if they are whole samples and no flush on the way had anything to return (`ConservedIffFlushesQuiet`, and for a whole segment `SegmentConservesIff`). Its sample count is right for mono only (`FlushedSamplesMatchIffMono`).
- The end of a segment without any push does not close it (`EndClosesIffPushed`).
- A connection can be lost, never to be closed (`LostForever`). Two kinds of step do it, and no others: the end of a drain clears a queued connection that was not closed and that no drain still has to close, or a drain is aborted that still had it to close, when it is not queued any more and no other drain has it (`StepLoses`). In every run a connection is lost if and only if such a step occurs for it (`LostIffAStepLosesIt`), and runs of a new pool do both (`ClearingLoses`, `AbortingLoses`). Where drains run one after the other to their ends this comes to: nothing is lost if and only if nothing is queued while one is under way (`NothingIsLostIffQuiet`).
- A drain that begins when something queued is already closed, or still listed by another drain, closes it twice: where drains run to their ends each connection is closed once if and only if no drain begins so (`ClosedOnceIffClean`). Overlapping drains do (`OverlappingDrainsCloseTwice`), and so does the drain after one that was aborted, even without overlap (`AbortedDrainIsRepeated`, `DrainAfterAbortClosesTwice`).
- A launch that waits need not have an executor on its way. How many lack one is the sum, over the steps of the run, of what each loses or makes up for (`ShortageStep`, `ShortageOfRun`): a failed start or initialisation, a launch that finds an executor queued and spawns nothing, and a close lose some, and only the main loop and launches that give up make up for it. All waiting launches can be served without such help if and only if the sum is not positive (`AllServedIffNoShortage`). Two steps, and no others, leave launches waiting with nothing queued and no task (`StrandedBy`): the end of the last task, for instance after a failure (`FailureStrandsUnlessIdleWanted`, `FirstLaunchCanBeStranded`), and a newcomer that takes the executor an older launch was waiting for, without any failure (`NewcomerStrands`). With no idle processes wanted, no tick repairs it (`StrandedUntil`).
- An executor whose start raised stays in `_executors` for good (`CrashedStayListed`).

## How the source is read

- Chat items are compared by id only. Nodes of the remote history are compared
  by reference; the source compares them as data classes, which comes to the
  same when ids are unique, as the id index makes them.
- `heapq` is "remove a least element", and `time.monotonic_ns` strictly increases
  from one scheduled speech to the next. A tool reply is scheduled only by a task
  whose own handle was authorised, as `_pipeline_reply_task` does.
- A speech task first comes to its wait, or fails before it; from the wait it goes
  on when its own handle is authorised or interrupted, as `wait_if_not_interrupted` does.
- `str.lower` is a parameter, a function on whole strings that may change their
  length. `int` is one too: of it only that it reads digits as a decimal number is
  supposed, and where it raises so does the model.
- Strings on the wire are their UTF-8 bytes, a job its serialized protobuf, tracing
  data its pickle; which bytes can be decoded, and how `struct` packs and unpacks
  floats in single precision, are parameters. A write of a number, length or float
  that does not fit its field fails, as `int.to_bytes` and `struct.pack` do.
- Exceptions are results or flags. What the network, a provider or a callback does
  is a parameter: an attempt may succeed, fail or be cancelled at any point.
- Frame durations are exact quotients. With a frame of no bytes the push of the
  byte stream does not return; the emitter's task then has stopped, like one that raised.
- A TTS fallback stream has the emitter of `AudioEmission`: what the guard after a
  failure reads is that emitter's record after the events its task has handled so far.
- The connection callback returns a new connection each time. "Closed" means handed
  to the close callback, which the pool is taken to have.
  A drain with nothing to close has nothing to await and changes nothing: it is no step.
- A spawn task and the executor it makes share one number. A launch that finds an
  executor queued takes it at once; here these are two steps, which only adds runs
  in which a woken launch takes it first.

## Model

| member | source | states |
|---|---|---|
| `Lcs.FillRow` | livekit-agents/livekit/agents/llm/utils.py:50-55 | one row of the table, filled from the row above and its own left part, holds the longest-common-subsequence lengths of the prefixes |
| `Lcs.FillTable` | livekit-agents/livekit/agents/llm/utils.py:46-55 | the whole table holds those lengths, for any two id lists |
| `Lcs.ComputeLcs` | livekit-agents/livekit/agents/llm/utils.py:40-69 | the backtrack over the filled table returns the sequence `Longest`, for any two id lists |
| `Lcs.BacktrackIsLongest` | livekit-agents/livekit/agents/llm/utils.py:40-69 | that sequence is a common subsequence of both lists, and no common subsequence is longer |
| `ChatDiff.CollectRemovals` | livekit-agents/livekit/agents/llm/utils.py:86-88 | `to_remove` is every old id outside the common subsequence, in order |
| `ChatDiff.CollectCreations` | livekit-agents/livekit/agents/llm/utils.py:89-102 | `to_create` is every new id outside it, in order, each with the id standing before it in the new list |
| `ChatDiff.ComputeChatCtxDiff` | livekit-agents/livekit/agents/llm/utils.py:80-104 | the script computed is the one the theorems below are about |
| `ChatDiff.DiffReachesTarget` | livekit-agents/livekit/agents/llm/utils.py:80-104 | for old ids without repetition, deleting every `to_remove` and then inserting every `to_create` in order never fails and leaves exactly the new list, if and only if the new list has no repeated id |
| `ChatDiff.ScriptsAreLong` | livekit-agents/livekit/agents/llm/utils.py:81 | any accepted delete/insert script takes at least as many operations as the two lists have ids outside a longest common subsequence |
| `ChatDiff.DiffIsMinimal` | livekit-agents/livekit/agents/llm/utils.py:81 | so no script from the old ids to the new ones has fewer operations than the diff |
| `RemoteChat.RemoteChatContext.constructor` | livekit-agents/livekit/agents/llm/remote_chat_context.py:18-21 | an empty, well-linked history |
| `RemoteChat.RemoteChatContext.ToChatCtx` | livekit-agents/livekit/agents/llm/remote_chat_context.py:23-30 | the walk along the next-links ends, and returns the whole history in order |
| `RemoteChat.RemoteChatContext.Get` | livekit-agents/livekit/agents/llm/remote_chat_context.py:32-33 | finds a node exactly for the ids in the history, and the right one |
| `RemoteChat.RemoteChatContext.LinkAtHead` | livekit-agents/livekit/agents/llm/remote_chat_context.py:50-57 | linking in front of the head keeps next-links and prev-links spelling the same list, with the node first |
| `RemoteChat.RemoteChatContext.LinkAfter` | livekit-agents/livekit/agents/llm/remote_chat_context.py:64-72 | linking after a node keeps both spellings, with the node right behind it; the tail moves if needed |
| `RemoteChat.RemoteChatContext.Insert` | livekit-agents/livekit/agents/llm/remote_chat_context.py:35-72 | refuses a known id or an unknown previous id without any change; otherwise the history is the old one with the item at the head or right after the named item |
| `RemoteChat.RemoteChatContext.Unlink` | livekit-agents/livekit/agents/llm/remote_chat_context.py:79-96 | relinking around a node keeps both spellings, without it |
| `RemoteChat.RemoteChatContext.Delete` | livekit-agents/livekit/agents/llm/remote_chat_context.py:74-98 | refuses an unknown id without any change; otherwise the history is the old one without the item |
| `ChatSync.DeleteOp` | livekit-plugins/livekit-plugins-openai/livekit/plugins/openai/realtime/realtime_model.py:1297-1308 | the handler of a deletion: refused exactly if the operation does not apply to the id list, else applied; every item left is an old one |
| `ChatSync.InsertOp` | livekit-plugins/livekit-plugins-openai/livekit/plugins/openai/realtime/realtime_model.py:1282-1292 | the handler of a creation: refused exactly if the operation does not apply to the id list, else applied; every item is an old one or the new one |
| `ChatSync.ApplyRemovals` | livekit-agents/livekit/agents/llm/remote_chat_context.py:74-98 | deleting ids one after the other on the linked list is running the removals on the plain id list, refusals included |
| `ChatSync.ApplyCreations` | livekit-agents/livekit/agents/llm/remote_chat_context.py:35-72 | inserting the items to create one after the other is running the insertions on the plain id list, refusals included; every item is an old one or the new history's of an id to create |
| `ChatSync.Synchronise` | livekit-agents/livekit/agents/llm/utils.py:80-104 | diff, then patch of the linked list: accepted and ending with exactly the new ids if and only if these have no repetition; the items kept are the old ones unchanged, the others those of the new history |
| `Scheduler.Least` | livekit-agents/livekit/agents/voice/agent_activity.py:689 | what `heappop` returns: no queued entry goes before it |
| `Scheduler.StepKeeps` | livekit-agents/livekit/agents/voice/agent_activity.py:256-284 | every step between two awaits keeps all seven invariants of the scheduler |
| `Scheduler.RunKeepsInv` | livekit-agents/livekit/agents/voice/agent_activity.py:684-700 | so they hold in every state of every run |
| `Scheduler.SuspendedForAReason` | livekit-agents/livekit/agents/voice/agent_activity.py:684-700 | no lost wake-up: when the main loop cannot resume, it either has an empty queue and no finished drain, or waits for an unfinished speech whose owning task is live; it never crashes on a handle authorised twice |
| `Scheduler.OneSpeechAtATime` | livekit-agents/livekit/agents/voice/agent_activity.py:688-693 | in every run at most one speech is authorised and not played out, and it is the current one |
| `Scheduler.PlayOrder` | livekit-agents/livekit/agents/voice/agent_activity.py:680-691 | in every run a speech scheduled earlier at no lower priority is authorised earlier |
| `SpeechOrder.FirstAndAsUrgentIsFirst` | livekit-agents/livekit/agents/voice/agent_activity.py:666-691 | of two accepted calls, the speech of the earlier one at no lower priority has been authorised whenever the other has, in every run |
| `SpeechOrder.MoreUrgentIsFirst` | livekit-agents/livekit/agents/voice/agent_activity.py:666-691 | of two speeches accepted before a resumption that authorises the less urgent one, the more urgent one is authorised too, and before it, whichever was scheduled first |
| `Scheduler.SegmentPicksLeast` | livekit-agents/livekit/agents/voice/agent_activity.py:688-693 | the speeches one pass of the inner loop authorises are least first, and none that stays queued goes before them |
| `Scheduler.ResumptionPicksLeast` | livekit-agents/livekit/agents/voice/agent_activity.py:684-700 | the same for each resumption in every run |
| `Scheduler.DrainIsComplete` | livekit-agents/livekit/agents/voice/agent_activity.py:695-698 | once the loop has exited the queue stays empty, nothing more is scheduled, and every speech ever scheduled has been authorised |
| `Draining.RefusedSpeechHoldsTheDrain` | livekit-agents/livekit/agents/voice/agent_activity.py:514-526 | once the task of a `say` refused while draining waits for its authorisation, it waits on and the main loop has not exited, in every run, until the refused handle is interrupted |
| `Draining.HeldUpByRefusal` | livekit-agents/livekit/agents/voice/agent_activity.py:514-526 | a running task whose handle was never scheduled is, in every run, one a `say` under drain has left |
| `Draining.HeldUpForGood` | livekit-agents/livekit/agents/voice/agent_activity.py:1022-1027 | while there is such a task not interrupted, whatever steps are taken without an interruption or an earlier failure, the loop does not exit |
| `Draining.DrainCanEndIffNotHeldUp` | livekit-agents/livekit/agents/voice/agent_activity.py:684-700 | at every point of a drain the loop can come to its exit without interruptions or failures if and only if no such task is there |
| `Draining.SaidIsPlayedIffNotDraining` | livekit-agents/livekit/agents/voice/agent_activity.py:666-698 | once the loop has exited, a speech said before has been authorised if and only if it was not said while draining |
| `Draining.NothingSaidIsPlayed` | livekit-agents/livekit/agents/voice/agent_activity.py:395-406 | nothing said after a drain has begun is ever authorised |
| `Draining.ExitWaitsForTasks` | livekit-agents/livekit/agents/voice/agent_activity.py:695-698 | the loop does not exit before every task listed earlier, the `on_exit` task of the drain included, has been taken off the list by its callbacks |
| `Draining.InterruptionFrees` | livekit-agents/livekit/agents/voice/speech_handle.py:88-126 | interrupting a speech lets its waiting task go on, and it holds up no drain any more |
| `Draining.DoneIsNotInterrupted` | livekit-agents/livekit/agents/voice/speech_handle.py:98-106 | a speech that is done cannot be interrupted any more |
| `Draining.FailureFrees` | livekit-agents/livekit/agents/voice/agent_activity.py:271-279 | a task that fails before its wait holds up no drain, and its callbacks unlist it |
| `Draining.PlayoutLetsTheLoopOn` | livekit-agents/livekit/agents/voice/agent_activity.py:271-279 | the end of the playout, marked by the task or by its callbacks, lets the loop that waits for it go on |
| `Draining.BlockedLoopWakes` | livekit-agents/livekit/agents/voice/agent_activity.py:684-686 | a speech scheduled, a task over, or a drain wakes a blocked loop |
| `AgentActivities.AgentActivity.constructor` | livekit-agents/livekit/agents/voice/agent_activity.py:684-686 | the activity starts in the initial state of the machine |
| `AgentActivities.AgentActivity.CreateSpeechTask` | livekit-agents/livekit/agents/voice/agent_activity.py:256-280 | lists the task, with the handle it owns |
| `AgentActivities.AgentActivity.ScheduleSpeech` | livekit-agents/livekit/agents/voice/agent_activity.py:666-682 | raises exactly when draining without bypass; otherwise queues the entry and sets the event |
| `AgentActivities.AgentActivity.Say` | livekit-agents/livekit/agents/voice/agent_activity.py:477-527 | the step of `say` and `_generate_reply`: task first, then the scheduling that may raise |
| `AgentActivities.AgentActivity.ToolReply` | livekit-agents/livekit/agents/voice/agent_activity.py:1358-1380 | the tool reply of a task past its own authorisation: scheduled even while draining |
| `AgentActivities.AgentActivity.MarkPlayoutDone` | livekit-agents/livekit/agents/voice/speech_handle.py:134-136 | a playout marked done stays done |
| `AgentActivities.AgentActivity.FinishPlayout` | livekit-agents/livekit/agents/voice/agent_activity.py:1262-1290 | a task past its authorisation marks its own speech played out; the invariants of the machine hold on |
| `AgentActivities.AgentActivity.InterruptSpeech` | livekit-agents/livekit/agents/voice/speech_handle.py:88-106 | interrupts a speech unless it is done; the invariants hold on |
| `AgentActivities.AgentActivity.TaskDone` | livekit-agents/livekit/agents/voice/agent_activity.py:271-279 | the done callbacks in their order: unlist the task, finish its playout, wake the loop |
| `AgentActivities.AgentActivity.BeginDrain` | livekit-agents/livekit/agents/voice/agent_activity.py:395-406 | `drain` up to its await |
| `AgentActivities.AgentActivity.AuthorisePlayout` | livekit-agents/livekit/agents/voice/speech_handle.py:128-129 | raises, changing nothing, exactly for a handle authorised before; otherwise authorises it |
| `AgentActivities.AgentActivity.AuthoriseNext` | livekit-agents/livekit/agents/voice/agent_activity.py:688-692 | pop, publish as current, authorise |
| `AgentActivities.AgentActivity.MainSegment` | livekit-agents/livekit/agents/voice/agent_activity.py:684-700 | the main loop from one suspension to the next does what the machine's resumption step does |
| `Words.SplitWords` | livekit-agents/livekit/agents/tokenize/_basic_word.py:6-64 | the character loop returns the function `Split`, in all four modes |
| `Words.SplitFindsExactlyTheWords` | livekit-agents/livekit/agents/tokenize/_basic_word.py:9-64 | in every mode these are exactly the words of the text: in order, disjoint, without whitespace, maximal, one script character each if asked, every character that counts in one; the text of each is what stands there, or exactly its characters that are no punctuation, in order |
| `Words.PunctuationsListed` | livekit-agents/livekit/agents/tokenize/tokenizer.py:10-11 | the punctuation marks are those listed there, one by one |
| `Words.FirstWordIsStable` | livekit-agents/livekit/agents/tokenize/token_stream.py:42-45 | once a second word is seen the first does not depend on what follows |
| `Words.SplitPeels` | livekit-agents/livekit/agents/tokenize/token_stream.py:42-64 | so splitting a text is its first word, then the split of the text cut there, indices shifted, whatever follows |
| `ReplaceWords.RStrip` | livekit-agents/livekit/agents/tokenize/utils.py:44 | the longest prefix not ending in punctuation |
| `ReplaceWords.ProcessWord` | livekit-agents/livekit/agents/tokenize/utils.py:43-55 | one splice: the text is what was rebuilt so far, then the untouched rest, and the offset is how far the rest has moved |
| `ReplaceWords.ProcessWords` | livekit-agents/livekit/agents/tokenize/utils.py:40-57 | all splices give the pure word-by-word rebuild, and the index returned is its length |
| `ReplaceWords.ReplacedIsReplaced` | livekit-agents/livekit/agents/tokenize/utils.py:40-57 | in that rebuild all between the words is as it was, and in place of each word, being a bare part and trailing marks, stands the nonempty entry of its lowered bare part followed by its own marks, or else the word itself |
| `ReplaceWords.ReplaceText` | livekit-agents/livekit/agents/tokenize/utils.py:59-62 | the batch form is that rebuild for the whole text, with the words so replaced |
| `ReplaceWords.ReplacedPeels` | livekit-agents/livekit/agents/tokenize/utils.py:65-76 | rebuilding the first of several words commutes with cutting the text after it, whatever follows |
| `ReplaceWords.ReplacedCuts` | livekit-agents/livekit/agents/tokenize/utils.py:71-76 | the same for any number of words but the last: the streaming step |
| `ReplaceWords.ReplaceChunk` | livekit-agents/livekit/agents/tokenize/utils.py:67-76 | one turn of the streaming form: what is yielded and what is kept make up the result whatever follows, and never more than one word is kept |
| `ReplaceWords.ReplaceStream` | livekit-agents/livekit/agents/tokenize/utils.py:65-81 | for every way of cutting a text into chunks, the concatenated output is the batch result for the concatenated input, with the words so replaced |
| `TokenStream.FirstWordShrinks` | livekit-agents/livekit/agents/tokenize/token_stream.py:42-67 | cutting at the first word makes the buffer shorter: the push loop ends |
| `TokenStream.BufferedTokenStream.constructor` | livekit-agents/livekit/agents/tokenize/token_stream.py:15-32 | an open stream with nothing pushed |
| `TokenStream.BufferedTokenStream.TakeFirst` | livekit-agents/livekit/agents/tokenize/token_stream.py:47-64 | one turn of the push loop keeps the account of words emitted, pending and still in the buffer |
| `TokenStream.BufferedTokenStream.SendIfLongEnough` | livekit-agents/livekit/agents/tokenize/token_stream.py:56-61 | the pending token goes out exactly once it has its minimum length: emitted tokens have it, a pending one has not |
| `TokenStream.BufferedTokenStream.PushText` | livekit-agents/livekit/agents/tokenize/token_stream.py:34-67 | raises exactly when closed; otherwise keeps that account over the longer text, never takes back an event, emits nothing below the minimum context, and else holds back at most one word |
| `TokenStream.BufferedTokenStream.SendRest` | livekit-agents/livekit/agents/tokenize/token_stream.py:73-87 | after it the events of the segment, joined by spaces, are its words joined by spaces; with minimum lengths of one they are the words |
| `TokenStream.BufferedTokenStream.Flush` | livekit-agents/livekit/agents/tokenize/token_stream.py:69-91 | the same at the call, for any minimum lengths; all events of the segment bear its id, all but the last have the minimum length, and the new segment has an id that no event bears |
| `TokenStream.BufferedTokenStream.EndInput` | livekit-agents/livekit/agents/tokenize/token_stream.py:93-95 | flushes and closes for good; raises exactly when closed before |
| `TokenStream.StreamWords` | livekit-agents/livekit/agents/tokenize/basic.py:87-96 | for every way of cutting a text into chunks and every mode, a word stream's tokens over its pushes and one flush are exactly the words of the whole text |
| `Patterns.PatternsParse` | livekit-agents/livekit/agents/tokenize/_basic_hyphenator.py:22-26 | a pattern of letters, dots and digits never makes `int` raise, and is read as the numbers between its letters |
| `Patterns.ParsingLosesOnlyZeros` | livekit-agents/livekit/agents/tokenize/_basic_hyphenator.py:22-26 | the pattern is its letters and numbers written back if and only if no number begins with a zero |
| `Patterns.IntOfSnoc` | livekit-agents/livekit/agents/tokenize/_basic_hyphenator.py:26 | the numbers of a pattern are decimal |
| `Patterns.LastPatternDecides` | livekit-agents/livekit/agents/tokenize/_basic_hyphenator.py:13-36 | of the patterns with the same characters the last one is stored |
| `Patterns.OnlyPatternsStored` | livekit-agents/livekit/agents/tokenize/_basic_hyphenator.py:13-36 | and nothing but patterns is |
| `Patterns.LargestStep` | livekit-agents/livekit/agents/tokenize/_basic_hyphenator.py:53-59 | one more match maxed in keeps the points the largest values of the matches so far |
| `Patterns.PointsAreUnique` | livekit-agents/livekit/agents/tokenize/_basic_hyphenator.py:49-59 | the brute-force maximum over all patterns at all offsets is one list of points |
| `WordPieces.PiecesAreCuts` | livekit-agents/livekit/agents/tokenize/_basic_hyphenator.py:65-71 | the pieces spell the word and meet exactly after the letters with odd points |
| `WordPieces.EdgedPiecesAreGood` | livekit-agents/livekit/agents/tokenize/_basic_hyphenator.py:62-71 | with zeroed edges, and as many points as the word asks for, no piece is empty and the first and last have two letters or more |
| `WordPieces.PiecesBreakByPoints` | livekit-agents/livekit/agents/tokenize/_basic_hyphenator.py:62-71 | with as many points as the word asks for it is broken exactly after the letters with an odd point that have two letters or more on either side |
| `WordPieces.EdgesAreSafeIffNotExposed` | livekit-agents/livekit/agents/tokenize/_basic_hyphenator.py:46-71 | for a word of five letters or more this holds for every list of patterns if and only if lower-casing has not shortened the word, nor lengthened it so that a point where its end falls lies next to a pattern letter |
| `WordPieces.ExposedIsCut` | livekit-agents/livekit/agents/tokenize/_basic_hyphenator.py:46-71 | for any other word there is a list of patterns, all of them accepted, that cuts it badly |
| `WordPieces.DottedCapitalIsCut` | livekit-agents/livekit/agents/tokenize/_basic_hyphenator.py:46-71 | a word with a dotted capital I loses its last letter to the one pattern `b1c` |
| `WordPieces.ExceptionsBreakAsWritten` | livekit-agents/livekit/agents/tokenize/_basic_hyphenator.py:16-20 | an exception of lower-case pieces joined by hyphens is stored under its word and breaks it exactly where the pieces meet |
| `WordPieces.StretchBreaksIffHyphen` | livekit-agents/livekit/agents/tokenize/_basic_hyphenator.py:17-19 | whatever an exception holds between its letters, a word is broken there exactly by a single hyphen |
| `WordPieces.LastExceptionDecides` | livekit-agents/livekit/agents/tokenize/_basic_hyphenator.py:16-20 | of the exceptions for the same word the last one is stored |
| `WordPieces.OnlyExceptionsStored` | livekit-agents/livekit/agents/tokenize/_basic_hyphenator.py:16-20 | and nothing but exceptions is |
| `Anchors.AnchoredAtStart` | livekit-agents/livekit/agents/tokenize/_basic_hyphenator.py:49-57 | a pattern that begins with a dot matches exactly at the beginning of the words that begin with the rest of it |
| `Anchors.AnchoredAtEnd` | livekit-agents/livekit/agents/tokenize/_basic_hyphenator.py:49-57 | one that ends with a dot exactly at the end of the words that end with the rest of it |
| `Anchors.FreeAnywhere` | livekit-agents/livekit/agents/tokenize/_basic_hyphenator.py:49-57 | one without dots exactly where its letters stand in the word |
| `Anchors.AnchoredPatternCuts` | livekit-agents/livekit/agents/tokenize/_basic_hyphenator.py:46-71 | `.abc1d` breaks abcdef after its third letter and nowhere else |
| `Hyphenators.Hyphenator.constructor` | livekit-agents/livekit/agents/tokenize/_basic_hyphenator.py:11-20 | raises exactly if a pattern cannot be parsed; otherwise the trie holds the table of the patterns and the exceptions their points, the last of two for the same letters winning |
| `Hyphenators.Hyphenator.InsertAll` | livekit-agents/livekit/agents/tokenize/_basic_hyphenator.py:13-14 | the pattern loop: stops exactly at a pattern that cannot be parsed, else leaves the table of all of them |
| `Hyphenators.Hyphenator.AddExceptions` | livekit-agents/livekit/agents/tokenize/_basic_hyphenator.py:16-20 | the exception loop leaves the points of the last exception for each word |
| `Hyphenators.Hyphenator.Descend` | livekit-agents/livekit/agents/tokenize/_basic_hyphenator.py:32-35 | one letter down the trie, adding a node if there is none, keeps the trie and what it stores |
| `Hyphenators.Hyphenator.StorePoints` | livekit-agents/livekit/agents/tokenize/_basic_hyphenator.py:36 | storing points changes one entry of the table |
| `Hyphenators.Hyphenator.InsertPattern` | livekit-agents/livekit/agents/tokenize/_basic_hyphenator.py:22-36 | raises, the trie untouched, exactly if the pattern cannot be parsed; otherwise updates the table at its characters and nowhere else |
| `Hyphenators.Hyphenator.MaxInto` | livekit-agents/livekit/agents/tokenize/_basic_hyphenator.py:58-59 | each number of a pattern is maxed into the point it falls on, all others stay |
| `Hyphenators.Hyphenator.WalkFrom` | livekit-agents/livekit/agents/tokenize/_basic_hyphenator.py:52-61 | the walk from one offset, stopping where the trie ends, accounts for every match that starts there |
| `Hyphenators.Hyphenator.CollectPoints` | livekit-agents/livekit/agents/tokenize/_basic_hyphenator.py:49-61 | the trie computes the brute-force maximum over all patterns at all offsets |
| `Hyphenators.Hyphenator.BuildPieces` | livekit-agents/livekit/agents/tokenize/_basic_hyphenator.py:65-71 | the piece loop is the function the theorems above are about |
| `Hyphenators.Hyphenator.HyphenateWord` | livekit-agents/livekit/agents/tokenize/_basic_hyphenator.py:38-71 | short words whole, exceptions by their points, all others by the brute-force points of the lowered word between two dots, with edges zeroed; whenever lower-casing keeps the length, the pieces are good and broken exactly where those points are odd and no edge is near |
| `Channel.BigEndianRoundTrip` | livekit-agents/livekit/agents/ipc/channel.py:83-88 | a number that fits is read back from its big-endian bytes |
| `Channel.BytesAreDigits` | livekit-agents/livekit/agents/ipc/channel.py:62-120 | the k-th byte of a number is its k-th digit to base 256, most significant first |
| `Channel.FieldsStand` | livekit-agents/livekit/agents/ipc/channel.py:62-96 | a string stands as its length in four bytes and its bytes, a number as its bytes, a boolean as one byte, each in front of what follows |
| `Channel.GetPutNat` | livekit-agents/livekit/agents/ipc/channel.py:83-120 | the integer readers undo their writers and leave what follows |
| `Channel.GetPutBytes` | livekit-agents/livekit/agents/ipc/channel.py:62-80 | the same for length-prefixed bytes and strings |
| `Channel.GetPutBool` | livekit-agents/livekit/agents/ipc/channel.py:91-96 | the same for booleans |
| `Channel.BytesIO.Write` | livekit-agents/livekit/agents/ipc/channel.py:34-41 | a write appends |
| `Channel.BytesIO.Read` | livekit-agents/livekit/agents/ipc/channel.py:67-69 | a read returns what is left up to its length and advances |
| `Channel.BytesIO.WriteNat` | livekit-agents/livekit/agents/ipc/channel.py:83-120 | appends the big-endian bytes, or fails for a number that does not fit |
| `Channel.BytesIO.WriteBytes` | livekit-agents/livekit/agents/ipc/channel.py:62-64 | appends length and bytes, or fails for a length that does not fit |
| `Channel.BytesIO.ReadNat` | livekit-agents/livekit/agents/ipc/channel.py:87-88 | reads what the specification reads, and advances as far |
| `Channel.BytesIO.ReadBytes` | livekit-agents/livekit/agents/ipc/channel.py:67-69 | the same for length-prefixed bytes |
| `Channel.BytesIO.WriteFloat` | livekit-agents/livekit/agents/ipc/channel.py:99-100 | appends the packed float, or fails for one too large to pack |
| `Channel.BytesIO.ReadFloat` | livekit-agents/livekit/agents/ipc/channel.py:103-104 | unpacks the next four bytes, or fails for want of them |
| `Messages.JobRoundTrip` | livekit-agents/livekit/agents/ipc/proto.py:95-118 | a running job is read back from its fields, whatever follows, but for its accept attributes |
| `Messages.JobsRoundTrip` | livekit-agents/livekit/agents/cli/proto.py:50-82 | the same for a job list of any length |
| `Messages.FieldsRoundTrip` | livekit-agents/livekit/agents/ipc/proto.py:27-218 | for every message of both protocols the reader consumes exactly what the writer wrote and returns the message, but for accept attributes and with floats rounded to single precision |
| `Messages.IdComesFirst` | livekit-agents/livekit/agents/ipc/proto.py:19-206 | the first four bytes of each message are its class's id |
| `Messages.JobStands` | livekit-agents/livekit/agents/ipc/proto.py:95-103 | then, for a job, its seven fields in this order |
| `Messages.MessageStands` | livekit-agents/livekit/agents/ipc/proto.py:27-214 | and for every message its fields in this order |
| `Messages.ParseRoundTrip` | livekit-agents/livekit/agents/ipc/channel.py:24-41 | the id and fields parsed from an encoding are the message's, whatever bytes follow, but for the same losses |
| `Messages.MessageRoundTrip` | livekit-agents/livekit/agents/ipc/channel.py:24-41 | `_read_message` of `_write_message` is the message, whatever bytes follow, but for accept attributes and the rounding of floats, for every message whose fields can be decoded |
| `Messages.LosslessIff` | livekit-agents/livekit/agents/ipc/proto.py:15-118 | it is the very same message if and only if none of its jobs has accept attributes and its floats are single-precision values |
| `Messages.EncodableIff` | livekit-agents/livekit/agents/ipc/channel.py:34-120 | a message can be encoded if and only if its strings and bytes are shorter than 2^32, its counts and timestamps are in range and its floats can be packed |
| `Messages.WellFormedIff` | livekit-agents/livekit/agents/ipc/channel.py:67-80 | and decoded if and only if all its strings are UTF-8, its jobs serialized jobs and its trace a pickle |
| `Messages.EncodingsAreUnambiguous` | livekit-agents/livekit/agents/ipc/channel.py:24-41 | two messages of a protocol whose encodings begin the same byte string are the same, but for what is lost, and end at the same place |
| `MessageCodec.WriteJob` | livekit-agents/livekit/agents/ipc/proto.py:95-103 | writes the job's fields in order, or fails if one does not fit |
| `MessageCodec.WriteJobList` | livekit-agents/livekit/agents/cli/proto.py:50-62 | count, jobs, reload count, or failure |
| `MessageCodec.WriteFields` | livekit-agents/livekit/agents/ipc/proto.py:27-214 | writes the fields of an encodable message, and fails for any other |
| `MessageCodec.WriteMessage` | livekit-agents/livekit/agents/ipc/channel.py:34-41 | encodes a message exactly if it is encodable |
| `MessageCodec.ReadString` | livekit-agents/livekit/agents/ipc/channel.py:78-80 | reads a length-prefixed string, and raises exactly if its bytes are no UTF-8 |
| `MessageCodec.ReadJob` | livekit-agents/livekit/agents/ipc/proto.py:105-118 | reads one job as the specification does, and raises exactly if one of its fields cannot be decoded |
| `MessageCodec.ReadJobList` | livekit-agents/livekit/agents/cli/proto.py:64-82 | the reading loop appends exactly the announced number of jobs, and raises exactly if one cannot be decoded |
| `MessageCodec.ReadIpcFields` | livekit-agents/livekit/agents/ipc/proto.py:34-233 | dispatches on the id and reads that message's fields, for any bytes; raises exactly for an unknown id, floats cut short, or a field that cannot be decoded |
| `MessageCodec.ReadCliFields` | livekit-agents/livekit/agents/cli/proto.py:64-106 | the same for the command-line protocol |
| `MessageCodec.ReadMessage` | livekit-agents/livekit/agents/ipc/channel.py:24-31 | decodes any bytes as the specification does; raises exactly for an unknown id, floats cut short, or a field that cannot be decoded |
| `MessageCodec.SendAndReceive` | livekit-agents/livekit/agents/ipc/channel.py:24-41 | a message sent and received comes back whole but for accept attributes and the rounding of floats, exactly if it is encodable |
| `Fallback.StepKeeps` | livekit-agents/livekit/agents/llm/fallback_adapter.py:180-234 | every step of a stream or a recovery keeps the invariants on flags, recoveries, events, attempts and output |
| `Fallback.OneRecoveryPerInstance` | livekit-agents/livekit/agents/llm/fallback_adapter.py:180-200 | in every interleaving an instance has at most one pending recovery, and is unavailable while it has one |
| `Fallback.EventsAlternate` | livekit-agents/livekit/agents/llm/fallback_adapter.py:191-225 | in every interleaving the availability events of an instance alternate, "unavailable" first, and the flag is the last of them |
| `Fallback.FullRetryTriesAll` | livekit-agents/livekit/agents/llm/fallback_adapter.py:205-234 | a stream that found every instance unavailable and gives up has tried them all |
| `Fallback.LlmOutputIsOneInstance` | livekit-agents/livekit/agents/llm/fallback_adapter.py:212-228 | the chunks of an LLM stream all come from one instance; if it reports that all failed there are none |
| `Fallback.GoesOnIffInaudible` | livekit-agents/livekit/agents/tts/fallback_adapter.py:355-369 | a TTS stream whose attempt fails goes on to the next instance if and only if its emitter has handled less than two full frames of audio |
| `Fallback.ChunkMixesIffWentOn` | livekit-agents/livekit/agents/tts/fallback_adapter.py:343-353 | the next audio passed on makes the output a mixture if and only if the stream has so gone on past audio |
| `Fallback.MixtureIff` | livekit-agents/livekit/agents/tts/fallback_adapter.py:343-369 | in every run a stream's output is of two instances if and only if it went on past audio and passed on more afterwards |
| `Fallback.InaudibleFailureMixes` | livekit-agents/livekit/agents/tts/fallback_adapter.py:343-369 | at any failure, in any run, that goes on past audio passed on: if the next instance is available and passes on some, the output is a mixture |
| `Fallback.InaudibleFailure` | livekit-agents/livekit/agents/tts/fallback_adapter.py:343-369 | such a failure is reached: a streaming adapter of two instances, whose first attempt passes on one piece of audio of less than two frames |
| `Fallback.TtsMixtureHappens` | livekit-agents/livekit/agents/tts/fallback_adapter.py:343-369 | and the mixture then happens: for every such piece a run that returns audio of both instances |
| `Recoveries.LeftBehindIsRecovered` | livekit-agents/livekit/agents/tts/fallback_adapter.py:355-417 | an instance that a stream skips, or whose attempt failed unheard, is unavailable and has a recovery pending: the one it had, or a new one if it had none; only a streaming TTS without text starts nothing |
| `Recoveries.OtherwiseNoneStarts` | livekit-agents/livekit/agents/tts/fallback_adapter.py:377-417 | no other step starts a recovery, and one is over only by its own end |
| `Recoveries.FlagAfter` | livekit-agents/livekit/agents/llm/fallback_adapter.py:191-225 | an instance becomes unavailable exactly by a failed attempt at it, and available exactly by a recovery of it that succeeds |
| `Recoveries.AttemptedIff` | livekit-agents/livekit/agents/llm/fallback_adapter.py:205-232 | a full retry begins exactly if all instances are unavailable; an instance is attempted exactly if it is available or on a full retry, else skipped, and the stream gives up exactly past the last one |
| `Recoveries.HeardFailureEnds` | livekit-agents/livekit/agents/tts/fallback_adapter.py:363-367 | a failed attempt ends the stream exactly if something of it was heard: an LLM stream raises again, a TTS stream keeps what it has |
| `Recoveries.OutcomeEndsStream` | livekit-agents/livekit/agents/llm/fallback_adapter.py:212-218 | a stream whose attempt succeeded, or that was cancelled in one, takes no further step |
| `Fallback.FallbackAdapter.constructor` | livekit-agents/livekit/agents/llm/fallback_adapter.py:37-57 | all instances available, no recovery, no event |
| `Fallback.FallbackAdapter.StartRecovery` | livekit-agents/livekit/agents/tts/fallback_adapter.py:377-417 | `_try_recovery`: a new task unless one is pending, and for streaming TTS only if some text was pushed |
| `Fallback.FallbackAdapter.VisitInstance` | livekit-agents/livekit/agents/llm/fallback_adapter.py:209-211 | the loop at one instance: attempt it, or try to recover it and go on, or raise after the last |
| `Fallback.FallbackAdapter.AttemptFailed` | livekit-agents/livekit/agents/tts/fallback_adapter.py:355-369 | the failure branch: flag and event once, then end or go on |
| `Fallback.FallbackAdapter.StartStream` | livekit-agents/livekit/agents/llm/fallback_adapter.py:205-207 | a new stream takes its snapshot of whether every instance is unavailable |
| `Fallback.FallbackAdapter.PassOn` | livekit-agents/livekit/agents/tts/fallback_adapter.py:343-353 | a chunk, or audio pushed into the emitter, is recorded under the instance it came from |
| `Fallback.FallbackAdapter.RecoveryDone` | livekit-agents/livekit/agents/tts/fallback_adapter.py:377-417 | a recovery that succeeded sets the flag and emits the event; one that failed changes neither |
| `TtsReplay.FallbackSynthesizeStream.Forward` | livekit-agents/livekit/agents/tts/fallback_adapter.py:307-312 | passes a datum on to the current attempt and records it if it is text |
| `TtsReplay.FallbackSynthesizeStream.InputEnds` | livekit-agents/livekit/agents/tts/fallback_adapter.py:314-315 | closes the current attempt's channel |
| `TtsReplay.FallbackSynthesizeStream.BeginAttempt` | livekit-agents/livekit/agents/tts/fallback_adapter.py:323-330 | a new channel with the recorded text, closed at once if the input is over; no send ever hits a closed channel; it holds what was received if and only if that was no flush mark and no empty text |
| `TtsReplay.OfferedIsAllIff` | livekit-agents/livekit/agents/tts/fallback_adapter.py:307-327 | an attempt is offered the very data received if and only if no flush mark and no empty text came before it began: those are not replayed |
| `TtsReplay.RunAttempts` | livekit-agents/livekit/agents/tts/fallback_adapter.py:294-330 | for any interleaving of input and attempts, the current attempt has been offered exactly the text received, in order, and the very data received if and only if no flush mark or empty text arrived before it began; its channel is closed exactly if the input is over |
| `AudioStream.ChunksMean` | livekit-agents/livekit/agents/utils/audio.py:104-118 | all frames have exactly the frame size, less than one frame is left, and frames and rest are the bytes |
| `AudioStream.ChunksResume` | livekit-agents/livekit/agents/utils/audio.py:102-118 | chunking can be resumed from what was left: how bytes were pushed is irrelevant |
| `AudioStream.AudioByteStream.constructor` | livekit-agents/livekit/agents/utils/audio.py:54-81 | frame size from samples and channels, empty buffer |
| `AudioStream.AudioByteStream.Push` | livekit-agents/livekit/agents/utils/audio.py:83-118 | returns all full frames of buffer and data, keeps the rest, and each frame counts its samples right |
| `AudioStream.AudioByteStream.Flush` | livekit-agents/livekit/agents/utils/audio.py:122-152 | returns the buffer as one frame if it is whole samples, else nothing |
| `AudioStream.AudioByteStream.FlushedSamplesMatchIffMono` | livekit-agents/livekit/agents/utils/audio.py:146-151 | the flushed frame's sample count matches its bytes if and only if the audio is mono |
| `AudioStream.PushAll` | livekit-agents/livekit/agents/utils/audio.py:83-118 | any number of pushes give the frames of one push of everything |
| `AudioStream.OneFlushCompletesIffAligned` | livekit-agents/livekit/agents/utils/audio.py:138-152 | after all pushes one flush returns the rest of the bytes if and only if they are whole samples |
| `AudioStream.RunCalls` | livekit-agents/livekit/agents/utils/audio.py:83-152 | any pushes and flushes return the function `Returned` of them; the buffer is what is left of everything pushed |
| `AudioStream.ConservedIffFlushesQuiet` | livekit-agents/livekit/agents/utils/audio.py:138-152 | pushes and flushes in any order, then a last flush: the bytes are conserved if and only if they are whole samples and no flush on the way had anything to return |
| `AudioEmission.HandleKeeps` | livekit-agents/livekit/agents/tts/tts.py:782-831 | each event of the write channel keeps order, finality, durations and ids of the outputs |
| `AudioEmission.RunKeeps` | livekit-agents/livekit/agents/tts/tts.py:780-831 | so they hold after every event sequence, and a task that has not raised has started every segment asked for |
| `AudioEmission.OneFinalPerSegment` | livekit-agents/livekit/agents/tts/tts.py:668-716 | after every event sequence a closed segment with output has exactly one final output, its last; the open one has none |
| `AudioEmission.OutputsBelongToSegments` | livekit-agents/livekit/agents/tts/tts.py:784-791 | after every event sequence each output belongs to a started segment and bears its id, and each recorded duration is the sum of that segment's frames, made-up silence apart |
| `AudioEmission.SendsForTheOpenSegment` | livekit-agents/livekit/agents/tts/tts.py:793-801 | an event never changes what was sent, and what it sends is for the segment open before it; with none open it sends nothing |
| `AudioEmission.StopsIff` | livekit-agents/livekit/agents/tts/tts.py:782-803 | the main task of a streaming emitter stops exactly at a start inside an open segment and at audio outside any; other events outside a segment change nothing |
| `AudioEmission.DurationFillsSamples` | livekit-agents/livekit/agents/tts/tts.py:668-716 | a frame lasts as many seconds as its samples fill at its rate |
| `AudioEmission.SilenceIsSilent` | livekit-agents/livekit/agents/tts/tts.py:668-716 | the silence made up has samples for its length, all zero, and lasts ten milliseconds exactly at rates divisible by a hundred, never more |
| `AudioSegments.SegmentSends` | livekit-agents/livekit/agents/tts/tts.py:782-829 | a segment with pushes and flushes in any order sends exactly the frames of its calls, in order, under its number and id, only the last final, and that one silence made up if and only if a flush has left the end nothing to send |
| `AudioSegments.SegmentConservesIff` | livekit-agents/livekit/agents/tts/tts.py:782-829 | those frames carry the segment's bytes if and only if they are whole samples and no flush on the way had anything to return |
| `AudioSegments.EndClosesIffPushed` | livekit-agents/livekit/agents/tts/tts.py:817-829 | the end closes a segment if and only if something was pushed in it; otherwise the next start raises |
| `AudioSegments.AudibleFromTwoFrames` | livekit-agents/livekit/agents/tts/tts.py:525-530 | after any pushes taken from the channel the pushed duration of the open segment is positive if and only if they make two full frames |
| `AudioSegments.NonStreamingMonoConserves` | livekit-agents/livekit/agents/tts/tts.py:782-829 | mono audio pushed without streaming comes out byte for byte if and only if it is whole samples, the last frame final |
| `AudioEmitters.AudioEmitter.Initialize` | livekit-agents/livekit/agents/tts/tts.py:536-578 | raises the second time; otherwise sets up the channel, with the one segment started if not streaming |
| `AudioEmitters.AudioEmitter.LastDuration` | livekit-agents/livekit/agents/tts/tts.py:525-530 | `pushed_duration()` is what the event machine has recorded for the last segment started |
| `AudioEmitters.AudioEmitter.Delimit` | livekit-agents/livekit/agents/tts/tts.py:580-615 | `start_segment` and `end_segment` raise unless streaming, and send their event unless closed |
| `AudioEmitters.AudioEmitter.Push` | livekit-agents/livekit/agents/tts/tts.py:617-624 | sends the bytes unless closed |
| `AudioEmitters.AudioEmitter.Flush` | livekit-agents/livekit/agents/tts/tts.py:626-636 | a flush event when streaming, the end of the input otherwise |
| `AudioEmitters.AudioEmitter.EndInput` | livekit-agents/livekit/agents/tts/tts.py:638-646 | sends an end and closes the channel, once |
| `AudioEmitters.AudioEmitter.EmitFrame` | livekit-agents/livekit/agents/tts/tts.py:668-716 | `_emit_frame(frame)`: the held frame goes out, this one is held |
| `AudioEmitters.AudioEmitter.EmitFinal` | livekit-agents/livekit/agents/tts/tts.py:668-716 | `_emit_frame(is_final=True)`: the held frame, or silence after a flush, or nothing |
| `AudioEmitters.AudioEmitter.FlushFrame` | livekit-agents/livekit/agents/tts/tts.py:718-739 | `_flush_frame`: the held frame goes out, not final |
| `AudioEmitters.AudioEmitter.Cut` | livekit-agents/livekit/agents/tts/tts.py:805-815 | makes the byte stream on the first bytes; its frames are the ones the events stand for |
| `AudioEmitters.AudioEmitter.Turn` | livekit-agents/livekit/agents/tts/tts.py:782-831 | one turn of the main task does what the event machine says |
| `AudioEmitters.AudioEmitter.HandleNext` | livekit-agents/livekit/agents/tts/tts.py:782-831 | the state of the task is always the run of the events taken from the channel |
| `AudioEmitters.AudioEmitter.Join` | livekit-agents/livekit/agents/tts/tts.py:648-652 | at the end it is the run of everything sent, or an exception has stopped it for good |
| `AudioEmitters.SendAll` | livekit-agents/livekit/agents/tts/tts.py:577-652 | a mono emitter that is not streaming never raises, and sends exactly what was pushed if and only if that is whole samples |
| `Pool.StepKeeps` | livekit-agents/livekit/agents/utils/connection_pool.py:59-179 | every step of every caller, drains in progress included, keeps live, queued, listed and closed connections apart |
| `Pool.TakesAreSafe` | livekit-agents/livekit/agents/utils/connection_pool.py:95-109 | in every interleaving `get` hands out only a live connection, held by nobody else, neither closed nor about to be, and not expired; an expired one is queued to be closed instead |
| `Losses.GivenBackIsReused` | livekit-agents/livekit/agents/utils/connection_pool.py:95-120 | a live connection given back can be handed out next, to one caller only, and then counts as new exactly with `mark_refreshed_on_get`; one removed meanwhile cannot |
| `Losses.PrewarmedIsReady` | livekit-agents/livekit/agents/utils/connection_pool.py:163-166 | a prewarmed connection can be handed out at once |
| `Losses.RemovedIsNotHandedOut` | livekit-agents/livekit/agents/utils/connection_pool.py:131-152 | what was removed or invalidated is queued to be closed, and in no run handed out again |
| `Pool.LostForever` | livekit-agents/livekit/agents/utils/connection_pool.py:65-69 | a connection opened and neither live, queued, listed nor closed stays so: nothing closes it later |
| `Pool.QuietRunsLoseNothing` | livekit-agents/livekit/agents/utils/connection_pool.py:65-69 | if nothing is queued while a drain is under way, every connection opened is live, queued, listed or closed at every step |
| `Losses.StepLoses` | livekit-agents/livekit/agents/utils/connection_pool.py:65-69 | in any state, overlapping and aborted drains included, a step loses a connection if and only if it is the clear of a drain, with the connection queued, not closed and left with no drain; or the abort of a drain that had it left, with the connection no longer queued, not closed and left with no other drain |
| `Losses.LostIffAStepLosesIt` | livekit-agents/livekit/agents/utils/connection_pool.py:65-69 | in every run a connection is lost at the end if and only if one of the steps lost it so |
| `Losses.ClearingLoses` | livekit-agents/livekit/agents/utils/connection_pool.py:65-69 | a run of a new pool that loses a connection: removed while another is being closed |
| `Losses.AbortingLoses` | livekit-agents/livekit/agents/utils/connection_pool.py:65-69 | and one where a second drain lists both, the first clears the queue, and the second is aborted |
| `Pool.NothingIsLostIffQuiet` | livekit-agents/livekit/agents/utils/connection_pool.py:65-69 | where drains run one after the other to their ends, nothing is lost if and only if nothing was queued while one was under way |
| `Pool.OrderlyRunsCloseOnce` | livekit-agents/livekit/agents/utils/connection_pool.py:65-69 | if drains neither overlap nor abort, each connection is closed at most once |
| `Pool.CleanRunsCloseOnce` | livekit-agents/livekit/agents/utils/connection_pool.py:65-69 | the same for every run, overlaps and aborts included, in which no drain begins with something queued that is closed already or still listed |
| `Pool.ClosedOnceIffClean` | livekit-agents/livekit/agents/utils/connection_pool.py:65-69 | where drains run to their ends, overlapping or not, each connection is closed at most once if and only if no drain so began |
| `Pool.ClearLosesWhatCameMeanwhile` | livekit-agents/livekit/agents/utils/connection_pool.py:67-69 | the end of an orderly drain loses a connection if and only if it was queued after the drain began |
| `Pool.RemovalDuringADrainLoses` | livekit-agents/livekit/agents/utils/connection_pool.py:131-142 | so, where drains run one after the other to their ends, a live connection removed while one is under way is lost when that has ended |
| `Pool.AbortedDrainIsRepeated` | livekit-agents/livekit/agents/utils/connection_pool.py:65-69 | after the drain under way was aborted, the next cannot begin cleanly |
| `Pool.OverlappingDrainsCloseTwice` | livekit-agents/livekit/agents/utils/connection_pool.py:65-69 | two overlapping drains close a connection twice |
| `Pool.DrainAfterAbortClosesTwice` | livekit-agents/livekit/agents/utils/connection_pool.py:65-69 | and so does the drain after one that was aborted, without any overlap |
| `ConnectionPools.ConnectionPool.constructor` | livekit-agents/livekit/agents/utils/connection_pool.py:20-48 | an empty pool, from which all the above holds |
| `ConnectionPools.ConnectionPool.Put` | livekit-agents/livekit/agents/utils/connection_pool.py:111-120 | available again exactly if still in the pool |
| `ConnectionPools.ConnectionPool.Remove` | livekit-agents/livekit/agents/utils/connection_pool.py:131-142 | out of the pool and queued to be closed, if it was in it |
| `ConnectionPools.ConnectionPool.Invalidate` | livekit-agents/livekit/agents/utils/connection_pool.py:144-152 | the same for every connection |
| `ConnectionPools.ConnectionPool.DrainToClose` | livekit-agents/livekit/agents/utils/connection_pool.py:65-69 | undisturbed: closes every queued connection once, leaves none queued, loses none |
| `ConnectionPools.ConnectionPool.Reuse` | livekit-agents/livekit/agents/utils/connection_pool.py:95-107 | hands out an available connection that has not expired, queues the expired ones met, and gives up only when all had expired |
| `ConnectionPools.ConnectionPool.Get` | livekit-agents/livekit/agents/utils/connection_pool.py:87-109 | the whole call: nothing expired, closed or checked out is returned; a new connection is opened only if every available one had expired; an error only if opening fails |
| `ConnectionPools.ConnectionPool.Prewarm` | livekit-agents/livekit/agents/utils/connection_pool.py:154-169 | starts the background task once, and only for an empty pool |
| `ConnectionPools.ConnectionPool.PrewarmTask` | livekit-agents/livekit/agents/utils/connection_pool.py:163-166 | on a pool still empty one new connection, live and available; nothing if connecting fails or is cancelled |
| `ConnectionPools.ConnectionPool.Aclose` | livekit-agents/livekit/agents/utils/connection_pool.py:171-179 | afterwards every connection ever opened has been closed, exactly once |
| `Processes.StepKeeps` | livekit-agents/livekit/agents/ipc/proc_pool.py:99-206 | every step of launches, spawn tasks, exits and the main loop keeps all invariants |
| `Processes.JobsGetDistinctExecutors` | livekit-agents/livekit/agents/ipc/proc_pool.py:99-174 | in every interleaving an executor is queued at most once and initialised, the jobs launched run on distinct executors handed out in the order these were warmed up, and the executors' guards never raise |
| `Processes.StartReturnsIff` | livekit-agents/livekit/agents/ipc/proc_pool.py:88-90 | `start` may return, in every run, exactly if some warm-up left as many executors queued as idle ones are wanted |
| `Processes.HeadIsNew` | livekit-agents/livekit/agents/ipc/job_proc_executor.py:153-160 | the executor at the head of the queue is initialised and has no job: both guards pass |
| `Processes.NothingRaises` | livekit-agents/livekit/agents/ipc/proc_pool.py:154-188 | in every interleaving nothing keeps a waiting launch from taking an executor that is queued, though another may take it first, and `list.remove` always finds its executor |
| `Processes.ExecutorsListed` | livekit-agents/livekit/agents/ipc/proc_pool.py:157-188 | in every interleaving `_executors` holds, once each, exactly the executors queued for the semaphore or starting, those monitored, and those whose start raised |
| `Processes.CrashedStayListed` | livekit-agents/livekit/agents/ipc/proc_pool.py:163-188 | and an executor whose start raised stays in it for good |
| `Processes.TickFillsUp` | livekit-agents/livekit/agents/ipc/proc_pool.py:193-204 | a turn of the main loop brings queued executors and spawn tasks up to the wanted number exactly, and adds none beyond |
| `Processes.LaunchSpawns` | livekit-agents/livekit/agents/ipc/proc_pool.py:99-109 | a launch spawns if and only if the queue is empty and the tasks are fewer than the launches waiting, those cancelled while waiting still counted |
| `Shortages.ShortageStep` | livekit-agents/livekit/agents/ipc/proc_pool.py:99-204 | every step changes the number of waiting launches without an executor queued or on its way by exactly this: one more for a launch that spawns nothing or spawns on a closed pool, one more for a failed start or initialisation, all tasks not let in for a close, one less for a launch that gives up, and less by what the main loop spawns |
| `Shortages.ShortageOfRun` | livekit-agents/livekit/agents/ipc/proc_pool.py:99-204 | so in every run it is the sum of those changes |
| `Shortages.AllServedIffNoShortage` | livekit-agents/livekit/agents/ipc/proc_pool.py:99-180 | at every point of every run all waiting launches can be served without the main loop spawning and without one giving up, if and only if there is no shortage |
| `Shortages.ShortageStays` | livekit-agents/livekit/agents/ipc/proc_pool.py:99-180 | without such help at least as many launches as the shortage wait from then on |
| `Shortages.StrandedAreTheShortage` | livekit-agents/livekit/agents/ipc/proc_pool.py:99-188 | with nothing queued and no task, exactly as many launches wait as the run has lost and not made up for |
| `Shortages.StrandedBy` | livekit-agents/livekit/agents/ipc/proc_pool.py:99-114 | the steps that leave launches waiting with nothing queued and no task are two: the last task ends with the queue empty, or, without any task, one launch takes the last executor from the others |
| `Shortages.StrandedUntil` | livekit-agents/livekit/agents/ipc/proc_pool.py:99-204 | and three end it: a new launch, a tick with idle processes wanted, the last one giving up |
| `Shortages.NewcomerStrands` | livekit-agents/livekit/agents/ipc/proc_pool.py:99-114 | a run without failure, cancellation or close that ends so: a second launch finds the first one's executor queued, spawns nothing and takes it |
| `Shortages.DryStays` | livekit-agents/livekit/agents/ipc/proc_pool.py:193-204 | with nothing queued and no task, only another launch or a tick with idle processes wanted changes that |
| `Shortages.FailureIsNotMadeUpFor` | livekit-agents/livekit/agents/ipc/proc_pool.py:160-180 | a start or initialisation that fails takes its task away and puts nothing in its place: the launches wait as before |
| `Shortages.FailureStrandsUnlessIdleWanted` | livekit-agents/livekit/agents/ipc/proc_pool.py:160-180 | if it was the last task and nothing is queued, the launches waiting are helped by the next tick if and only if idle processes are wanted |
| `Shortages.FirstLaunchCanBeStranded` | livekit-agents/livekit/agents/ipc/proc_pool.py:99-180 | the first launch of a pool can be left waiting so: a run that gets there |
| `ProcPools.ProcPool.constructor` | livekit-agents/livekit/agents/ipc/proc_pool.py:29-69 | an empty pool |
| `ProcPools.ProcPool.LaunchJob` | livekit-agents/livekit/agents/ipc/proc_pool.py:99-109 | `launch_job` up to its wait |
| `ProcPools.ProcPool.TakeProcess` | livekit-agents/livekit/agents/ipc/proc_pool.py:110-114 | `launch_job` from there: an initialised executor without a job gets it |
| `ProcPools.ProcPool.MakeExecutor` | livekit-agents/livekit/agents/ipc/proc_pool.py:124-154 | a spawn task lists its executor |
| `ProcPools.ProcPool.EnterSemaphore` | livekit-agents/livekit/agents/ipc/proc_pool.py:155-158 | inside the semaphore: initialise, or unlist the executor if the pool was closed |
| `ProcPools.ProcPool.RemoveExecutor` | livekit-agents/livekit/agents/ipc/proc_pool.py:188 | `list.remove` of a listed executor |
| `ProcPools.ProcPool.ProcessReady` | livekit-agents/livekit/agents/ipc/proc_pool.py:163-174 | the executor enters the queue for the first time, and is monitored |
| `ProcPools.ProcPool.ProcessFailed` | livekit-agents/livekit/agents/ipc/proc_pool.py:160-180 | an executor that failed is never queued; it is monitored only if it had started |
| `ProcPools.ProcPool.ProcessExited` | livekit-agents/livekit/agents/ipc/proc_pool.py:183-188 | an executor that ended is unlisted |
| `ProcPools.ProcPool.KeepIdle` | livekit-agents/livekit/agents/ipc/proc_pool.py:193-204 | one turn of the main loop |

## Left out

- AgentActivities.AgentActivity.MainSegment: `aclose` cancelling the main loop is not a step of the machine; after it there is nothing left to schedule.
- Scheduler.StepKeeps: every handle may be interrupted at any time; `allow_interruptions` would only take such steps away.
- Draining.DrainCanEndIffNotHeldUp: that a drain which can end does end depends on how long speeches and tools run, which the machine leaves open.
- TokenStream.StreamWords: only the tokenizer that reports positions, which the basic word stream uses; the branch that searches for the token text is for the sentence tokenizer, whose regular expressions have no crisp meaning.
- WordPieces.EdgesAreSafeIffNotExposed: quantifies over lists of patterns in Liang's format, digits between letters and dots; the constructor itself takes any text. The built-in pattern table is data.
- WordPieces.ExceptionsBreakAsWritten: exceptions written as lower-case pieces joined by single hyphens; the points of any other text are modelled, but nothing further is claimed of them.
- ChatSync.Synchronise: the realtime session sends the deletes and creations to a server and applies its echoes, in their order; the exchange itself, a server that refuses, and the conversion of an item to the wire and back are not modelled.
- AudioSegments.NonStreamingMonoConserves: mono only, because the flushed frame of other audio has a wrong sample count, which `rtc.AudioFrame` may refuse; its checks are not part of this model.
- AudioSegments.SegmentSends: likewise supposes that `rtc.AudioFrame` accepts the flushed frame of audio that is not mono.
- AudioSegments.SegmentConservesIff: likewise.
- AudioEmission.OutputsBelongToSegments: likewise.
- AudioEmitters.AudioEmitter.EmitFinal: `_emit_frame` with both a frame and `is_final`, which nothing calls.
- AudioEmitters.AudioEmitter.Join: decoding of compressed audio, the resampler and the debug dump.
- Fallback.StepKeeps: provider instances are distinct, so `list.index` finds the one meant; timeouts are failures; how long a recovery probe takes is any number of steps.
- Fallback.EventsAlternate: the STT adapter, which has two recovery tasks per instance, so its events need not alternate.
- Processes.NothingRaises: that the launch waiting longest is served first, which is false: a newcomer may take the executor before a woken launch does (what that costs is `Shortages.NewcomerStrands`).
- Processes.JobsGetDistinctExecutors: that the executor handed out is still alive; it may have exited while queued, and the source does not look.
- ConnectionPools.ConnectionPool.Get: the method is one call without others between its awaits; all interleavings are in `Pool`, where `get` is its separate steps.
- ConnectionPools.ConnectionPool.DrainToClose: likewise; a drain disturbed by other calls is `DrainBegins`, `DrainCloses`, `DrainClears` and `DrainAborts` in `Pool`.
- ConnectionPools.ConnectionPool.Aclose: likewise; the prewarm task it cancels first is one whose connection never arrives.
- ConnectionPools.ConnectionPool.Prewarm: the weak reference to the task, which is only used to cancel it.
- WebSocket and HTTP plumbing, process spawning, sockets, log forwarding, the file watcher, the command line: I/O.
- Schema building with pydantic, speech-to-text, voice-activity detection, metrics and tracing: no algorithm of this kind, or libraries that are not part of this model.
