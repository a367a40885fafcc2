# Storpheus in Dafny

A model of the generation service (`storpheus/`) and of two scripts beside it, with proofs about what they
compute over all inputs, runs and histories. `dafny verify dfyconfig.toml` checks the whole project.

| file | subject |
|---|---|
| `Tokens`, `Compile`, `Smf` | the compiler from model tokens to a Standard MIDI File: channel allocation, stable sort, delta times, bytes, and a reader for those bytes |
| `NoteTokens`, `Instruments` | pitch, time, length, velocity and channel of every note, and which notes play with their own instrument, told from the tokens |
| `Matchers`, `Agreement` | the two ways note-ons are paired with note-offs, and exactly when they find the same notes in a track that may hold anything |
| `Overlap`, `RoundTrip` | notes of one pitch that overlap, and the way from tokens to bytes and back to notes, with the exact condition for it |
| `Analyser` | what the MIDI analyser reads from a compiled file, and a file on which the two parsers part |
| `JobQueue` (module `Jobs`) | the asynchronous job queue as a transition system whose steps are the stretches between two `await`s |
| `ResultCache` | the LRU cache with a time to live, its fuzzy lookup and its copy on disk, against the plain history of writes, touches, clears and restarts |
| `FuzzyLookup` | the fuzzy lookup and the counts of hits over histories |
| `Restarts` | exactly when a restart of the cache can be told from the answers that follow |
| `Search` | the candidate search with its two nested budgets, against a single loop with one budget |
| `Chunked`, `FadeRamps` | chunked generation, the fade, and the stitched timeline |
| `PostProcessing`, `Transforms` | the in-place post-processing pipeline, and what its transforms do to a note |
| `KeyDetection`, `Seeds` | key detection, transposition, seed choice, and the scorer's rotation |
| `Labels` | the channel labels of unified output |
| `Sweep` | the sweep line over note starts and ends in the MIDI analyser |
| `Chunker` | the overlapping document chunker |
| `Sorting`, `Arithmetic`, `Sequences`, `Options` | Python's stable sort, integer facts, lists without repetition, the option type |

Loops and objects of the source are methods and classes here. Each is proved equal to a specification function,
and the theorems are about that function. What comes from outside (the clock, the random choice, the Gradio calls,
the scorer, the correlation of two profiles) is a parameter of the model, so a theorem holds for every behaviour of it.

Time is kept in integers: MIDI ticks in the compiler, ten-thousandths of a beat (the grid to which the source rounds)
in post-processing, chunking and the sweep. `RoundHalfEven` is Python's `round`. The conversion from milliseconds to
ticks is any function that never goes down. The parsers turn ticks into rounded beats with a clock, which is any
function that always goes up: rounding to thousandths or ten-thousandths is one, however it treats ties, for every
file with fewer ticks to a beat than that (`RoundTrip.RoundedBeatsAscend`).

## Where the code does not do what it says

Each of these is a theorem here, with the condition under which the promise does hold.

- `cancel` says that the result of a running job is dropped; the worker completes the job all the same.
  `Jobs.CancelQueuedExactly`: a cancellation sticks if and only if the job was still queued at the call.
  `Jobs.CancelIsOverwritten` is a run of four steps that ends with the result in place.
- The clean-up loop pops the dedupe entry of an expired job without looking at which job it names.
  `Jobs.CleanupExactly` gives the exact condition for a harmless pass, `Jobs.CleanupBreaksDedupe` a run of six
  steps after which two jobs with one key are waiting. `Jobs.DedupeExactly`: a run keeps the keys apart throughout if and
  only if each of its passes is harmless. `Jobs.GuardedDedupeSafety` shows that the missing check
  is all that is missing.
- The parser closes the latest note of a pitch that looks open. `RoundTrip.TokensExactly` says for which notes this
  gives every note its own end. `RoundTrip.OverlapSwapsEnds` is a token list with two crossing notes that swap
  their ends (`RoundTrip.OverlapInBeats` in the parser's own beats), and `RoundTrip.SentinelSteals` one in which a
  finished note of half a beat takes the end of a longer one.
- So a finished note can also take a note-off that closes nothing. `Agreement.MatchersAgreeExactly`: parser and analyser
  find the same notes on a channel if and only if, on each of its pitches, every on is directly followed by an off and
  no further off meets a finished note that looks open, unless that note has just ended. `Analyser.StrayTakesNote` is a
  track of one closed note and one stray note-off on which they differ.
- The analyser keeps one pending note for each pitch, so the on of a second one replaces the first.
  `Analyser.AnalyserExactly`: it finds the decoded notes of a channel in the compiled stream if and only if no two of
  one pitch share an instant.
- The fifteenth and all later melodic patches share channel 15. `Instruments.InstrumentByTokens` says from the tokens
  which notes then play with a wrong instrument, and `Compile.SixteenPatchesFail` shows one.
- The scorer rotates the histogram the other way from the detector. `KeyDetection.ComplianceAgreesExactly`: the two
  agree only for the tonics C and F sharp.
- Two channels of unified output can get one label, and the later one overwrites the notes of the earlier.
  `Labels.LabelsDistinctExactly` gives the exact condition, and `Labels.BassClashOutput` an output that has lost the
  notes of channel 0.
- A full cache evicts its oldest key even when the write replaces a key it already has.
  `ResultCache.OverwriteKeepsExactly`: no other key is lost if and only if the cache is not full or the key is its
  oldest.
- A restart loads the file of the last write, so it forgets the hits since then and drops what is stale. The next
  lookup of any key is not affected (`ResultCache.RestartIsInvisible`), but later evictions can be.
  `Restarts.RestartHarmlessExactly`: no answer on any continuation is changed if and only if the keys of the cache are
  exactly the live ones of the file, in its order. `Restarts.HitIsForgotten` is a run of three steps from the empty
  store after which some continuation answers otherwise.
- The recursion of chunked generation ends only if a chunk is not longer than the threshold
  (`Chunked.RecursionShrinksExactly`), and every window of the document chunker leads on for every text only if the
  overlap is at most half a window (`Chunker.ProgressExactly`). Neither is checked by the code.
- The tempo event keeps three bytes, which is right exactly from four beats a minute on (`Smf.TempoSurvives`).
- `transpose_distance` says that it returns a value in -6..6; -6 does not occur (`KeyDetection.DistanceIsShortest`).

A comment above the search says that the preset "quality" means four candidates, while `generation_policy.py` says ten;
the model takes any positive number.

## Model

| member | source | states |
|---|---|---|
| `Sorting.SortIsTheStableSort` | storpheus/build_seed_library.py:243 | `list.sort` with a key: the result is the only list that is in order and keeps the given order within each rank |
| `Sorting.FilterSort` | storpheus/build_seed_library.py:243 | sorting commutes with taking any sub-list, for every key and every predicate |
| `Sorting.SortIsStable` | storpheus/build_seed_library.py:243 | within one rank the sorted list has the elements in their original order |
| `Smf.VarLen` | storpheus/build_seed_library.py:217-224 | the shifting loop with its final reversal yields the variable-length quantity of its argument, high group first |
| `Smf.VlqPrefixDecodable` | storpheus/build_seed_library.py:217-224 | every natural reads back from its quantity, whatever bytes follow, and exactly those bytes are left |
| `Smf.VlqFourBytes` | storpheus/build_seed_library.py:217-224 | a quantity takes at most four bytes, the limit of the standard, if and only if the value is below 2^28 |
| `Smf.EmitTrack` | storpheus/build_seed_library.py:226-253 | the emission loop with its running previous tick writes tempo, delta and message of each event, and the end of track |
| `Smf.EmitFile` | storpheus/build_seed_library.py:255-258 | header and track chunk with big-endian lengths; nothing when the track does not fit its length word |
| `Smf.EventsReadBack` | storpheus/build_seed_library.py:245-253 | reading the emitted deltas and messages gives the events at their absolute ticks, up to the end of the chunk |
| `Smf.ReadsBack` | storpheus/build_seed_library.py:226-258 | a reader written from the standard recovers format, track count, division, tempo event and the exact list of (tick, message) from the file of every ordered event list, and finds both chunk lengths right |
| `Smf.FileFits` | storpheus/build_seed_library.py:255-258 | every ordered list of at most 600 million messages within 2^28 ticks can be written |
| `Smf.TempoSurvives` | storpheus/build_seed_library.py:163-229 | the microseconds per beat survive the three-byte field if and only if the tempo is at least 4 |
| `Tokens.TakeChannel` | storpheus/build_seed_library.py:193-198 | the first free channel is marked and given to the patch; with none free, channel 15 is given away |
| `Tokens.TunePatch` | storpheus/build_seed_library.py:187-204 | a melodic patch token changes the two tables, the program changes and the current channel as one step of the decoder does |
| `Tokens.DecodeTokens` | storpheus/build_seed_library.py:166-215 | the token loop with its in-place tables yields the program changes and notes of the decoding function, which `NoteTokens.NoteByTokens` and `Instruments.DecodeLaid` tell from the tokens, and the default note when there is none |
| `NoteTokens.EveryNoteToken` | storpheus/build_seed_library.py:206-212 | there are as many decoded notes as note tokens |
| `NoteTokens.NoteByTokens` | storpheus/build_seed_library.py:184-212 | from the token values alone: a note has the pitch and patch of the last patch token before it, the velocity and length of its own token, and the time of the time tokens before it; drums are on channel 9, the first fourteen melodic patches on channels of their own, all others on channel 15 |
| `NoteTokens.NoteBeforePatches` | storpheus/build_seed_library.py:171-212 | before any patch token a note is pitch 60 on channel 0 |
| `NoteTokens.NoteIsHeard` | storpheus/build_seed_library.py:184-243 | its note-on and note-off, with these values, are in the sorted stream |
| `NoteTokens.NoNotes` | storpheus/build_seed_library.py:214-241 | without a note token the stream has the one default note, and no other note message |
| `Tokens.DecodeValid` | storpheus/build_seed_library.py:166-212 | after every token list: notes and program changes are in time order and in MIDI range, channel 9 stays reserved, no patch is on two channels, and the table entry of each channel is its last program change |
| `Tokens.NotesCovered` | storpheus/build_seed_library.py:184-212 | every note decoded after some patch token is on channel 9 if it is a drum, and otherwise on a channel whose last program change at that moment is its patch |
| `Tokens.FullTables` | storpheus/build_seed_library.py:189-200 | when no channel is free and a new patch arrives, at least 16 melodic patches have been named |
| `Tokens.FewPatches` | storpheus/build_seed_library.py:189-204 | with at most 15 melodic patches no channel gets two program changes |
| `Compile.TokensToMidiBytes` | storpheus/build_seed_library.py:150-258 | the whole function: the file of the decoded, laid out and stably sorted stream, which is always writable |
| `Compile.CompiledReadsBack` | storpheus/build_seed_library.py:150-258 | for every token list and tempo the file reads back as exactly the sorted stream |
| `Compile.NotesAppear` | storpheus/build_seed_library.py:236-241 | every decoded note has its note-on and its note-off in the stream, the note-off at a strictly later tick |
| `Compile.ProgramsFirst` | storpheus/build_seed_library.py:231-243 | in the sorted stream a program change behind a note message has a strictly later tick |
| `Compile.ProgramAtNote` | storpheus/build_seed_library.py:231-243 | at any note of the sorted stream the program in force on a channel is the last one the decoder gave it up to and including the tick, for every list of program changes in time order |
| `Compile.NoDrumProgram` | storpheus/build_seed_library.py:178-204 | no program change for channel 9 is ever in the stream |
| `Compile.InstrumentExactly` | storpheus/build_seed_library.py:173-243 | from the stream to the decoder: a note after a patch token is a drum on channel 9, or it plays with its own patch in the sorted stream if and only if the decoder did not give its channel to another patch after it at the same tick |
| `Compile.InstrumentPreserved` | storpheus/build_seed_library.py:173-243 | with at most 15 melodic patches every note after a patch token plays with its own patch |
| `Compile.SixteenPatchesFail` | storpheus/build_seed_library.py:193-202 | a token list with 16 patches whose only note, of patch 14, sounds with program 15 |
| `Instruments.InstrumentByTokens` | storpheus/build_seed_library.py:184-243 | for every token list: a note after a patch token is a drum on channel 9, or it plays with its own patch in the sorted stream if and only if that patch is among the first fourteen melodic ones of the list, or it is the last of the others to be named before the note's tick is over |
| `Instruments.DecodeLaid` | storpheus/build_seed_library.py:191-202 | after every token list the first fourteen melodic patches are on the first fourteen free channels in order, and channel 15 holds the last of the others to be named |
| `Instruments.ProgsUpTo` | storpheus/build_seed_library.py:184-201 | the program changes up to a tick are those of the tokens up to the end of that tick |
| `Instruments.NoteIsDecoded` | storpheus/build_seed_library.py:206-212 | the note a token stands for is in the decoded list, behind those of the tokens before it, with the decoder's state at that token |
| `Matchers.CloseInList` | storpheus/music_service.py:1499-1505 | the reversed scan closes the latest note of the pitch that has the open duration, and nothing else |
| `Matchers.ParseNotes` | storpheus/music_service.py:1481-1505 | the parser's loops over tracks and messages collect, for every channel and on any clock, the notes of the sentinel matcher, which carries open notes from track to track |
| `Matchers.SentinelPairs` | storpheus/music_service.py:1490-1505 | on a channel and pitch where on and off alternate, the sentinel matcher pairs each on with the next off, even if finished notes have the open duration |
| `Matchers.SilentOnIsOff` | storpheus/music_service.py:1496-1499 | both matchers take a note-on of velocity 0 for a note-off, on every stream |
| `Matchers.ScanOnPitch` | storpheus/music_service.py:1490-1505 | on every stream the notes of one pitch are what the matcher makes of the messages of that channel and pitch alone |
| `Matchers.ParsePending` | scripts/analyze_midi.py:120-146 | the analyser's loops over tracks and messages, with a dictionary of pending notes for each track, yield the notes of the pending matcher with their track index |
| `Matchers.PendingPairs` | scripts/analyze_midi.py:120-146 | on a channel and pitch where on and off alternate, the finished notes are the pairs, and the dictionary holds exactly the one unfinished note |
| `Matchers.MatchersAgree` | scripts/analyze_midi.py:120-146 | on a track where every note is closed, none overlaps another on its channel and pitch, and every note-off closes a note, the two matchers find the same notes on every channel, on any clock they share |
| `Matchers.SamePairs` | scripts/analyze_midi.py:120-146 | with the different clocks that the two parsers have, they still pair the same messages |
| `Agreement.MatchersAgreeExactly` | scripts/analyze_midi.py:120-146 | for every track and every clock that does not go back along it: the two matchers find the same notes on a channel if and only if on each pitch every on is directly followed by an off, and at every other off the latest earlier pair of the open duration, if there is one, ended at the beat of that off |
| `Agreement.KeyAgreesExactly` | storpheus/music_service.py:1490-1505 | the same for the messages of one channel and pitch, against the pairs of an on and the off directly behind it |
| `Agreement.ScanFollows` | storpheus/music_service.py:1499-1505 | if every on is closed, the parser's notes are the pairs or pairs of the open duration that a stray off has stretched, and they are the pairs exactly if every stray off is harmless |
| `Agreement.OnsAndPairs` | storpheus/music_service.py:1490-1505 | the parser lists at least as many notes as there are pairs and open last notes, and just as many if and only if every on but a last one is directly followed by an off |
| `Agreement.PendingOnPitch` | scripts/analyze_midi.py:120-146 | on every stream the analyser's notes of one channel and pitch are the pairs of an on and the off directly behind it, and its dictionary holds the last on exactly if that is the last message |
| `Agreement.WellFormedAgrees` | scripts/analyze_midi.py:120-146 | the tracks of `Matchers.MatchersAgree` meet the condition for every open duration |
| `Analyser.AnalyserExactly` | scripts/analyze_midi.py:120-146 | on the compiled stream of any notes the analyser finds the decoded notes of a channel, up to order, if and only if no two of one pitch share an instant |
| `Analyser.TokensAnalysed` | scripts/analyze_midi.py:120-146 | so it does from the compiled bytes, for every token list, tempo and channel |
| `Analyser.AlternatingInTurn` | storpheus/build_seed_library.py:236-243 | if starts and ends of one pitch alternate in the sorted stream, each note ends before the next begins |
| `Analyser.AnalyserAgrees` | scripts/analyze_midi.py:120-146 | on the compiled stream of disjoint notes the analyser finds the decoded notes |
| `Analyser.StrayTakesNote` | storpheus/music_service.py:1499-1505 | on the parser's own beats: a track of one closed half-beat note and one stray note-off half a beat later, which the analyser reads as half a beat and the parser as one beat |
| `Analyser.TracksApart` | scripts/analyze_midi.py:120-146 | a note begun in one track and ended in the next: the parser has it, the analyser has none |
| `Overlap.StreamIsSchedule` | storpheus/build_seed_library.py:236-243 | the sorted stream of the notes of one pitch is their starts and ends in order, ends first within a tick, in which the ends of one tick may be taken latest note first |
| `Overlap.EndGoesTo` | storpheus/music_service.py:1499-1505 | as long as all is well, the end of a note goes to the latest note of its pitch that still sounds or has the duration of an open note |
| `Overlap.GoodEnd` | storpheus/music_service.py:1499-1505 | an end that fits finishes its own note and changes no other |
| `Overlap.BadEnd` | storpheus/music_service.py:1499-1505 | an end that does not fit gives another note a wrong duration, or changes nothing |
| `Overlap.NeverRight` | storpheus/music_service.py:1499-1505 | a note that has missed its end never gets it, however the scan continues |
| `Overlap.KeyExactly` | storpheus/music_service.py:1490-1505 | the matcher returns the notes of one channel and pitch if and only if every two of them fit: when the earlier ends no later one that began before looks open, or both began together and the earlier has the duration of an open note |
| `RoundTrip.ScanInOnOrder` | storpheus/music_service.py:1490-1505 | the parser lists the notes of a channel in the order of their note-ons, on every stream |
| `RoundTrip.StreamOnKey` | storpheus/build_seed_library.py:236-243 | for disjoint notes the sorted stream, seen on one channel and pitch, is on, off, on, off, in the order of the notes |
| `RoundTrip.ChannelExactly` | storpheus/music_service.py:1481-1505 | the matcher, run on the sorted stream of any notes, returns the notes of a channel in order if and only if every two of them that have one pitch fit |
| `RoundTrip.TokensExactly` | storpheus/music_service.py:1464-1546 | for every token list, tempo and channel: reading the compiled bytes and matching gives back exactly the decoded notes in order if and only if every two of them that have one pitch fit |
| `RoundTrip.ChannelRoundTrip` | storpheus/music_service.py:1481-1505 | the matcher, run on the sorted stream of disjoint notes, returns the notes of every channel in order |
| `RoundTrip.FileMessages` | storpheus/build_seed_library.py:226-258 | the channel messages of the file that was written are the stream that was written |
| `RoundTrip.TokensRoundTrip` | storpheus/music_service.py:1464-1546 | so for every token list whose notes do not overlap on a channel and pitch the parser gives back exactly the decoded notes, whatever duration marks an open note |
| `RoundTrip.OverlapSwapsEnds` | storpheus/music_service.py:1499-1505 | a token list of two notes that cross: the parser reads each with the other's end from the compiled file |
| `RoundTrip.OverlapInBeats` | storpheus/music_service.py:1484-1505 | the same in thousandths of a beat: 433 and 100 are read where 267 and 266 were written |
| `RoundTrip.SentinelSteals` | storpheus/music_service.py:1499-1505 | a token list of two nested notes, the inner one half a beat long, that the parser does not read back, in thousandths of a beat |
| `RoundTrip.TwoNotesExactly` | storpheus/music_service.py:1481-1505 | every token list of a patch and two notes of one pitch compiles, and is read back exactly if the two notes fit |
| `RoundTrip.RoundedBeatsAscend` | storpheus/music_service.py:1481-1484 | beats rounded to a grid finer than the ticks never put two ticks on one beat |
| `Jobs.JobQueue.constructor` | storpheus/music_service.py:715-731 | a new queue is in the initial state of the transition system |
| `Jobs.JobQueue.Submit` | storpheus/music_service.py:746-783 | the submission step: the in-flight job of the same key is returned, a full queue refuses, or the job is queued last |
| `Jobs.JobQueue.Cancel` | storpheus/music_service.py:807-821 | the cancellation step: unknown jobs give nothing, finished ones are returned unchanged, others are marked and their dedupe entry is dropped |
| `Jobs.JobQueue.WorkerTake` | storpheus/music_service.py:823-834 | the worker's step from the queue: the first job leaves, and it starts unless it was cancelled |
| `Jobs.JobQueue.WorkerFinish` | storpheus/music_service.py:833-848 | the worker's step after generation: the job is failed if it raised and complete if it returned, with result, end time and event set, without another look at the status |
| `Jobs.JobQueue.CleanupPass` | storpheus/music_service.py:856-872 | one clean-up pass: exactly the completed and failed jobs beyond their time to live are forgotten, with the dedupe entries of their keys |
| `Jobs.StepKeepsInv` | storpheus/music_service.py:746-872 | every step keeps conservation, the agreement of a job's fields with its place, and the ranks |
| `Jobs.RunsKeepInv` | storpheus/music_service.py:746-872 | so does every run |
| `Jobs.ExactlyOnePlace` | storpheus/music_service.py:771-845 | in every reachable state an accepted job is in exactly one place: once in the queue and never started, with one worker and started, or retired and finished for good |
| `Jobs.Bounds` | storpheus/music_service.py:715-779 | in every reachable state at most as many jobs run as there are workers, the queue is within its bound, and no job's position is below its rank |
| `Jobs.LeavesInTurn` | storpheus/music_service.py:823-831 | first in, first out over whole runs: the job at rank i is taken at the (i+1)-th next take, whatever else happens |
| `Jobs.AtMostOne` | storpheus/music_service.py:753-763 | under the dedupe invariant two in-flight jobs of one key are the same job |
| `Jobs.StepKeepsDedupe` | storpheus/music_service.py:746-872 | every step but a harmful clean-up keeps it: each in-flight job with a key is the one the table names |
| `Jobs.DedupeSafety` | storpheus/music_service.py:746-872 | so does every run whose clean-up passes are harmless |
| `Jobs.DedupeExactly` | storpheus/music_service.py:746-872 | every state of a run keeps the dedupe invariant if and only if all its clean-up passes are harmless |
| `Jobs.CleanupExactly` | storpheus/music_service.py:856-871 | a clean-up pass keeps the dedupe invariant if and only if no expired job has the key of a job in flight |
| `Jobs.CleanupBreaksDedupe` | storpheus/music_service.py:867-871 | a run from the initial state that ends with two jobs of one key waiting |
| `Jobs.GuardedDedupeSafety` | storpheus/music_service.py:746-872 | with a clean-up that drops an entry only if it still names the expired job, every run keeps both invariants |
| `Jobs.CanceledStays` | storpheus/music_service.py:807-834 | a cancelled job that no worker holds keeps its record, without result or start time, on every continuation of the run |
| `Jobs.CancelSticksExactly` | storpheus/music_service.py:807-843 | a cancelled job stays cancelled on every continuation if and only if no worker holds it |
| `Jobs.CancelQueuedExactly` | storpheus/music_service.py:807-843 | at the call: cancelling a job in flight lasts on every continuation if and only if the job is still queued |
| `Jobs.CancelIsOverwritten` | storpheus/music_service.py:818-843 | a run from the initial state that cancels a running job and ends with it completed, result and all |
| `Jobs.EventsAndCleanup` | storpheus/music_service.py:836-871 | in every reachable state the event is set exactly for completed, failed and cancelled jobs, a job is complete exactly if its generation succeeded and failed exactly if it raised, and no clean-up drops a queued or running job |
| `Jobs.FinishEffect` | storpheus/music_service.py:833-848 | from the step alone: a job whose generation raised is failed, one whose generation returned is complete, at that time; the worker is free, and no other job changes |
| `Jobs.FinishedBy` | storpheus/music_service.py:833-848 | over runs: a job is failed, or complete, because of a step that finished it with an exception, or a result, at the time its record says |
| `Jobs.FinishedStays` | storpheus/music_service.py:807-872 | a record with a result never changes again |
| `Jobs.TakeEffect` | storpheus/music_service.py:823-832 | the first job leaves the queue and, unless it was cancelled, runs from now on with this worker; no other job changes |
| `Jobs.CancelEffect` | storpheus/music_service.py:807-821 | a job in flight is cancelled at that time, its waiters are released and its key is free; no other job changes |
| `Jobs.CleanupEffect` | storpheus/music_service.py:856-872 | exactly the jobs that completed or failed more than 300 seconds ago are forgotten, and no record changes |
| `Jobs.SubmitExactly` | storpheus/music_service.py:746-783 | after every run with harmless clean-ups: a submission shares the job in flight with its key if and only if there is one, is refused exactly by a full queue otherwise, and else is queued last with its place as its position |
| `ResultCache.CacheStore.GetCachedResult` | storpheus/music_service.py:378-402 | a lookup answers with a live entry and makes it the most recent, drops a stale one, and changes nothing for an absent key |
| `ResultCache.CacheStore.CacheResult` | storpheus/music_service.py:405-422 | a write evicts the oldest key of a full cache first, then inserts the key last or replaces its entry in place, and saves the cache |
| `ResultCache.CacheStore.FindNearest` | storpheus/music_service.py:436-459 | the scan finds the earliest eligible entry at the least squared distance, and none exactly when none is eligible |
| `ResultCache.CacheStore.FuzzyCacheLookup` | storpheus/music_service.py:425-470 | the answer is the nearest live entry of the same genre, instruments, bars and preset within the radius, the earliest among equals; none exactly when no eligible entry is within it; only the hit count changes |
| `ResultCache.CacheStore.SaveCacheToDisk` | storpheus/music_service.py:475-492 | the file then holds every entry in order |
| `ResultCache.CacheStore.LoadCacheFromDisk` | storpheus/music_service.py:495-516 | loading puts exactly the entries of the file that are young enough on top of what the cache holds and returns their number |
| `ResultCache.CacheStore.Restart` | storpheus/music_service.py:88-90 | a new process has an empty cache into which the file is loaded |
| `ResultCache.CacheStore.ClearCache` | storpheus/music_service.py:1794-1799 | a clear empties the cache and removes the file |
| `ResultCache.RunAgreesWithWrites` | storpheus/music_service.py:378-422 | after every history, clears and restarts included, cache and file are within the size bound and every entry has the result, the time and the request data of the last write to its key that was not cleared |
| `ResultCache.HitIsLatestWrite` | storpheus/music_service.py:378-402 | a hit returns the value written last to the key and not cleared, no older than the time to live |
| `ResultCache.OrderIsLastTouch` | storpheus/music_service.py:378-422 | after every history the order of the cache is the order of last touch, where a hit or the insertion of an absent key touches, an overwrite or a fuzzy hit does not, a clear forgets all touches and a restart those since the last write |
| `ResultCache.EvictedKeyIsOldest` | storpheus/music_service.py:411-413 | a key that no lookup of its own, clear or restart removes is lost only by a write of another key into a full cache, and only after 999 other keys, all of them present, were touched later |
| `ResultCache.OverwriteEvictsToo` | storpheus/music_service.py:411-420 | replacing a key in a full cache loses the oldest other key |
| `ResultCache.OverwriteKeepsExactly` | storpheus/music_service.py:411-420 | replacing a key loses no other if and only if the cache is not full or the key is its oldest |
| `ResultCache.MissingIsExplained` | storpheus/music_service.py:378-422 | a written key that was not cleared is missing only because a lookup or a restart found it too old, or enough other keys were touched after it |
| `ResultCache.NotSavedIsExplained` | storpheus/music_service.py:475-516 | for the same reasons, as of the last write, it is not in the file |
| `ResultCache.DroppedWasOld` | storpheus/music_service.py:392-396 | a key dropped as too old was last written more than a time to live ago |
| `ResultCache.RecentWritesAreFound` | storpheus/music_service.py:378-422 | over every history in time order: a key written within the time to live and not cleared, with fewer than 999 other keys touched since its last touch in force, is found with the value written last |
| `FuzzyLookup.FuzzyAnswerWasWritten` | storpheus/music_service.py:425-470 | over every history: a fuzzy answer is the result last written to some key, not cleared and no older than the time to live, for a request of the same genre, instruments, bars and preset; its distance is that of the axes and within the radius |
| `FuzzyLookup.FuzzyFinds` | storpheus/music_service.py:425-470 | a live entry present that was written for such a request within the radius guarantees an answer that is no farther; for exactly this request, an answer at distance 0 |
| `FuzzyLookup.RecentWriteIsMatched` | storpheus/music_service.py:405-470 | so does every recent write since whose last touch fewer than 999 other keys were touched |
| `FuzzyLookup.HitsAreCounted` | storpheus/music_service.py:378-470 | over every history an entry counts the hits on its key since its last write, those after a save being lost with a restart |
| `ResultCache.SaveLoad` | storpheus/music_service.py:475-516 | saving and loading keeps exactly the entries that are not stale, unchanged and in order |
| `ResultCache.RestartIsInvisible` | storpheus/music_service.py:475-516 | after any history in time order, the next lookup of any key answers as it would have without the restart |
| `ResultCache.DiskHasMore` | storpheus/music_service.py:475-516 | every key of the cache is in the file, and what is only in the file was dropped as too old |
| `ResultCache.RestartMakesRoom` | storpheus/music_service.py:405-516 | one such case: a write into a full cache with a stale entry evicts a live oldest key, which a restart just before it would have saved |
| `Restarts.RestartHarmlessExactly` | storpheus/music_service.py:378-516 | after every history in time order: a restart changes no answer on any continuation in time order if and only if the cache has the keys, and the order, that loading the file would give it |
| `Restarts.RestartShows` | storpheus/music_service.py:378-516 | otherwise a continuation that drops all but two keys as stale, writes these and fills the cache evicts the one without and the other with the restart |
| `Restarts.AlikeForever` | storpheus/music_service.py:378-516 | under that condition cache and file stay the same for ever but for the counts of hits, so fuzzy lookups do too |
| `Restarts.RunDiskAgrees` | storpheus/music_service.py:475-516 | after every history an entry of the file whose key is in the cache is the entry in the cache but for its hits |
| `Restarts.LoadedWasThere` | storpheus/music_service.py:495-516 | in time order a restart brings back no key that a lookup had dropped |
| `Restarts.HitIsForgotten` | storpheus/music_service.py:378-516 | two writes and a hit from the empty store, after which a restart changes a later answer |
| `Search.SearchCorrect` | storpheus/music_service.py:2615-2778 | the search keeps the earliest candidate of the highest score among all it tried, stops only for one of the listed reasons, each with its condition and exceptions included, makes no more generate calls than ceil(budget / tries), and regenerates only while no candidate has reached the threshold |
| `Search.SearchExactly` | storpheus/music_service.py:2615-2778 | told from the attempts and the generate calls alone: the outcome is the only one in which every attempt was due, every generate call but the first was needed and answered, none but the last attempt ended the search, and the stated reason ended it |
| `Search.FlatCorrect` | storpheus/music_service.py:2623-2778 | the same from any point of the search on |
| `Search.CallsAtRegenerate` | storpheus/music_service.py:2752-2778 | when a regeneration is declined, refused or raises, whole rounds of tries are used up; when it was attempted, budget was left, and the calls count the rounds |
| `Search.RunSearch` | storpheus/music_service.py:2615-2778 | the two nested loops compute the single-budget search, so the generate limit never ends it and an unused batch index is always there; no index repeats within a generation |
| `Search.RunRound` | storpheus/music_service.py:2628-2750 | the inner loop advances the search by at most the tries of one generation, with distinct batch indexes, and ends early only if the search does |
| `Search.TakeBatch` | storpheus/music_service.py:2639-2750 | one attempt: a failed call ends the search with or without a candidate, another exception leaves it, an acceptable score ends it, a strictly better score is kept |
| `Search.DrawIndex` | storpheus/music_service.py:2630-2634 | with fewer than ten used indexes an unused one in 0..9 is drawn and marked |
| `Search.AvailableCorrect` | storpheus/music_service.py:2630 | the available indexes are unused ones in 0..9, and at least ten less the used ones |
| `Search.AvailableAll` | storpheus/music_service.py:2630 | every unused index can be drawn |
| `Search.RoundDone` | storpheus/music_service.py:2554-2556 | after a full round with budget left the generate limit is not reached |
| `Sweep.SweepLine` | scripts/analyze_midi.py:567-595 | the loop returns the maximum number of notes sounding at one instant, the measures of the instants with no, one and several notes, which sum to the span, the total duration, and a final count of 0, zero-length notes included |
| `Sweep.CountIsActive` | scripts/analyze_midi.py:573-595 | between two event times the running count is the number of sounding notes |
| `Sweep.CountAfterStart` | scripts/analyze_midi.py:573-594 | because ends sort before starts, the count after a start never exceeds the number of notes sounding at its instant |
| `Sweep.ActiveCounts` | scripts/analyze_midi.py:573-595 | the number sounding at an instant is the number of notes that have begun and not ended |
| `Sweep.PolyExactly` | scripts/analyze_midi.py:583-592 | no time with several voices passes if and only if no two notes overlap, and then the time with one voice is the sum of the durations |
| `Sweep.SpanIsTight` | scripts/analyze_midi.py:567-595 | the span goes from the first start to the last end |
| `Sweep.SpanIsDivided` | scripts/analyze_midi.py:583-592 | silence, one voice and several voices divide every span |
| `Sweep.SumIsDuration` | scripts/analyze_midi.py:592 | the sum of the count over all instants is the sum of the durations |
| `KeyDetection.CountPitchClasses` | storpheus/key_detection.py:84-86 | the counting loop computes the histogram of pitch classes |
| `KeyDetection.DetectKey` | storpheus/key_detection.py:71-114 | the scan returns the key whose profile fits best the notes moved down by its root, the first of equals in the order of roots, major before minor, and none exactly for too few notes |
| `KeyDetection.FirstBestIsBestKey` | storpheus/key_detection.py:92-109 | the first best of the 24 rotations is that key, with the major profile for the major keys and the minor one for the minor keys |
| `KeyDetection.HistogramCounts` | storpheus/key_detection.py:84-86 | each bin is the number of notes of its pitch class |
| `KeyDetection.UniqueIsDetected` | storpheus/key_detection.py:92-109 | a key that correlates better than all others is the one returned |
| `KeyDetection.ShiftRotates` | storpheus/key_detection.py:61-68 | the histogram of the shifted notes, aligned on a root, is the old one aligned on the root lower by the shift |
| `KeyDetection.TableMoves` | storpheus/key_detection.py:92-100 | shifting every pitch rotates the whole correlation table |
| `KeyDetection.DetectionMoves` | storpheus/key_detection.py:71-114 | equivariance: a unique best key moves with the notes, and the mode stays |
| `KeyDetection.DistanceIsShortest` | storpheus/key_detection.py:172-188 | the distance leads from the source tonic to the target, lies in -5..6, and no other such distance is shorter |
| `KeyDetection.ComplianceIsOpposite` | storpheus/candidate_scorer.py:76-80 | the scorer's slices rotate by twelve less the root |
| `KeyDetection.ComplianceAgreesExactly` | storpheus/candidate_scorer.py:76-80 | they agree with the detector's rotation on all histograms if and only if the root is 0 or 6 |
| `Seeds.TransposeMidi` | storpheus/midi_transforms.py:24-86 | without a shift the original file is returned, else a new one with the transposed messages, and the original is unchanged |
| `Seeds.MoveNotes` | storpheus/midi_transforms.py:46-62 | the in-place loop moves exactly the notes that are not skipped, holds them to 0..127, and counts the moved and the held ones |
| `Seeds.NoneClamped` | storpheus/midi_transforms.py:55-60 | the count of held notes is 0 if and only if every moved note stayed in range |
| `Seeds.MovedExactly` | storpheus/midi_transforms.py:46-62 | each note moves by the shift or to the end of the pitch range it would leave; skipped drums and program changes stay |
| `Seeds.KeyPitchesAre` | storpheus/key_detection.py:137-145 | the detector sees the pitches of the note-ons that sound, off the drum channel if that is skipped, in order and no others |
| `Seeds.TransposedPitches` | storpheus/key_detection.py:137-145 | if none was held, the detector sees the old pitches shifted |
| `Seeds.SeedReachesTarget` | storpheus/seed_selector.py:193-204 | a seed with a unique best key, moved by the computed distance without being held, has the target tonic in its old mode as its unique best key |
| `Seeds.DetectFileKey` | storpheus/key_detection.py:117-147 | the detector on a file sees its sounding note-ons, off the drum channel if that is skipped |
| `Seeds.SeedIsDetectedAtTarget` | storpheus/key_detection.py:71-147 | what the detector then finds in the transposed seed is the target tonic in the old mode |
| `Seeds.SelectSeedWithKey` | storpheus/seed_selector.py:142-224 | nothing for an empty library or a missing file, and an index error for a rank that counts back past the first seed; else the choice by key distance and then score, at a rank or at random among the nearest, with the transposition to the target |
| `Seeds.ChoiceIsNearest` | storpheus/seed_selector.py:166-184 | the index error comes exactly for ranks below minus the number of seeds; with a target the first choice and every random one is a nearest seed, the first has the highest score among these, and ranks of -1 or from the last one on give a farthest |
| `Seeds.RanksInOrder` | storpheus/seed_selector.py:166-184 | over the ranks the choices are all seeds once, by distance and then by falling score; ranks below zero count from the end |
| `Seeds.KnownKeysFirst` | storpheus/seed_selector.py:166-204 | a seed of unknown key is the first or a random choice only if no seed has a known one, and is not transposed; a known one is transposed onto the target |
| `Seeds.ChosenSeedNeedsLeastShift` | storpheus/seed_selector.py:166-204 | the transposition of the chosen seed reaches the target and is no longer than any that takes another seed there |
| `Arithmetic.RoundIsNear` | storpheus/post_processing.py:127 | Python's rounding moves a quotient by at most one half |
| `Arithmetic.RoundMonotone` | storpheus/post_processing.py:127 | and keeps order, ties to even included |
| `Arithmetic.RoundExactly` | storpheus/post_processing.py:127 | it is the nearest integer, the even one of two |
| `PostProcessing.PostProcessor.ProcessNotes` | storpheus/post_processing.py:66-91 | the pipeline on the list in place: the five transforms in order, the names of those that acted, and no change to an empty list or when disabled |
| `PostProcessing.PostProcessor.RunTransforms` | storpheus/post_processing.py:77-81 | the five transforms one after the other, each appending its name if it acted |
| `PostProcessing.PostProcessor.ScaleVelocities` | storpheus/post_processing.py:98-130 | velocities are mapped in place onto the limits; absent or empty limits, or a floor not below the ceiling, change nothing |
| `PostProcessing.PostProcessor.NormalizeRegisters` | storpheus/post_processing.py:132-165 | pitches are moved in place by whole octaves towards the centre, held to 0..127 and to the spread; a small shift changes nothing |
| `PostProcessing.PostProcessor.QuantizeStarts` | storpheus/post_processing.py:167-180 | every start is snapped in place |
| `PostProcessing.PostProcessor.CleanDurations` | storpheus/post_processing.py:182-204 | every duration is held to its limits in place, and the name is recorded exactly when some duration changed |
| `PostProcessing.PostProcessor.SwingStarts` | storpheus/post_processing.py:206-227 | exactly the starts near an off-beat sixteenth are delayed in place |
| `PostProcessing.VelocityInLimits` | storpheus/post_processing.py:104-127 | scaled velocities keep their order, stay within floor and ceiling, and the extremes reach them |
| `PostProcessing.VelocityTwice` | storpheus/post_processing.py:98-130 | scaling twice is scaling once |
| `PostProcessing.MedianMoves` | storpheus/post_processing.py:139-143 | the sorted median of the moved notes is the moved median, for every map that keeps order |
| `PostProcessing.MedianNearCenter` | storpheus/post_processing.py:132-165 | after one call the median is within six semitones of the centre, or the call changed nothing |
| `PostProcessing.RegisterTwice` | storpheus/post_processing.py:132-165 | a second call is the identity |
| `PostProcessing.SnapOrder` | storpheus/post_processing.py:173-177 | snapping keeps the order of starts |
| `PostProcessing.SnapOfBar` | storpheus/post_processing.py:173-177 | bar lines are grid lines of every subdivision |
| `PostProcessing.SnapTwice` | storpheus/post_processing.py:173-177 | a snapped start stays where it is, for every grid coarser than the rounding, subdivisions that do not divide a bar evenly included |
| `PostProcessing.SwingStays` | storpheus/post_processing.py:216-224 | swing of at most 1 never moves a start earlier nor beyond the closing bar line |
| `PostProcessing.StartsThroughPipeline` | storpheus/post_processing.py:66-91 | of the five transforms only snapping and swing touch a start, in this order |
| `PostProcessing.StartsStayInside` | storpheus/post_processing.py:66-227 | starts inside the requested bars are still inside after the whole pipeline, the closing bar line included |
| `Transforms.VelocityExactly` | storpheus/post_processing.py:98-130 | velocities are spread in proportion between the limits, rounded and held to 1..127; equal ones go to the middle; a limit that is absent or 0 has its default |
| `Transforms.VelocityStays` | storpheus/post_processing.py:98-108 | without limits, or with limits that leave no room, velocities stay |
| `Transforms.MedianIsUpper` | storpheus/post_processing.py:139-143 | the median is the upper one: at most half of the pitches are below it and more than half not above it |
| `Transforms.RegisterExactly` | storpheus/post_processing.py:132-165 | all pitches move by the whole octaves that bring the median nearest to the centre, held to 0..127 and then to the spread |
| `Transforms.QuantizeExactly` | storpheus/post_processing.py:167-180 | each start goes to the nearest line of the grid, rounded to ten-thousandths |
| `Transforms.SwingExactly` | storpheus/post_processing.py:206-227 | exactly the starts within 0.06 of the second and fourth sixteenth of a beat are delayed, by an eighth of a beat times the swing |
| `Transforms.DurationsHeld` | storpheus/post_processing.py:182-204 | each duration becomes the nearest one within the limits |
| `Transforms.FieldsThroughPipeline` | storpheus/post_processing.py:66-91 | each field of a note is changed by its own transforms alone |
| `Transforms.RecordedExactly` | storpheus/post_processing.py:66-227 | the recorded names are, in the order of the pipeline, those of the transforms that were asked for and had something to do |
| `Chunked.PlanChunks` | storpheus/music_service.py:2150-2156 | the planning loop computes the plan |
| `Chunked.PlanCovers` | storpheus/music_service.py:2150-2156 | chunk sizes lie between 1 and the chunk length, all but the last are full, and they sum to the requested bars |
| `Chunked.ApplyVelocityFade` | storpheus/music_service.py:2097-2120 | the loop scales each velocity by the fades its start lies in and holds it to 1..127; without a fade width nothing changes |
| `Chunked.FadeLowers` | storpheus/music_service.py:2097-2120 | a faded velocity lies in 1..127, and the fade raises none that was at least 1, where both fades overlap too |
| `FadeRamps.FadeExactly` | storpheus/music_service.py:2097-2120 | near the beginning a velocity is scaled by how far the note is from it, near the end by how far from that, by both where they overlap, cut to an integer and at least 1; elsewhere it stays |
| `FadeRamps.FadeInRises` | storpheus/music_service.py:2106-2107 | within the fade-in a later note is not softer |
| `FadeRamps.FadeOutFalls` | storpheus/music_service.py:2109-2110 | within the fade-out it is not louder |
| `FadeRamps.SeamsOnly` | storpheus/music_service.py:2225-2276 | in the composition chunk i begins four beats later for every bar before it, pitch and duration are kept, and only the seams are faded: not the beginning of the first chunk nor the end of the last |
| `Chunked.DoGenerate` | storpheus/music_service.py:2322-2324 | short requests take the single pass, long ones the chunked one, and the mutual recursion terminates when a chunk fits the threshold |
| `Chunked.GenerateChunked` | storpheus/music_service.py:2175-2320 | success exactly when every chunk succeeds; then the sorted stitched notes, otherwise the notes so far; and the index, bars, notes and offset of each finished chunk |
| `Chunked.ShiftNotes` | storpheus/music_service.py:2250-2258 | every note of a chunk is moved by its offset and otherwise unchanged |
| `Chunked.RecursionShrinksExactly` | storpheus/music_service.py:2322-2324 | every request that is split is split into requests that are not, if and only if the chunk length is at most the threshold |
| `Chunked.OversizedChunk` | storpheus/music_service.py:2150-2156 | otherwise a request one bar over the threshold is split into itself |
| `Chunked.ChunkInItsPlace` | storpheus/music_service.py:2238-2276 | the notes of a chunk, one for one with pitch and duration kept, lie between its offset and the next, where an offset is four beats for each earlier bar |
| `Chunked.Timeline` | storpheus/music_service.py:2175-2282 | the finished list is in order, has exactly as many notes as the chunks, contains every chunk, and stays within the requested bars |
| `Chunked.ProcessedTimeline` | storpheus/music_service.py:2175-2282 | so it does when every chunk is the post-processed form of notes trimmed to its bars |
| `Chunker.RFind` | scripts/ingest_docs.py:198-202 | the last place inside the range where the mark is followed by a blank, or -1 exactly when there is none |
| `Chunker.WindowEndRange` | scripts/ingest_docs.py:193-204 | a window ends beyond its middle and within the maximal length |
| `Chunker.WindowEndExactly` | scripts/ingest_docs.py:193-204 | a window short of the end of the section ends behind the last full stop in its second half, else the last exclamation mark, else the last question mark, each followed by a blank, else where it is full; and nowhere else |
| `Chunker.ProgressExactly` | scripts/ingest_docs.py:193-222 | every window of every text leads to a later start if and only if the overlap is at most half the maximal length |
| `Chunker.HalfSuits` | scripts/ingest_docs.py:193-222 | with an overlap of at most half the maximal length every section is cut to its end |
| `Chunker.TailsAreSuffix` | scripts/ingest_docs.py:192-222 | from any start, the later windows without their overlap are the rest of the section |
| `Chunker.WindowsLoseNothing` | scripts/ingest_docs.py:191-222 | whenever every window leads on, the first window and each later one without its overlap rebuild the section exactly, and none is empty or too long |
| `Chunker.SplitSection` | scripts/ingest_docs.py:191-222 | the loop terminates and yields the stripped windows in order, blank ones left out |
| `Chunker.StripExactly` | scripts/ingest_docs.py:211 | a stripped text is what is left between the blanks around it, and neither begins nor ends with one |
| `Chunker.TextsExactly` | scripts/ingest_docs.py:206-219 | the chunks of a section are the stripped windows that are not empty, in order |
| `Chunker.ChunkDocument` | scripts/ingest_docs.py:164-224 | sections that fit are kept whole, others are split, in order, with consecutive indexes across sections |
| `Chunker.SectionsThatFit` | scripts/ingest_docs.py:180-192 | a document of sections that fit has one chunk for each, with heading, text and index |
| `Chunker.SectionThatIsSplit` | scripts/ingest_docs.py:193-222 | all chunks of a split section have its heading |
| `Labels.SameLabel` | storpheus/music_service.py:1195-1228 | two channels share a label if and only if one is channel 0 without a program and the other sounds the only bass program |
| `Labels.FamilyOfEight` | storpheus/music_service.py:1195-1228 | two programs share a family name if and only if they are of the same eight |
| `Labels.PlainExactly` | storpheus/music_service.py:1195-1228 | a label has no number if and only if no other melodic channel plays a program of the same eight |
| `Labels.UnprogrammedLabels` | storpheus/music_service.py:1195-1228 | the labels of channels without a program |
| `Labels.LabelsDistinctExactly` | storpheus/music_service.py:1195-1228 | the labels tell the channels of a candidate apart if and only if there is no such pair among them |
| `Labels.BassClash` | storpheus/music_service.py:1213-1228 | channel 0 without a program and channel 1 with electric bass are both labelled as bass |
| `Labels.BassClashOutput` | storpheus/music_service.py:2989-3003 | their unified output has one entry, with the notes of channel 1 |
| `Labels.UnifiedOutput` | storpheus/music_service.py:2989-3003 | the dictionary has exactly the labels of the channels, and under each the notes of the last channel with that label |
| `Labels.NoClashNoLoss` | storpheus/music_service.py:2989-3003 | without such a pair every channel keeps its own notes |

## Left out

- Compile.InstrumentExactly: speaks of the decoder's program changes; `Instruments.InstrumentByTokens` is the statement on the tokens.
- Compile.InstrumentPreserved: fifteen patches are enough, not necessary; the exact statement is `Instruments.InstrumentByTokens`.
- RoundTrip.TokensRoundTrip: disjoint notes are enough, not necessary; the exact statement is `RoundTrip.TokensExactly`.
- Compile.TokensToMidiBytes: tempos from 1 to 60,000,000; 0 raises in the source, and above that the length of a beat is 0 and the conversion divides by it. The conversion itself is any function that never goes down.
- Matchers.ParseNotes: differences of rounded beats are exact, where the source rounds the floating-point difference once more.
- Search.RunSearch: the configured number of tries is at least 1; with 0 the source divides by zero. Predictions, parsing, scores and the random choice are parameters; timings, logging and the client pool are left out.
- Seeds.SelectSeedWithKey: the parsing of key names is left out; an unreadable key is a case of its own.
- Agreement.MatchersAgreeExactly: one track, and one clock for both parsers; over several tracks the parser carries notes that look open into the next one, while the analyser starts anew.
- Agreement.WellFormedAgrees: closed disjoint notes without strays are enough, not necessary; the exact statement is `Agreement.MatchersAgreeExactly`, and `Matchers.MatchersAgree` is its case.
- Analyser.AnalyserAgrees: disjoint notes on all channels are enough; the exact statement is `Analyser.AnalyserExactly`.
- Jobs.DedupeSafety: harmless passes are enough for the last state; the exact statement, over all states of the run, is `Jobs.DedupeExactly`.
- ResultCache.RestartMakesRoom: one case, on any full cache; the exact statement is `Restarts.RestartHarmlessExactly`.
- Seeds.TransposeMidi: saving the file is left out, and so is `transpose_notes`.
- Chunker.SplitSection: asks that every window of the section leads to a later start, because otherwise the source's loop need not end; what counts as a blank is a parameter.
- Labels.LabelsDistinctExactly: a label with a number is kept as the pair of its text and the number.
- ResultCache.CacheStore.SaveCacheToDisk: a save or load that fails, which the source logs and ignores, is left out; the JSON file keeps the structure.
- ResultCache.CacheStore.FuzzyCacheLookup: squared distances are compared, without the square root; the decoration of the answer's metadata and the deep copies are left out.
- Jobs.JobQueue.Submit: a job is a record in a map by identifier, so two references to one job object are one entry; the fresh identifier is a parameter. Creation time and error texts are left out.
- Jobs.JobQueue.WorkerFinish: shutdown, which cancels worker tasks, and the cool-down sleep are left out.
- KeyDetection.DetectKey: the correlation is any pair of functions with values above -2; the rounded correlation in the result is left out.
- PostProcessing.PostProcessor.ProcessNotes: exact fractions on the grid of ten-thousandths instead of floating point; the parameters shown in the names of transforms are left out.
- Chunked.GenerateChunked: exact fractions in the fade; the session state that carries one chunk's output into the next is behind the single-pass parameter, and so are error texts and timings.
- Controllers, pitch bend and aftertouch in both parsers, and the other metrics of the analyser.
- `select_best_candidate` and the scores themselves, quality metrics, the Pearson correlation: weighted heuristics.
- Cache keys: the hash of the canonical request is the key itself.
- HTTP endpoints, Gradio calls, artifacts, the client pool, genre tables and token budgets.
- Muse version control, contracts, MCP and the DAW adapter.
