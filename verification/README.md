# ghosts of data past — a Dafny model of the conversation generators

The project models the chat generator behind the installation. Scripted
characters write to each other. A text model continues a rolling prompt, and
a role-delimiter grammar cuts that continuation into responses. The first
kept response becomes the next message. Messages that contain the image
placeholder get a generated "selfie" of their sender. Every message is paced
by a simulated reading and writing time, and it is published to a Redis store
together with a notification sound. Each participant also has a "writing"
flag that tells the viewer who is typing.

Three generations of the generator are modelled:

- `Chat` models `generate/generate_singlecore.py`. This is the current
  generator, and it has a one-turn publication delay: the message parsed in
  one pass is published in the next.
- `Legacy` models `generate/generate.old.py`. Here the sender is drawn at
  random, the generated text is cut at the first `[NAME:]` marker, and the
  message is published at once.
- `ParseOnly` models the parse loop of `generate/generate.py`.

These three share several modules:

- `Cli` models `parse_comma_list`.
- `Timing` models `get_wait_time` and the write wait.
- `Pools` models the `Sounds` and `Prompts` shuffle-on-exhaustion pickers.
- `Text` models the Python string operations used.
- `Parser` models the role-delimiter regular expressions.
- `Store` models the Redis store, as an ordered log of events: a published
  record, a writing flag set, a sleep.

`generate/generate.py` repeats `parse_comma_list`, `get_wait_time` and
`Sounds` unchanged, so the same members cover it.

Four small modules model the viewer side and the recording tool:

- `Recording` models `parse_link_recording.py`, which concatenates float32
  recordings and decimates their frames to a lower rate.
- `Timestamp` models the Svelte store in `link/src/lib/stores/timestamp.ts`.
- `Messages` models the Svelte store in `serve/site/src/lib/stores/messages.ts`.
- `Font` models `link/site/src/lib/components/font-animation.ts`.

Randomness, the clock and the text model's output are inputs of the model:

- per pass, a `Draws` value carries the random factors, clock readings,
  generated continuation and shuffles;
- a shuffle is any permutation of the pool it refills;
- the end of the sequence of draws stands for the keyboard interrupt that
  stops the loop.

Python exceptions that the loops can raise are modelled as error outcomes
that end the run:

- `KeyError` for an unknown writing-flag key;
- `AttributeError` for a failed sender search;
- `IndexError` for an empty prompt pool, a missing colour, or a template
  without `{role}`;
- `ValueError` for drawing from an empty sound list.

The response filter is modelled as written (`Parser.Responses`): it tests
each fragment for a delimiter before stripping its spaces, and keeps the
stripped fragment. A kept response can then lack a sender, and both
`Chat` and `ParseOnly` end with `AttributeError` on it. The filter that
strips first (`Parser.IntendedResponses`) is modelled beside it, together
with a parse-only loop that uses it; see "## Findings".

## Model

| member | source | states |
|---|---|---|
| Cli.Fields | generate/generate_singlecore.py:32 | the comma-separated fields of a string join back to it with commas, and no field holds a comma |
| Cli.ParseCommaList | generate/generate_singlecore.py:28-32 | a list argument is returned as given; a string yields one entry per comma plus one, each the corresponding field with surrounding whitespace removed |
| Cli.ParseCommaListTrims | generate/generate_singlecore.py:32 | each parsed entry is exactly its field with the leading and trailing whitespace cut and nothing else changed |
| Numeric.Trunc | link/site/src/lib/components/font-animation.ts:9 | `Math.trunc` rounds toward zero: the result is the integer within one of the input, on the input's side of zero |
| Numeric.TruncMonotone | link/site/src/lib/components/font-animation.ts:9 | truncation never reverses the order of two numbers |
| Numeric.TruncOfInt | link/site/src/lib/components/font-animation.ts:9 | truncation leaves whole numbers unchanged |
| Numeric.AtLeastZero | generate/generate.old.py:184 | `max(0, x)` is non-negative, at least `x`, and is either 0 or `x` |
| Timing.WaitTime | generate/generate_singlecore.py:43-54 | non-negative times and factor give a non-negative wait |
| Timing.WaitTimeMonotone | generate/generate_singlecore.py:43-54 | with a non-negative per-letter time and factor, a longer message never waits less than a shorter one |
| Timing.WaitTimeImage | generate/generate_singlecore.py:51-52 | with a non-negative image time and factor, an image never shortens the wait |
| Timing.WaitTimeWithinDeviation | generate/generate_singlecore.py:53 | the wait for a factor drawn from `[lo, hi]` lies between the waits for `lo` and for `hi` |
| Timing.WriteWait | generate/generate_singlecore.py:350-361 | the write wait is the expected writing time minus the time the generation already took, floored at zero, and never more than the expected time |
| Pools.WithNewlines | generate/generate_singlecore.py:81-83 | the prompt pool holds every prompt, in order, with a newline appended |
| Pools.Pop | generate/generate_singlecore.py:86-93 | a draw takes the last item of the working copy, refilling the copy with a fresh shuffle only when it is empty; drawing fails exactly when the refilled copy is empty |
| Pools.PopWithin | generate/generate_singlecore.py:86-93 | drawing from a working copy that is a sub-multiset of the source yields a source item, keeps the copy within the source, and fails only for an empty source |
| Pools.Pool.constructor | generate/generate_singlecore.py:62-64 | a new pool keeps its source and starts with an empty working copy |
| Pools.Pool.Get | generate/generate_singlecore.py:66-73 | `get` pops from the working copy as `Pop` states, and records the item as drawn in the current cycle |
| Pools.Pool.CycleComplete | generate/generate_singlecore.py:86-93 | whenever the working copy is empty, the current cycle has drawn every source item exactly as often as it occurs in the source |
| Text.StripWith | generate/generate_singlecore.py:272-274 | `strip` never lengthens a string, and its result neither starts nor ends with a stripped character |
| Text.StripWithSpec | generate/generate_singlecore.py:272-274 | `strip` removes exactly the leading and trailing run of stripped characters and keeps the middle untouched |
| Text.IndexOf | generate/generate_singlecore.py:320 | a found index is a place where the pattern occurs |
| Text.IndexOfSpec | generate/generate_singlecore.py:320 | the found index is the first occurrence, and a miss means the pattern occurs nowhere |
| Text.SplitOn | generate/generate_singlecore.py:32 | `split` yields at least one part, exactly one when the separator is absent, and the parts join back to the input |
| Text.SplitOnSpec | generate/generate_singlecore.py:32 | no part of a split contains the separator |
| Text.SplitOnCharCount | generate/generate_singlecore.py:32 | splitting on one character yields one more part than the character's occurrences |
| Text.RemoveAll | generate/generate_singlecore.py:269 | `replace(pat, '')` never lengthens a string, and leaves it unchanged exactly when the pattern does not occur |
| Text.CollapseSpaces | generate/generate_singlecore.py:344 | `re.sub('  +', ' ', s)` is empty only for the empty string, keeps whether the text starts with a space, and never lengthens |
| Text.CollapseSpacesSpec | generate/generate_singlecore.py:344 | after collapsing, no two spaces are adjacent |
| Text.CollapseSpacesClean | generate/generate_singlecore.py:344 | text without double spaces is left unchanged |
| Text.Lower | generate/generate_singlecore.py:306 | lower-casing keeps the length, turns each ASCII capital into its small letter and keeps every other character |
| Text.Upper | generate/generate.old.py:118 | upper-casing keeps the length, turns each ASCII small letter into its capital and keeps every other character |
| Text.DisplayText | generate/generate_singlecore.py:344-345 | the display text is no longer than the text and has no surrounding whitespace |
| Text.DisplayTextSpec | generate/generate_singlecore.py:344-345 | the display text has no double spaces, and text without the placeholder and without double spaces is only stripped |
| Parser.FromTemplate | generate/generate_singlecore.py:184-193 | a role template yields a grammar exactly when it contains `{role}`; the prefix is the text before the first `{role}`, the suffix the text after it up to the end or the next `{role}`, and the image token is kept |
| Parser.WordRunSpec | generate/generate_singlecore.py:186-192 | `\w+` takes the longest run of word characters |
| Parser.GreedyNameSpec | generate/generate_singlecore.py:186-192 | the greedy name ends at the last place within the word run where the suffix follows, and none exists when the search fails |
| Parser.MatchAt | generate/generate_singlecore.py:188-192 | a delimiter match spans the prefix, the name and the suffix and fits in the text |
| Parser.MatchAtSpec | generate/generate_singlecore.py:188-192 | a delimiter matches exactly when the text does not start with the image token and has some prefix, word-character name and suffix shape; the name is the longest such |
| Parser.CutsFromRange | generate/generate_singlecore.py:185-187 | the split positions lie in the string and increase strictly |
| Parser.CutsFromSpec | generate/generate_singlecore.py:185-187 | the string is cut exactly where a delimiter (not the image token) begins |
| Parser.Fragments | generate/generate_singlecore.py:275 | `re.split` on the lookahead yields at least one fragment |
| Parser.FragmentsSpec | generate/generate_singlecore.py:275 | the fragments concatenate back to the input, each runs from one delimiter to the next, and the first one is empty exactly when the input is empty or starts with a delimiter |
| Parser.FindDelimiter | generate/generate_singlecore.py:305-306 | a found delimiter matches at its position |
| Parser.FindDelimiterSpec | generate/generate_singlecore.py:305-306 | the found delimiter is the leftmost one, and a miss means there is none |
| Parser.FirstSender | generate/generate_singlecore.py:305-306 | the sender search succeeds exactly when the fragment holds a delimiter, and the sender is lower case |
| Parser.FirstSenderSpec | generate/generate_singlecore.py:305-306 | the sender is the lower-cased name of the leftmost delimiter |
| Parser.StripDelimiters | generate/generate_singlecore.py:311 | removing delimiters never lengthens the text |
| Parser.StripDelimitersSpec | generate/generate_singlecore.py:311 | removing delimiters changes the text exactly when it holds one |
| Parser.MessageText | generate/generate_singlecore.py:311 | the message text has no surrounding whitespace and is no longer than its fragment |
| Parser.MessageTextSpec | generate/generate_singlecore.py:311 | a fragment without delimiters only gets stripped |
| Parser.Kept | generate/generate_singlecore.py:271-278 | at most one response is kept per fragment |
| Parser.KeptSound | generate/generate_singlecore.py:271-278 | every kept response holds a delimiter |
| Parser.KeptComplete | generate/generate_singlecore.py:271-278 | every stripped fragment that holds a delimiter is kept |
| Parser.KeptAsWritten | generate/generate_singlecore.py:271-278 | as written, at most one response is kept per fragment |
| Parser.KeptAsWrittenFirst | generate/generate_singlecore.py:271-278 | as written, nothing is kept exactly when no unstripped fragment holds a delimiter; otherwise the first kept response is the first fragment that holds one, stripped of spaces |
| Parser.IntendedResponsesHaveSender | generate/generate_singlecore.py:271-306 | with the corrected filter, the sender search succeeds on every kept response |
| Parser.TrailingDelimiterLost | generate/generate_singlecore.py:271-306 | with template `[{role}] `, the continuation `[B] ` keeps `[B]` as written, in which the sender search finds nothing; the corrected filter keeps nothing |
| Store.Extend | generate/generate_singlecore.py:370-382 | one more event adds its record to what is published, overwrites its participant's writing flag, or adds its sleep, and changes nothing else |
| Store.IdleFlags | generate/generate_singlecore.py:164-168 | setup writes one idle flag per role, in role order, each naming its own role as the writer |
| Store.IdleFlagsSpec | generate/generate_singlecore.py:164-168 | after setup nothing is published, and exactly the roles have a writing flag, each idle |
| Store.SetupWriting | generate/generate_singlecore.py:164-168 | the setup loop writes exactly the idle flags |
| Chat.IndexOfRole | generate/generate_singlecore.py:391 | `roles.index(sender)` is the first position holding the sender |
| Chat.SetupSeeds | generate/generate_singlecore.py:176-180 | every role gets an image seed, and a role listed twice keeps the seed of its last occurrence |
| Chat.FirstTurn | generate/generate_singlecore.py:196-217 | the first message has no image, carries an empty alt text and is not flagged as a new run; it starts with the initial seeds, an unset start time and no new run |
| Chat.FirstTurnSpec | generate/generate_singlecore.py:196-217 | an empty prompt file raises `IndexError`, and an empty sound list makes the start fail; a prompt without a delimiter raises `AttributeError`; otherwise the first message is a pool prompt whose sender and text come from the parser, its sound comes from the sound pool, and both pools stay within their sources |
| Chat.PauseLog | generate/generate_singlecore.py:247 | the read pause publishes nothing, sets no flag, and sleeps the read time unless in rapid mode |
| Chat.HandoverLog | generate/generate_singlecore.py:348-382 | the handover publishes the pending message, gives the new sender's flag to the pending sender as idle, and sleeps the write wait plus the run pause for a new run |
| Chat.Iteration | generate/generate_singlecore.py:230-417 | a pass raises `KeyError` exactly when the pending message's sender has no writing flag, and every role keeps an image seed |
| Chat.Respond | generate/generate_singlecore.py:304-309 | a response ends with `AttributeError` exactly when the sender search finds nothing, never raises `KeyError`, and a rejection names the sender found |
| Chat.RespondPublishes | generate/generate_singlecore.py:309-382 | a response publishes the pending message exactly when its sender is a known role, with that flag update and those sleeps; otherwise it publishes nothing |
| Chat.RespondRejects | generate/generate_singlecore.py:309 | a response is rejected exactly when its sender is not a role, and then nothing changes |
| Chat.RespondAccepts | generate/generate_singlecore.py:309-345 | an accepted response becomes the pending message, from a known role, with the composed text, selfie, alt text and advanced seeds |
| Chat.RespondState | generate/generate_singlecore.py:314-410 | an accepted response draws a sound, carries the new-run flag over, becomes the next prompt, uses up one turn of the run and clears the start time |
| Chat.RespondPending | generate/generate_singlecore.py:309-345 | a response that is not accepted leaves the pending message as it is |
| Chat.SeedsGrow | generate/generate_singlecore.py:338 | a shown selfie advances only its sender's seed, by one |
| Chat.AcceptKeeps | generate/generate_singlecore.py:320-341 | accepting a composed message keeps the model's consistency with what has been shown |
| Chat.ComposedFits | generate/generate_singlecore.py:320-341 | a composed selfie is the sender's picture at the seed reached so far, with alt text `selfie of <sender>` |
| Chat.RaiseAppended | generate/generate_singlecore.py:252-253 | raising the writing flag changes only that participant's flag |
| Chat.IterationPublishes | generate/generate_singlecore.py:230-417 | one pass publishes at most the pending message, from a known role; it always does on acceptance and never on rejection |
| Chat.IterationKeeps | generate/generate_singlecore.py:230-417 | one pass keeps the state consistent with the messages shown so far |
| Chat.IterationSoundDrawn | generate/generate_singlecore.py:406 | an accepted pass takes the next sound of the pool; otherwise the pending message stays |
| Chat.IterationStart | generate/generate_singlecore.py:245-253 | the previous sender is remembered; a pending sender without a writing flag raises `KeyError` after the read pause and nothing else |
| Chat.ChooseGenerated | generate/generate_singlecore.py:261-278 | while the run lasts and some response is kept, the prompt pool is not drawn from and the response used is the first fragment of the continuation that holds a delimiter, stripped of spaces |
| Chat.IterationWithoutSender | generate/generate_singlecore.py:251-306 | when the sender search finds nothing in the chosen response, the iteration ends with `AttributeError` after raising the writing flag, and publishes nothing |
| Chat.TrailingDelimiterRaises | generate/generate_singlecore.py:261-306 | with template `[{role}] ` and the continuation `[B] `, which does not contain the prompt, the iteration ends with `AttributeError` |
| Chat.ChooseDrawn | generate/generate_singlecore.py:279-303 | when the run is over or no response is kept, the choice is a draw from the prompt pool: a new prompt and starts a new run of length `trunc(run_length * factor)`; an empty pool yields nothing |
| Chat.IterationResponse | generate/generate_singlecore.py:257-345 | without a response the pass raises `IndexError`; an accepted response becomes the prompt and uses up one turn; a rejected one keeps the pending message and the prompt, and records the start time once |
| Chat.IterationFlags | generate/generate_singlecore.py:252-382 | the pending sender's flag is raised; on acceptance the new sender's flag is then written idle, naming the pending sender |
| Chat.RespondSleeps | generate/generate_singlecore.py:347-367 | after the read pause, a pass sleeps the write wait and the run pause only when it publishes |
| Chat.IterationPools | generate/generate_singlecore.py:279-303 | one pass keeps both pools within their sources and the pending sound from the sound list |
| Chat.Advance | generate/generate_singlecore.py:230-417 | each pass appends exactly what it publishes to the shown history and keeps the loop invariant |
| Chat.Converse | generate/generate_singlecore.py:230-417 | everything the loop publishes comes from a known role, carries that role's selfie with strictly increasing seeds and the right alt text, and has a sound from the sound list |
| Chat.Prepare | generate/generate_singlecore.py:164-227 | setup writes the idle flags and publishes nothing; a template without `{role}` or an empty prompt file raises `IndexError`; otherwise the loop starts in its invariant |
| Chat.Generate | generate/generate_singlecore.py:151-417 | the whole run starts with the idle flags; a bad template or empty prompts stop it there with `IndexError`; everything published is shown correctly with a listed sound |
| Chat.SeedsAfterCount | generate/generate_singlecore.py:338 | a role's seed has advanced by the number of its selfies shown |
| Chat.SelfieSeedsGrow | generate/generate_singlecore.py:338 | a later selfie of the same sender has a larger seed |
| Chat.WellFormedShown | generate/generate_singlecore.py:320-345 | a well-formed history is shown correctly |
| Legacy.ClosesOnLineSpec | generate/generate.old.py:20 | the scan for `:]` succeeds exactly when one follows on the same line |
| Legacy.FirstMarker | generate/generate.old.py:124 | a found marker is a match of `\[.*:\]` |
| Legacy.FirstMarkerSpec | generate/generate.old.py:124 | the found marker is the first one, and a miss means there is none |
| Legacy.Message | generate/generate.old.py:130-132 | a message exists exactly when the response holds a marker |
| Legacy.MessageUnmarked | generate/generate.old.py:132 | the message text holds no marker |
| Legacy.SeedLayout | generate/generate.old.py:89-93 | every role gets a seed, and the role at position k (its last occurrence) gets 100·k |
| Legacy.RemoveAt | generate/generate.old.py:165-167 | `pop(i)` removes exactly that one item |
| Legacy.TakeSound | generate/generate.old.py:165-173 | the sound taken is one of the paths; the list loses one path, or is reloaded to the full source when it held only that one |
| Legacy.TakeSoundSpec | generate/generate.old.py:165-173 | the sound taken is one of the paths; the others remain, and the list is reloaded when it runs empty |
| Legacy.Iteration | generate/generate.old.py:99-199 | every role keeps an image seed after a pass, and a pass raises `ValueError` only when there are no roles or the sound list is empty |
| Legacy.IterationWithoutMessage | generate/generate.old.py:118-130 | without a marker, the cue stays in the prompt, nothing is published and the sender stays writing |
| Legacy.DeliverWithoutSounds | generate/generate.old.py:165-167 | with no sound files the pop raises `ValueError` before anything is published |
| Legacy.DeliverSends | generate/generate.old.py:132-197 | a message is published from the drawn sender with the shown text and a sound from the list, and that sender's flag is reset |
| Legacy.DeliverState | generate/generate.old.py:132-199 | after a message, the prompt quotes it, the start time is cleared, the sound list stays reloadable, and only a missing colour raises (`IndexError`) |
| Legacy.IterationWithMessage | generate/generate.old.py:130-162 | a response with a marker delivers its cleaned text, with a selfie exactly when the placeholder occurs |
| Legacy.DeliverWaits | generate/generate.old.py:176-185 | a message sleeps the read wait and then the minimum duration minus the writing time, floored at zero |
| Legacy.ReadWaitRepeat | generate/generate.old.py:103-108 | the same sender reads five times faster than a new one |
| Legacy.Advance | generate/generate.old.py:98-199 | one pass keeps the loop invariant and the drawn-selfie invariant |
| Legacy.Chatter | generate/generate.old.py:98-203 | the loop publishes at most once per pass, each selfie at its role's seed plus its count, and raises `ValueError` only without roles or sounds |
| Legacy.DrawnShown | generate/generate.old.py:140-158 | the published messages are shown correctly |
| Legacy.DrawnSeeds | generate/generate.old.py:89-93 | the selfie of the role at position j (its last occurrence) after n earlier selfies of it comes from seed 100·j + n |
| Legacy.Generate | generate/generate.old.py:79-203 | the whole run starts with the idle flags; everything published is shown correctly, with a listed sound and seeds kept apart; `ValueError` only without roles or sounds |
| ParseOnly.ParseTurn | generate/generate.py:157-176 | a taken turn holds a delimiter, names its first sender lower-cased and carries the message text; a response that ends the program holds no delimiter |
| ParseOnly.ParseTurnSpec | generate/generate.py:153-176 | a pass takes nothing exactly when no fragment holds a delimiter; otherwise the first kept response is the first such fragment, stripped of spaces, and it is taken whole or ends the program with `AttributeError` exactly when the stripping left it without a delimiter |
| ParseOnly.IntendedParseTurnSpec | generate/generate.py:157-176 | with the corrected filter a pass never ends the program: it takes nothing exactly when no response is kept, and otherwise the first one whole |
| ParseOnly.ParseAccepted | generate/generate.py:157-176 | every turn either pass takes is accepted, and the intended pass never ends the program |
| ParseOnly.RunTurns | generate/generate.py:150-176 | the loop takes at most one turn per continuation, and each has any property every taken turn has |
| ParseOnly.RunNeverCrashes | generate/generate.py:150-176 | a pass that never ends the program gives a loop that never does |
| ParseOnly.RunPrompt | generate/generate.py:167-168 | a loop that runs to the end leaves the prompt as the last taken fragment, or unchanged |
| ParseOnly.Loop | generate/generate.py:150-176 | the loop computes the final prompt, the taken turns and whether it ended with `AttributeError`, as the recursive definition does |
| ParseOnly.ParseLoop | generate/generate.py:149-176 | the loop as written adds one newline to the prompt, parses each continuation against the current prompt, and ends at the first kept response without a sender |
| ParseOnly.IntendedParseLoop | generate/generate.py:149-176 | the loop with the corrected filter, against the same recursive definition |
| ParseOnly.ParseLoopSpec | generate/generate.py:149-176 | as written: at most one turn per continuation, each accepted, and a loop that runs to the end leaves the prompt as the last accepted fragment |
| ParseOnly.IntendedParseLoopSpec | generate/generate.py:149-176 | with the corrected filter: the same, and the loop always runs to the end |
| ParseOnly.ParseLoopCrashes | generate/generate.py:153-174 | with template `[{role}] `, the continuation `[B] ` ends the loop as written with `AttributeError`, while the intended loop takes nothing and keeps its prompt |
| Recording.CheckRates | parse_link_recording.py:34-35 | the rates pass exactly when the output rate divides the input rate and does not exceed it; a zero output rate is a division by zero |
| Recording.FrameOf | parse_link_recording.py:80-87 | a value belongs to the frame it falls in, and is kept exactly when that frame number is a multiple of the ratio |
| Recording.DecimateFrames | parse_link_recording.py:80-87 | decimation keeps every ratio-th whole frame and the trailing partial frame when its number is kept |
| Recording.GatherStops | parse_link_recording.py:42-68 | the first rejected file stops the whole run |
| Recording.Output | parse_link_recording.py:34-93 | a rate error is reported before any file is looked at; an output starts with the two header values |
| Recording.Concatenate | parse_link_recording.py:34-93 | the script's loop produces the specified output |
| Recording.GatherHeaders | parse_link_recording.py:54-68 | every file read has a header, and every file with a non-zero width agrees with the adopted dimensions |
| Recording.GatherPassThrough | parse_link_recording.py:76-80 | with equal rates the bodies are concatenated unchanged |
| Recording.GatherThinned | parse_link_recording.py:80-90 | with unequal rates every body is decimated on the adopted frame size |
| Recording.OutputAccepted | parse_link_recording.py:34-93 | an output exists only for dividing rates and readable files; it starts with the common dimensions and passes bodies through when the rates are equal |
| Recording.OutputThinned | parse_link_recording.py:80-93 | with unequal rates the output body is the decimated bodies |
| Recording.SameHeaders | parse_link_recording.py:59-68 | an output exists only when all files with a non-zero width have the same dimensions |
| Recording.Rejected | parse_link_recording.py:54-68 | a file without a header, or two files with different non-zero dimensions, make the run fail |
| Timestamp.Started | link/src/lib/stores/timestamp.ts:14-18 | `start` sets recording and keeps the time |
| Timestamp.Stopped | link/src/lib/stores/timestamp.ts:19-23 | `stop` clears recording and keeps the time |
| Timestamp.Timed | link/src/lib/stores/timestamp.ts:24-28 | `setTime` sets the time and keeps the recording flag |
| Timestamp.StartStopIdempotent | link/src/lib/stores/timestamp.ts:14-23 | starting or stopping twice is the same as once, and the later of `start` and `stop` wins |
| Timestamp.TimedCommutes | link/src/lib/stores/timestamp.ts:14-28 | setting the time is independent of starting or stopping, and the last time set wins |
| Timestamp.Store.constructor | link/src/lib/stores/timestamp.ts:10 | the store starts at time 0, not recording |
| Timestamp.Store.Start | link/src/lib/stores/timestamp.ts:14-18 | the stored value becomes the started one |
| Timestamp.Store.Stop | link/src/lib/stores/timestamp.ts:19-23 | the stored value becomes the stopped one |
| Timestamp.Store.SetTime | link/src/lib/stores/timestamp.ts:24-28 | the stored value gets the new time |
| Timestamp.Store.Set | link/src/lib/stores/timestamp.ts:29 | the stored value is replaced |
| Timestamp.Store.Update | link/src/lib/stores/timestamp.ts:30 | the stored value becomes the updater applied to the old one |
| Timestamp.Store.Reset | link/src/lib/stores/timestamp.ts:31 | the store returns to its initial value |
| Messages.Added | serve/site/src/lib/stores/messages.ts:18-20 | adding appends the message after all earlier ones, which stay in place |
| Messages.AddedKeepsDuplicates | serve/site/src/lib/stores/messages.ts:18-20 | a message with an id already present is still appended, one more copy |
| Messages.Store.constructor | serve/site/src/lib/stores/messages.ts:14 | the store starts empty |
| Messages.Store.Add | serve/site/src/lib/stores/messages.ts:18-20 | the stored list becomes the old list with the message appended |
| Messages.Store.Reset | serve/site/src/lib/stores/messages.ts:21 | the store becomes empty |
| Font.Lerp | link/site/src/lib/components/font-animation.ts:9 | for a fraction in [0, 1] the interpolated value lies between start and end |
| Font.MapInterpolation | link/site/src/lib/components/font-animation.ts:8-10 | for non-negative ends and a fraction in [0, 1], the value is non-negative |
| Font.MapInterpolationEnds | link/site/src/lib/components/font-animation.ts:8-10 | whole-number endpoints are reached at fractions 0 and 1 |
| Font.MapInterpolationBetween | link/site/src/lib/components/font-animation.ts:8-10 | for a fraction in [0, 1], the truncated value stays between whole-number endpoints |
| Font.MapInterpolationMonotone | link/site/src/lib/components/font-animation.ts:8-10 | for a fraction in [0, 1], the truncated value stays between the truncated endpoints |
| Font.NewAnimator | link/site/src/lib/components/font-animation.ts:18-22 | a new animator keeps both ends and stands at its start |
| Font.UpdateRange | link/site/src/lib/components/font-animation.ts:24-33 | `update` shows the start at 0 and the end at 1, and each axis stays within its range in between |

## Left out

- Redis, `shortuuid` keys and `expire(120)` are not modelled: the store is an ordered log of published records, writing-flag writes and sleeps, with no keys and no expiry.
- The StyleGAN image generator, JPEG encoding and `climage` are left out: a `Picture(role, seed)` stands for the image generated for that seed.
- `termcolor` printing and the verbose `print_v` are left out. Only the `IndexError` of a missing colour index is modelled.
- `random.uniform`, `random.shuffle` and `random.randint` are inputs. Seeds are not bounded to 0..10000, and random factors are not bounded to their configured ranges.
- `time.time` and `time.sleep` are left out: clock readings are inputs, and sleeps are events in the log.
- The keyboard interrupt is not modelled: the loops end when the sequence of draws ends.
- The file read in `Sounds.get` is left out: a sound is identified by its path.
- The `click` command line, `parse_min_max` and `parse_random_factor` are left out. The configuration they build is a parameter.
- Floating point is modelled as real numbers: no rounding, no NaN, no infinities.
- Text.Upper: ASCII case mapping only. Python's `str.upper` also maps non-ASCII letters and can change the length (`'ß'` becomes `'SS'`), which would change the cue and the quoted prompt for a non-ASCII role name.
- Regular-expression `\w` is modelled as ASCII letters, digits and `_`, not the Unicode word characters.
- The first message's alt text is `b''` (bytes) in the singlecore generator; it is modelled as the empty string.
- `glob` and `sorted` are left out: the recording files and sound files are given as sequences in their order.
- Decoding float32 with `struct` is left out: recordings are sequences of reals.
- The `--max` scaling and clipping in `parse_link_recording.py` are left out, together with `tqdm` progress and size printing.
- Svelte's `subscribe` and change notification are left out: each store is a class whose value the methods reassign.
- Text generator and image generator calls are inputs of each pass: `generators/` is not part of this model.
- Recording.DecimateFrames: proved for positive frame sizes only; a negative width or height from a malformed header is accepted by the script but not covered by this lemma.
- Font.GetStart and Font.Update have no contract of their own; Font.UpdateRange states what they promise.
- Chat.Converse: states what is published and its sounds, not the exact sleep sequence of a whole run; the sleeps are stated per pass by Chat.PauseLog, Chat.HandoverLog and Chat.RespondSleeps.

## Findings

| source | as written | input that shows it | evidently intended | confidence | as-written member | corrected member |
|---|---|---|---|---|---|---|
| generate/generate_singlecore.py:271-278 | the fragments are filtered for a delimiter before `strip(' ')`, and the stripped fragment is kept | template `[{role}] ` and the continuation `[B] `: the fragment `[B] ` passes the filter, is kept as `[B]`, and the sender search on `[B]` finds nothing, so `.group` on `None` raises `AttributeError` | filter the stripped fragment, so that every kept response has a sender | not executed | Parser.KeptAsWritten, Parser.TrailingDelimiterLost, Chat.TrailingDelimiterRaises, ParseOnly.ParseLoopCrashes | Parser.Kept, Parser.IntendedResponsesHaveSender, ParseOnly.IntendedParseLoopSpec |
