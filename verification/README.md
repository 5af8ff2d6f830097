# Verified models of the Buzz ACP adapter and five satellites

This project models, in Dafny, the Buzz adapter of the eve repository (`packages/eve-buzz-acp-adapter`) and five
self-contained pieces of its applications, and proves what they promise.

The adapter stands between a client and an `eve acp` child process. Both speak JSON-RPC 2.0. It gathers the agent's
text per prompt turn and, when a turn ends, posts that text to Buzz through a CLI whose result may stay uncertain. A lock
file per event, renamed to `.published` or `.unknown`, is meant to keep a reply from being posted twice.

How the files fit together:

- `PublicationProtocol` is the lock protocol as a state machine: a shared disk with three file names per key, any number
  of processes, one file operation per step, crashes anywhere, a count of what was really posted. `SoleProcess`,
  `ProtocolTiming` and `ProtocolCrashes` prove what holds for one process, for runs that keep their deadlines, and for
  such runs with crashes; `ProtocolTightness`, that the general bound cannot be improved and how few crashes already
  break mutual exclusion. `PublicationDirectory` is the model in the code's own form: an object with lock and marker
  files, updated one file operation at a time while the other processes operate on the same files at every await. The
  machine's state is ghost there and proved to agree with the files after every operation.
- `BuzzContext` is the route parser; `BuzzBatch` and `BuzzPrompt` are the formats it reads, printed and read back, and
  `BuzzRoute` says by the shapes of lines alone which prompts have a route, and which.
- `ProxyModel` is the proxy's two loops as a machine over messages. `ProxyHistory` says, from the message history alone,
  what its tables ought to hold; `ProxyLedger`, `ProxyTurns` and `ProxyStream` prove that they do and that no message is
  lost, doubled or reordered. `ProxyLoops` has the loops in the code's own form, two maps and turn objects updated in place,
  proved equal to the machine.
- `AdapterSystem` joins any number of proxies to one directory and carries the results to the whole system. `CleanTurn`
  and `CrashRecovery` show the other direction: an open key can always be published, even if a crash left it locked.
  `ClosedTurn` is what the client hears of a turn for a key that is closed or held.
- `Publisher` is the event-driven run of the CLI: settle once, never claim more certainty than there is. `Utf8` decodes
  its output; `Utf8Encoding` has the encoder that says what decoding means, and `PublisherText` what that is for output.
  `HonestCli` is where its outcomes become steps of the lock protocol, and `JointRun` runs any number of publishers and
  the protocol together, event by event.
- `RateLimit`, `ShellQuote`, `BenchmarkResults`, `PaintFixtures` and `PasswordAuth` are a fixed-window rate limiter, a
  shell quoter, a result aggregation, an in-place paint grid and a signed session token. `BenchmarkData` compares the
  aggregated rows with the published data itself.
- `Text`, `Sequences`, `Counting`, `Sorting`, `Arithmetic` and `Wrappers` hold what the others share.

## Results that say where the code falls short

- The adapter's README (line 87) promises idempotent publication across processes. The code gives a bound instead: the
  posts for a key exceed one by at most the number of stale locks removed plus the number of locks created after a marker
  already existed (`PublicationProtocol.DeliveriesBounded`). The bound is reached for every pair of numbers
  (`ProtocolTightness.BoundIsReached`). "At most once" does hold for one process alone
  (`SoleProcess.OneProcessDeliversOnce`).
- A client that sends a prompt under the id whose reply is just being published loses the new turn
  (`ProxyTurns.ReusedIdIsLost`). The table of turns is exact after a publication if and only if no such prompt is open
  (`ProxyTurns.PublicationEndsExactIff`).
- The capped output buffer decodes each chunk on its own. Its text is the decoding of the bytes it keeps if and only if
  every kept part ends between two UTF-8 sequences (`Publisher.CaptureIsDecodingIff`); a character cut between two chunks
  is lost (`Publisher.CuttingMattersBeyondAscii`).
- A batch whose event bodies contain one complete event header is rejected as a whole; without one it reads back
  (`BuzzBatch.BatchRoundTrip`, an exact condition; `BuzzBatch.QuotedHeadSpoilsBatch` gives failing ones).
- A further line in a context's scope can take the channel over, and a `--reply-to` with an id in its scope or channel name
  the reply anchor (`BuzzPrompt.SecondLineTakesChannel`, `BuzzPrompt.ScopeTakesAnchor`). A prompt reads back as printed if
  and only if neither happens (`BuzzPrompt.PromptRoundTrip`).
- Keeping every deadline excludes two holders of a key as long as no process crashes, and for no larger number of crashes
  (`ProtocolTightness.DeadlinesExcludeIff`, `ProtocolTiming.CrashFreeMutualExclusion`): from one crash on, the rm of a stale
  lock may hit a fresh one (`ProtocolTightness.OneCrashAdmitsTwoHolders`). With deadlines kept, every live holder keeps its
  lock if and only if no rm takes a lock, other than the one whose age was read, from a live process
  (`ProtocolTiming.LocksAreKeptIff`), and then one process at a time holds a key (`ProtocolTiming.MutualExclusion`).
- A row whose latest date cannot be parsed compares equal to every other row with the same rates, so the comparator of the
  benchmark rows stops being an order exactly there (`BenchmarkResults.ComparatorChainsIff`).

## Model

| member | source | states |
|---|---|---|
| PublicationProtocol.RunKeepsInvariant | packages/eve-buzz-acp-adapter/src/publication-state.ts:30-67 | In every run: a holder has its own unreleased attempt, a released attempt never delivers, a success stands for a published key; and per key the unreleased attempts are at most the stale removals plus the late creates plus one if a lock or marker is there |
| PublicationProtocol.DeliveriesBounded | packages/eve-buzz-acp-adapter/src/publication-state.ts:30-67 | For every interleaving of single file operations by any number of processes, with crashes anywhere: messages really posted for a key are at most 1 + stale-lock removals + creates after a marker existed |
| PublicationProtocol.MarkersStay | packages/eve-buzz-acp-adapter/src/publication-state.ts:57-63 | Over any further run, `.published` and `.unknown` never disappear and no answer is taken back |
| PublicationProtocol.PassedMeansPublished | packages/eve-buzz-acp-adapter/src/proxy.ts:179-217 | Whenever the publish sequence lets a success through, the key's `.published` marker exists then and in every later state |
| PublicationProtocol.PublishedMeansDelivered | packages/eve-buzz-acp-adapter/src/proxy.ts:198-216 | In every run a key that has its `.published` marker was really posted at least once |
| ProtocolTightness.BoundIsReached | packages/eve-buzz-acp-adapter/src/publication-state.ts:30-55 | For all numbers of stale removals and late creates some run has exactly those and posts 1 + stale + late times, so neither race is harmless and the bound is the best one |
| SoleProcess.OneProcessDeliversOnce | packages/eve-buzz-acp-adapter/src/proxy.ts:175-227 | With no other process and no crash, a key is posted at most once however many turns and retries hit it; between turns it is open exactly when every attempt certainly failed |
| SoleProcess.ClosedKeyIsNeverTriedAgain | packages/eve-buzz-acp-adapter/src/publication-state.ts:30-31 | Once a delivery or an uncertain outcome closed the key, no further attempt on it is ever made |
| ProtocolTiming.TimelyRunsStayExclusive | packages/eve-buzz-acp-adapter/src/publication-state.ts:43-54 | If holders finish within the publish timeout plus an overhead below one further timeout, and each rm hits the lock whose age was read, every live holder owns the lock on disk and every lock about to be removed has no live holder |
| ProtocolTiming.HarmlessRunsStayExclusive | packages/eve-buzz-acp-adapter/src/publication-state.ts:43-54 | The same with the weaker hypothesis that an rm which finds another lock than the one whose age was read finds one that no live process holds |
| ProtocolTiming.MutualExclusion | packages/eve-buzz-acp-adapter/src/publication-state.ts:33-54 | With deadlines kept and such removals only, at most one process at a time holds a key |
| ProtocolTiming.LocksAreKeptIff | packages/eve-buzz-acp-adapter/src/publication-state.ts:43-54 | With deadlines kept: every live holder's lock stays on disk throughout a run if and only if no rm of the run finds a lock other than the one whose age was read that a live process holds |
| ProtocolTiming.StaleRemovalHitsNoLiveHolder | packages/eve-buzz-acp-adapter/src/publication-state.ts:43-54 | In a run in which each rm hits the lock whose age was read, no step that removes a stale lock takes it from a live holder: the staleness limit of twice the timeout is large enough |
| ProtocolTiming.CrashFreeRunsAreTimely | packages/eve-buzz-acp-adapter/src/publication-state.ts:43-54 | Without crashes the deadlines alone suffice: every lock keeps its live holder, so nothing is ever judged stale and no rm happens |
| ProtocolTiming.CrashFreeMutualExclusion | packages/eve-buzz-acp-adapter/src/publication-state.ts:33-54 | A run without crashes that keeps its deadlines never has two holders of a key |
| ProtocolTiming.CrashFreeDeliveriesBounded | packages/eve-buzz-acp-adapter/src/proxy.ts:179-183 | In such a run no lock is ever removed as stale, so posts exceed one only by creates after a marker |
| ProtocolCrashes.CrashesPayForPosts | packages/eve-buzz-acp-adapter/src/publication-state.ts:43-66 | With deadlines kept, harmless removals and any crashes: posts for a key exceed one only by the creates after a marker and by the processes that crashed between the start of their CLI and the end of their sequence; clearing up after any other crash costs nothing |
| ProtocolTightness.HarmfulRemovalAdmitsTwo | packages/eve-buzz-acp-adapter/src/publication-state.ts:53-54 | After any run that keeps its deadlines: a process about to rm the lock of a live holder of an open key can go on to hold the key together with that holder |
| ProtocolTightness.OneCrashAdmitsTwoHolders | packages/eve-buzz-acp-adapter/src/publication-state.ts:43-54 | For every key, timeout and overhead some run with exactly one crash keeps every deadline and ends with two processes holding the key |
| ProtocolTightness.DeadlinesExcludeIff | packages/eve-buzz-acp-adapter/src/publication-state.ts:43-54 | For every number of crashes: the deadlines exclude two holders of a key from all runs with that many crashes if and only if the number is zero |
| PublicationDirectory.PublicationDirectory.ReservePublication | packages/eve-buzz-acp-adapter/src/publication-state.ts:20-68 | Whatever the others do to the files at each await: a reservation is a new lock of this process with no CLI started yet; "published" and "unknown" mean that marker exists at the return, and the latest answer is this process's success or error for the key; a refusal means a lock file younger than twice the timeout and an error; meanwhile the process did nothing else, and the files are those of a run of the lock protocol |
| PublicationDirectory.PublicationDirectory.Round | packages/eve-buzz-acp-adapter/src/publication-state.ts:30-55 | One pass keeps that promise or ends exactly where the next pass starts |
| PublicationDirectory.PublicationDirectory.Contend | packages/eve-buzz-acp-adapter/src/publication-state.ts:40-55 | The branch for an existing lock: markers looked at again, then a missing or stale lock starts over and a young one refuses |
| PublicationDirectory.PublicationDirectory.LookForPublished | packages/eve-buzz-acp-adapter/src/publication-state.ts:70-78 | The look at `.published`, before and after a failed create, by any process: a true answer; if it is there the sequence ends with a success for the key, and otherwise without an answer; the protocol's state still agrees with every file |
| PublicationDirectory.PublicationDirectory.LookForUnknown | packages/eve-buzz-acp-adapter/src/publication-state.ts:70-78 | The look at `.unknown`, likewise; if it is there the sequence ends with an error |
| PublicationDirectory.PublicationDirectory.OpenExclusive | packages/eve-buzz-acp-adapter/src/publication-state.ts:33-40 | The exclusive create adds a fresh lock file dated now exactly if none is there, and otherwise changes nothing; the protocol agrees |
| PublicationDirectory.PublicationDirectory.WriteOwner | packages/eve-buzz-acp-adapter/src/publication-state.ts:35-38 | The write dates the lock file now if the path still leads to the file that was opened, and otherwise changes nothing; the protocol agrees |
| PublicationDirectory.PublicationDirectory.LockAge | packages/eve-buzz-acp-adapter/src/publication-state.ts:43-52 | The age read is now minus the lock file's date; a missing lock starts over, a young one ends the call, an old one is remembered for removal |
| PublicationDirectory.PublicationDirectory.RemoveLock | packages/eve-buzz-acp-adapter/src/publication-state.ts:53-54 | The rm takes whatever lock file is there, and the process starts over; the protocol agrees |
| PublicationDirectory.PublicationDirectory.Commit | packages/eve-buzz-acp-adapter/src/publication-state.ts:58-60 | The lock file becomes `.published` and the success passes; if it is gone, nothing on disk changes and an error replaces the success; the protocol agrees |
| PublicationDirectory.PublicationDirectory.MarkUnknown | packages/eve-buzz-acp-adapter/src/publication-state.ts:61-63 | The lock file becomes `.unknown`, or nothing changes if it is gone; the answer is an error either way; the protocol agrees |
| PublicationDirectory.PublicationDirectory.ReleaseLock | packages/eve-buzz-acp-adapter/src/publication-state.ts:64-66 | The lock file is gone whoever made it, the markers are untouched, the answer is an error; the protocol agrees |
| PublicationDirectory.PublicationDirectory.Elsewhere | packages/eve-buzz-acp-adapter/src/publication-state.ts:20-68 | Whatever the clock, a CLI run or another process does to the same files, the protocol's state keeps agreeing with them and this process stays where it stands |
| BuzzContext.RouteIgnoresBlockOrder | packages/eve-buzz-acp-adapter/src/buzz-context.ts:10-30 | The route is the same for every permutation of the prompt's blocks |
| BuzzContext.SinkKeepsRoute | packages/eve-buzz-acp-adapter/src/buzz-context.ts:32-42 | The instruction the connector appends never changes the route of a prompt |
| BuzzContext.KeyIsChannelAndEvent | packages/eve-buzz-acp-adapter/src/publication-state.ts:14-18 | Two parsed routes give the same hashed text exactly when channel and triggering event agree; the reply anchor does not matter |
| BuzzBatch.TitleReadsBack | packages/eve-buzz-acp-adapter/src/buzz-context.ts:57-93 | The title of a printed batch of any kind is read as that many events and as no other kind of block |
| BuzzBatch.EntriesReadBack | packages/eve-buzz-acp-adapter/src/buzz-context.ts:73-80 | Printed events, whose fields are single lines, read back as one header each plus the headers their bodies imitate; if none does, as exactly the numbered ids |
| BuzzBatch.BatchRoundTrip | packages/eve-buzz-acp-adapter/src/buzz-context.ts:71-84 | A printed batch of n >= 2 events, whose fields are single lines, yields the last event's id if no body holds a complete event header, and is rejected otherwise |
| BuzzBatch.QuotedHeadSpoilsBatch | packages/eve-buzz-acp-adapter/src/buzz-context.ts:73-83 | For every batch: one body that starts with the head of any event, under any number, spoils it |
| BuzzBatch.EventsHavePositions | packages/eve-buzz-acp-adapter/src/buzz-context.ts:73-80 | The events found are those of the lines at which a complete header stands, each once, in order |
| BuzzBatch.AcceptedBatch | packages/eve-buzz-acp-adapter/src/buzz-context.ts:71-93 | Any accepted batch announces n >= 2 events, has exactly n complete headers numbered 1 to n, and its id is the one under header n |
| BuzzRoute.RouteMeans | packages/eve-buzz-acp-adapter/src/buzz-context.ts:10-30 | For any prompt and any route, by line shapes alone: the prompt has that route if and only if one block is the only one titled [Context] and nothing but white space, one block is the only one that carries an event and it carries that event, the first line of the context that carries a channel carries that one, and the first reply anchor of the context, if any, is that one |
| BuzzRoute.AcceptedIff | packages/eve-buzz-acp-adapter/src/buzz-context.ts:10-21 | Any prompt has a route if and only if exactly one text block is a context, it has a line that carries a channel, and exactly one block carries an event |
| BuzzRoute.EventMeans | packages/eve-buzz-acp-adapter/src/buzz-context.ts:57-93 | A block yields an event id if and only if its lines have the shape of a single event, of an interruption, or of a batch whose complete headers are numbered 1 to the announced count, with that id in the right place |
| BuzzRoute.OneMoreBlock | packages/eve-buzz-acp-adapter/src/buzz-context.ts:10-21 | Adding a block anywhere to a prompt with a route destroys the route if it has the shape of a context or carries an event, and otherwise leaves it as it was |
| BuzzRoute.SecondBlockDestroys | packages/eve-buzz-acp-adapter/src/buzz-context.ts:11-21 | Two blocks with the shape of a context, or two blocks that carry events, always make the route undefined |
| BuzzRoute.ChannelIdMeans | packages/eve-buzz-acp-adapter/src/buzz-context.ts:3-3 | A channel id is five groups of 8, 4, 4, 4 and 12 hexadecimal digits joined by dashes, and nothing else is |
| BuzzRoute.NewMessageIsWritten | packages/eve-buzz-acp-adapter/src/buzz-context.ts:65-65 | The title of one message that arrived meanwhile, letter for letter |
| BuzzRoute.NewRequestIsWritten | packages/eve-buzz-acp-adapter/src/buzz-context.ts:65-65 | The title of one superseding request, letter for letter |
| BuzzRoute.ArrivedIsWritten | packages/eve-buzz-acp-adapter/src/buzz-context.ts:89-89 | How the title of several such messages begins, letter for letter |
| BuzzRoute.SupersedingIsWritten | packages/eve-buzz-acp-adapter/src/buzz-context.ts:89-89 | How the title of several such requests begins, letter for letter |
| BuzzPrompt.PromptRoundTrip | packages/eve-buzz-acp-adapter/src/buzz-context.ts:10-30 | A whole printed prompt reads back as a route about its triggering event, unless a batch body imitates a header; it is the printed route, channel and anchor too, if and only if no earlier line of the scope carries another channel's id and no earlier anchor another id. Names, labels, triggers and channels are single lines; scope and bodies are any number of lines |
| BuzzPrompt.EventsReadBack | packages/eve-buzz-acp-adapter/src/buzz-context.ts:57-85 | Each kind of printed event block yields its one triggering event whatever the lines of its body are; only a batch can be spoilt |
| BuzzPrompt.ContextChannel | packages/eve-buzz-acp-adapter/src/buzz-context.ts:15-18 | A printed context always has a channel, and it is its own if and only if the first line that carries an id carries this one |
| BuzzPrompt.CarriesMeans | packages/eve-buzz-acp-adapter/src/buzz-context.ts:15-18 | The parser reads an id off a line if and only if the line carries it: the label, white space that may run over blank lines, then on one line the id or any text ending in it in parentheses after a hash sign, and only white space behind |
| BuzzPrompt.ChannelMeans | packages/eve-buzz-acp-adapter/src/buzz-context.ts:15-18 | The channel read from any block is the id of the first line that carries one |
| BuzzPrompt.OneLineKeepsChannel | packages/eve-buzz-acp-adapter/src/buzz-context.ts:15-18 | A scope of one line never changes the channel, whatever it says |
| BuzzPrompt.SecondLineTakesChannel | packages/eve-buzz-acp-adapter/src/buzz-context.ts:15-18 | A scope with a second line that is another channel's line takes the channel over |
| BuzzPrompt.ReplyToMeans | packages/eve-buzz-acp-adapter/src/buzz-context.ts:27-28 | The anchor read from any text is the first place where the option, white space and 64 hexadecimal digits stand |
| BuzzPrompt.ContextAnchor | packages/eve-buzz-acp-adapter/src/buzz-context.ts:27-28 | A context's anchor is the first one in its text, and it is the printed one (or none) if and only if no anchor with another id stands before it |
| BuzzPrompt.ScopeTakesAnchor | packages/eve-buzz-acp-adapter/src/buzz-context.ts:27-28 | A scope that mentions the option with another id takes the anchor over |
| ProxyModel.KeyForIdInjective | packages/eve-buzz-acp-adapter/src/proxy.ts:48-48 | String, integer, null and missing ids of different type or value never share a key |
| ProxyHistory.PendingCallMeans | packages/eve-buzz-acp-adapter/src/proxy.ts:99-154 | A call is pending exactly when it is the latest forwarded request under its key with no answer after it |
| ProxyHistory.OpenPromptMeans | packages/eve-buzz-acp-adapter/src/proxy.ts:109-117 | A prompt is open exactly when it stands in the history with no answer to its id after it |
| ProxyLedger.RunMatches | packages/eve-buzz-acp-adapter/src/proxy.ts:64-228 | In every run: every entry of `requests` and every turn is what the history makes of it, and every reply that was due is the trimmed text of its turn |
| ProxyLedger.RequestsArePendingCalls | packages/eve-buzz-acp-adapter/src/proxy.ts:87-154 | For every id: `requests` holds it exactly while a forwarded client request with that very id is unanswered, and maps it to the latest such request's method; requests from eve, answers from the client and other ids that print alike never disturb it |
| ProxyLedger.RequestKeysAreIds | packages/eve-buzz-acp-adapter/src/proxy.ts:48-99 | Every key of `requests` is the key of some id |
| ProxyLedger.PublishedTextIsTurnText | packages/eve-buzz-acp-adapter/src/proxy.ts:139-197 | Every text handed to the publisher is owed to the latest prompt with its id: the trimmed, not blank concatenation, in order of arrival, of the texts of `agent_message_chunk` updates for that prompt's session since; the answer is a result with stop reason end_turn, the session was not cancelled in between, and the route is the prompt's |
| ProxyLedger.OtherUpdatesAreNeverDue | packages/eve-buzz-acp-adapter/src/proxy.ts:139-174 | A turn to whose session no agent text came, but updates of other kinds, is never taken up for publication |
| ProxyLedger.PublishingIsDue | packages/eve-buzz-acp-adapter/src/proxy.ts:175-203 | What is being published at any moment is one of those replies |
| ProxyTurns.TurnsAreOpenPrompts | packages/eve-buzz-acp-adapter/src/proxy.ts:109-222 | For every id: while no prompt reuses the id under publication, `turns` holds it exactly while a prompt with that id is unanswered or the answer with that id is held back |
| ProxyTurns.PublicationEndsExactIff | packages/eve-buzz-acp-adapter/src/proxy.ts:183-222 | After a publication the turns are exact if and only if no prompt with the published id is open |
| ProxyTurns.ReusedIdIsLost | packages/eve-buzz-acp-adapter/src/proxy.ts:183-216 | For every id, prompt and text: a prompt repeated under the id being published is open but unknown to the proxy afterwards, and no answer to it makes a reply due |
| ProxyTurns.FreshPromptsNeverClash | packages/eve-buzz-acp-adapter/src/proxy.ts:109-117 | A client that never repeats a prompt id never meets that case |
| ProxyTurns.DueIffShouldPublish | packages/eve-buzz-acp-adapter/src/proxy.ts:162-180 | Without such reuse a reply is taken up for publication exactly when its answer closes an open, uncancelled prompt with end_turn and non-blank text; nothing else is published and nothing due is skipped |
| ProxyStream.ClientStreamConserved | packages/eve-buzz-acp-adapter/src/proxy.ts:84-129 | Eve receives exactly the client's messages in order, rewritten as documented, less the fixed-model requests; the proxy's own answers are one for each of those, in order, with its id, and each a success that names the pinned model |
| ProxyStream.RewriteIsTransparent | packages/eve-buzz-acp-adapter/src/proxy.ts:102-119 | What eve sees of a client message has the same id, method, result and error; a prompt keeps its blocks, gains one and still registers the same turn; only a new session without target gets another directory; everything else is verbatim |
| ProxyStream.OtherModelReachesEve | packages/eve-buzz-acp-adapter/src/model.ts:23-34 | A request to set a model other than the pinned one reaches eve as it is, and the proxy answers nothing |
| ProxyStream.OtherOptionReachesEve | packages/eve-buzz-acp-adapter/src/model.ts:23-34 | So does a choice of another option, or of another value for the model option |
| ProxyStream.EveStreamConserved | packages/eve-buzz-acp-adapter/src/proxy.ts:137-228 | The i-th message from eve yields exactly one client message, in order and with the same id: the same message, changed only in its model members and only if it is a success of session/new with a pinned model, or a message with error code -32603 and no result, and that only if its reply was due; the latest may still be held back |
| ProxyStream.EveIndicesAreEveMessages | packages/eve-buzz-acp-adapter/src/proxy.ts:138-138 | The indices that statement counts by are all messages from eve, each once, in order |
| ProxyLoops.ActiveTurn.constructor | packages/eve-buzz-acp-adapter/src/proxy.ts:111-117 | A new turn: route parsed, session if it is a string, not cancelled, no text |
| ProxyLoops.ProxyLoops.CancelTurns | packages/eve-buzz-acp-adapter/src/proxy.ts:120-127 | Every turn object of the session is cancelled and no other changes, whatever the order of iteration |
| ProxyLoops.ProxyLoops.ExtendTurns | packages/eve-buzz-acp-adapter/src/proxy.ts:139-145 | Every turn object of the session gets the chunk appended and no other changes |
| ProxyLoops.ProxyLoops.RegisterPrompt | packages/eve-buzz-acp-adapter/src/proxy.ts:109-117 | The prompt's key maps to a fresh turn object and every other turn keeps its value |
| ProxyLoops.ProxyLoops.UpdateTurns | packages/eve-buzz-acp-adapter/src/proxy.ts:109-127 | The turn objects after a client message are the machine's turns after it |
| ProxyLoops.ProxyLoops.HandleClient | packages/eve-buzz-acp-adapter/src/proxy.ts:86-128 | The input loop's body does to maps, objects and streams exactly what the machine's client step does |
| ProxyLoops.ProxyLoops.HandleAnswer | packages/eve-buzz-acp-adapter/src/proxy.ts:152-178 | The treatment of an answer does exactly what the machine does with it |
| ProxyLoops.ProxyLoops.HandleEve | packages/eve-buzz-acp-adapter/src/proxy.ts:138-178 | The output loop up to publishing does exactly what the machine's eve step does |
| ProxyLoops.ProxyLoops.HandlePublished | packages/eve-buzz-acp-adapter/src/proxy.ts:184-227 | The end of the publish sequence does exactly what the machine's step does |
| AdapterSystem.RunSound | packages/eve-buzz-acp-adapter/src/proxy.ts:137-228 | Any number of adapters on one directory: each proxy is a run of the proxy machine, the directory a run of the lock protocol, a live proxy publishes exactly while its process works on its route's key, and every success for a due reply stands for a published key |
| AdapterSystem.SystemDeliveriesBounded | packages/eve-buzz-acp-adapter/src/publication-state.ts:30-67 | The delivery bound for the whole system, whatever clients and eve send |
| AdapterSystem.SuccessMeansPublished | packages/eve-buzz-acp-adapter/src/proxy.ts:167-217 | If an adapter passed on a success for a reply that was due, the route of that reply was really posted, and is published then and in every later state of the system |
| AdapterSystem.EndOfTurnMeansPublished | packages/eve-buzz-acp-adapter/src/proxy.ts:160-217 | The same read off the messages: a success passed on for the end of an open, uncancelled turn with text means the route of that turn's prompt was really posted and is published for good |
| AdapterSystem.OneAdapterDeliversOnce | packages/eve-buzz-acp-adapter/src/proxy.ts:175-227 | One adapter alone on its directory posts for a key at most once, whatever its client and eve send |
| CleanTurn.CleanTurnPublishes | packages/eve-buzz-acp-adapter/src/proxy.ts:86-217 | From every state of the system in which an adapter is idle and a key has neither lock nor marker, one undisturbed turn, with or without a session and with its text in any number of chunks, posts exactly once more, leaves the key published and unlocked, and ends with eve's success under the prompt's id |
| CleanTurn.FirstTurnPublishes | packages/eve-buzz-acp-adapter/src/proxy.ts:137-217 | The run of a freshly started system with one such turn posts its text exactly once |
| CrashRecovery.RecoveryTurnPublishes | packages/eve-buzz-acp-adapter/src/publication-state.ts:43-55 | From every state of the system in which an adapter is idle and a key is locked without a marker: once twice the timeout has passed, one undisturbed turn removes the lock, posts exactly once more, leaves the key published and ends with the success |
| CrashRecovery.NoCrashBlocksForGood | packages/eve-buzz-acp-adapter/src/publication-state.ts:30-67 | After every run of any number of adapters with crashes anywhere, any live adapter that is not publishing can go on to post for any key without a marker and publish it, at once or after twice the timeout |
| ClosedTurn.PublishedTurnPasses | packages/eve-buzz-acp-adapter/src/proxy.ts:179-191 | From every state in which an adapter rests and the route's key is published: a turn for it ends, after one look, with eve's success under the prompt's id; no attempt is made, nothing is posted, no file changes |
| ClosedTurn.UnknownTurnFails | packages/eve-buzz-acp-adapter/src/proxy.ts:192-227 | With only the unknown marker it ends, after two looks, with error -32603 under that id, and again nothing else happens |
| ClosedTurn.ContestedTurnFails | packages/eve-buzz-acp-adapter/src/publication-state.ts:40-52 | With no marker but a lock younger than twice the timeout it ends, after six looks, with that error, and the lock stays |
| ClosedTurn.PublishedIsRelayed | packages/eve-buzz-acp-adapter/src/publication-state.ts:30-41 | Before or after a failed create, a look that finds `.published` relays the success that was held back |
| ClosedTurn.UnknownIsRefused | packages/eve-buzz-acp-adapter/src/publication-state.ts:30-42 | Before or after a failed create, looks that find only `.unknown` end in that error |
| Utf8.DecodeExpandsAtMostThreefold | packages/eve-buzz-acp-adapter/src/publisher.ts:90-90 | Decoded text takes at most three times the bytes it was decoded from, ill-formed bytes included |
| Utf8.AsciiDecodesToItself | packages/eve-buzz-acp-adapter/src/publisher.ts:90-90 | ASCII bytes decode to themselves and keep their length |
| Utf8.DecodeInTwo | packages/eve-buzz-acp-adapter/src/publisher.ts:90-90 | Decoding two parts on their own gives the decoding of the whole if and only if the cut lies between two sequences, and more code points otherwise |
| Utf8Encoding.EncodedDecodesToItself | packages/eve-buzz-acp-adapter/src/publisher.ts:90-90 | For every text without surrogates: its UTF-8 encoding is well-formed and decodes to it |
| Utf8Encoding.DecodedEncodesToItselfIff | packages/eve-buzz-acp-adapter/src/publisher.ts:90-90 | Bytes are the encoding of their decoding if and only if they are well-formed |
| Utf8Encoding.PieceMeans | packages/eve-buzz-acp-adapter/src/publisher.ts:90-90 | For any bytes: a character whose encoding comes first is read as itself; where none does, the longest beginning of an encoding, or one byte, becomes one replacement character |
| PublisherText.EncodedOutputIsKept | packages/eve-buzz-acp-adapter/src/publisher.ts:87-91 | Chunks that encode texts, together at most 65536 bytes, leave exactly those texts in the buffer, and no overflow |
| Publisher.PublicationRun.Finish | packages/eve-buzz-acp-adapter/src/publisher.ts:70-75 | Only the first outcome is kept |
| Publisher.PublicationRun.OnStdout | packages/eve-buzz-acp-adapter/src/publisher.ts:87-91 | A chunk is cut to the room left before it is decoded, and the overflow flag is set exactly when it did not fit |
| Publisher.PublicationRun.OnStderr | packages/eve-buzz-acp-adapter/src/publisher.ts:92-95 | The same cap for stderr |
| Publisher.PublicationRun.OnEvent | packages/eve-buzz-acp-adapter/src/publisher.ts:76-120 | Each handler updates the object exactly as the event machine does |
| Publisher.OutcomeNeverChanges | packages/eve-buzz-acp-adapter/src/publisher.ts:70-75 | Once there is an outcome, no further events change it |
| Publisher.SettledByTheFirst | packages/eve-buzz-acp-adapter/src/publisher.ts:76-120 | For every order of events, the first error, close or timeout alone decides the outcome |
| Publisher.SettledIff | packages/eve-buzz-acp-adapter/src/publisher.ts:70-120 | A run is settled exactly when an error, a close or the timeout has happened, so the timer settles it at the latest |
| Publisher.OutcomeIsSound | packages/eve-buzz-acp-adapter/src/publisher.ts:96-143 | There is an outcome: delivered if and only if the CLI closed first with uncut output that is an object with accepted true and that 64-digit event id; not delivered if and only if it closed first with an uncut object with accepted false or failed before it started; unknown if and only if neither |
| HonestCli.OutcomeEnablesSettle | packages/eve-buzz-acp-adapter/src/proxy.ts:198-213 | With a CLI that accepts only what it posted and refuses only what it never posts, every outcome the publisher settles on is a step the lock protocol takes, to the commit, the release or the unknown mark |
| HonestCli.OutcomeStaysTrue | packages/eve-buzz-acp-adapter/src/proxy.ts:198-213 | And what the outcome claims stays true in every later state: delivered means posted for good, not delivered means never posted |
| JointRun.JointRunSound | packages/eve-buzz-acp-adapter/src/proxy.ts:182-213 | In every joint run of any number of publishers and the lock protocol: the protocol's part is a run of the protocol, a process stays at publishing exactly until its publisher settles and then stands where that outcome leads, and whatever any publisher ever settled on is true in every later state |
| JointRun.HearingMoves | packages/eve-buzz-acp-adapter/src/publisher.ts:70-120 | In such a run every event a publishing process hears either settles its publisher, and the process goes on to the commit, the release or the unknown mark with a claim that is so, or leaves the protocol as it is |
| JointRun.JointDeliveriesBounded | packages/eve-buzz-acp-adapter/src/proxy.ts:175-213 | The delivery bound holds of every joint run |
| Publisher.KeptTextIsBounded | packages/eve-buzz-acp-adapter/src/publisher.ts:87-95 | However the output is chunked and whatever its bytes, the kept text never exceeds three times the limit |
| Publisher.BuffersAreCaptures | packages/eve-buzz-acp-adapter/src/publisher.ts:87-95 | For every order of events, before and after an outcome, both buffers hold what the chunks of their stream leave under the cap |
| Publisher.CaptureIsDecodingIff | packages/eve-buzz-acp-adapter/src/publisher.ts:87-91 | For any bytes in any chunks: the text kept is the decoding of the bytes kept if and only if every kept part ends between two sequences; for uncut output that is the decoding of all output |
| Publisher.KeptIsPrefix | packages/eve-buzz-acp-adapter/src/publisher.ts:87-91 | The bytes kept are a prefix of the output: all of it, or, with the overflow flag set, a prefix whose text has reached the limit; more than 65536 bytes always set the flag |
| Publisher.WellFormedCaptureIsPrefix | packages/eve-buzz-acp-adapter/src/publisher.ts:87-91 | If every chunk is well-formed UTF-8, the buffer is the simple one: concatenate, keep the first 65536 bytes, decode; the flag is set exactly if more arrived |
| Publisher.AsciiCaptureIsPrefix | packages/eve-buzz-acp-adapter/src/publisher.ts:87-91 | For ASCII output, chunked in any way, the text kept is the first 65536 bytes themselves, and the flag says whether more arrived |
| Publisher.CuttingMattersBeyondAscii | packages/eve-buzz-acp-adapter/src/publisher.ts:90-90 | A witness for the other direction: one two-byte character in one chunk and in two gives different text |
| ShellQuote.QuoteReadsAsValue | apps/benchmarks/lib/native-authoring-setup.ts:104-106 | Wherever the shell reads outside quotes, a quoted value adds exactly the value to the current word and leaves quoting closed |
| ShellQuote.QuotedValueIsOneWord | apps/benchmarks/lib/native-authoring-setup.ts:104-106 | Every value, quoted, reads as one word equal to it |
| ShellQuote.QuotedValueAfterWords | apps/benchmarks/lib/native-authoring-setup.ts:93-93 | Appended after other words it is one further word |
| ShellQuote.QuotedValueInsideWord | apps/benchmarks/lib/native-authoring-setup.ts:31-38 | Glued to a word that has begun, it extends that word by exactly the value |
| ShellQuote.RunHandsOverCommand | apps/benchmarks/lib/native-authoring-setup.ts:91-98 | The outer shell passes any command unchanged to the inner one as the last of five words |
| ShellQuote.NestedQuotingIsUndone | apps/benchmarks/lib/native-authoring-setup.ts:91-106 | k nested run lines are undone by k shells |
| ShellQuote.SpecSurvivesBothShells | apps/benchmarks/lib/native-authoring-setup.ts:36-40 | Any package spec, quoted into the bootstrap command and quoted again by run, arrives as the value of its variable |
| RateLimit.WindowLimit | apps/templates/eve-chat-template/lib/rate-limit.ts:59-72 | For every order of calls, waits and expiries: a call passes exactly if fewer than `limit` calls of its window came before it, so the first `limit` pass, or all if there are fewer |
| RateLimit.SpanLimit | apps/templates/eve-chat-template/lib/rate-limit.ts:59-72 | In any span as long as a window at most twice the limit passes |
| RateLimit.CounterOutlivesWindow | apps/templates/eve-chat-template/lib/rate-limit.ts:63-67 | A counter never expires inside its own window, even if a caller dies between INCR and EXPIRE: it always equals the calls of the current window |
| RateLimit.ExpireEndsCounter | apps/templates/eve-chat-template/lib/rate-limit.ts:65-67 | The first caller's EXPIRE ends the counter exactly one window's length later |
| RateLimit.WithoutExpireItStays | apps/templates/eve-chat-template/lib/rate-limit.ts:63-67 | A counter whose EXPIRE was never sent is not ended by any wait |
| RateLimit.RetryAfterIsNextWindow | apps/templates/eve-chat-template/lib/rate-limit.ts:69-72 | A refused caller is sent away for 1 to windowSeconds seconds and lands exactly on the start of the next window |
| RateLimit.RateLimiter.Enforce | apps/templates/eve-chat-template/lib/rate-limit.ts:52-73 | A call passes exactly if fewer than `limit` calls were made in its window before it; without Redis nothing is limited or counted; EXPIRE is sent by the first caller only, whatever comes in between |
| BenchmarkResults.CaseIdsCover | apps/docs/lib/evals/results.ts:92-92 | A row's case ids are distinct and cover every result of the row |
| BenchmarkResults.AveragesRecombine | apps/docs/lib/evals/results.ts:174-187 | Weighting each case's average by its runs and adding up gives the row's average times all its runs |
| BenchmarkResults.RatesRecombine | apps/docs/lib/evals/results.ts:150-160 | A success rate times the number of cases is the sum of the cases' rates |
| BenchmarkResults.AverageLiesBetween | apps/docs/lib/evals/results.ts:174-187 | With non-negative run counts a weighted average lies between any bounds of its inputs |
| BenchmarkResults.RowAgreesWithItsCases | apps/docs/lib/evals/results.ts:75-130 | Every row of the aggregation agrees with its own case rows: durations recombine by runs, both success rates add up |
| BenchmarkResults.OneRowPerGroup | apps/docs/lib/evals/results.ts:74-130 | There is exactly one row for every group id, made of all the group's experiments |
| BenchmarkResults.OrderIsLexicographic | apps/docs/lib/evals/results.ts:131-136 | The comparator, with its infinities for missing values, is the lexicographic order by baseline rate, guided rate and date, missing last |
| BenchmarkResults.ComparatorChainsIff | apps/docs/lib/evals/results.ts:131-136 | It chains through a row exactly when that row's date is missing or can be parsed |
| BenchmarkResults.RowsAreSorted | apps/docs/lib/evals/results.ts:131-137 | With such dates the rows come out as a permutation in which no row stands before one it should follow |
| BenchmarkData.EveryRowTells | apps/docs/lib/evals/results.ts:73-137 | Every row, read against the data: each success rate times all expected runs is 100 times the passed runs of the complete results of the group's first experiment of that treatment, and none without one; name and harness are that of the baseline, or else the guided experiment; duration and cost are the means of the complete results; the date is one of theirs and none exceeds it; and the same per case, for rates, durations, tokens and tools, with the cases in ascending order |
| BenchmarkData.RowsCoverGroups | apps/docs/lib/evals/results.ts:74-137 | The result has exactly one row for every group that occurs |
| BenchmarkData.TiesKeepOrder | apps/docs/lib/evals/results.ts:131-137 | Rows that compare equal stand in the order in which their groups first appear |
| PaintFixtures.SmoothstepShape | apps/docs/scripts/eve-render/paint-fixtures.ts:117-120 | For any edges the step stays in [0, 1] and never falls |
| PaintFixtures.SmoothstepValues | apps/docs/scripts/eve-render/paint-fixtures.ts:117-120 | Between edges at least a millionth apart: 0 up to the first, 1 from the second on, symmetric about the middle, and flat at the ends |
| PaintFixtures.PaintedIsGreatest | apps/docs/scripts/eve-render/paint-fixtures.ts:112-112 | A finished cell is the greatest of its start and all the blobs' offers, and is one of them |
| PaintFixtures.GridInUnit | apps/docs/scripts/eve-render/paint-fixtures.ts:28-39 | After any pattern and any blobs every cell lies in [0, 1] |
| PaintFixtures.BlobsNeverLower | apps/docs/scripts/eve-render/paint-fixtures.ts:33-38 | Further blobs never lower a cell |
| PaintFixtures.BlobOrderDoesNotMatter | apps/docs/scripts/eve-render/paint-fixtures.ts:33-38 | The finished grid is the same for every order of the blobs |
| PaintFixtures.FartherIsFainter | apps/docs/scripts/eve-render/paint-fixtures.ts:105-114 | A blob of non-negative intensity offers a farther cell no more than a nearer one |
| PaintFixtures.BlobShape | apps/docs/scripts/eve-render/paint-fixtures.ts:101-112 | A blob paints its centre with its intensity, cut to [0, 1]; with positive intensity it paints exactly the cells nearer than its radius times the longer side |
| PaintFixtures.DistanceIsBetweenCentres | apps/docs/scripts/eve-render/paint-fixtures.ts:102-109 | Distances are taken between cell centres, by columns and rows |
| PaintFixtures.RampShape | apps/docs/scripts/eve-render/paint-fixtures.ts:80-85 | The ramp rises from 0 in the first column to 1 in the last by equal steps |
| PaintFixtures.RampOfOneColumn | apps/docs/scripts/eve-render/paint-fixtures.ts:82-82 | A ramp of one column is full |
| PaintFixtures.StripesAlternate | apps/docs/scripts/eve-render/paint-fixtures.ts:86-91 | Stripes alternate from column to column, the first one full |
| PaintFixtures.PatternValues | apps/docs/scripts/eve-render/paint-fixtures.ts:28-32 | Which pattern name gives which values, and that without one every cell starts at 0 |
| PaintFixtures.FillPaintPattern | apps/docs/scripts/eve-render/paint-fixtures.ts:75-93 | In place, every cell becomes the pattern's value at its column; an unknown pattern is an error and changes nothing |
| PaintFixtures.FillRamp | apps/docs/scripts/eve-render/paint-fixtures.ts:80-85 | The nested loops reach every cell, with the ramp of its column |
| PaintFixtures.FillStripes | apps/docs/scripts/eve-render/paint-fixtures.ts:86-91 | The nested loops reach every cell, with the stripe of its column |
| PaintFixtures.AddPaintBlob | apps/docs/scripts/eve-render/paint-fixtures.ts:95-115 | In place, every cell becomes the greater of itself and the blob's offer to it; a radius that is not positive is an error and changes nothing |
| PaintFixtures.BuildPaintSeed | apps/docs/scripts/eve-render/paint-fixtures.ts:28-39 | The grid built is the one those properties are about; which error stops the build is exact |
| PasswordAuth.TokenParts | apps/templates/eve-chat-template/lib/password-auth.ts:22-35 | A token splits at its dots into version, expiry and signature: neither digits nor the base64url alphabet hold a dot |
| PasswordAuth.TokenVerifiesUntilExpiry | apps/templates/eve-chat-template/lib/password-auth.ts:22-51 | A token made at one time verifies at another exactly while floor(now/1000) < floor(made/1000) + 2592000, as long as that expiry is a safe integer |
| PasswordAuth.OtherPasswordRefuses | apps/templates/eve-chat-template/lib/password-auth.ts:48-50 | Under a password that signs the payload differently the token is refused |
| PasswordAuth.VerifiesIff | apps/templates/eve-chat-template/lib/password-auth.ts:30-51 | Any text verifies if and only if it is "v1", a numeral of a safe integer that lies ahead, and the signature of version and number, joined by dots |
| PasswordAuth.SessionIff | apps/templates/eve-chat-template/lib/password-auth.ts:53-66 | A cookie header opens a session if and only if the value of its first cookie of the name verifies, for values without percent signs |
| PasswordAuth.HeaderSessionIsTokenSession | apps/templates/eve-chat-template/lib/password-auth.ts:53-66 | The same holds when the token is read back from any cookie header in which it is the first cookie of its name, with any blanks around it and any cookies before and after |

## Left out

The adapter

- Process spawning, stdio streams, JSON text and line reading: messages are values and child processes are event sources.
- SHA-256 is taken as free of collisions: the key of a publication is the text that the code hashes.
- File failures other than "already exists" and "not found", and `mkdir` of the state directory.
- The rename of a lock onto an existing marker is taken as the replacement that POSIX rename makes.
- All adapters on one directory are taken to use the same publish timeout, and file times and `Date.now()` the same clock.
- The CLI is taken as honest, in the sense that HonestCli defines: it accepts only what it posted and refuses only what it never posts. In a joint run this is asked of each event when it is heard.
- The lock protocol lets the publisher say "unknown" at any time, so the timer's exact moment appears only as the deadline that timely runs keep.
- Write errors on eve's stdin, the end of either stream and the shutdown of the child (proxy.ts:67-81, 123-131, 231-256).
- JSON messages whose `method` or `error` is null: a member is either missing or has a value of its type.
- The wording of the added instruction past its title line is a parameter: no result depends on it.
- The error texts: the reason inside a publication error is arbitrary text, and so is the stderr detail of an unknown outcome.
- A second `error` event of the CLI, for which the code has no listener any more.
- Ids that are fractions or beyond the range in which JavaScript prints integers digit by digit.
- Params and results are records of the members the proxy looks at plus one opaque rest; the fixed-model result is one opaque value.
- The patterns of the route parser are line shapes. Lines end at line feeds; blocks that hold a carriage return, U+2028 or U+2029, where JavaScript's patterns also end a line, are not modelled: the type of a line excludes them.
- Event labels, triggers and channel names with a line feed in them: the type of these fields is a single line. Scopes and bodies may run over several lines.
- `publicationArguments`, `promptText`, the author gate, the child environment and the CLI options: single-branch checks and argument handling.

The other pieces

- Redis: connection handling; the clock read and INCR are one step, and time is counted in whole seconds of one clock.
- A `windowSeconds` that is zero, negative or fractional, and one Redis store shared by limiters with different window lengths.
- The sandbox steps of `createNativeAuthoringSetup` other than the quoting and `run`; shell syntax beyond words, quotes and backslashes (a line that uses any is reported as unreadable).
- Floating point: averages, rates and grid cells are real numbers; the 32-bit rounding of the grid is not modelled and `Math.hypot` is a parameter.
- `Array.prototype.sort` on ids and dates compares UTF-16 units; the model compares code points, which differs only beyond the basic plane.
- What `sort` does with an inconsistent comparator is left to the engine; the model's insertion order then is one possibility.
- `Date.parse` is a parameter with three kinds of result.
- Parsing of blob texts and environment variables, `readPaintStroke` and `paintOptions`; blobs are four finite numbers.
- HMAC is a parameter with base64url output; comparing SHA-256 hashes in constant time is taken as comparing the texts.
- Expiry numerals other than plain decimals: `Number` also reads exponents, hexadecimal and blanks, which no token made by the code contains.
- Percent-encoded cookie values: a token that the code produced contains no percent sign.
- `verifyChatPassword` and `hasSameOriginRequest`.
