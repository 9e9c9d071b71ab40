# Distray, verified

Distray runs a command-line program once per frame on a set of machines. A
*controller* holds the queue of frames, *workers* copy files, run the program and
send files back, and an optional *proxy* joins workers to controllers that cannot
reach each other. This project models the five parts that make that work and proves
what they guarantee together. `dafny verify dfyconfig.toml` checks all of it.

| file | what it holds |
|---|---|
| `Template.dfy`, `Decimal.dfy`, `Twice.dfy` | `%d` and `%0Nd` in filenames: the scanner, the substitution, what is local, substituting twice |
| `Locality.dfy` | local pathnames never lead out of the directory they are used in |
| `FrameRange.dfy`, `Specification.dfy` | the frame range and its 32-bit loop; the grammar of a frame specification, without a parser |
| `Framing.dfy`, `Stream.dfy` | length-prefixed messages, and their way over a byte stream in any split into sends and receives |
| `Outgoing.dfy`, `Incoming.dfy` | the two message buffers, in place |
| `Protocol.dfy` | one connection as a straight-line script of requests |
| `Remote.dfy` | the controller's per-worker state machine, in place, refining that script |
| `Serving.dfy` | the worker's request loop |
| `Connection.dfy` | state machine, byte streams and worker loop run together |
| `Scheduler.dfy` | the controller's event loop on values, and the invariant of every event |
| `Walks.dfy` | the event loop in its smallest steps, for the states within a round |
| `Guarantees.dfy`, `Rounds.dfy`, `Campaign.dfy` | what holds in every state, in each round, and from a frame range to the files |
| `Work.dfy`, `Delivery.dfy` | what is done for a frame, spelled out from the parameters, and what workers are asked in the end |
| `Signs.dfy` | what the sign of a frame decides about its script |
| `Staleness.dfy` | the slot index that outlives its worker |
| `Network.dfy` | the event loop together with any number of honest workers, direct or behind proxies, and the bytes in flight |
| `OneWorker.dfy` | that network with a single worker on a machine where everything works |
| `Driving.dfy`, `Finishing.dfy` | its requests answered one after the other, and a way to the normal exit from every state |
| `Unbroken.dfy`, `Refusals.dfy`, `Pendings.dfy` | such a way on which no connection is lost, what makes the loss of one necessary, and so exactly when there is one |
| `Sentinel.dfy` | frame -1, and exactly when it can be lost |
| `PlainOutputs.dfy` | copies out without a frame number, and exactly when they are made |
| `Silence.dfy` | workers that close their connection, and exactly when their frame comes back |
| `Control.dfy` | the event loop in place over a list of `RemoteWorker` objects, refining `Scheduler` |
| `Relay.dfy`, `Pairing.dfy` | the proxy on values, its invariant, and its connections over time |
| `Descriptors.dfy` | what goes in and out of each descriptor of the proxy, and what each connection went through |
| `Polling.dfy` | what the proxy polls, and what it does about each descriptor |
| `Emptiness.dfy` | connections that a failed accept leaves without a side |
| `ProxyServer.dfy` | the proxy in place over a list of connection objects, refining `Relay` |
| `RelayedLink.dfy` | a link through any connection of any run of the proxy refines a direct one |
| `Codecs.dfy` | a message library with the properties assumed of protobuf exists |
| `Totals.dfy`, `Wrappers.dfy` | sums over sequences; options |

Two layers run through the project. Modules of functions describe the components as
state machines over events (what `poll`, `recv`, `send`, `accept` and the disk do is
part of the event), and the theorems are about all sequences of events. Where the
source updates objects in place, a class does the same and each of its methods is
proved to take the step of the state machine. Histories (`done`, `given`, `served`,
`fromWorker`, ...) are kept beside the state so that the theorems can speak of them.

Results worth knowing before reading the code:

* No frame is lost and none has two owners, for every interleaving of connections,
  short reads and writes, failures and deaths. A frame is handed out once for its
  place in the list and once more per death of a connection that had it last:
  execution is at least once.
* What a worker is asked is spelled out, not read off the script: which files, which
  program with which arguments (`FrameScriptIsWork`, `AllWorkDone`), and that the
  request served is the one issued (`ServesWhatWasIssued`).
* What is done for a frame depends on its sign (`CopiesBySign`, `DocumentedExactly`).
  A negative frame, which the frame range accepts, has the copies without a frame
  number and the program with its arguments unsubstituted (`NegativeScript`); that is
  what "processed" means for it.
* Frame number -1 is the exception. The code uses it for "no frame", so a worker
  that dies with it takes it along. `KillKeepsOwners` is exact about one death, and
  `CompleteExactly` about the frame lists for which a normal exit means that all
  frames are processed, with honest workers and requests sent before they are
  answered. The specification `1,-1` gives a list that loses it (`SpecifiedAndLost`).
* After a failed receive removed a worker, the other flags of the same slot still
  use its index. `StaleScanExactly` and `StaleRunExactly` say exactly when that index
  is past the end of the list, `BystandersExactly` when a scan removes workers for
  which nothing was polled. Both happen, with one and two workers
  (`StaleIndexHappens`, `BystanderHappens`).
* An `accept` that fails in the proxy is not noticed. `EntryExactly` says when that
  leaves a connection with neither side; as long as accepts succeed there is none
  (`NoReachableIsEmpty`), and matching stays maximal either way.
* A worker that closes its connection returns its frame only within a message whose
  header has arrived, or with a hang-up (`ReturnsExactly`). Between messages the
  controller does not notice: the frame stays with that worker and the loop never
  exits (`NeverFinishes`, `FrameIsHeld`). Nor does it exit while there is a worker
  whose `accept` failed (`NeverWelcomed`).
* A local pathname, with whatever number in it, never leads above the directory it is
  used in (`EverySubstitutionStaysBelow`, `WorkersStayBelow`). The test refuses more
  than that (`RefusesMore`).
* A frame specification is accepted exactly if it is one, two or three numbers
  (`ParseExactly`); a number beyond an int is cut to its low 32 bits, as the code
  does.
* A program that is killed by a signal counts as a success, since only the exit
  status is looked at (`AcceptedExactly`).
* The controller with honest workers, direct or behind proxies, never makes a protocol
  exit (`NoProtocolExit`). From every state it can still finish (`CanAlwaysFinish`),
  with any number of proxies. It can do so without losing a connection exactly if no
  answer is pending that it will refuse, no connection has been closed over a request
  that still needs it, and there are no proxies or no files to set up
  (`UndisturbedExactly`).
* Every round begins with a pending connection to each proxy. In the last one each is
  lost, or welcomed with nothing to set up (`LastRound`); so with files to set up every
  proxy costs a connection in the end (`ProxiesCost`).
* With a zero step the frame loop does not end unless the range is empty
  (`EndsExactly`); its variable overflows exactly if the value it stops at does not
  fit (`NoOverflowExactly`).

Where documentation and code differ the code is followed. The source's README
promises copies out without a frame number at the end of the process (step 3). The
code makes them once for every negative frame, as part of that frame, and at no other
time: after a normal exit they are there exactly if some frame is negative
(`WrittenExactly`, `SomethingWrittenExactly`, `CopiedExactly`), so not for the
specification `1` (`LogIsMissed`). The scanner also takes `%0d`, whose width is zero,
although `N` is documented as positive.

## Model

| member | source | states |
|---|---|---|
| Template.LeftmostMatch | src/util.cpp:84-125 | The scanner finds the leftmost substring of the form `%d` or `%0[0-9]*d` with its extent and width, and fails exactly if the C string (up to a NUL) holds none; a string has a parameter iff one occurs in it |
| Template.ScanForParameter | src/util.cpp:89-119 | The pointer loop, which jumps to the next `%` and resumes after the digits of a failed match, never skips a parameter: it agrees with the position-by-position search |
| Template.SubstituteIdentity | src/util.cpp:127-148 | Substitution changes nothing iff the value is negative or there is no parameter |
| Twice.TwiceExactly | src/util.cpp:127-148 | Substituting twice is substituting once iff the value is negative or the template has, outside of its parameters, no `%` that is followed by a zero, given or printed as padding or as the number 0, and then by digits and parameters up to a `d`; for other values that is whether the first substitution leaves a parameter |
| Twice.TwiceDiffers | src/util.cpp:127-148 | It may leave one: `%0%dd` with 5 becomes `%05d`, and that `00005` |
| Twice.ValueMatters | src/util.cpp:127-148 | Whether it does depends on the value: `%%02dd` gains a parameter with 5 and not with 55 |
| Template.Injective | src/util.cpp:127-148 | Two frames get the same name from a template iff they are equal or the template has no parameter, for any number and mix of placeholders and widths |
| Template.SubstituteKeepsDots | src/util.cpp:127-161 | Substitution neither creates nor destroys two consecutive dots |
| Template.LocalitySurvives | src/util.cpp:127-162 | A template is local iff each of its substitutions is |
| Locality.LocalExactly | src/util.cpp:150-162 | A pathname is refused iff it begins with a slash or is of the form a + `..` + b |
| Locality.LocalStaysBelow | src/util.cpp:150-162 | Split at its slashes, a local pathname does not begin at the root, and no walk along its components gets above where it began |
| Locality.EverySubstitutionStaysBelow | src/util.cpp:127-162 | Neither does any substitution of a local template |
| Locality.UpwardIsRefused | src/util.cpp:150-162 | `../x` is refused, and leads above |
| Locality.RefusesMore | src/util.cpp:150-162 | `a..b` is refused although it stays below |
| Decimal.ValueOfRender | src/util.cpp:133-140 | The rendered digits, zero padding included, read back as the number |
| Decimal.LengthMonotone | src/util.cpp:133-140 | A larger number is never rendered shorter |
| Decimal.ShowsDecimal | src/util.cpp:133-140 | The digits are the usual ones, the most significant first, zeros in front |
| FrameRange.InRangeExactly | src/Frames.hpp:16-20 | The k-th value is past the end iff k is at least the number of frames |
| FrameRange.EndsExactly | src/Frames.cpp:60-68 | The loop over the frames ends iff the step is nonzero or the first value is already past the end |
| FrameRange.Monotone | src/Frames.cpp:60-68 | Frames are strictly ordered in the direction of the step |
| FrameRange.Distinct | src/Frames.cpp:60-68 | No frame occurs twice |
| FrameRange.Membership | src/Frames.cpp:60-68 | The frames are exactly the values first + k*step that are not past the end |
| FrameRange.DefaultStep | src/Frames.cpp:34-45 | Without a step the range is the whole inclusive interval, from first to last in either direction |
| FrameRange.FramesExactly | src/Frames.hpp:16-20 | Upward the frames are the numbers from first to last a multiple of the step from first, downward likewise; without a step there are none, and the loop ends iff first is below last |
| FrameRange.NoOverflowExactly | src/Frames.cpp:63-65 | No value of the loop variable leaves the int range iff the one it stops at does not |
| FrameRange.ParseIntShown | src/Frames.cpp:8-22 | Wherever an int is written in decimal, it is read back as itself and the position moves to its end |
| FrameRange.ParseOne | src/Frames.cpp:41-45 | One number is the range of that frame alone |
| FrameRange.ParseTwo | src/Frames.cpp:30-40 | Two numbers are the range between them, in either direction, for all ints |
| FrameRange.ParseThree | src/Frames.cpp:28-37 | Three numbers are first, last and step, for all ints |
| FrameRange.ParseExactly | src/Frames.cpp:8-58 | Accepted are exactly the strings that up to their first NUL are one, two or three numbers (spaces, a sign or none, digits) with single commas between them, each as the range these numbers denote: as a long if they fit or the limit they are beyond, cut to the low 32 bits |
| FrameRange.RefusedBehind | src/Frames.cpp:51-55 | What does not end in a digit is refused, such as a specification with a letter or a comma behind it |
| FrameRange.Frames.constructor | src/Frames.hpp:7-10 | The fields are the given first, last and step |
| FrameRange.Frames.ParseSpec | src/Frames.cpp:24-58 | Succeeds iff the string is a specification by that grammar, and then sets the range it denotes |
| FrameRange.Frames.IsDone | src/Frames.hpp:16-20 | The end test follows the sign of the step |
| FrameRange.Frames.GetAll | src/Frames.cpp:60-68 | The loop ends without overflow and yields exactly first + k*step up to last, in order |
| Framing.HeaderRoundTrip | src/util.cpp:18-53 | A size below 2^32 survives its conversion to network order and back |
| Framing.NetworkOrder | src/util.cpp:18-53 | The size is the four bytes with the most significant first |
| Framing.PrefixWants | src/IncomingBuffer.hpp:54-78 | Of a partly received message the receiver never asks for more than is missing, and it is complete exactly when nothing is |
| Framing.ReceivePart | src/IncomingBuffer.hpp:60-107 | Receiving part of a message takes bytes of that message only and makes progress; the only other outcome is the refusal of a message above 10 MiB |
| Stream.RoundTrip | src/OutgoingBuffer.hpp:32-63 | Any sequence of payloads up to 10 MiB through any split into sends and receives: the receiver never fails, has delivered a prefix, and all of it once no byte is left |
| Stream.RecvMoves | src/IncomingBuffer.hpp:60-107 | No receive takes a byte of the next message |
| Stream.NeverStuck | src/IncomingBuffer.hpp:60-107 | Until all messages are delivered some event moves bytes closer to the receiver |
| Stream.RefusedExactly | src/IncomingBuffer.hpp:87-93 | A message is refused iff it is above the maximum size |
| Outgoing.OutgoingBuffer.constructor | src/OutgoingBuffer.hpp:22-26 | A new buffer has nothing to send |
| Outgoing.OutgoingBuffer.SetMessage | src/OutgoingBuffer.hpp:32-42 | What is left to send is the framed message |
| Outgoing.OutgoingBuffer.NeedSend | src/OutgoingBuffer.hpp:44-47 | True iff bytes are left |
| Outgoing.OutgoingBuffer.Send | src/OutgoingBuffer.hpp:49-63 | The bytes that went out followed by those left are the bytes there were; fails only if something was left and the socket failed |
| Incoming.IncomingBuffer.constructor | src/IncomingBuffer.hpp:32-36 | A new buffer has received nothing |
| Incoming.IncomingBuffer.Reset | src/IncomingBuffer.hpp:47-52 | The next message starts from nothing, in the same memory |
| Incoming.IncomingBuffer.NeedReceive | src/IncomingBuffer.hpp:54-58 | True iff the message is not complete |
| Incoming.IncomingBuffer.GetMessage | src/IncomingBuffer.hpp:42-45 | The memory holds exactly the payload received, nothing left over from a longer message before |
| Incoming.IncomingBuffer.Receive | src/IncomingBuffer.hpp:60-107 | Header and body phases in one reused, growing memory behave as the byte-stream receiver: end of file fails in a body and counts as nothing in a header |
| Protocol.SubstituteAll | src/RemoteWorker.cpp:75-77 | Every argument is the substitution of its template, in order |
| Protocol.ReceiveKeeps | src/RemoteWorker.hpp:113-126 | Whatever bytes arrive, a worker stays on the script of its frames, and at most one exchange is added |
| Protocol.RunFrameKeeps | src/RemoteWorker.hpp:137-149 | A worker given a frame is not idle afterwards, and the frame's script is what it has left to do |
| Protocol.AssignedIsProcessed | src/RemoteWorker.cpp:47-108 | Every frame a worker was given has had its whole script answered with success, except the last one while it is busy |
| Remote.RemoteWorker.constructor | src/RemoteWorker.hpp:72-77 | A new worker has sent nothing and has neither frame nor proxy |
| Remote.RemoteWorker.SendRequest | src/RemoteWorker.hpp:161-165 | The framed request replaces what was to be sent, and the incoming message starts anew |
| Remote.RemoteWorker.ReceiveResponse | src/RemoteWorker.hpp:167-182 | Exits exactly on an undecodable message or another type than expected |
| Remote.RemoteWorker.CopyFileIn | src/RemoteWorker.cpp:135-160 | One turn either sends the first remaining in-copy of the script, the request holding its substituted destination and what was read from its substituted source, or skips an entry that is not part of it, and comes closer to the next request |
| Remote.RemoteWorker.CopyFileOut | src/RemoteWorker.cpp:162-181 | The same for out-copies, the request holding the substituted source |
| Remote.RemoteWorker.HandleCopyFileOutResponse | src/RemoteWorker.cpp:183-197 | A successful response is written under its substituted name, anything else exits |
| Remote.RemoteWorker.TurnSending | src/RemoteWorker.cpp:8-98 | A turn in a sending state issues the next request of the script or moves on without changing what is left of it |
| Remote.RemoteWorker.SendExecute | src/RemoteWorker.cpp:70-80 | The request sent holds the executable and as many arguments as there are, the k-th being the k-th template substituted for this frame |
| Remote.RemoteWorker.ReceiveWelcome | src/RemoteWorker.cpp:17-28 | A welcome ends the pending state of a proxy connection and the setup copies are next |
| Remote.RemoteWorker.ReceiveCopyIn | src/RemoteWorker.cpp:35-68 | An acknowledged copy is logged and the rest of its list is next; a failed one exits |
| Remote.RemoteWorker.ReceiveExecute | src/RemoteWorker.cpp:82-93 | Status zero is logged and the out-copies are next; any other status exits |
| Remote.RemoteWorker.ReceiveCopyOut | src/RemoteWorker.cpp:100-108 | A fetched file is written and logged and the rest of the list is next |
| Remote.RemoteWorker.TurnReceiving | src/RemoteWorker.cpp:17-108 | A complete message is matched against the request that is pending; an idle worker exits |
| Remote.RemoteWorker.Continue | src/RemoteWorker.cpp:126-132 | The loop of `dispatch` ends, with the first remaining request sent, or idle if none is left |
| Remote.RemoteWorker.Dispatch | src/RemoteWorker.cpp:4-133 | The machine with its index and its two skip-filtered lists takes the step of the straight-line script; the unimplemented states are never entered |
| Remote.RemoteWorker.Start | src/RemoteWorker.hpp:128-131 | A started worker awaits the answer to its greeting |
| Remote.RemoteWorker.SetProxyIndex | src/RemoteWorker.hpp:89-92 | Only the proxy index changes |
| Remote.RemoteWorker.IsIdle | src/RemoteWorker.hpp:133-135 | Idle iff no request of the script is left |
| Remote.RemoteWorker.FillPollfd | src/RemoteWorker.hpp:99-106 | Sending is asked for iff bytes are left to send, receiving iff the message is not complete |
| Remote.RemoteWorker.RunFrame | src/RemoteWorker.hpp:137-149 | Exits on a busy worker; otherwise the frame's script has begun |
| Remote.RemoteWorker.Receive | src/RemoteWorker.hpp:113-126 | Bytes, errors and end of file have the effect they have on the script, message by message |
| Remote.RemoteWorker.Send | src/RemoteWorker.hpp:108-111 | Bytes go out in order and nothing else changes |
| Connection.AcceptedExactly | src/worker.cpp:14-131 | The controller accepts the worker's answer iff the pathname is local and no executable is overwritten and the content sent can be written; the executable is local and the low byte of its exit code for these arguments is zero or it was killed by a signal; or the file can be read here and written there; what is written is what was read |
| Serving.ServeLoop | src/worker.cpp:147-200 | Every request of the stream is answered in turn, up to one that cannot be decoded or the end; read as messages with a size in front, what is sent is exactly the answers, the k-th to the k-th request, with nothing left over; the exit code is the one of how the stream ends |
| Serving.ServesAll | src/worker.cpp:147-200 | On a stream of whole requests the worker serves every one and ends with code 0 |
| Serving.RepliesAreRead | src/util.cpp:18-32 | A reader of sizes and payloads gets from the replies exactly the responses, in order |
| Serving.EndsExactly | src/worker.cpp:150-162 | Behind whole requests the worker ends with code 0 iff nothing follows, or a size and nothing more, or a size of zero; within a size or a payload, or on what is no request, with -1 |
| Connection.ProtocolSafety | src/RemoteWorker.hpp:161-182 | In no run of both ends is a message undecodable or of the wrong type, or an idle worker dispatched; the worker never gives up |
| Connection.NeverStuck | src/RemoteWorker.hpp:108-126 | A link that awaits a response always has an event that brings it nearer, or it ends for a file, a program or a size |
| Connection.ServedOnScript | src/worker.cpp:147-198 | In every run the worker has answered a prefix of the script of the frames given, at most one request ahead of the controller, and all of it when the connection is idle |
| Connection.NoOverwrite | src/RemoteWorker.hpp:161-165 | A request is put into the outgoing buffer only when all of the one before has been sent |
| Connection.WorkerSeesLocalPaths | src/Parameters.cpp:145-161 | With accepted arguments no request ever names a pathname the worker would refuse as not local |
| Delivery.ServesWhatWasIssued | src/RemoteWorker.hpp:161-165 | In every run the next request a worker answers is the one that was put into the outgoing buffer, with its content or arguments |
| Delivery.IssuedOutgoes | src/RemoteWorker.hpp:161-165 | That is so of every request just issued |
| Delivery.OnlyGivenAreRun | src/RemoteWorker.cpp:70-80 | Every program a worker was asked to run has the executable and the arguments substituted for a frame it was given |
| Delivery.ProcessedWasRun | src/RemoteWorker.cpp:70-80 | For every frame processed its worker was asked to run that program with those arguments |
| Delivery.WorkersStayBelow | src/Parameters.cpp:145-161 | With accepted arguments no request leads a worker out of the directory it runs in, whatever the frames |
| Work.BelongsExactly | src/Parameters.hpp:37-40 | A copy is one for frames that are not negative iff its source or its destination holds a parameter |
| Work.FrameScriptIsWork | src/RemoteWorker.cpp:47-181 | What is asked for a frame: the in-copies that belong to it, in list order and under their substituted names, the program once with every argument substituted, and the out-copies that belong to it likewise; nothing else |
| Work.SetupIsWork | src/RemoteWorker.cpp:8-45 | What is asked first: the greeting and the in-copies of the setup |
| Work.AllWorkDone | src/controller.cpp:78-190 | After a normal exit all of that has been done for every frame but -1 over one connection, and answered with success |
| Signs.CopiesBySign | src/RemoteWorker.cpp:135-181 | The copies of a frame are, in order and once each, those with a parameter if it is not negative and those without if it is |
| Signs.NegativeScript | src/RemoteWorker.cpp:70-181 | For a negative frame the setup copies are made again, the program runs with its arguments as given, and the out-copies without a parameter are fetched, no name being replaced |
| Signs.DocumentedExactly | README.md:100-105 | A frame has the copies with a frame number around its run, as documented, iff it is not negative or there are no copies |
| Codecs.LibraryIsFaithful | src/util.cpp:18-26 | An encoding of all requests and responses with the assumed round trip exists |
| Scheduler.FirstIdle | src/controller.cpp:11-20 | The idle worker found is the first one, and none is found iff all are busy |
| Scheduler.KillKeeps | src/controller.cpp:33-50 | Removing a worker loses no frame and keeps the balance of frames queued, given and requeued, however frames are weighed |
| Scheduler.ScanKeeps | src/controller.cpp:130-181 | So does the scan over all slots, whatever the flags and sockets do |
| Scheduler.HandOutKeeps | src/controller.cpp:183-189 | So does handing out frames |
| Scheduler.ConnectKeeps | src/controller.cpp:80-108 | So does connecting to proxies; no two workers ever carry the same proxy index |
| Scheduler.RunKeeps | src/controller.cpp:78-190 | So does every run of the main loop |
| Walks.ReachedInv | src/controller.cpp:78-190 | So does every state within a round, between any two steps |
| Walks.RunReached | src/controller.cpp:78-190 | The rounds of the main loop are made of those steps, so their states are among those |
| Guarantees.Completeness | src/controller.cpp:78-190 | If the main loop exits normally every frame other than -1 has been processed over one connection, from its in-copies to its out-copies |
| Guarantees.OutputsWritten | src/RemoteWorker.cpp:183-197 | Over the connection that processed a frame each of its outputs was written under its substituted name |
| Guarantees.EmittedIsPrefix | src/RemoteWorker.cpp:4-181 | In every state the requests of every connection, dead or alive, are a prefix of: greeting, in-copies without parameter, and per given frame its in-copies, one run and its out-copies; an idle one has sent all |
| Guarantees.SingleOwner | src/controller.cpp:33-50 | Across the queue and the live workers each frame occurs at most once, in every reachable state, also within a round |
| Guarantees.OneOwnerMeans | src/controller.cpp:33-50 | A frame with one owner is not on two live workers, nor queued while on one |
| Guarantees.NoOwner | src/controller.cpp:183-189 | In every reachable state what is not in the list of frames has no owner and was never handed out, to workers dead or alive |
| Guarantees.HandedOutExactly | src/controller.cpp:183-189 | In every reachable state the times a frame was handed out and its places in the queue make up its places in the list and the deaths of connections that had it last |
| Guarantees.WorkLaw | src/controller.cpp:131-189 | In every reachable state exchanges made, to be made and lost with the dead equal the setups of all connections plus the work of all frames and of the requeued ones |
| Guarantees.ExactWork | src/controller.cpp:131-189 | Without deaths the exchanges of a finished run are workers * (1 + setup copies) + frames * (in-copies + 1 + out-copies) |
| Rounds.PendingIsFresh | src/RemoteWorker.cpp:23-24 | A worker that carries a proxy index awaits its welcome and has no frame |
| Rounds.ProxiesPending | src/controller.cpp:80-108 | After the connect phase of every round of every run each proxy has exactly one pending connection |
| Rounds.ScanMeetsPolled | src/controller.cpp:130-133 | Going backward, every slot is looked at with the worker that was polled, whatever was removed before |
| Staleness.ResetsExactly | src/controller.cpp:151-155 | A receive finds the connection reset iff the socket says so or it ends within a payload |
| Staleness.SlotExactly | src/controller.cpp:151-180 | A slot uses an index past the end iff it is reset, has a further flag and is the last; otherwise it removes one worker for the reset and one for the hang-up |
| Staleness.ErrorsReturnExactly | src/controller.cpp:151-174 | The main loop returns an error iff a receive fails without a reset, or a send fails that had something to send |
| Staleness.StaleScanExactly | src/controller.cpp:130-181 | A scan uses an index past the end iff it gets to a slot that is reset, has a further flag, and above which all polled workers were removed |
| Staleness.StaleRunExactly | src/controller.cpp:78-190 | A run does so iff it enters a round with such a slot |
| Staleness.StaleIndexHappens | src/controller.cpp:151-180 | It happens for all frames and parameters without proxies: one worker connects and its connection breaks |
| Staleness.BystanderExactly | src/controller.cpp:151-180 | A slot takes the next worker along iff it is reset and hung up |
| Staleness.BystandersExactly | src/controller.cpp:130-181 | A scan removes one worker per slot that ended and one more per slot that was both reset and hung up |
| Staleness.BystanderHappens | src/controller.cpp:151-180 | Two workers connect, one connection breaks, and both are removed though nothing was polled for the other |
| Rounds.HandOutServes | src/controller.cpp:183-189 | The first frames go to the idle workers in order and one each, until no frame or no idle worker is left; a busy worker is never given one |
| Rounds.KillKeepsOwners | src/controller.cpp:39-46 | A removal keeps the owners of all frames iff the worker had not been given frame -1 |
| Network.NoProtocolExit | src/controller.cpp:78-190 | The controller with any number of honest workers, each connected directly or through a connection of a proxy, whatever breaks, never exits for an undecodable message, a wrong type, an idle worker dispatched or a busy one given a frame, and no worker gives up |
| Network.ActKeeps | src/proxy.cpp:110-141 | Whatever a worker or a proxy between it and the controller does, the worker does not give up and the connection stays in order |
| Network.NoOverwrite | src/RemoteWorker.hpp:161-165 | In every round of every run an outgoing buffer is filled with the next request, by an answer or by a frame handed out, only when all of the one before has been sent |
| Network.RunIsRun | src/controller.cpp:78-190 | Every run of the network is one of the event loop, so all that holds for the latter holds here |
| OneWorker.OneExchange | src/RemoteWorker.hpp:108-126 | Without proxies and with one worker a pending request is sent, taken, answered and received in five events, and the next one is in the buffer |
| Driving.MovesWell | src/proxy.cpp:110-141 | What is on its way through a proxy gets nearer to its end by a move the proxy can make, and the connection looks the same from both ends |
| Driving.GoesAhead | src/RemoteWorker.hpp:108-126 | While a connection awaits an answer that will be accepted, some event brings it nearer and leaves it so |
| Driving.DrivesAll | src/controller.cpp:78-190 | With any number of workers, direct or behind proxies: from a state in which nothing will be refused events lead to one with no frame left and nobody busy but pending and closed connections, and none is lost |
| Finishing.CanAlwaysFinish | src/controller.cpp:78-190 | From every reachable state of the running loop, with any number of proxies, there are events after which it exits normally |
| Unbroken.CanFinishUnbroken | src/controller.cpp:78-190 | From every reachable state there are events to the normal exit that lose no connection, the outstanding requests being answered where they are, if no answer is pending that will be refused, no connection has been closed over a request that still needs it, and there are no proxies or no files to set up |
| Refusals.LosesConnection | src/RemoteWorker.cpp:35-108 | With an answer pending that will be refused, or a connection closed over a request that still needs it, every run that exits normally has lost a connection on the way, whatever the proxies |
| Pendings.LastRound | src/controller.cpp:79-190 | In the last round of a normal exit as many connections as there are proxies are lost or have just been welcomed, were given no frame and had nothing to set up; with files to set up all of them are lost |
| Refusals.ProxiesCost | src/controller.cpp:78-190 | With files to set up every run from a running loop to a normal exit loses at least a connection for every proxy |
| Refusals.UndisturbedExactly | src/controller.cpp:78-190 | With any number of proxies the controller can finish without losing a connection iff no answer is pending that it will refuse, no connection has been closed over a request that still needs it, and there are no proxies or no files to set up |
| Sentinel.LosingRun | src/controller.cpp:39-46 | Over any list with frame -1 and otherwise non-negative frames some run with honest workers exits normally although frame -1 was never processed |
| Sentinel.CompleteExactly | src/controller.cpp:39-190 | With honest workers and a faithful message library a normal exit means that all frames are processed, whatever the parameters and events, iff the list has no frame -1 or has another negative frame, which asks for the same work |
| Sentinel.SpecifiedAndLost | src/Frames.cpp:24-68 | The specification 1,-1 gives frames 1, 0 and -1, for which that promise fails |
| Sentinel.UsableExists | src/util.cpp:18-26 | There is a message library to which this applies |
| Campaign.AllOutputsWritten | src/controller.cpp:72-190 | From a frame range to a normal exit: each frame of the range but -1 has had each of its outputs written under its substituted name, those with a parameter if it is not negative and those without if it is |
| Campaign.FinalOutputs | src/controller.cpp:72-190 | If destinations of different copies do not collide, the file of each output of each frame but -1 holds in the end what a worker answered to its fetch for that frame, in whatever order files were written; for a frame that is not negative the destination has a parameter, and for negative ones the file is one for all |
| Campaign.WrittenExactly | src/RemoteWorker.cpp:162-197 | After a normal exit such a file has been written iff its frame is in the list, or for an output without a parameter iff some negative frame is; for lists that cannot lose frame -1 |
| Campaign.SomethingWrittenExactly | src/RemoteWorker.cpp:162-197 | If no out-copy has a parameter something is written iff some frame is negative, if all have one iff some frame is not |
| PlainOutputs.CopiedExactly | README.md:105 | Copies out without a frame number are sure to have been made at a normal exit iff some frame is negative |
| PlainOutputs.LogIsMissed | src/RemoteWorker.cpp:162-181 | An output `log` is not copied for the specification 1, and it is for -5 |
| Silence.ReturnsExactly | src/controller.cpp:151-180 | A worker whose connection is at its end is removed, and its frame queued again, iff a header had been received or a hang-up is reported; otherwise neither list changes but for bytes sent to it |
| Silence.StaysBusy | src/controller.cpp:130-190 | As long as in every round nothing comes from some worker with a given mark and no slot is both reset and hung up, there is such a worker in every later state and no run exits normally |
| Silence.NeverFinishes | src/IncomingBuffer.hpp:82-107 | So a frame stays with a worker that sends nothing more, whether or not it has closed, and does not hang up, and no run exits normally |
| Silence.NeverWelcomed | src/controller.cpp:134-149 | So no run exits normally while there is a worker from which nothing comes at all, as after a failed accept |
| Silence.FrameIsHeld | src/IncomingBuffer.hpp:82-107 | It happens: a worker takes the request for the only frame and closes its connection, and the state is the same after any number of rounds |
| Campaign.OwnersOfRange | src/controller.cpp:72-190 | A frame of the range has at most one owner and any other number none, in every reachable state, also within a round |
| Control.Controller.constructor | src/controller.cpp:72-76 | All frames queued and no worker |
| Control.Controller.GetIdleWorker | src/controller.cpp:11-20 | The first idle worker of the list |
| Control.Controller.AnyWorkerWorking | src/controller.cpp:22-31 | True iff some worker is not idle |
| Control.Controller.KillWorker | src/controller.cpp:33-50 | The worker leaves the list, its frame returns to the front of the queue, all others are untouched |
| Control.Controller.AddConnection | src/controller.cpp:104-107 | A started worker is appended, sharing nothing with the others |
| Control.Controller.ReadWorker | src/controller.cpp:151-160 | A receive affects the polled worker only; a reset removes it, another error returns |
| Control.Controller.WriteWorker | src/controller.cpp:164-174 | A send affects the polled worker only |
| Control.Controller.ServeSlot | src/controller.cpp:133-180 | All flags of a slot, with the index as stale as the source's |
| Control.Controller.ScanSlots | src/controller.cpp:130-181 | The backward loop takes the steps of the scan |
| Control.Controller.MissingProxies | src/controller.cpp:80-94 | The proxy indices that no worker carries |
| Control.Controller.ConnectProxies | src/controller.cpp:96-108 | Each of them gets one connection, in order, unless connecting fails |
| Control.Controller.RunWorker | src/controller.cpp:188 | The frame starts on that worker and on no other |
| Control.Controller.HandOutFrames | src/controller.cpp:183-189 | The loop takes the steps of handing out |
| Control.Controller.DoRound | src/controller.cpp:79-190 | One round takes the step of the event loop |
| Control.Controller.MainLoop | src/controller.cpp:78-192 | The loop over objects behaves as the event loop on values for any rounds, so at its normal exit every frame other than -1 has been processed |
| Relay.Find | src/proxy.cpp:171-185 | The connection found matches, and none before it does |
| Relay.NeverFatal | src/proxy.cpp:368-418 | No run looks for a descriptor that no connection owns, although connections close while a stale list is scanned |
| Relay.RoundKeeps | src/proxy.cpp:281-423 | A round keeps all open descriptors distinct and all streams intact |
| Relay.EntryKeeps | src/proxy.cpp:312-423 | At every entry of the scan each descriptor still to come was closed in this round or is owned by a connection, whatever the flags of the entry do |
| Polling.PolledExactly | src/proxy.cpp:110-115 | Behind the listening sockets every open descriptor is polled, once and nothing else, by connection in list order and the worker's first |
| Polling.RoundServes | src/proxy.cpp:312-408 | In a round that no error ends every side of every connection has an entry, and if it is writable gets the front of the bytes that were waiting for it when the round began, unless the connection is closed before |
| Polling.EntryClosesExactly | src/proxy.cpp:367-422 | An entry closes its connection, and that one only, iff it is hung up, at its end or reset; otherwise its descriptor stays open |
| Polling.EntryFailsExactly | src/proxy.cpp:367-408 | An entry ends the round with an error iff a receive fails without a reset, or a send fails that had something to send and no reset came before |
| Relay.AlwaysTransparent | src/proxy.cpp:19-141 | For every connection of every run, open or closed: what it gave to a side is a prefix of what it took from the other, and the rest is what is buffered |
| Descriptors.DescriptorsMatch | src/proxy.cpp:19-141 | In every reachable state the bytes sent on the controller's descriptor of a connection since its accept are a prefix of those received on its worker's descriptor since its accept, the rest is buffered, and likewise the other way; the log is kept by descriptor, from the events |
| Descriptors.MadeByMoves | src/proxy.cpp:312-423 | Every connection, open or closed, among however many, is what its joins, receives and sends make of a new one |
| Descriptors.AllMovesAllowed | src/proxy.cpp:75-153 | Each of those moves adds a side that was not there, with a descriptor the other side does not have, or receives at most a temporary buffer full from or sends to a side that is there |
| Relay.MatchingIsMaximal | src/proxy.cpp:336-364 | In no reachable state does a worker wait in one connection and a controller in another |
| Relay.FailedAcceptExactly | src/proxy.cpp:329-364 | A failed accept changes nothing iff somebody waits for that side; otherwise it adds an empty connection |
| Emptiness.AcceptExactly | src/proxy.cpp:324-364 | An accept makes a connection with neither side iff it fails while nobody waits |
| Emptiness.EntryExactly | src/proxy.cpp:312-423 | Nothing else that the flags of a descriptor do makes one |
| Emptiness.NoReachableIsEmpty | src/proxy.cpp:336-364 | As long as accepts succeed no reachable state has a connection with neither side |
| Emptiness.EmptyHappens | src/proxy.cpp:329-364 | One failing accept is enough for one |
| Relay.WorkerServedInOrder | src/proxy.cpp:339-345 | A new worker joins the longest-waiting controller, if any waits, with what it had buffered |
| Relay.ControllerServedInOrder | src/proxy.cpp:346-353 | The same for a new controller and the longest-waiting worker |
| Pairing.NeverRepaired | src/proxy.cpp:75-153 | Over any rounds from any reachable state the sides of a connection are never exchanged and its streams are only added to, also across its closing |
| ProxyServer.Buffer.constructor | src/proxy.cpp:19-23 | A new buffer is empty |
| ProxyServer.Buffer.Send | src/proxy.cpp:31-45 | What went out followed by what is left is what was buffered |
| ProxyServer.Buffer.Receive | src/proxy.cpp:47-66 | At most a temporary buffer full is appended; end of file reads as a reset |
| ProxyServer.Connection.constructor | src/proxy.cpp:88-92 | Neither side is there and both buffers are empty |
| ProxyServer.Connection.AddPollfds | src/proxy.cpp:110-115 | Adds exactly the descriptors that are there, the worker's first |
| ProxyServer.Connection.Send | src/proxy.cpp:117-128 | The bytes that leave on the descriptor are the front of the buffer towards that side, and only that buffer gives them up |
| ProxyServer.Connection.Receive | src/proxy.cpp:130-141 | What one side sent goes to the end of the buffer for the other |
| ProxyServer.Connection.Die | src/proxy.cpp:143-153 | Both descriptors are gone |
| ProxyServer.Server.constructor | src/proxy.cpp:276-279 | No connections |
| ProxyServer.Server.FindConnection | src/proxy.cpp:171-185 | The first match, or none |
| ProxyServer.Server.ListFds | src/proxy.cpp:282-296 | The listening sockets, then every open descriptor once and nothing else, in list order and the worker's first |
| ProxyServer.Server.AcceptOne | src/proxy.cpp:336-364 | The newcomer joins the first connection that lacks its side or starts a new one; nobody else is affected |
| ProxyServer.Server.CloseConnection | src/proxy.cpp:214-246 | The connection leaves the list, found by reference, and both its descriptors are to be ignored for the rest of the round |
| ProxyServer.Server.ReceiveFrom | src/proxy.cpp:367-387 | Bytes go to the owner's buffer; a reset closes it and skips the other flags; another error returns |
| ProxyServer.Server.SendTo | src/proxy.cpp:390-408 | The bytes that leave on the descriptor are the front of its owner's buffer; an error returns |
| ProxyServer.Server.HangUp | src/proxy.cpp:410-422 | The owner is closed |
| ProxyServer.Server.ServeEntry | src/proxy.cpp:312-423 | All flags of one descriptor, unless it was closed in this round |
| ProxyServer.Server.DoRound | src/proxy.cpp:281-423 | The loop over the stale list takes the step of a round |
| ProxyServer.Server.MainLoop | src/proxy.cpp:276-424 | The loop over objects behaves as the proxy on values for any rounds and never reaches a fatal exit |
| RelayedLink.RelayRefines | src/proxy.cpp:110-141 | Each event of a link through the proxy, its closing included, is an event of the direct link or nothing |
| RelayedLink.RunRefines | src/proxy.cpp:110-141 | Every run of a relayed link is a run of a direct one |
| RelayedLink.RelayedSafety | src/proxy.cpp:110-141 | Through a proxy as without: no protocol exit at either end, and the worker has answered a prefix of the script, also when the connection is closed |
| RelayedLink.EveryConnectionIsSafe | src/proxy.cpp:276-424 | For every connection of every run of the proxy: with the moves it went through in that run and its two ends in between, the link arrives at that connection and is as safe as a direct one |

## Left out

- Sockets, `poll`, DNS and endpoints: what they do is part of the events. A failing `poll` and a failing resolution only return.
- `recv` and `send`: the event says what is offered or accepted, and the code takes at most what it asked for.
- `accept` in the controller: its failure is not noticed by the source and appears as a worker that never has an event; Silence.NeverWelcomed says what follows.
- `accept` in the proxy: it fails or returns a descriptor that is not in use; an event with another descriptor has no effect.
- Events not asked of `poll`: the state machines also admit them, so the theorems cover more than can happen.
- The protobuf wire format: messages go through an encoder and a decoder with a round trip; requests are never empty, since an empty payload closes a worker. The core count of a welcome, which nothing depends on, is not modelled.
- Messages of 2 GiB and more: the message library cannot encode them; in modules Connection and Network such a message ends the run.
- Unknown request types: the four types of the protocol are all there are.
- Null buffers: modelled as empty arrays.
- `fork`, `execv`, `stat`, file reads and writes: their results are part of the host or the disk of an event. A worker's blocking messages are received and sent whole, and its connection ends only after the bytes given.
- Exits of the processes: absorbing; the run theorems are about runs up to there.
- Connection.ProtocolSafety: its events do not include broken connections or frames for busy workers; Network.NoProtocolExit does.
- Finishing.CanAlwaysFinish: the way to the exit it gives begins with all connections breaking, since a worker may be about to report a failure, which ends the process, and ends with pending connections to proxies breaking; Refusals.UndisturbedExactly says when breaks are needed. Both assume that the requests for the frames are within the limits of the message library.
- Campaign.FinalOutputs: leaves out outputs of non-negative frames whose destination has no parameter, since all those frames then write the same file.
- RelayedLink.EveryConnectionIsSafe: says nothing of a run in which a socket delivers bytes that its other end did not send.
- Copies out at the end of the process and the state DONE: not implemented in the source. The machine is proved never to enter those states.
- Workers behind a proxy that go away: in module Network this appears as the proxy closing the connection, after which nothing moves through it.
- Guarantees.Completeness: leaves out frame -1, for which it is false; see Sentinel.CompleteExactly.
- FrameRange.Frames.GetAll: requires that the loop ends and that the value it stops at is an int; FrameRange.EndsExactly and FrameRange.NoOverflowExactly say when. Beyond that the source has no defined behaviour.
- FrameRange.Frames.ParseSpec: a failed parse may leave some fields set, as in the source; which ones is not stated.
- Template.ScanForParameter: widths are unbounded numbers, where the source's int would overflow above nine digits.
- RemoteWorker's hostname: kept, but only printed, so no theorem mentions it.
- Command-line parsing, usage, logging and the source's own unit tests.
