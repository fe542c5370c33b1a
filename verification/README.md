# Verified model of the transport samples and the request/reply benchmark

The repository holds two groups of programs. The "hello world" programs show what an RPC library
can do: a calculator whose server evaluates expressions over functions the client defines, and an
asynchronous greeter. The benchmark is a client and a server that exchange blocks of data over
several transports, and a script that reads the client's log. This project models both groups in
Dafny and proves what they are for.

**The calculator** (`Calculator*.dfy`). `CalculatorMeaning` says what each request of a session
answers when everything is computed left to right. `CalculatorMachine` is the server as it runs: a
session of requests processed in any order, each evaluation a tree of promises in which any ready
one may resolve next. `CalculatorSchedules` proves that every schedule ends in the outcome of the
left-to-right evaluation and sends the same number of call messages; `CalculatorProgress` that every
schedule ends, that none gets stuck, and that a client that names results before they are answered
reads what a waiting client reads; `CalculatorStatic` decides failure without evaluating and bounds
the cost; `CalculatorInlining` says exactly when replacing calls by bodies keeps the outcome;
`CalculatorAnswers` says what particular requests answer in any session, the sample client's included.
Numbers are opaque 64-bit patterns and the four operators are arbitrary functions on them, so
nothing rests on floating point.

**The asynchronous greeter** (`Greeter*.dfy`). `GreeterServer` has any number of threads at the
grain of single statements over an explicit heap in which freed addresses are used again, and a
runtime that matches calls and delivers tags in any order. Touching a freed object, publishing a
tag twice and the failing assertion are faults, and no run reaches one. `GreeterCounts` counts
objects and events, and `GreeterDrain` shows that everything can always be brought to
an end. `GreeterServerImpl` and `GreeterClientImpl` are the programs' own code, as methods that change
the heap, each proved to be a run of the statements. `GreeterCalls` composes the server with the
client (one sending and one reading thread) and a network that may break; `GreeterNames` follows the
users that the client is told to greet through to the lines it prints.

**The transports** (`Exchange`, `GrpcExchange`, `GrpcService`, `CapnpExchange`, `CapnpConnection`,
`Buffers`, `Endpoints`). `Exchange` is the one-step specification `reply := rcvFn(request)`; the two machines
are the gRPC stream (two FIFO directions, half-close, a window) and the Cap'n Proto session
(chunks, `done` with a callback, acknowledgements, a window), and both refine it, failures included:
after a break each end goes on with what still arrives, and the specification says what the handler
may have been run on. `CapnpConnection` runs any number of sessions over shared wires, `GrpcService`
any number of streams at one server. `Buffers` is the heap behind a
message: views into separately owned strings, held by a vector that moves as it grows. `Endpoints`
is the code at the two ends, loops and continuations over those messages, with the effect of a run
of its machine.

**The workloads** (`PayloadCodec`, `Workload`, `WorkloadImpl`, `EndToEnd`). The payloads of
rt.proto in protobuf's own wire format with its round trip; the creators, the receive function
and the validators, once as functions and once as the loops that compute them; and what holds of a
whole operation over either transport.

**The log parser** (`LogText`, `LogParser`, `LogRuns`). The patterns, character by character, on the
lines the client prints; the one-pass state machine; and what it makes of any concatenation of
complete and cut runs.

Six findings about the code are proved rather than assumed away, each with its exact condition.
`EchoReplyValidator::isValid` compares as many bytes as the request's buffer has: it accepts data
with something behind it and data that has lost a zero byte at its end, and no other change
(`ValidatorIsExact`), and it reads memory that it must not where two bytes or more are missing
(`ValidatorOverReads`). A gRPC stream that breaks makes `Read` return false just as the end
of the request does, so the server can run its handler on any prefix of the request
(`AnyPrefixCanBeServed`, `InputsAfterBreak`), and since its handler throws on an empty one, a single
dropped stream can fail every client (`DroppedStreamFailsEveryClient`); under the same kind of
failure the Cap'n Proto server runs it on the whole request or not at all (`HandlerInput`,
`ServedAfterBreak`). Inlining a stored function can turn a failure into a success, because the
calculator always evaluates every argument (`InliningIsExact`). A block of more than 2^31 - 13 bytes
is silently sent empty (`DataFits`). A negative block count or size, which the header's pattern does
not match, makes the log parser raise or puts one run's figures into another's entry, and a name
with the words "Test passed" in it misleads it (`ReadsCorrectly`, `MixingHappens`, `MisleadingName`).

Verify with `dafny verify dfyconfig.toml`.

## Model

| member | source | states |
|---|---|---|
| CalculatorMeaning.EvalPrefix | src/transport_hello_world/capnproto/calculator-server.c++:41-91 | requests made later never change what an expression means, because capabilities are only named after they were made |
| CalculatorSchedules.StartKeeps | src/transport_hello_world/capnproto/calculator-server.c++:49-75 | building the promises of all arguments at once, or throwing while doing so, has the meaning and the cost of the expression |
| CalculatorSchedules.FireKeeps | src/transport_hello_world/capnproto/calculator-server.c++:66-84 | resolving any ready promise anywhere in the tree changes neither the outcome nor, with the step paid for, the cost |
| CalculatorSchedules.DeliverKeeps | src/transport_hello_world/capnproto/calculator-server.c++:118-159 | a call message at an operator, a stored body or a client function sets off exactly what applying it means |
| CalculatorSchedules.NextKeepsInv | src/transport_hello_world/capnproto/calculator-server.c++:165-188 | sending, processing and resolving in any order keep every request's slot in agreement with its meaning |
| CalculatorSchedules.ScheduleIndependence | src/transport_hello_world/capnproto/calculator-server.c++:41-91 | under every schedule an answered evaluation has the outcome, value or failure, of the left-to-right recursive evaluator on the requests before it |
| CalculatorSchedules.ReachableScoped | src/transport_hello_world/capnproto/calculator-server.c++:169-187 | in every reachable session each request and each stored body names earlier capabilities only |
| CalculatorSchedules.ExactCost | src/transport_hello_world/capnproto/calculator-server.c++:77-84 | no schedule sends more call messages than the static weight of the expression, and every successful one sends exactly that many, whatever the argument values |
| CalculatorProgress.SlotStepDecreases | src/transport_hello_world/capnproto/calculator-server.c++:62-85 | every server step lowers the measure on capability index and expression size |
| CalculatorProgress.EveryScheduleEnds | src/transport_hello_world/capnproto/calculator-server.c++:62-85 | no schedule takes more server steps than the requests sent unfold to, stored functions included |
| CalculatorProgress.FindReady | src/transport_hello_world/capnproto/calculator-server.c++:66-84 | a promise tree over answered capabilities that is not resolved holds a promise that is ready |
| CalculatorProgress.NoDeadlock | src/transport_hello_world/capnproto/calculator-server.c++:41-91 | a reachable session with anything unanswered has a step it can take without the client |
| CalculatorProgress.Drain | src/transport_hello_world/capnproto/calculator-server.c++:169-174 | from every reachable session the server alone can bring all answers in |
| CalculatorProgress.WaitingRunExists | src/transport_hello_world/capnproto/calculator-client.c++:145-208 | every script of requests can be run by a client that waits for each answer before the next request |
| CalculatorProgress.PipeliningRefinesWaiting | src/transport_hello_world/capnproto/calculator-client.c++:145-208 | whatever a pipelining session reads under any order, the waiting session for the same requests reads the same |
| CalculatorStatic.FailureIsStatic | src/transport_hello_world/capnproto/calculator-server.c++:56-85 | over server-made capabilities an evaluation succeeds if and only if every reachable node has its index in range, its arity matched, its operator known and its previous results sound; argument values never matter |
| CalculatorStatic.CostPerNode | src/transport_hello_world/capnproto/calculator-server.c++:77-84 | an expression sends at most one call message per call node, plus what the dearest callee sends for each |
| CalculatorStatic.CostIsBounded | src/transport_hello_world/capnproto/calculator-server.c++:77-84 | with n stored functions and at most k call nodes in any body and in the expression, at most k + k^2 + ... + k^(n+1) call messages |
| CalculatorStatic.SchedulesAreBounded | src/transport_hello_world/capnproto/calculator-server.c++:118-126 | that bound holds for what any schedule of any session has really sent |
| CalculatorInlining.InlineIsFlat | src/transport_hello_world/capnproto/calculator-server.c++:118-126 | inlining ends with no call of a stored function left, and names no capability that was not there |
| CalculatorInlining.SubstMeans | src/transport_hello_world/capnproto/calculator-server.c++:67-70 | arguments use the caller's parameters and bodies only their own |
| CalculatorInlining.InliningPreservesMeaning | src/transport_hello_world/capnproto/calculator-server.c++:67-84 | inlining everything keeps the outcome, value or failure, whenever the arguments of the inlined calls succeed |
| CalculatorInlining.SuccessSurvivesInlining | src/transport_hello_world/capnproto/calculator-server.c++:67-84 | a successful evaluation keeps its value under inlining, with no condition |
| CalculatorInlining.InlinedSucceeds | src/transport_hello_world/capnproto/calculator-server.c++:56-85 | the inlined expression succeeds exactly when the original is sound in every place that inlining keeps |
| CalculatorInlining.InliningIsExact | src/transport_hello_world/capnproto/calculator-server.c++:67-84 | inlining keeps the outcome if and only if the expression is sound everywhere or unsound in a place that inlining keeps |
| CalculatorInlining.InliningOneCallIsExact | src/transport_hello_world/capnproto/calculator-server.c++:118-126 | replacing one call keeps the outcome if and only if all arguments succeed, or a mentioned one fails, or the body fails by itself |
| CalculatorInlining.InliningCanHideAFailure | src/transport_hello_world/capnproto/calculator-server.c++:67-84 | a constant function of a failing argument fails when called and succeeds when inlined, since arguments are always evaluated |
| CalculatorInlining.SampleFunctions | src/transport_hello_world/capnproto/calculator-client.c++:210-315 | the sample client's f and g mean x * 100 + y and f(x, x + 1) * 2 for every arithmetic, every x and y, and whatever bits encode the three constants |
| CalculatorInlining.SampleAnswers | src/transport_hello_world/capnproto/calculator-client.c++:311-312 | on any arithmetic that is exact on small integers the two answers are 1234 and 4244, as the client asserts |
| CalculatorAnswers.RequestsAreSent | src/transport_hello_world/capnproto/calculator-server.c++:165-188 | the requests of a session are the ones the client sent, all of them, in order and unchanged |
| CalculatorAnswers.AnswersStay | src/transport_hello_world/capnproto/calculator-server.c++:99-102 | an answer once given, and what it cost, is never changed by anything that happens later |
| CalculatorAnswers.SimpleAnswers | src/transport_hello_world/capnproto/calculator-server.c++:49-61 | a literal answers itself without a call message, a parameter outside a body and an unknown expression fail, and so does reading a function or calling a value |
| CalculatorAnswers.PreviousResultIsRead | src/transport_hello_world/capnproto/calculator-server.c++:53-54 | in every reachable session a request that evaluates a previous result answers what that request answered, value or failure |
| CalculatorAnswers.PreviousResultIsItsValue | src/transport_hello_world/capnproto/calculator-server.c++:99-102 | an expression that uses a previous result anywhere answers what it does with the value that was answered written in its place |
| CalculatorAnswers.OperatorsAnswer | src/transport_hello_world/capnproto/calculator-server.c++:143-159 | in every reachable session a call of the operator that is requested as 0, 1, 2 or 3 answers a + b, a - b, a * b or a / b in just that order of the arguments, in one call message; any other operator fails |
| CalculatorAnswers.OperatorsTakeTwo | src/transport_hello_world/capnproto/calculator-server.c++:143-145 | an operator fails with any number of arguments but two |
| CalculatorAnswers.ClientFunctionAnswers | src/transport_hello_world/capnproto/calculator-client.c++:28-40 | a function of the client is given the arguments in order and its answer, value or failure, is the answer |
| CalculatorAnswers.StoredFunctionAnswers | src/transport_hello_world/capnproto/calculator-server.c++:118-126 | a call of a stored function answers what evaluating its body with the arguments written in answers |
| CalculatorAnswers.ArityIsUnsigned | src/transport_hello_world/capnproto/calculator-server.c++:113-120 | the declared count is compared as an unsigned number, so a function declared with a negative count wants 2^32 more than that, and fails with any other number |
| CalculatorAnswers.AddAndSubtract | src/transport_hello_world/capnproto/calculator-client.c++:95-141 | on any arithmetic with 123 + 45 and 168 - 67 right, the first session answers 101 after two call messages |
| CalculatorAnswers.PipelinedProduct | src/transport_hello_world/capnproto/calculator-client.c++:145-208 | with 4 * 6 named before it is answered, adding 3 and 5 to it answers 27 and 29 |
| CalculatorAnswers.SampleSession | src/transport_hello_world/capnproto/calculator-client.c++:210-315 | in a session with f and g defined a call of g answers (x * 100 + (x + 1)) * 2 after exactly six call messages |
| CalculatorAnswers.BoundIsReached | src/transport_hello_world/capnproto/calculator-server.c++:118-126 | the bound k + k^2 + ... + k^(n+1) cannot be improved: for every k and n there are stored functions that reach it |
| GreeterServer.StatementIsLocal | src/transport_hello_world/grpc/greeter_async_server.cc:85-117 | a statement in its proper state never faults, writes only its own object, and gives it up exactly when it publishes its tag or deletes it |
| GreeterServer.ExecKeepsInv | src/transport_hello_world/grpc/greeter_async_server.cc:85-158 | every statement of every thread keeps each live object with exactly one owner, a thread or the runtime |
| GreeterServer.EnvironmentKeepsInv | src/transport_hello_world/grpc/greeter_async_server.cc:95-111 | matching a call and finishing a reply keep ownership too |
| GreeterServer.NeverFaults | src/transport_hello_world/grpc/greeter_async_server.cc:85-158 | with any number of threads no run uses a freed object, deletes twice, publishes a tag twice or fails the FINISH assertion |
| GreeterServer.AccessIsExclusive | src/transport_hello_world/grpc/greeter_async_server.cc:85-117 | whoever touches an object is its only holder; no thread touches one that is published, and the runtime touches none that a thread holds |
| GreeterServer.DeliveredTagIsLive | src/transport_hello_world/grpc/greeter_async_server.cc:150-157 | every tag taken from the queue points to a live object, in PROCESS after a match and in FINISH after a reply |
| GreeterCounts.StepKeepsCounts | src/transport_hello_world/grpc/greeter_async_server.cc:97-116 | every step of a thread or of the runtime keeps the balance of acceptors, replies, deletions and events |
| GreeterCounts.AcceptorConservation | src/transport_hello_world/grpc/greeter_async_server.cc:97-146 | in every reachable state the waiting or unreplaced objects equal the threads in the loop, and the live objects are those plus the replies with the runtime, the replaced-but-not-deleted ones, and the objects under construction, at start-up or as a replacement |
| GreeterCounts.DrainedServer | src/transport_hello_world/grpc/greeter_async_server.cc:97-158 | a drained server has taken exactly two events for each deleted object and keeps one object per thread |
| GreeterServerImpl.ServerImpl.NewCallData | src/transport_hello_world/grpc/greeter_async_server.cc:79-83 | a new object ends up in PROCESS with its tag published, and nothing else has changed |
| GreeterServerImpl.ServerImpl.Proceed | src/transport_hello_world/grpc/greeter_async_server.cc:85-117 | the whole new heap and the whole new set of published tags, branch by branch |
| GreeterServerImpl.ServerImpl.HandleRpcs | src/transport_hello_world/grpc/greeter_async_server.cc:144-159 | for every script of what the runtime does, the loop is a run of the statement machine and keeps ownership |
| GreeterServerImpl.ProceedIsARun | src/transport_hello_world/grpc/greeter_async_server.cc:85-117 | taking a tag and running Proceed to its end is a run of single statements with the same effect |
| GreeterServerImpl.TurnIsARun | src/transport_hello_world/grpc/greeter_async_server.cc:149-158 | every turn of the loop and every step of the runtime is a run of the machine |
| GreeterClientImpl.ClientImpl.SayHello | src/transport_hello_world/grpc/greeter_async_client2.cc:48-71 | one more call on its way that carries this user, a live call object bound to it, and its tag with the runtime; nothing else has changed |
| GreeterClientImpl.ClientImpl.TakeTag | src/transport_hello_world/grpc/greeter_async_client2.cc:80-95 | exactly one line for the call of that tag, by its status, and its object freed |
| GreeterClientImpl.ClientImpl.Follow | src/transport_hello_world/grpc/greeter_async_client2.cc:48-96 | for every script of what happens to it, the program is a run of the two-program machine |
| GreeterClientImpl.HelloIsARun | src/transport_hello_world/grpc/greeter_async_client2.cc:54-69 | SayHello without interruption is a run of its four statements; whom its call greets is said by the rows on GreeterNames |
| GreeterClientImpl.TurnIsARun | src/transport_hello_world/grpc/greeter_async_client2.cc:80-95 | a turn of the reader's loop is a run of its three statements |
| GreeterClientImpl.QueuedTagIsCompleted | src/transport_hello_world/grpc/greeter_async_client2.cc:82-94 | in every reachable state a queued tag points to a live call object whose call has ended and whose reply and status are that call's |
| GreeterCalls.AdvanceKeeps | src/transport_hello_world/grpc/greeter_async_client2.cc:48-96 | every event of the sender, the reader, the server threads, the network and both runtimes keeps both programs' invariants |
| GreeterCalls.CallsNeverFault | src/transport_hello_world/grpc/greeter_async_client2.cc:48-96 | no interleaving of client and server uses a freed object on either side |
| GreeterCalls.EachCallPrintsItsOwnReply | src/transport_hello_world/grpc/greeter_async_client2.cc:86-94 | each call is on at most one line, with "Hello " and the name it carries if it ended well and the failure text if not, is freed at most once and after that line, and exactly once when no call object is left |
| GreeterCalls.DrainedCallsUseTwoEventsEach | src/transport_hello_world/grpc/greeter_async_server.cc:97-116 | k calls that reached a drained server have used exactly 2k of its completion events |
| GreeterDrain.ExecUsesWork | src/transport_hello_world/grpc/greeter_async_server.cc:85-158 | every statement of a server thread lowers a measure on the statements, deliveries and replies still to come |
| GreeterDrain.EventUsesWork | src/transport_hello_world/grpc/greeter_async_client2.cc:48-96 | so does every other event of both programs, the network and the runtimes, but a new call and a failure |
| GreeterDrain.NoDeadlock | src/transport_hello_world/grpc/greeter_async_client2.cc:48-96 | with at least one server thread, a reachable state in which anything is left to do has such an event |
| GreeterDrain.CanDrain | src/transport_hello_world/grpc/greeter_async_client2.cc:48-96 | from every reachable state some way of going on without failures ends with every call printed, every call object freed once, and two server events used per call that arrived |
| GreeterDrain.QuietCallsAreAnswered | src/transport_hello_world/grpc/greeter_async_server.cc:97-111 | where no call has failed and nothing is left to do, every call has been answered with "Hello " and its name |
| GreeterNames.CallsAreOfUsers | src/transport_hello_world/grpc/greeter_async_client2.cc:48-69 | over every interleaving, the names that the calls carry are the users SayHello was entered with, in order; only the last of these may not have been prepared yet |
| GreeterNames.EachUserIsGreeted | src/transport_hello_world/grpc/greeter_async_client2.cc:48-94 | end to end: a line for the r-th call is "Greeter received: Hello " and the r-th user that SayHello was entered with, or the failure text |
| GreeterNames.ScriptedCallsAreOfUsers | src/transport_hello_world/grpc/greeter_async_client2.cc:48-71 | over any script of the code's own methods the calls are those of the users that SayHello was called with, in order |
| GrpcExchange.NextKeepsInv | src/rt_client_server/transports/grpc/grpc_transport.cc:42-78 | what is received and in flight stays what was sent, in order, in both directions and through failures |
| GrpcExchange.WindowIsKept | src/rt_client_server/transports/grpc/grpc_transport.cc:42-78 | neither direction ever holds more than a window of messages, broken or not |
| GrpcExchange.SuccessIsExact | src/rt_client_server/transports/grpc/grpc_transport.cc:150-198 | when sendReq returns, the handler has run on exactly the request and the client holds exactly its reply |
| GrpcExchange.HandlerInput | src/rt_client_server/transports/grpc/grpc_transport.cc:42-66 | the handler sees the whole request, or a prefix of it and then the stream is broken |
| GrpcExchange.AnyPrefixCanBeServed | src/rt_client_server/transports/grpc/grpc_transport.cc:42-66 | for every request, handler and positive window, and every prefix of the request, the empty one included, some run has the handler run on exactly that prefix |
| GrpcExchange.InputsAfterBreak | src/rt_client_server/transports/grpc/grpc_transport.cc:42-66 | once a stream is broken the handler can be run on exactly what has been read followed by any first part of what is on its way |
| GrpcExchange.WholeAfterBreak | src/rt_client_server/transports/grpc/grpc_transport.cc:42-66 | a broken request is sure to be served whole if and only if its last buffer was read before the break, and can be if and only if all of it was read or on its way |
| GrpcExchange.DroppedStreamIsServed | src/rt_client_server/transports/grpc/grpc_transport.cc:42-69 | a stream that breaks before anything is read has the handler run on nothing |
| GrpcExchange.RefinesExchange | src/rt_client_server/transports/grpc/grpc_transport.cc:31-81 | every step is a step of the one-step exchange or invisible to it: the handler runs once, on the request or, after a failure, on a prefix; the client gets the reply to the whole request or an error |
| GrpcExchange.RunRefinesExchange | src/rt_client_server/transports/grpc/grpc_transport.cc:150-198 | every run is a run of the one-step exchange from its beginning |
| GrpcExchange.NoDeadlock | src/rt_client_server/transports/grpc/grpc_transport.cc:42-78 | for every positive window an unbroken exchange that has not succeeded has an enabled step |
| GrpcExchange.EveryRunSucceeds | src/rt_client_server/transports/grpc/grpc_transport.cc:162-190 | every step lowers the number of steps left by one, so an unbroken run succeeds after exactly that many and not before |
| GrpcExchange.ExactLength | src/rt_client_server/transports/grpc/grpc_transport.cc:150-198 | an unbroken run has succeeded exactly when it has taken two steps per buffer of the request and of the reply and four more |
| GrpcExchange.CanFinish | src/rt_client_server/transports/grpc/grpc_transport.cc:150-198 | from every unbroken state success can be reached |
| GrpcExchange.UnbrokenRun | src/rt_client_server/transports/grpc/grpc_transport.cc:65-70 | for every positive window a run without a break ends with the handler's reply at the client or, if the handler throws, with the server dead and the client throwing |
| GrpcService.StreamsDoNotMix | src/rt_client_server/transports/grpc/grpc_transport.cc:31-41 | of many streams at one server, a step of one changes nothing for any other, unless the server dies of it |
| GrpcService.EveryStreamIsExact | src/rt_client_server/transports/grpc/grpc_transport.cc:31-81 | however many streams are served side by side and whatever fails, each that succeeds holds the reply to its own request, and no handler runs on more than a prefix of its own |
| GrpcService.DroppedStreamFailsAll | src/rt_client_server/transports/grpc/grpc_transport.cc:65-70 | where the handler throws on an empty request, from every reachable state one more stream that is dropped can fail every client that has not had its reply, for good |
| CapnpExchange.NextKeepsInv | src/rt_client_server/transports/capnproto/capnproto_transport.cc:46-95 | every call, return and acknowledgement keeps the two streams of calls in order and the returns in step, also after a break that lost any number of the last calls in flight while both ends go on |
| CapnpExchange.WindowIsKept | src/rt_client_server/transports/capnproto/capnproto_transport.cc:46-95 | unbroken, no more than a window of chunks is unacknowledged in either direction, and nothing else is in flight but the call that opens the request and `done` |
| CapnpExchange.SuccessIsExact | src/rt_client_server/transports/capnproto/capnproto_transport.cc:190-229 | when sendReq returns, broken connection or not, the handler has run on exactly the client's buffers and all reply buffers are there in order |
| CapnpExchange.HandlerInput | src/rt_client_server/transports/capnproto/capnproto_transport.cc:63-77 | whatever is lost and whenever, and though the server goes on handling what still arrives, the handler never runs on less than the whole request |
| CapnpExchange.ServedAfterBreak | src/rt_client_server/transports/capnproto/capnproto_transport.cc:63-77 | after a break the request is still served, and then whole, if and only if its done has not been lost |
| CapnpExchange.RefinesExchange | src/rt_client_server/transports/capnproto/capnproto_transport.cc:39-95 | every step is a step of the atomic one-step exchange or invisible to it: the handler runs once and only on the whole request, failures included |
| CapnpExchange.RunRefinesExchange | src/rt_client_server/transports/capnproto/capnproto_transport.cc:190-229 | every run is a run of the atomic one-step exchange from its beginning |
| Exchange.SpecRunIsPromised | src/rt_client_server/transports/capnproto/capnproto_transport.cc:63-77 | in every phase of such a run what was served is the request, or a prefix after a failure where the transport is not atomic, and what was returned is the handler's reply to the request |
| Exchange.SpecRunDecidesOnce | src/rt_client_server/transports/capnproto/capnproto_transport.cc:63-77 | the handler runs at most once, and what the client has learnt is final |
| CapnpExchange.NoDeadlock | src/rt_client_server/transports/capnproto/capnproto_transport.cc:190-209 | for every positive window an unbroken session that has not succeeded has an enabled step |
| CapnpExchange.BoundedAndLive | src/rt_client_server/transports/capnproto/capnproto_transport.cc:79-95 | an unbroken run takes at most three steps per buffer and eleven more, and where no step is left it has succeeded |
| CapnpExchange.CanFinish | src/rt_client_server/transports/capnproto/capnproto_transport.cc:219-229 | from every unbroken state success can be reached |
| CapnpExchange.UnbrokenRun | src/rt_client_server/transports/capnproto/capnproto_transport.cc:63-77 | for every positive window a run without a break ends with the handler's reply at the client or, if the handler throws, with the server dead and the client throwing |
| CapnpConnection.SessionsDoNotMix | src/rt_client_server/transports/capnproto/capnproto_transport.cc:39-44 | a step of one session is a step of that session alone and changes nothing for any other on the same wires, unless the server dies of it, which the others see as a broken connection |
| CapnpConnection.CutIsABreak | src/rt_client_server/transports/capnproto/capnproto_transport.cc:190-229 | a connection that breaks is, to each of its sessions, a break of its own that loses some of its last calls |
| CapnpConnection.EverySessionIsExact | src/rt_client_server/transports/capnproto/capnproto_transport.cc:39-44 | however many sessions are interleaved and whatever breaks, each handler runs on its own session's whole request, and each session that succeeds holds the reply to that |
| CapnpConnection.HeadUpCanBeHandled | src/rt_client_server/transports/capnproto/capnproto_transport.cc:46-77 | while the server lives, the call at the head of the shared wire can be handled, broken or not, so no session blocks another |
| CapnpConnection.ConnectionNoDeadlock | src/rt_client_server/transports/capnproto/capnproto_transport.cc:190-209 | an unbroken connection with a session that has not succeeded has an enabled step, for every positive window |
| CapnpConnection.EveryRunEnds | src/rt_client_server/transports/capnproto/capnproto_transport.cc:190-229 | an unbroken connection takes no more steps, however its sessions are interleaved, than the bounds of its sessions add up to |
| CapnpConnection.AllCanSucceed | src/rt_client_server/transports/capnproto/capnproto_transport.cc:190-229 | and from every state of it some way of going on ends with the success of every session |
| Buffers.Container.PushBack | src/rt_client_server/transport.hpp:11-26 | one more owned string at the end, though the vector may have moved |
| Buffers.Message.Append | src/rt_client_server/payload_creator.hpp:28-32 | the new buffer denotes the whole of a fresh string; earlier views are the same and denote the same, and buffer i still denotes string i |
| Endpoints.ReadAll | src/rt_client_server/transports/grpc/grpc_transport.cc:182-190 | every message of the stream becomes one more buffer, in order |
| Endpoints.ReqReply | src/rt_client_server/transports/grpc/grpc_transport.cc:31-81 | what is written is the handler's reply to all that was read, and nothing if it throws |
| Endpoints.SendReqOverGrpc | src/rt_client_server/transports/grpc/grpc_transport.cc:150-198 | it throws exactly when the handler does; otherwise the reply's views denote the handler's reply to the request, which is unchanged; for every positive window this is the effect of a run of the gRPC machine |
| Endpoints.ReqSvcImpl.SendChunk | src/rt_client_server/transports/capnproto/capnproto_transport.cc:46-61 | the chunk is one more buffer of the request, and the reply being built is untouched |
| Endpoints.ReqSvcImpl.Done | src/rt_client_server/transports/capnproto/capnproto_transport.cc:63-77 | the callback has received the handler's reply to everything received, in order, and its done |
| Endpoints.SendReplyStream | src/rt_client_server/transports/capnproto/capnproto_transport.cc:79-95 | the recursion over the buffer index delivers every remaining buffer in order, and then done |
| Endpoints.SendRequestStream | src/rt_client_server/transports/capnproto/capnproto_transport.cc:190-209 | from any index on, the service gets the rest of the request and the client the handler's reply to all of it |
| Endpoints.SendReqOverCapnp | src/rt_client_server/transports/capnproto/capnproto_transport.cc:219-229 | the same contract through a request service with fresh buffers, and the effect of a run of the Cap'n Proto machine |
| PayloadCodec.VarintRoundTrip | src/rt_client_server/rt.proto:1-53 | reading a varint gives the number written and the rest of the bytes |
| PayloadCodec.FieldsRoundTrip | src/rt_client_server/rt.proto:1-53 | reading fields gives exactly the fields written |
| PayloadCodec.HeaderRoundTrip | src/rt_client_server/rt.proto:1-53 | every kind of header reads back as itself, negative counts included |
| PayloadCodec.PayloadRoundTrip | src/rt_client_server/payload_creator.hpp:25-26 | for every payload parsing gives back what was written, or an empty payload where it was too long to be written, and writing that again gives the same bytes |
| PayloadCodec.DataFits | src/rt_client_server/payload_creator.hpp:25-26 | a block is written at all if and only if it has at most 2^31 - 13 bytes |
| PayloadCodec.ReadReqBytes | src/rt_client_server/rt.proto:5-8 | the bytes of a read request's header: fields 1 and 2 for count and size, within field 1 of the header |
| PayloadCodec.WriteReqBytes | src/rt_client_server/rt.proto:10-13 | of a write request's: the same within field 2 |
| PayloadCodec.EchoReqBytes | src/rt_client_server/rt.proto:15-18 | of an echo request's: the same within field 5 |
| PayloadCodec.ReplyBytes | src/rt_client_server/rt.proto:20-41 | of the three replies: the time in field 1, within fields 3, 4 and 6 |
| PayloadCodec.DataBytes | src/rt_client_server/rt.proto:43-52 | the bytes of a block, of an empty block and of an empty payload |
| PayloadCodec.DefaultRequestBytes | src/rt_client_server/scripts/run_transports.py:266-271 | a write of 16 blocks of 4096 bytes, as the script has it by default, starts with nine bytes that are given one by one |
| Workload.ValidatorAccepts | src/rt_client_server/rt_client.cc:127-153 | isValid is true if and only if the buffer counts agree and the memory behind each data buffer of the reply, its string's closing zero byte included, starts with the request's buffer |
| Workload.ValidatorIsExact | src/rt_client_server/rt_client.cc:127-153 | isValid tells whether the data came back unchanged on exactly those replies that do not merely resemble it: the same memory, and at least one buffer of another length, longer by anything or shorter by a zero byte |
| Workload.ValidatorMissesTrailingBytes | src/rt_client_server/rt_client.cc:137-139 | a byte appended to a data buffer goes unnoticed |
| Workload.ValidatorMissesALostZero | src/rt_client_server/rt_client.cc:137-139 | a data buffer that has lost a zero byte at its end is accepted, since the string's own zero byte is compared |
| Workload.ValidatorOverReads | src/rt_client_server/rt_client.cc:137-139 | the comparison reads memory that it must not if and only if some buffer lacks two bytes or more and none before it gives a difference |
| Workload.ShorterReplyIsOverRead | src/rt_client_server/rt_client.cc:137-139 | a data buffer without its last two bytes is such a reply |
| Workload.RequestAndReplyAgree | src/rt_client_server/rt_server.cc:128-186 | every client-built request is answered by the matching kind and buffer count, the process time can be read, and every block of a read has the requested size or is empty where it is too long to be written |
| Workload.EchoComesBack | src/rt_client_server/rt_server.cc:85-126 | an echo's data buffers come back byte for byte after parsing and serialising again, and the validator accepts |
| Workload.RequestSaysWhatItCarries | src/rt_client_server/rt_client.cc:68-125 | a request starts with the header of its own kind, whose count and size are the client's, each in its own field, and a write or an echo carries exactly that many blocks of that size, with the random bytes in order |
| Workload.ReplySaysWhatItCarries | src/rt_client_server/rt_server.cc:43-126 | a reply starts with the header of its kind and the time, and behind it come, for a read, that many generated blocks of that size and, for an echo, the client's own blocks |
| Workload.ServerThrowsExactly | src/rt_client_server/rt_server.cc:128-186 | the server throws, for any buffers at all, if and only if there are none, the first is no request, or a read asks for blocks of negative size |
| Workload.ServerAnswersExactly | src/rt_client_server/rt_server.cc:43-186 | what it answers otherwise, for any numbers in the header, buffer by buffer |
| Workload.TimeIsRead | src/rt_client_server/rt_client.cc:155-186 | the client reads a time off a reply if and only if its first buffer is one of the three reply headers, and then that header's |
| WorkloadImpl.AddToMsg | src/rt_client_server/payload_creator.hpp:21-46 | the serialised payload is one more buffer, and earlier views stay attached |
| WorkloadImpl.FillBlocksRequest | src/rt_client_server/rt_client.cc:68-125 | the loop produces the header of the request's kind with count and size in their own fields, and then every block, in order |
| WorkloadImpl.FillReadRequest | src/rt_client_server/rt_client.cc:91-102 | a read request is its header alone |
| WorkloadImpl.FillReadReply | src/rt_client_server/rt_server.cc:52-83 | the two loops produce the header and the generated blocks, each of the requested size |
| WorkloadImpl.FillEchoReply | src/rt_client_server/rt_server.cc:85-126 | the two loops replace the header and send every other payload back |
| WorkloadImpl.ServerRcvFn | src/rt_client_server/rt_server.cc:128-186 | it throws exactly on an empty request, a missing header, a header that is no request, and a read of negative size and positive count; a read of 2^31 - 1 blocks overflows; otherwise the reply is the specified one |
| WorkloadImpl.IsValid | src/rt_client_server/rt_client.cc:127-153 | the scan that stops at the first difference gives the specified verdict |
| WorkloadImpl.GetRemoteProcessTimeUs | src/rt_client_server/rt_client.cc:155-186 | the time in the reply's header, or a throw exactly when there is no reply header |
| EndToEnd.OverGrpc | src/rt_client_server/rt_client.cc:253-283 | over every run of the gRPC exchange that succeeds, the reply passes the client's checks, and an echo's data is the request's own |
| EndToEnd.OverCapnp | src/rt_client_server/rt_client.cc:253-283 | the same over every run of the Cap'n Proto session |
| EndToEnd.DroppedStreamAborts | src/rt_client_server/rt_server.cc:134-136 | the receive function throws on an empty request, so a gRPC stream that breaks before anything is read may abort the server |
| EndToEnd.DroppedStreamFailsEveryClient | src/rt_client_server/rt_server.cc:134-136 | and with this server's receive function it does |
| EndToEnd.RunReceive | src/rt_client_server/rt_server.cc:128-186 | the function that the transports run as the handler is what the server's own code computes over messages |
| EndToEnd.ServeGrpc | src/rt_client_server/transports/grpc/grpc_transport.cc:31-81 | the server's code from its read loop through its receive function to its write loop answers what arrived with that function |
| EndToEnd.TransportsAgree | src/rt_client_server/transports/capnproto/capnproto_transport.cc:219-229 | whatever the windows and the interleavings, both transports give the same handler the same request and the client the same reply |
| EndToEnd.Operation | src/rt_client_server/rt_client.cc:254-282 | for every workload, size, count and block contents, over an unbroken exchange of either transport that takes messages of any length, an operation does not throw, reads the server's time and passes its validator |
| EndToEnd.Operations | src/rt_client_server/rt_client.cc:253-283 | the client's loop gets through all operations and collects each one's time |
| LogText.FrontIsExact | src/rt_client_server/scripts/run_transports.py:139-141 | the patterns' groups can match in one way at most from a given place, and reading digits greedily finds it |
| LogText.FindIsGreedy | src/rt_client_server/scripts/run_transports.py:139-141 | the search finds a match exactly when there is one, and takes the last, as a leading `.*` does |
| LogText.PatternsMean | src/rt_client_server/scripts/run_transports.py:139-141 | both of the parser's patterns with groups meet that meaning on every line |
| LogText.DecimalIsExact | src/rt_client_server/scripts/run_transports.py:140-141 | the texts that the statistics pattern takes for numbers are those with one decimal point and digits alone, at least one, on either side |
| LogText.HeaderLineMatches | src/rt_client_server/rt_client.cc:247-249 | the client's header line gives its own block count and size, whatever the workload is called, line ends excepted; if one of them is negative it gives what the workload's name alone would |
| LogText.TransportLineMatches | src/rt_client_server/rt_client.cc:246 | the line with the transport's name is no statistics, and a header or the end of a run exactly when the name is |
| LogText.HeaderLinePasses | src/rt_client_server/rt_client.cc:247-249 | the header line is taken for the end of a run if and only if the workload's name is |
| LogText.StatsLineMatches | src/rt_client_server/rt_client.cc:188-194 | a line of statistics gives its pattern the two numbers if both have a decimal point, and nothing otherwise |
| LogText.StatsLineMatchesNothingElse | src/rt_client_server/rt_client.cc:285-287 | it is no header, no end of a run, and no line of the other statistics |
| LogParser.OnlyTellingLinesMatter | src/rt_client_server/scripts/run_transports.py:149-172 | lines that match no pattern can stand anywhere |
| LogParser.EntriesAreUnderOwnKeys | src/rt_client_server/scripts/run_transports.py:166-172 | on any lines at all every entry is under its own count or, with one count, its own size |
| LogRuns.LineTells | src/rt_client_server/rt_client.cc:246-287 | which of the four patterns find what in each of the client's five lines, whatever the two names and the two numbers |
| LogRuns.ReadRun | src/rt_client_server/rt_client.cc:246-287 | the output of one harmless run, cut after any of its lines, never makes the parser raise, and adds an entry only if the run completed |
| LogRuns.MisleadingWorkload | src/rt_client_server/scripts/run_transports.py:156-172 | a workload named with the words that end a run: the figures that follow, or the end of the run, make the parser raise, and a run that is cut before that leaves an entry |
| LogRuns.MisleadingTransport | src/rt_client_server/scripts/run_transports.py:156-172 | a transport whose name misleads makes an empty parser raise or leaves a wrong entry |
| LogRuns.ReadsCorrectly | src/rt_client_server/scripts/run_transports.py:149-172 | the output of one run, complete or cut, is read correctly after every state if and only if it is harmless: no name printed contains the words that end a run, except for a false entry that the run's own overwrites, and no number printed is negative, except in a run that is cut before figures or whose name looks like a header |
| LogRuns.NegativeRunMixes | src/rt_client_server/scripts/run_transports.py:139-172 | a completed run with a negative number after one that was cut behind its header leaves an entry with the numbers of the one and the figures of the other |
| LogRuns.MixingHappens | src/rt_client_server/scripts/run_transports.py:262-267 | with counts and sizes that the script's options allow: 16 blocks of 4096 bytes, cut, and none of -4096 |
| LogRuns.NegativeRunRaises | src/rt_client_server/scripts/run_transports.py:262-267 | by itself the second of these makes the parser raise |
| LogRuns.MisleadingName | src/rt_client_server/scripts/run_transports.py:269-275 | a workload called "write Test passed" makes the parser raise; the script's choices exclude it, the client takes it |
| LogRuns.ParsesTheLastCompletedRuns | src/rt_client_server/scripts/run_transports.py:138-174 | on the text of any concatenation of complete and cut harmless runs there is an entry for exactly the keys with a completed run, each from the last completed one alone |
| LogRuns.KeyedByCount | src/rt_client_server/scripts/run_transports.py:138-174 | with several block counts the result has an entry for exactly the counts of the completed runs, each with that count and the other figures of the last completed run that has it |
| LogRuns.KeyedBySize | src/rt_client_server/scripts/run_transports.py:138-174 | otherwise it has one for exactly their sizes, each with that size and the other figures of the last completed run that has it |
| LogRuns.TwoCountsTwoEntries | src/rt_client_server/scripts/run_transports.py:166-172 | two completed runs with different counts keep an entry each, whatever their sizes |
| LogRuns.EntryIsComplete | src/rt_client_server/scripts/run_transports.py:140-141 | in what the parser returns for such a log, an entry has its throughput if and only if both numbers were printed with a decimal point, and likewise its latency; otherwise it has neither number of the pair |
| LogRuns.SingleOperationLosesFigures | src/rt_client_server/rt_client.cc:188-194 | a completed run with deviations printed as 0, as after a single operation, is parsed into one entry without any figures |
| LogParser.ParseLine | src/rt_client_server/scripts/run_transports.py:149-172 | one turn of the loop, the four patterns tried in order on one object and a dictionary of objects, raises or reaches the next state as specified |
| LogParser.ParseFile | src/rt_client_server/scripts/run_transports.py:138-174 | the loop over lines, filling one object after the other, returns what the specification of the pass says, or raises when it does; on any lines at all every entry is under its own count or, with one count, its own size |

## Left out

- Which error a failed evaluation reports, and what the client prints about it: every failure is one outcome.
- Floating-point meaning of the calculator's operators: they are arbitrary total functions on 64-bit patterns.
- Client functions that call back into the server and client-hosted values: a client function is a pure partial function of its arguments. A null capability behaves as a capability of the wrong kind.
- The libraries themselves: gRPC, Cap'n Proto, kj promises and protobuf appear as environments that may do any step their interface allows, with queues that deliver in any order and, for Cap'n Proto, calls in order and returns in any order.
- GreeterServerImpl.ServerImpl.HandleRpcs: one thread without interruption; any number of threads, interrupted anywhere, are covered by the statement machine. Objects are entries of a heap map rather than Dafny objects, because they delete themselves and their addresses are used again.
- GreeterClientImpl.ClientImpl.Follow: the two threads of the client are not interrupted inside a call here; the statement machine interleaves them freely.
- Completion-queue shutdown and events with ok false: the programs abort there, so such a run stops and nothing later is claimed.
- Deadlines and broken connections appear as a step that may break the stream at any time; how long anything takes does not appear.
- The window counts messages, not bytes.
- Endpoints.SendReqOverGrpc: the code runs as one schedule, with the server's part in the middle, and its effect is that of a run of the machine; the other schedules and broken streams are covered by GrpcExchange.
- Endpoints.SendReqOverCapnp: one schedule, likewise; the others are covered by CapnpExchange.
- That SerializeToString fails on a message longer than 2^31 - 1 bytes and leaves the string empty is protobuf's behaviour and not in this repository; its source is not part of this model. Memory that runs out and gRPC's own limit on a message are not modelled either.
- Protobuf input that no program here produces: other wire types and merging of repeated parts. A parse that fails leaves an empty payload rather than what was read before the error.
- EndToEnd.Operation: one schedule of an unbroken exchange, with the handler as a function, which RunReceive proves to be the server's code; gRPC's limit on a received message, 4 MB unless set, is not modelled; all others, failures included, are covered by EndToEnd.OverGrpc and EndToEnd.OverCapnp. Counts up to 2^31 - 2 and sizes up to 2^31 - 1, not negative: the client's own loop bound `blockCount + 1` overflows beyond that.
- EndToEnd.Operations: the same single schedule for each operation. The client's throughput and latency arithmetic, and the overflow of `payloadBytes`, are left out.
- WorkloadImpl.ServerRcvFn: what happens after the overflow of `blockCount + 1`, which is undefined, and when memory runs out.
- A comparison that reads past a string's closing zero byte is a verdict of its own, since what it reads is undefined.
- LogRuns.ParsesTheLastCompletedRuns: runs are cut after whole lines, lines come without their line ends, figures are kept as the printed texts rather than as floats, and keys as the printed integers.
- The handler's exceptions abort the server process, and the client then sees a broken stream; restarting is not modelled.
- The rsocket, null and FlatBuffers transports and the Cap'n Proto streaming sample: they add no meeting point with the specification, or repeat one that is proved.
- The synchronous greeters, flags, logging, signals, sockets, plotting and process control.
