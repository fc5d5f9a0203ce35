# Scalable endpoints: a model of `src/Scalable.hs`

`src/Scalable.hs` holds two programs. The comments carry, block by block, the C
program for libfabric's scalable endpoints, here called the **reference**; the code
between them is a Haskell translation, here called the **port**. This project models
both and proves what the reference guarantees, what the port keeps of that, and
exactly where the two differ.

The reference opens a scalable endpoint with `n` transmit and `n` receive contexts,
each with its own completion queue, and then talks to a second process running the
same program. The client sends its address to the server's receive context 0, the
server answers, and the client sends `DATA + i` to receive context `i` for each `i`.
All sends of a process leave from one `tx_buf`, all receives land in one `rx_buf`.

## The parts

| files | content |
|---|---|
| `Bits.dfy`, `Address.dfy` | 64-bit receive-context addresses and the number of bits they need |
| `Chain.dfy`, `PortChains.dfy` | the operator `\|->` of the port, with its integer conversions, against "stop at the first error" |
| `Setup.dfy` | the calls made by `init_fabric`, `alloc_ep_res` and `bind_ep_res`, in both programs, for every pattern of failures |
| `Numbers.dfy`, `Order.dfy` | a number for each call of the program text, and the order and number of all calls |
| `Program.dfy` | the statements of the reference's `init_av` and `run_test` |
| `Resources.dfy`, `Teardown.dfy`, `Endpoint.dfy` | the reference's globals as a class with arrays; what is open after a setup that failed anywhere, and what the teardown closes |
| `Polling.dfy` | `wait_for_comp` and `doWhile` |
| `Process.dfy` | `run` of one program under arbitrary codes and queue results: the reference, the port, and when they agree |
| `Buffers.dfy` | size and layout of the message buffer |
| `Transport.dfy` | the transport in one direction |
| `Protocol.dfy`, `Invariant.dfy`, `Steps.dfy` | client, server and network as a state machine, and its invariant |
| `Progress.dfy`, `Runs.dfy` | no deadlock; every run has the same length |
| `Exchange.dfy` | who receives what, `tx_buf`, conservation of messages and receives |
| `Connection.dfy` | the programs of the state machine call what the model of one program says |
| `Outcomes.dfy`, `Schedules.dfy` | exactly what the server's comparisons can find in the shared `rx_buf` |

## What is assumed of libfabric

* A call is named by its operation and its context index, and an arbitrary function
  gives its code. In one setup each such call is made at most once. `ft_getinfo` and
  `ft_alloc_ep_res` count as one call each, whose code is the one the reference's
  version returns; the port's versions make the call and return 0.
* The limits of the provider are what a program finds behind `fi`. They are arbitrary
  also after a failing `fi_getinfo`, when the port still reads them.
* A call that fails writes no handle.
* `fi_cq_read` gives a value in the range of a C `int`.
* Messages are not lost, doubled or damaged. They may overtake each other, in every
  order. A message that arrives before a receive is posted is kept until one is, and
  is then received by it; several such messages are received in the order of arrival.
* The bytes of a send are read from `tx_buf` at some time after `fi_send` returned.
  When a send completes depends on the completion level: `OnDelivery` means once its
  message is in a receive buffer, `OnTransmit` already once its bytes were read.
  Everything is proved for both.
* The transport resolves an address by the shift and mask that undo `fi_rx_addr`, and
  an address that names no context of the peer makes `fi_send` fail. Passing anything
  but the client's address to `ft_av_insert` makes it fail.
* In the two-party model the other calls succeed.

The number of contexts is arbitrary. The two-party model asks for `1 <= n < 2^31` and
for address handles that leave the index bits free, which is what `fi_rx_addr` needs.

## Results

* Every run of client, server and network, under every interleaving, has at most
  `10n + 19` steps. It has that many exactly when both programs are done, and before
  that some step is always possible. Every partial run can be completed.
* Each receive context gets its own messages in order: on the server's context 0 the
  address and then `DATA`, whatever overtakes what. `ft_av_insert` sees the address.
* `tx_buf` is written only when every earlier send has its completion, so messages
  carry the bytes `fi_send` was called with.
* The comparison in `run_test` does not do what its failure message suggests: all
  receives share `rx_buf`, so comparison `i` may find the data of another context. The
  records of comparisons that complete runs produce are characterised exactly, in both
  directions, for both completion levels. With one context the comparison cannot
  fail; with more it can, at every context (at every one but the last, if sends
  complete on delivery).
* A setup may fail at any call. The teardown then closes each handle that was
  opened exactly once and nothing else, contexts before queues and before the
  endpoint, whatever the closes return.
* Port and reference are compared call by call, with the exact condition under which
  they agree, for the setup, for `wait_for_comp`, for the bit count, for the buffer
  size, for chains of `|->`, and for the whole of `run`. The port ignores a failing
  `fi_getinfo`, and it transfers no data: whenever the reference gets as far as
  `run_test`, the two differ.

## Model

| member | source | states |
|---|---|---|
| Address.CountContextBits | src/Scalable.hs:267-270 | the loop ends with the least number of bits, at least one, that can hold the context count, and never shifts an int by more than 31 |
| Address.BitCountUnique | src/Scalable.hs:267-268 | "least number of bits that can hold c" determines the number |
| Address.CtxShiftRFrom | src/Scalable.hs:255-260 | from any start that is not past the answer, `ctxShiftR` gives one more than the reference |
| Address.PortBitCount | src/Scalable.hs:255-260 | for every CInt: one more than the reference for counts from 1, the same for 0, 1 for negative counts; at most 32; every index below the count is covered |
| Address.RxAddrSum | include/fi_domain.h:488-492 | the 64-bit shift and OR is the sum of the base and the index reduced modulo 2^bits, for every int index |
| Address.RxAddrBits | include/fi_domain.h:488-492 | for every base and index, bit by bit: a bit of the address is that bit of the base or the bit of the index that was shifted there |
| Address.RxAddrRoundTrip | include/fi_domain.h:488-492 | shift and mask recover index and base, and the address fits 64 bits |
| Address.RxAddrInjective | include/fi_domain.h:488-492 | two addresses are equal exactly when base and index are |
| Address.RxAddrIsBase | include/fi_domain.h:488-492 | index 0, and no other, gives the base unchanged |
| Address.DistinctIffEnoughBits | include/fi_domain.h:488-492 | the addresses of cnt contexts are distinct exactly when cnt <= 2^bits |
| Address.ContextsDistinct | src/Scalable.hs:267-270 | with the reference's bit count all contexts of the peer have distinct addresses |
| Address.FillRxAddrs | src/Scalable.hs:642-643 | the loop stores the address of every context index in its cell |
| Chain.CutIsStop | src/Scalable.hs:287-311 | the calls made by a block of checked calls are the one prefix in which only the last call may have failed and that ends with a failure or with the whole block |
| Chain.ChainStopsAtFirstError | src/Scalable.hs:826-833 | a chain of any shape that converts codes only to types at least as wide makes the calls up to the first error and returns that error |
| Chain.Reassociate | src/Scalable.hs:826-833 | two such chains with the same calls in the same order behave alike, however they are grouped |
| Chain.NarrowingLosesAnError | src/Scalable.hs:826-833 | for every chain of distinct calls with a narrowing conversion there is a behaviour, within the types of the calls, in which one call fails and the chain gives 0 |
| Chain.FaithfulIffWidening | src/Scalable.hs:826-833 | a chain of distinct calls returns the first error for all codes its types allow exactly when it never narrows |
| Chain.RepeatedCallIsSafe | src/Scalable.hs:826-833 | distinctness is needed there: a narrowing chain of one call made twice returns every error |
| PortChains.FabricChainIsFaithful | src/Scalable.hs:521-522 | the chain in `init_fabric` stops at its first error and returns it |
| PortChains.FabricChainIsPortHead | src/Scalable.hs:500-522 | with the codes that reach it, 0 among them from `ft_alloc_ep_res`, it is what the port does before its loops |
| PortChains.ClientExchangeIsFaithful | src/Scalable.hs:585-588 | so does the client's chain in `init_av`, whose types only widen |
| PortChains.ServerExchangeNarrows | src/Scalable.hs:594-595 | a statement about types: the server's chain puts a CInt between two CLongs and so is not faithful to every CLong; grouped to the right it would be |
| PortChains.ServerExchangeExact | src/Scalable.hs:594-595 | it makes the calls up to the first error and gives that error exactly when the code of its wait fits a CInt |
| PortChains.WaitedChainStops | src/Scalable.hs:396-410 | the code of the port's wait always does: whatever the queue holds, client's and server's chain in `init_av` make the calls up to the first error and give it |
| PortChains.PortExchangeIsChain | src/Scalable.hs:576-595 | the exchange in the model of the whole port is that typed chain, with the reads of its wait spelled out |
| Setup.AllocAgrees | src/Scalable.hs:232-314 | the port opens what the reference opens exactly when nothing before the last open fails; the port never stops |
| Setup.PortBindCalls | src/Scalable.hs:316-339 | exactly which calls the port's `bind_ep_res` makes: after the first bind it visits every index, and an error cuts only the chain of that index |
| Setup.BindAgrees | src/Scalable.hs:316-394 | it makes the reference's calls exactly when the first bind fails or every call in both loops succeeds |
| Setup.RefStaysBelow | src/Scalable.hs:534-560 | whatever fails, the reference opens, binds, enables and posts only contexts below both counts in ep_attr; the counts it wrote are at most the requested one and the provider's; if it succeeds, the contexts opened are just those |
| Setup.AttrIsGreatest | src/Scalable.hs:507-543 | both ep_attr counts are the greatest count within the request and the provider's two limits, in both programs; ep_attr is left alone by the reference after a failing `ft_getinfo` and by both if that count is 0 |
| Setup.NegotiatedIsGreatest | src/Scalable.hs:535-536 | the negotiated count is that greatest count |
| Numbers.RefRunIsSetup | src/Scalable.hs:263-394 | all of `init_fabric` in the reference: its kth call is call number k of the program text, all before the last gave 0, and its code is that of the last call, 1 without contexts, -1 without memory, or 0 after all 9n + 8 calls |
| Numbers.PortInitIsSetup | src/Scalable.hs:500-524 | all of `init_fabric` in the port: exactly which calls, in the order of the program text, and the code |
| Setup.PortStaysBelowIff | src/Scalable.hs:507-524 | the port stays below its ep_attr counts exactly when the provider supports the requested count or it stops before the loops; in its loops it opens exactly the contexts in ep_attr in the first case only |
| Setup.GetInfoIgnored | src/Scalable.hs:869-874 | a failing `ft_getinfo` ends the reference with its code after one call; the port goes on to `fi_fabric` |
| Setup.AllocResIgnored | src/Scalable.hs:1125-1215 | a failing `ft_alloc_ep_res` ends the reference with its code; the port makes all its opens and gives 0 |
| Setup.NoProviderIsIgnored | src/Scalable.hs:869-874 | the input: with -FI_ENODATA from `fi_getinfo` alone and one context, the reference returns it and the port sets everything up and gives 0 |
| Setup.InitAgreesIff | src/Scalable.hs:499-561 | calls and result of `init_fabric` are the same in both programs exactly when the count is 0 and `ft_getinfo` gave 0 or 1, or `ft_getinfo` succeeded and then one of the next four calls fails, or memory is there, the requested count is supported and nothing fails |
| Polling.WaitForComp | src/Scalable.hs:412-428 | the loop passes over -EAGAIN and nothing else, and returns 0 exactly for a result of 0 or 1, and any other result as it is |
| Polling.DoWhileStops | src/Scalable.hs:396-410 | the port stops at the first result that is not negative |
| Polling.PortAgreesIff | src/Scalable.hs:396-428 | port and reference agree, in code and number of reads, exactly when the first result other than -EAGAIN, if there is one, is not negative |
| Polling.PortReadsOn | src/Scalable.hs:396-410 | the port never stops earlier than the reference and never reports an error |
| Polling.CompletionIsAwaited | src/Scalable.hs:396-428 | after k times -11 and then 1, both programs have read k + 1 times and give 0 |
| Process.WaitInBoth | src/Scalable.hs:396-428 | one wait in both programs: the same for a queue that stays empty or first has a count, and more reads by the port after an error |
| Program.Exchange | src/Scalable.hs:603-640 | the statements of the exchange, client and server, do the checked calls in order and stop at the first error |
| Program.RunTest | src/Scalable.hs:463-497 | the loop of `run_test`, client and server: the calls in the order of the program text, none left out, each wait with the reads its queue takes, and the code of the call that ends it |
| Process.RestAgreesIff | src/Scalable.hs:430-653 | after a successful `init_fabric`, port and reference do the same exactly when they wait for the peer for ever, or the exchange succeeds and then the further receive cannot be posted or the wait for the own send goes on for ever or gives a count above 1 |
| Process.PortExchange | src/Scalable.hs:576-595 | the port's exchange, call by call, for every failure and every queue |
| Process.PortAfterExchange | src/Scalable.hs:563-574 | after the exchange, with whatever code, the port posts the receive, reads the queue of its first send exactly if that gave 0, ends with the code of the one or the other, and calls nothing more |
| Process.PortSendsAfterErrors | src/Scalable.hs:442-452 | the port's send loop, were it entered with a nonzero code, goes on to the next context only after an error |
| Order.ProcessRuns | src/Scalable.hs:661-679 | a whole run of the reference: after `init_fabric` as above, all calls of `init_av` and `run_test` in the order of the program text, none left out, each wait with just the reads its queue takes, every call but the last successful, and the code or the wait it ends with |
| Order.WaitAfterSend | src/Scalable.hs:471-481 | in such a run the wait for a send stands after the send |
| Order.RoundAfterRound | src/Scalable.hs:471-494 | everything for context i stands before everything for context i + 1 and later ones |
| Order.SendFailureEnds | src/Scalable.hs:474-479 | a failing send is the last call and its code is the result |
| Order.TransfersBelow | src/Scalable.hs:471-494 | no context from n on is sent to or waited for, and no program makes the other's calls |
| Process.ProcessAgreesIff | src/Scalable.hs:655-679 | calls and result of `run`, for client and server, are the same in both programs exactly when those of `init_fabric` are and it fails or is followed by the same rest |
| Process.RefTransfersAll | src/Scalable.hs:463-497 | a run of the reference that returns 0 took part in the transfer of every context below the negotiated count |
| Process.PortTransfersNothing | src/Scalable.hs:430-460 | the port takes part in none, whatever happens |
| Process.SuccessDiffers | src/Scalable.hs:655-679 | whenever the reference returns 0, the port has done something else |
| Buffers.PortSizeIsRefSize | src/Scalable.hs:1436-1467 | the port's factored size equals the reference's sum of two products, even when size_t wraps |
| Buffers.LayoutApart | src/Scalable.hs:1490-1495 | all receive slots and send slots are pairwise disjoint |
| Buffers.LayoutInsideIff | src/Scalable.hs:1490-1495 | the slots fit an allocation exactly when it has at least the unwrapped size |
| Buffers.FitsIffNoOverflow | src/Scalable.hs:1466-1495 | the slots fit the computed size exactly when its computation does not wrap |
| Buffers.MessageBuffers.AllocWindow | src/Scalable.hs:1463-1495 | a slot is the least size that holds the message and 256 bytes; buf_size and tx_buf are computed from such slots; every slot has its own place inside the buffer, the receive of MAX(rx_size, 256) and the 256 bytes of `fi_getname` among them, exactly when the size with its alignment does not wrap |
| Buffers.SlotIsLeast | src/Scalable.hs:1466-1467 | MAX(size, 256) is that least size |
| Buffers.MessageBuffers.AllocMultMr | src/Scalable.hs:1457-1493 | the same for one region per message, both directions when the two message sizes do not wrap |
| Endpoint.ScalableEndpoint.OpenContexts | src/Scalable.hs:287-313 | the loop makes the calls up to the first error and returns it; exactly the cells whose open was made and succeeded hold a handle |
| Endpoint.ScalableEndpoint.AllocEpRes | src/Scalable.hs:263-314 | the same for the whole function, with the errors of `ft_alloc_ep_res` and of missing memory, and the bit count |
| Endpoint.ScalableEndpoint.BindEpRes | src/Scalable.hs:342-394 | both loops and the calls around them stop at the first error |
| Endpoint.ScalableEndpoint.InitFabric | src/Scalable.hs:527-561 | calls and result are those of the negotiated count, which is the greatest within request and limits; ep_attr holds it, and the arrays hold exactly the handles that are open |
| Endpoint.ScalableEndpoint.InitAv | src/Scalable.hs:598-653 | the calls and the code of the exchange and the further receive, and the address of every context of the peer in its cell if the exchange succeeded and only then |
| Endpoint.ScalableEndpoint.Run | src/Scalable.hs:661-679 | `run`: calls and result of the three parts for all codes, with the arrays left as `init_fabric` filled them |
| Endpoint.ScalableEndpoint.CloseCells | include/shared.h:325-347 | every stored handle is closed once, in order, and every cell is cleared, whatever a close returns |
| Endpoint.ScalableEndpoint.FreeRes | src/Scalable.hs:207-229 | closes the stored handles in the order of the four arrays and clears the arrays; a second call closes nothing |
| Endpoint.ScalableEndpoint.CloseSep | include/shared.h:325-337 | the scalable endpoint is closed if it was opened, and the global is cleared |
| Endpoint.Session | src/Scalable.hs:816-820 | a whole process, for every pattern of failures in `init_fabric`, `init_av` and `run_test`: calls and result are those of the reference's `run`, each handle that was opened is closed exactly once and in the order of the source, nothing else is, no queue or endpoint before what uses it, and nothing stays open; a process that waits for ever closes nothing |
| Teardown.ClosingOf | src/Scalable.hs:207-229 | `free_res` closes exactly the open contexts and queues, each once, and every open context before any queue |
| Teardown.ClosingInOrder | src/Scalable.hs:207-229 | `free_res` closes rx_ep, tx_ep, rxcq_array and txcq_array in this order and each by ascending index |
| Teardown.AllClosingInOrder | src/Scalable.hs:816-820 | and the scalable endpoint after them |
| Teardown.FreeResIsSafe | src/Scalable.hs:207-229 | at every prefix of `free_res` nothing is closed that an open context uses; afterwards only the scalable endpoint can be open |
| Teardown.TeardownIsSafe | src/Scalable.hs:816-820 | the same for the whole teardown, which leaves nothing open |
| Teardown.SetupIsConsistent | src/Scalable.hs:287-313 | after any partial setup the arrays hold exactly what the record of calls says is open |
| Teardown.OpenAfterCalls | src/Scalable.hs:287-313 | a handle is open after a setup exactly when its open was made and succeeded |
| Protocol.RouteOfRxAddr | src/Scalable.hs:642-643 | the address stored for context i leads to receive context i of the peer |
| Protocol.RouteOfBase | src/Scalable.hs:615-616 | the address from the address vector leads to receive context 0 |
| Protocol.RouteIff | include/fi_domain.h:488-492 | an address leads to context i of a peer exactly when it is the peer's address for an index i below n |
| Transport.SendOk | src/Scalable.hs:474-475 | a send on a context whose messages were received, with no send waiting, keeps the transport's invariant |
| Transport.PostOk | src/Scalable.hs:645 | posting a receive keeps it, also when a message is already there |
| Invariant.InitInv | src/Scalable.hs:658 | the invariant of client, server and network holds before the first receive is posted |
| Invariant.Causality | src/Scalable.hs:603-640 | who has read an answer was answered: the client's reply was sent, the server's address was sent, and data is sent only after the reply was read |
| Invariant.AddressFirst | src/Scalable.hs:622-640 | before the server's reply no data is received, and `rx_buf` holds the address once it was received |
| Steps.InvStep | src/Scalable.hs:463-653 | every step of client, server or network keeps the invariant |
| Steps.InvReachable | src/Scalable.hs:463-653 | the invariant holds in every reachable state |
| Steps.ServerInserts | src/Scalable.hs:626-632 | the bytes passed to `ft_av_insert` are the client's address |
| Steps.BufferAtComparison | src/Scalable.hs:484-493 | when the server compares, `rx_buf` holds the data received last; if sends complete on delivery, that of this context or of a later one |
| Progress.StepRest | src/Scalable.hs:463-653 | every step lowers the number of remaining steps by exactly one |
| Progress.SomeStep | src/Scalable.hs:463-653 | unless both programs are done, a step is possible |
| Progress.ClientProgress | src/Scalable.hs:471-482 | once the server is in `run_test`, the client gets on although the server does nothing more |
| Runs.EveryRunEnds | src/Scalable.hs:463-653 | every run has at most 10n + 19 steps; it has that many, and no step is possible, exactly when both programs are done |
| Runs.EveryRunCanFinish | src/Scalable.hs:463-653 | every partial run can be continued until both programs are done, in exactly the steps that were left |
| Exchange.EachContextGetsItsOwn | src/Scalable.hs:598-653 | the messages received in each context are, in order, a prefix of those meant for it: on the server's context 0 the address and then DATA |
| Exchange.NoCallFails | src/Scalable.hs:614-639 | every address resolves, the bytes passed to `ft_av_insert` are the client's address, and the reply goes to the client |
| Exchange.DataAfterReply | src/Scalable.hs:603-640 | data is sent only after the reply was received, the reply only after the address was received as the first message |
| Exchange.TxBufIsFree | src/Scalable.hs:471-481 | `tx_buf` changes only in a store, and at every store all sends from it have their completions |
| Exchange.SentAsCalled | src/Scalable.hs:608-640 | the bytes the network will read for a waiting send are those at its call |
| Exchange.Conservation | src/Scalable.hs:366-493 | per context: messages sent = waiting + on the wire + early + received, as multisets of their contents; receives posted = outstanding + used; sends = without completion + completion in the queue + completion read |
| Exchange.FinalCounts | src/Scalable.hs:366-385 | at the end the server received n + 1 messages and has no receive outstanding, the client received one and has one outstanding in each context |
| Exchange.ContextsBelowNegotiated | src/Scalable.hs:366-497 | in every reachable state every context posted to, sent from or to, waited for or addressed is below the count that `init_fabric` negotiated, and each stored address leads to the context of its cell |
| Exchange.ExchangeFollowsSetup | src/Scalable.hs:366-385 | after a successful `init_fabric` one receive is posted in just those contexts that ep_attr asked for, which is where the exchange starts |
| Connection.CompleteRunCalls | src/Scalable.hs:463-653 | along a complete run of client, server and network each program posts its receives and then calls, in order, what the model of one program says when all succeeds |
| Connection.EveryRunCalls | src/Scalable.hs:463-653 | along every run each has called a first part of that |
| Outcomes.HistoryOfRun | src/Scalable.hs:483-493 | along every run the record of comparisons fits the contents that `rx_buf` had |
| Outcomes.ProducedIsPossible | src/Scalable.hs:483-493 | records of complete runs: contents that left the buffer do not return, what comparison m waited for was written by then; if sends complete on delivery, comparison i finds i or later and never goes back |
| Schedules.PossibleIsProduced | src/Scalable.hs:463-497 | every such record is produced by a complete run |
| Schedules.RecordsOfRuns | src/Scalable.hs:463-497 | the records of complete runs are exactly those |
| Schedules.FindsExactly | src/Scalable.hs:483-493 | comparison i can find DATA + j exactly when j < n and, if sends complete on delivery, i <= j |
| Schedules.ComparisonCanFail | src/Scalable.hs:483-493 | comparison i can find something else than DATA + i exactly when n >= 2 and, if sends complete on delivery, i is not the last |

## Left out

- Endpoint.Session: `ft_free_res`, which is declared in `include/shared.h` and has no body in the repository, is not part of this model; it would close fabric, domain and the other shared objects. Nor is `ft_exit_code`.
- Endpoint.ScalableEndpoint.FreeRes: `remote_rx_addr` is never freed by the reference; memory itself is modelled only as arrays that are there or not.
- Setup.RefStaysBelow: counts are natural numbers; the comparison of an int with a size_t limit is exact for them.
- Setup.InitAgreesIff: `ft_getinfo` and `ft_alloc_ep_res` are single calls; which calls they make inside is not compared.
- Polling.WaitForComp: works on a finite run of results; a queue that says -EAGAIN for ever keeps it polling, and the model gives that as `StillPolling`.
- Process.RestAgreesIff: the port's `run_test_recv` is modelled only for the arguments (0, 0) it is called with.
- Address.CountContextBits: a negative count, for which C's loop shifts by the width of an int, is undefined in C.
- Buffers.MessageBuffers.AllocWindow: takes the message sizes as given, and leaves out page alignment of the start, the memory registration and the context arrays that follow; the port's formula is never reached, because its `ft_check_opts` is constantly true.
- Buffers.MessageBuffers.AllocMultMr: for a prefix size within 256 of 2^64, where the message size itself wraps, only that a good layout follows from an unwrapped total.
- The two-party model is the reference's, because the port transfers no data; its `init_av` also drops the addresses it computes and passes 0 bits to `fi_rx_addr`.
- The port's `free_res` closes without a null test and without clearing, and its main function never calls it; only the reference's teardown is modelled.
- The port applies `advancePtr` to a handle instead of the array of handles; calls are named by operation and context index instead.
- Failing provider calls in the two-party model: under arbitrary codes `Process` follows one program, not both. Reads that find a queue empty are not steps there.
- What memcmp sees beyond the first word of a buffer, and partial overlap of a store with a concurrent delivery to `rx_buf`.
- `FT_EP_BIND`, which the program does not use; option parsing, printing, `getaddr`, wait attributes, `Storable` layouts, version macros and the generated bindings.
- The inline dispatchers in the headers: each calls a provider function that is not part of this model.
