# Calldata decoding, the worker pool and the observer

This project models three parts of the LiquidCats `libraries` repository in Dafny and proves what they
promise.

* **The EVM calldata decoder** (`evm-lib/parser/codecs`). ABI readers, the MultiSend, Disperse, heuristic and
  fixed-word decoders, the two wrapper decoders that recurse into batches, and the chain that dispatches by
  selector. The code is modelled twice: as methods on 64-bit integers and mutable decoder objects, in the shape
  of the Go code, and as functions on byte strings that say what is decoded (`Abi`, `MultiSend`, `Heuristic`,
  `Disperse`, `Leaves`, `Calldata`). Every method is proved to compute what the functions say, for any graph of
  chains and wrappers, cyclic ones included (`Decoders`). The theorems are about the functions: the encoder of
  the Solidity Contract ABI Specification ("Formal Specification of the Encoding") is written out for whole
  trees of nested batch calls, and decoding undoes it (`Encoding`, `RoundTrip`, `Wiring`); every other supported
  call is followed from its selector's bytes to its transfers (`Dispatch`).
* **The autoscaling worker pool** (`workers/worker.go`). A transition system with one step per atomic action:
  every load, store, compare-and-swap, channel operation, handler start and end, and deferred decrement of
  every goroutine is its own step, and all interleavings are runs (`Pool`). Invariants of every reachable state
  are in `PoolSafety`, `PoolShutdown`, `PoolOutcomes`, `PoolTokens`, `PoolFloor`, progress in `PoolProgress`, closed forms for scaling in `PoolScaling` and
  `PoolIdle`, and exact characterisations of what the pool does *not* guarantee in `PoolLimits`, `PoolFull` and
  `PoolDrops`, with the runs built in `PoolReach`.
* **The observer** (`observer/observer.go`). The registry of Go slices over shared arrays, appended to in place
  (`Registry`), and the fan-out as a transition system (`Delivery`, `DeliveryOutcomes`), whose registration and lookup steps the
  registry's methods are proved to take.

## What does not hold, and exactly when it does

* *"Every accepted item is handled."* A worker that has received an item drops it when another one has already
  seen the closed channel. `PoolDrops.DropsExactly`: a run can drop d accepted items if and only if d is at most
  max − 1 (and min is positive), so only a pool with max = 1 drops nothing. Items still queued at a
  cancellation stay in the queue.
* *"The pool keeps at least min workers."* A scale-down counts workers that have been told to leave but are
  still counted. `PoolLimits.FloorExactly`: the floor is kept in every run if and only if min = max, or minLoad
  = 0, or min is negative. Waiting for an empty `deflateCh` before each scale-down is not enough, since a token
  already taken but not yet obeyed counts too. `PoolFloor.FloorAlways` gives the condition on a run that is
  enough: each scale-down was decided on a load that covers the tokens still out, taken ones included.
* *"A scale-down sends at least one token."* The send gives up on a full `deflateCh` (`workers/worker.go:177-180`).
  `PoolFull.SendsNothing` is an undisturbed run, for any 1 ≤ min < max and positive minLoad, whose last scale-down
  sends nothing; `PoolFull.SendsNothingExactly`: this happens if and only if the options let the pool scale down.
  `PoolTokens.EmitsAlways` says what is sent in every run: at most what is asked for, which is at most the loaded
  surplus over min, and all of it whenever it fits next to the tokens queued at the load, in particular whenever
  the load covers the tokens still out.
* *The pool can die.* The same race can remove every worker, and with no worker left the autoscaler skips every
  tick. `PoolLimits.DiesExactly`: this is reachable, with no cancellation, error or close, if and only if min is
  negative or the pool can scale down at all; `PoolLimits.DeadStays`: it is for ever.
* *`New` returns an error instead of panicking* (`workers/README.md:39-42`). `Pool.New`: it panics exactly when
  min ≤ max < 0 and the other options pass. It also accepts a negative min, which starts no worker.
* The comment at `evm-lib/parser/codecs/heuristic.go:23` says that values at or above 2^240 are rejected; the
  code accepts 2^240 itself, and so does the model.
* `README.md:162-163` and the comment at `evm-lib/parser/codecs/chain.go:18-22` say that a `*parser.Parser` can
  be a wrapper's sub-parser; it has no `ParseBytes`, so the sub-parser is always a `Chain` here.

## Model

| member | source | states |
|---|---|---|
| Abi.TestMeansFits | evm-lib/parser/codecs/abi.go:24 | the 64-bit bounds test every reader begins with means that a word fits if and only if the offset is at most 2^63 − 33; above, the sum wraps and the slice expression would panic |
| Abi.ReadWordAt | evm-lib/parser/codecs/abi.go:23-31 | succeeds exactly when 32 bytes fit at the offset, and returns those bytes; no 64-bit expression wraps |
| Abi.ReadAddressAt | evm-lib/parser/codecs/abi.go:38-46 | the low 20 bytes of the word, or an error exactly when the word does not fit |
| Abi.ReadUint256At | evm-lib/parser/codecs/abi.go:53-59 | the number the word spells, big-endian |
| Abi.ReadOffsetAt | evm-lib/parser/codecs/abi.go:84-93 | the word's value when it is at most 2^31 − 1, else an error |
| Abi.ReadDynamicBytesAt | evm-lib/parser/codecs/abi.go:107-121 | exactly the length-prefixed bytes in bounds, with the 2^31 − 1 cap |
| Abi.ReadDynamicBytes | evm-lib/parser/codecs/abi.go:97-103 | the bytes behind the pointer in a head word |
| Abi.ReadArrayLength | evm-lib/parser/codecs/abi.go:125-134 | the length word when it is at most 10 000, else an error |
| Abi.ReadBytesArrayElements | evm-lib/parser/codecs/abi.go:138-165 | all elements behind pointers relative to the first pointer, in order, or an error as soon as one is unreadable |
| MultiSend.ExactTiling | evm-lib/parser/codecs/gnosis_multisend.go:46-80 | a blob is accepted if and only if it is a concatenation of 85-byte headers with two zero bytes in dataLen and data of the length its low 64 bits say; that tiling is the only one |
| MultiSend.PackRoundTrip | evm-lib/parser/codecs/gnosis_multisend.go:46-82 | unpacking a packed entry list gives its entries of positive value, in order |
| MultiSend.DecodeBlob | evm-lib/parser/codecs/gnosis_multisend.go:45-82 | the loop, with its unsigned length comparison, computes the transfers of that tiling or rejects |
| MultiSend.Decode | evm-lib/parser/codecs/gnosis_multisend.go:35-83 | the transfers of the blob the first parameter points to |
| MultiSend.RoundTrip | evm-lib/parser/codecs/gnosis_multisend.go:40-82 | decoding the ABI encoding of a packed entry list gives its entries of positive value, in order, and an error exactly when the blob is longer than 2^31 − 1 |
| Heuristic.ByteTest | evm-lib/parser/codecs/heuristic.go:98-114 | the byte tests on a word are the range 2^128 ≤ w < 2^160 |
| Heuristic.PlausibleAddressWord | evm-lib/parser/codecs/heuristic.go:98-114 | accepts exactly 32-byte words in that range and returns the address |
| Heuristic.ReadPair | evm-lib/parser/codecs/heuristic.go:66-73 | a window is a candidate exactly when its first word is in that range and its second in 1..2^240 |
| Heuristic.DedupMeans | evm-lib/parser/codecs/heuristic.go:63-78 | the `seen` map keeps every pair once, in order of first occurrence |
| Heuristic.DedupGrows | evm-lib/parser/codecs/heuristic.go:65-88 | scanning further windows only adds at the end |
| Heuristic.Decode | evm-lib/parser/codecs/heuristic.go:53-91 | the scan with its early break reports the first 64 of the deduplicated plausible pairs |
| Heuristic.ScanReports | evm-lib/parser/codecs/heuristic.go:65-88 | any parameters, read as 32-byte words, give the first 64 distinct pairs of a word between 2^128 and 2^160, as an address, and a next word between 1 and 2^240, as the amount |
| Heuristic.SplitIntoWords | evm-lib/parser/codecs/heuristic.go:65 | all parameters are words and up to 31 bytes more, so ScanReports covers them |
| Disperse.Decode | evm-lib/parser/codecs/disperse.go:26-73 | payments i = (address i, value i) of two arrays of equal length, or an error |
| Disperse.RoundTrip | evm-lib/parser/codecs/disperse.go:31-72 | decoding encoded arrays gives their zip when they are equally long and at most 10 000, and an error otherwise |
| Disperse.ZipConserves | evm-lib/parser/codecs/disperse.go:52-72 | the reported values sum to the sum of the values array |
| Calldata.FirstMatchIs | evm-lib/parser/codecs/chain.go:45-51 | a decoder is chosen if and only if it claims the selector and no earlier one does |
| Dispatch.DisperseCall | evm-lib/parser/codecs/disperse.go:20-73 | calldata `e63d38ed` plus the encoded arrays, given to any chain with the decoder before the fallback, reports exactly the payments, or fails exactly when the lengths differ or exceed 10 000 |
| Dispatch.MultiSendCall | evm-lib/parser/codecs/gnosis_multisend.go:29-83 | calldata `8d80ff0a` plus an encoded packed entry list reports exactly the entries of positive value |
| Dispatch.FixedCallParsed | evm-lib/parser/codecs/uniswap_v3_payments.go:35-97 | a call of any of the nine fixed-word functions of weth.go, aave_weth_gateway.go, uniswap_v2_router.go, uniswap_v3_payments.go and gnosis_safe.go, whatever follows its head words, reports exactly what it moves |
| Dispatch.ClaimsAlone | evm-lib/parser/codecs/chain.go:45-49 | no two decoders but the fallback one claim the same selector |
| Calldata.StepsShrink | evm-lib/parser/codecs/multicall.go:101-153 | every payload handed to the sub-parser lies in the parameters at byte 64 or later, so it is at least 68 bytes shorter than the enclosing calldata |
| Decoders.Chain.constructor | evm-lib/parser/codecs/chain.go:27-29 | the chain holds the given decoders |
| Decoders.Chain.Add | evm-lib/parser/codecs/chain.go:34 | appends one decoder in place |
| Decoders.Chain.ParseBytes | evm-lib/parser/codecs/chain.go:38-52 | computes `Calldata.Parse` for the graph the objects form, terminates for cyclic graphs, and changes no decoder |
| Decoders.Dispatch | evm-lib/parser/codecs/chain.go:13-16 | the call through the Decoder interface computes `Calldata.Decode` |
| Decoders.MulticallDecoder.SetSubParser | evm-lib/parser/codecs/multicall.go:37 | late binding of the sub-parser |
| Decoders.MulticallDecoder.Decode | evm-lib/parser/codecs/multicall.go:57-92 | for the six selectors, the reports of the batch's elements in order; an error without a sub-parser or for another selector |
| Decoders.MulticallDecoder.RecurseBytesArray | evm-lib/parser/codecs/multicall.go:96-109 | grows the output by what each payload of the bytes[] reports |
| Decoders.MulticallDecoder.RecurseTupleArray | evm-lib/parser/codecs/multicall.go:114-157 | the same for tuples; an unreadable element is an error for the whole batch |
| Decoders.MulticallDecoder.AppendSub | evm-lib/parser/codecs/multicall.go:162-171 | appends what the payload reports; a short or failing payload appends nothing |
| Decoders.Multicall3ValueDecoder.SetSubParser | evm-lib/parser/codecs/multicall3.go:29 | late binding of the sub-parser |
| Decoders.Multicall3ValueDecoder.Decode | evm-lib/parser/codecs/multicall3.go:37-51 | the reports of the calls of an aggregate3Value batch, also without a sub-parser |
| Decoders.Multicall3ValueDecoder.Calls | evm-lib/parser/codecs/multicall3.go:52-103 | each positive value just before the transfers of its own call |
| Decoders.Multicall3ValueDecoder.AppendInner | evm-lib/parser/codecs/multicall3.go:94-99 | the inner transfers, or nothing |
| Decoders.ReadCall | evm-lib/parser/codecs/multicall3.go:54-84 | the target, value and data of one call |
| Decoders.ReadTupleBytes | evm-lib/parser/codecs/multicall.go:132-152 | the bytes field of one tuple, relative to the tuple |
| RoundTrip.TreeRoundTrip | evm-lib/parser/codecs/multicall.go:57-171 | decoding the encoding of any tree of batch calls, nested to any depth, gives exactly what the tree means, also when it exceeds a cap |
| RoundTrip.NodeRoundTrip | evm-lib/parser/codecs/multicall3.go:53-100 | one batch, with its selector: the calls in order, each positive value before its call's transfers, failing calls contributing nothing |
| RoundTrip.ReadNode | evm-lib/parser/codecs/multicall.go:114-153 | the wrapper finds exactly the encoded calls, or fails exactly when a cap of the readers is exceeded |
| RoundTrip.ReadElement | evm-lib/parser/codecs/multicall3.go:59-84 | an encoded element is read back, or rejected for the size of its payload alone |
| RoundTrip.MeaningConserves | evm-lib/parser/codecs/multicall3.go:86-99 | the transfers a tree means add up to its leaves' transfers plus its aggregate3Value values |
| RoundTrip.DecodedValue | evm-lib/parser/codecs/multicall3.go:86-99 | decoding an encoded tree reports exactly that sum |
| Encoding.ArrayLayout | evm-lib/parser/codecs/abi.go:144-157 | where the length, the pointers and the elements of an encoded dynamic array lie |
| Encoding.ReadDynBytes | evm-lib/parser/codecs/abi.go:107-121 | encoded bytes are read back, or rejected for their length alone |
| Wiring.AddedLast | evm-lib/parser/codecs/chain.go:31-34 | a decoder added last gets exactly the selectors nobody claimed before |
| Wiring.BehindFallback | evm-lib/parser/codecs/heuristic.go:18-19 | nothing registered behind the heuristic decoder is ever reached |
| Wiring.SelfContainedRouted | evm-lib/parser/codecs/chain.go:31-52 | a chain that contains its own wrapper decoders routes every batch selector, at every depth, to them |
| Wiring.SelfContained | evm-lib/parser/codecs/multicall.go:35-37 | builds such a chain with late binding |
| Wiring.ParseEncoded | evm-lib/parser/codecs/chain.go:38-52 | the round trip on the objects: the built chain decodes any encoded tree to its meaning |
| Provenance.ParseSourced | evm-lib/parser/codecs/multicall.go:162-171 | for any graph and calldata, every value is 32 contiguous bytes of it read big-endian, every recipient is zero or 20 contiguous bytes of it, and a Deterministic transfer has both |
| Provenance.DecodeSourced | evm-lib/parser/codecs/multicall3.go:86-99 | the same decoder by decoder |
| Extension.ParseExtended | evm-lib/parser/codecs/chain.go:38-52 | appended bytes never change a successful result of a non-heuristic decoder; the heuristic's transfers stay a prefix |
| Extension.HeuristicGrows | evm-lib/parser/codecs/heuristic.go:65-88 | appended bytes only add guesses at the end |
| OutputBound.ParseBounded | evm-lib/parser/codecs/multicall.go:131-154 | at most 2^(length / 4) transfers for any calldata, aliased payloads included |
| OutputBound.DepthSuffices | evm-lib/parser/codecs/multicall.go:162-170 | no call nests deeper than length / 68 + 1: a parser that gives up there computes the same result, for any graph and calldata |
| OutputBound.HeuristicBounded | evm-lib/parser/codecs/heuristic.go:85-87 | at most 64 guesses, and at most a quarter of the length |
| Types.Uint64 | evm-lib/parser/codecs/gnosis_multisend.go:63 | big-endian reading of 8 bytes fits 64 unsigned bits |
| Pool.New | workers/worker.go:49-89 | which options build a pool, that each error names the first fault in the order of the checks, and exactly when making the channels panics |
| Pool.DecideMeans | workers/worker.go:161-175 | exactly when a tick scales up and when it scales down, with the load ratio multiplied out; never both |
| PoolSafety.CountersStep | workers/worker.go:196-231 | every step keeps active and busy equal to the goroutines in their brackets, and active at most max, despite racing CAS loops |
| PoolSafety.ConservedStep | workers/worker.go:214-236 | every step keeps delivery order, the partition of received items, their owners, and single entry into the handler |
| PoolSafety.SubmitsStep | workers/worker.go:91-102 | one accepted item for each Submit that returned nil |
| PoolShutdown.CountersAlways | workers/worker.go:196-231 | in every run 0 ≤ busy ≤ active ≤ max, both exact |
| PoolShutdown.DeliveryAlways | workers/worker.go:91-109 | in every run, received then queued items are the accepted ones in order; each received item has one owner, is finished or is dropped; at most max − 1 are dropped, and only after the pool was closed and found empty |
| PoolShutdown.DropsStep | workers/worker.go:220-227 | `stopping` implies closed and empty; dropped plus undecided items stay below max |
| PoolShutdown.ErrorsStep | workers/worker.go:142-188 | the group is canceled only by its parent or by a recorded handler error, and every error comes from one of the two |
| PoolShutdown.ReturnAlways | workers/worker.go:111-125 | when Start returns, no goroutine of the group is left, both counters are 0, and its error is never nil: the parent's cancellation, the failure of a finished handler, or ErrPoolClosed before anything started; a pool that started returns the first error recorded |
| PoolShutdown.FirstErrorStays | workers/worker.go:116-124 | the first error recorded by the group is never replaced, in any run |
| PoolShutdown.CloseDrains | workers/worker.go:104-109 | once a worker has seen the closed channel and all workers are gone, every accepted item was handled or dropped, and all but at most max − 1 were handled |
| PoolShutdown.CloseDoesNotReturn | workers/worker.go:104-109 | Close alone never makes a started pool return |
| PoolOutcomes.FailureSurfaces | workers/worker.go:230-235 | no handler failure is swallowed, in any run: its error is with its worker on the way out, or the group is canceled with an error recorded; with all workers gone it is recorded, and is a handler's unless the parent canceled |
| PoolOutcomes.SubmitAfterClose | workers/worker.go:91-95 | a Submit that begins on a closed pool can only return ErrPoolClosed, in any run |
| PoolOutcomes.StartAfterClose | workers/worker.go:111-114 | Start on a closed pool starts no goroutine and returns ErrPoolClosed |
| PoolOutcomes.StoppingLaunchesNobody | workers/worker.go:191-194 | once a worker has seen the closed channel, only launches already past the check still happen |
| PoolOutcomes.OrderlyAlways | workers/worker.go:84-102 | neither channel ever holds more than max, and Submit's error is the caller's cancellation, or ErrPoolClosed on a pool that is closed |
| PoolProgress.CancelReturns | workers/worker.go:111-238 | nothing deadlocks: from every reachable state of a canceled pool, some run leads to Start having returned |
| PoolFloor.FloorStep | workers/worker.go:173-219 | every step keeps the potential of counted, starting and still-to-start workers minus tokens out at min or more, surplus starts that abort at max included |
| PoolFloor.FloorAlways | workers/worker.go:120-219 | in every undisturbed run whose scale-downs were decided on loads covering the tokens out, that potential is at least min |
| PoolFloor.FloorDrained | workers/worker.go:120-219 | in particular, the potential is at least min in every undisturbed run whose scale-downs were all decided with no token out, queued or taken |
| PoolFloor.QuittersStep | workers/worker.go:214-236 | while undisturbed, only workers that took a token leave |
| PoolScaling.RateStep | workers/worker.go:157-182 | decision times stay a cooldown apart, and lastScalingTime is the last of them |
| PoolScaling.RateBound | workers/worker.go:157-182 | in any run, k decisions within [t0, t1] satisfy (k − 1)·cooldown ≤ t1 − t0 |
| PoolScaling.OneDecisionPerTick | workers/worker.go:148-183 | in any run there are at most as many scaling decisions as ticks |
| PoolTokens.EmitsAlways | workers/worker.go:173-182 | for every scale-down of every run: decided on more than min workers, it asks for 1 to active − min tokens and never sends more; once finished it has sent all, or as many as deflateCh had room for at the load |
| PoolTokens.AccountedStep | workers/worker.go:173-182 | every step keeps that account, including the dropped sends |
| PoolFull.SendsNothing | workers/worker.go:176-181 | for any 1 ≤ min < max and positive minLoad, an undisturbed run to a full deflateCh and a scale-down that sends nothing |
| PoolFull.SendsNothingExactly | workers/worker.go:173-182 | a scale-down can find deflateCh full, and can send nothing, if and only if the options let the pool scale down |
| PoolScaling.Converges | workers/worker.go:173-182 | k scale-downs from a leave max(min, ⌈a / 2^k⌉) |
| PoolScaling.ReachesMin | workers/worker.go:173-182 | min is reached after exactly the least k with a ≤ min·2^k, and never undershot |
| PoolIdle.IdleConverges | workers/worker.go:148-219 | the same closed form for every run of the pool from a settled state: after k drained scale-downs, the workers not told to leave are max(min, ⌈a / 2^k⌉), until the pool is disturbed |
| PoolIdle.SinkStep | workers/worker.go:148-219 | each step keeps the workers not told to leave equal to that closed form |
| PoolLimits.FloorExactly | workers/worker.go:173-182 | the floor is kept in all runs, or in all runs that scale down only on an empty deflateCh, if and only if the options never scale down |
| PoolLimits.Dies | workers/worker.go:148-219 | for any 1 ≤ min < max and positive minLoad, an undisturbed run that leaves no worker |
| PoolLimits.DeadStays | workers/worker.go:153-155 | a pool without workers never receives or handles another item |
| PoolLimits.DiesExactly | workers/worker.go:153-182 | the pool can die undisturbed if and only if min is negative or it can scale down |
| PoolLimits.Grow | workers/worker.go:167-171 | scale-ups can bring a loaded pool to any size up to max |
| PoolDrops.DropsExactly | workers/worker.go:220-227 | a run can end with d accepted items dropped if and only if d = 0, or min is positive and d ≤ max − 1 |
| PoolReach.ScaleDown | workers/worker.go:173-219 | from a calm pool of min + 1 idle workers, one scale-down can be sent and taken |
| PoolReach.ScaleUp | workers/worker.go:167-171 | from a calm pool with every worker busy, one more is started |
| Registry.Subject.constructor | observer/observer.go:28-34 | no observers |
| Registry.Subject.Lookup | observer/observer.go:46-48 | the slice read shows the observers registered at that moment, as the fan-out protocol reads them |
| Registry.Subject.Append | observer/observer.go:92 | Go's append, in place or into a grown copy: the old view plus one, and no older prefix of the array changes |
| Registry.Subject.Register | observer/observer.go:85-93 | one observer added to one event, which is the registration step of the fan-out protocol; no slice a worker holds changes, although its array may be written |
| Registry.SoundAfterAppend | observer/observer.go:92 | slices handed out never reach beyond the current one on the same array, and events share no array |
| Delivery.ExactStep | observer/observer.go:36-69 | every step keeps ownership, snapshots and call counts exact |
| Delivery.DeliveryAlways | observer/observer.go:36-69 | in every run each event is in the hands of exactly one worker or done with; once done with, each observer of the slice read was updated exactly once, even if one failed; the slice holds all observers registered before the event was taken |
| DeliveryOutcomes.FailuresAlways | observer/observer.go:54-66 | in every run, a worker leaves an event only when all its Updates have returned; if one failed, the worker stops and the group is canceled; nothing but that or an outside cancellation stops a worker |
| DeliveryOutcomes.SettledStep | observer/observer.go:54-66 | every step keeps that account of outcomes |

## Left out

- Abi.ReadWordAt: like the other readers it requires an offset of at most 2^63 − 33 and calldata shorter than 2^63 − 2^32 bytes; for a larger offset the code panics (Abi.TestMeansFits), and no Go slice is that long.
- Abi.ReadAddressAt: the same bounds.
- Abi.ReadUint256At: the same bounds.
- Abi.ReadOffsetAt: the same bounds.
- Abi.ReadDynamicBytesAt: the same bounds.
- Abi.ReadDynamicBytes: the same bounds, on the word index times 32.
- Abi.ReadArrayLength: the same bounds.
- Abi.ReadBytesArrayElements: the same bounds.
- Decoders.MulticallDecoder.RecurseTupleArray: takes one word index where the code takes a list of them, since every caller passes exactly one; word indices whose byte offset would wrap are excluded.
- Pool.New: loads are real numbers, so NaN is not modelled. The code accepts a NaN maxLoad or minLoad, every comparison with it being false; such a pool never scales up, or never scales down, which NeverShrinks does not list. Options are the final values, defaults filled in; `WithX` functions are not modelled, nor is a negative polling frequency, which makes the ticker panic.
- Delivery.DeliveryAlways: its slices are values; Registry proves that a slice read from the heap never changes and that its methods take the protocol's registration and lookup steps, but there is no single theorem over heap and protocol together.
- PoolIdle.IdleConverges: assumes that each scale-down is decided with no token out and that no scale-up is decided; without the first it fails, by PoolLimits.FloorExactly.
- PoolLimits.FloorExactly: its runs use the clock freely; it does not say how likely the race is.
- The pool is modelled on values, as a state machine over its atomic steps, not as a class: its methods run concurrently, so no contract of a single method describes them.
- The load ratio is a quotient of reals, so floating-point rounding is not modelled; times are unbounded integers from a clock that never runs backwards.
- PoolProgress.CancelReturns: says that a returning run always exists, handlers returning when called on to, not that every fair run returns.
- Handler panics and scheduling fairness; a Submit that races Close and sends on the closed channel panics in Go, and its run simply ends here; one Start per pool.
- The ticker: a tick can come at any time.
- Which error the observer's Run returns, and Run closing the event channel when the observer stops, and a Notify after that.
- Error texts: a failed decode is nil or None, a pool or observer error only says where it came from.
- `evm-lib/parser/parser/parser.go` and hex decoding: the same first-match loop, which does not satisfy `SubParser`.
- Decoders written by users of the package: the model covers the shipped ones, and a chain may hold any number of each; a sub-parser that is a typed nil pointer is not modelled.
- The unused readers `ReadUint64` and `ReadBool`.
- `graceful`, `jsonrpc`, `db`, `cfg` and `utxo-lib`: wiring over libraries that are not part of this model, or constants.
