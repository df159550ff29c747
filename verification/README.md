# A Dafny model of the event bus and its messaging core

The repository is a small event bus, `EventClient`, on top of a vendored libzmq. This project models the in-memory
machinery both rely on and proves what it is there for, over all inputs, runs and interleavings:

- **Ownership and termination** (`Ownership`, `OwnershipSafety`, `OwnershipTheorems`, `OwnershipProgress`,
  `OwnObjects`): the shutdown of a tree of objects that exchange commands through FIFO mailboxes.
- **Subscription multi-trie** (`MultiTrie`, `MultiTrieTheorems`, `MultiTrieNode`): a compressed byte trie against a map
  from byte strings to sets.
- **Pipe schedulers** (`Pipes`, `Distribution`, `DistributionObjects`, `Rotation`, `RotationObjects`, `FairQueue`,
  `FairQueueObjects`, `LoadBalancer`, `LoadBalancerObjects`): arrays partitioned in place by counters.
- **Reference counts** (`Messages`, `MessageContents`, `MessageObjects`, `ReceiveBuffers`).
- **Framing** (`Bytes`, `Decoding`, `DecodingSteps`, `DecoderObjects`, `Encoding`, `EncodingMessages`, `EncoderObjects`,
  `V1Encoding`, `V1Decoding`, `Pgm`, `PgmSending`, `PgmObjects`, `PgmReceiving`).
- **Context** (`Rendezvous`, `RendezvousRuns`, `RendezvousObjects`, `SocketSlots`).
- **Wire protocols** (`Metadata`, `MetadataObjects`; `CurveBox`, `CurveMessages`, `CurveHandshake`,
  `CurveAuthenticity`, `CurveHandshakeObjects`, `CurveConversation`): ZMTP metadata as in ZeroMQ RFC 23/ZMTP, rules
  `metadata` and `property` of its formal grammar, and CURVE as in ZeroMQ RFC 26/CURVEZMQ, its HELLO, WELCOME, INITIATE, READY and MESSAGE
  commands.
- **Observers** (`EventObservers`): the multimap of `EventClient` against the subscriptions of its socket.
- **Helpers** (`Wrappers`, `Sequences`): optional values and concatenation.

A component comes in two layers. A module of functions gives the states and steps, and its lemmas say what every step
keeps and what holds of whole runs. A module named `...Objects` (`MultiTrieNode` for the trie) has the classes with the
fields, loops and arrays of the source; each method is proved to do to the object what the function does to its value,
so that the lemmas speak about it. Threads appear as interleaved atomic steps, a mailbox as a FIFO queue, a pipe as a
queue of frames whose reads and writes may fail, a concrete framing as a step machine, and the cryptography as an ideal
box that opens exactly with the keys and the nonce it was made with.

`dafny verify dfyconfig.toml` checks the whole project.

## Findings

Where the code falls short of what one would expect of it, the model keeps the code's behaviour, names an input, and
states exactly when the code does meet the expectation:

- `libzmq/src/curve_server.cpp:327-336`: `process_initiate` has room for 256 bytes of metadata, but a routing id may have
  255 bytes (`libzmq/src/options.cpp:312-318`), so that the INITIATE of an honest client may be longer than the buffers it
  is copied to. It fits exactly if the socket type does not send its routing id, or the routing id has at most 227
  bytes less the length of the type's name: `CurveConversation.OverflowExactly`, with a DEALER of 222 bytes in
  `CurveConversation.LongRoutingIdOverflows`.
- `libzmq/src/own.cpp:98-111`: a termination request that overtakes the child's own command is ignored, and the child is told
  to terminate only if its parent terminates later. `OwnershipTheorems.RequestCanBeLost` is a run that ends with the child
  alive and nothing in flight; `OwnershipTheorems.RequestLostExactly` says that this is the only way.
- `libzmq/src/fq.cpp:58-63`, `libzmq/src/lb.cpp:62-67`: `current` becomes 0 when it was the last active slot, even if its
  pipe has just moved to the freed slot, so that termination of another pipe in the middle of a message can change the
  pipe of the message. `FairQueue.TerminationExact` and `LoadBalancer.TerminationExact` give the exact condition;
  `FairQueue.TerminationCanMix` and `LoadBalancer.TerminationCanSplit` are runs of three pipes.
- `libzmq/src/decoder.hpp:112-113`: the assertion of the zero-copy branch fails for a step machine that ends a message and
  wants its next bytes where they are. `DecoderObjects.Decoder.Decode` says when the rest of the data may be fed
  again, and `DecoderObjects.RefeedCanAbort` is an input; the v1 and v2 decoders never do this.
- `libzmq/src/mechanism.cpp:203-253`: metadata that are cut exactly behind a name or behind a length field are taken as
  complete. `Metadata.ParseExact` says which, and that there are no others; `Metadata.CutIsAccepted` has inputs.
- `EventClient.cpp:38-48`: a registration is kept even if the socket refuses the subscription;
  `EventObservers.RegisterKeeps`: subscriptions stay in step exactly if the socket accepts or the type was observed before,
  and the returned value says which; `EventObservers.RefusedIsKept` is an input.
- `EventClient.cpp:123-127`: `publish_loc_event` runs on from the found key to the end of the map and so calls observers of
  later types as well. `EventObservers.LocDeliveryExactly`: it reaches the right ones exactly if the type has no observers
  or no observed type sorts after it; `EventObservers.LocRunsOnForA` is an input.

## Model

| member | source | states |
|---|---|---|
| `OwnershipTheorems.NoDeadlock` | libzmq/src/own.cpp:72-209 | In every reachable state with no command in flight and nothing left to the environment, every terminating object has been destroyed. |
| `OwnershipTheorems.TerminationCompletes` | libzmq/src/own.cpp:81-214 | From every reachable state a run of finishing steps exists that empties all mailboxes, and by then every object that was terminating is destroyed. |
| `OwnershipProgress.RootTerminates` | libzmq/src/own.cpp:135-152 | terminate of a root makes it terminating at once: each object it owns gets one term command with the root's linger, nobody else gets anything, and with nothing to wait for it is destroyed. |
| `OwnershipProgress.OwnedAsks` | libzmq/src/own.cpp:135-152 | terminate of an owned object sends one request to its owner and changes nothing else. |
| `OwnershipProgress.RootIsDestroyed` | libzmq/src/own.cpp:135-209 | After terminate of a root a run of deliveries and releases alone exists that destroys it and everything below it. |
| `OwnershipProgress.OwnedIsDestroyed` | libzmq/src/own.cpp:98-209 | The same for an owned object of which its owner has been told. |
| `OwnershipProgress.SubtreeFinishes` | libzmq/src/own.cpp:158-209 | Once an object is terminating, such a run exists for it. |
| `OwnershipProgress.TermIsPassedOn` | libzmq/src/own.cpp:158-173 | A term command makes its receiver terminating, and is passed on, with its linger, to each object it owns. |
| `OwnershipProgress.RequestIsGranted` | libzmq/src/own.cpp:98-119 | A request of an owned child of an object that goes on is answered with one term command with the owner's linger, and nothing else is sent. |
| `OwnershipProgress.OwnIsAnswered` | libzmq/src/own.cpp:121-133 | A new child is kept by an object that goes on, and told to terminate with linger 0 by one that is terminating. |
| `OwnershipProgress.ChildIsTold` | libzmq/src/own.cpp:93-96 | term_child tells an owned child, once, and does nothing for any other. |
| `OwnershipProgress.ChildIsLaunched` | libzmq/src/own.cpp:81-91 | A launched child begins alive with the plug in its mailbox, and its parent finds the own command behind what was queued. |
| `OwnershipProgress.RootIsMade` | libzmq/src/own.cpp:36-58 | A new root owns nothing, has no owner, and has the linger it was given. |
| `OwnershipProgress.PromisesHoldOff` | libzmq/src/own.cpp:175-209 | While a registered acknowledgement or an announced command is outstanding, or one is queued, the object is not destroyed. |
| `OwnershipProgress.PromisesCount` | libzmq/src/own.cpp:66-70 | register_term_acks and inc_seqnum add as many of them as they say. |
| `OwnershipTheorems.FinishingDecreases` | libzmq/src/own.cpp:98-209 | Every delivery, release of an acknowledgement or sending of an announced command strictly decreases a measure over the tree. |
| `OwnershipTheorems.FinishingRunsAreShort` | libzmq/src/own.cpp:98-209 | A run that starts nothing new is no longer than the measure of its first state, so shutdown cannot go on for ever. |
| `OwnershipTheorems.NothingGoesWrong` | libzmq/src/own.cpp:158-214 | In every reachable state no assertion has failed, no handler has run on a destroyed object, and no command waits for one. |
| `OwnershipTheorems.HandlersAreSafe` | libzmq/src/own.cpp:158-209 | Whatever command comes next: its receiver is alive, a term finds it not terminating, an acknowledgement finds term_acks positive. |
| `OwnershipTheorems.AccountsBalance` | libzmq/src/own.cpp:66-79 | sent_seqnum less processed_seqnum is the number of counted commands queued or announced; term_acks is registered acks plus queued acknowledgements plus told but undestroyed children. |
| `OwnershipTheorems.OneTermOneEnd` | libzmq/src/own.cpp:158-214 | Along every run an object handles at most one term command and is destroyed at most once. |
| `OwnershipTheorems.ToldAtMostOnce` | libzmq/src/own.cpp:98-133 | At most one term is queued for an object, and none once it is terminating. |
| `OwnershipTheorems.FatesAreFinal` | libzmq/src/own.cpp:158-214 | Across any run no object comes back to life, stops terminating, or changes its owner or its linger. |
| `OwnershipTheorems.SubtreeGoesFirst` | libzmq/src/own.cpp:194-209 | An object is destroyed only after everything below it. |
| `OwnershipTheorems.OwnersAreOlder` | libzmq/src/object.cpp:212-231 | In every reachable state owners are older than what they own, so the tree below an object is well founded. |
| `OwnershipTheorems.RequestLostExactly` | libzmq/src/own.cpp:98-119 | After a termination request has been handled the child has been told to terminate, exactly if no own command for it is still queued behind the request. |
| `OwnershipTheorems.RequestCanBeLost` | libzmq/src/own.cpp:81-91 | A run in which a child that asks to be terminated is never told to, because its request overtook the own command. |
| `OwnershipTheorems.SeqnumWidth` | libzmq/src/own.cpp:194-209 | The test compares a 64-bit count with a 32-bit one: an object that has caught up passes it exactly if fewer than 2^32 commands were counted. |
| `OwnershipSafety.StepKeeps` | libzmq/src/own.cpp:60-214 | The inductive invariant is kept by every handler and by everything the environment may do. |
| `OwnObjects.OwnObject.ProcessCommand` | libzmq/src/object.cpp:71-155 | The handler on mutable fields does to the object and to all mailboxes exactly what the step system says for the command. |
| `OwnObjects.OwnObject.ProcessTerm` | libzmq/src/own.cpp:158-173 | The loop over owned children, the counters and the final check give the state of the step system. |
| `OwnObjects.OwnObject.ProcessTermReq` | libzmq/src/own.cpp:98-119 | Looks up, erases and tells the child, or leaves everything as it is. |
| `OwnObjects.OwnObject.ProcessOwn` | libzmq/src/own.cpp:121-133 | Keeps the child, or tells it at once to terminate with linger 0. |
| `OwnObjects.OwnObject.CheckTermAcks` | libzmq/src/own.cpp:194-209 | Destroys the object exactly when it is terminating, has caught up modulo 2^32 and waits for nothing. |
| `OwnObjects.OwnObject.LaunchChild` | libzmq/src/object.cpp:212-231 | Counts and queues the plug for the child and the own for the parent. |
| `MultiTrieTheorems.HistoryIndependent` | libzmq/src/generic_mtrie_impl.hpp:68-399 | Two histories of add, rm by prefix and rm by value that leave the same map leave structurally equal tries, but for the stale min of childless nodes. |
| `MultiTrieTheorems.HistoryRefinesMap` | libzmq/src/generic_mtrie_impl.hpp:68-399 | After any history the trie holds exactly what a map from byte strings to non-empty sets holds. |
| `MultiTrieTheorems.ContentsDetermineShape` | libzmq/src/generic_mtrie_impl.hpp:447-453 | Two canonical tries with equal contents have the same shape. |
| `MultiTrieTheorems.AddCanonical` | libzmq/src/generic_mtrie_impl.hpp:77-151 | add keeps the trie canonical: no redundant node below the root, live range ends, min + count at most 256. |
| `MultiTrieTheorems.RmKeyCanonical` | libzmq/src/generic_mtrie_impl.hpp:304-399 | rm by prefix prunes and compacts back to a canonical trie. |
| `MultiTrieTheorems.StripCanonical` | libzmq/src/generic_mtrie_impl.hpp:170-294 | rm by value prunes and compacts back to a canonical trie. |
| `MultiTrieTheorems.AddLookup` | libzmq/src/generic_mtrie_impl.hpp:77-151 | add changes the set of one key only, and returns true exactly when the key was absent. |
| `MultiTrieTheorems.RmKeyLookup` | libzmq/src/generic_mtrie_impl.hpp:304-399 | rm by prefix changes one key only, and returns not_found, last_value_removed or values_remain exactly as for the map. |
| `MultiTrieTheorems.RmValueExact` | libzmq/src/generic_mtrie_impl.hpp:156-294 | rm by value takes the value out of every key and reports, in lexicographic order and once each, exactly the keys that held it, or held nothing else. |
| `MultiTrieTheorems.HitsExact` | libzmq/src/generic_mtrie_impl.hpp:403-445 | match visits exactly the prefixes of the data that are keys, with their sets. |
| `MultiTrieTheorems.HitsOrdered` | libzmq/src/generic_mtrie_impl.hpp:403-445 | The visited prefixes grow strictly. |
| `MultiTrieNode.Node.AddHelper` | libzmq/src/generic_mtrie_impl.hpp:77-151 | The node with its min, count, live_nodes and next table does what the trie function does; growth in both directions, no table access out of bounds. |
| `MultiTrieNode.Node.RmKeyHelper` | libzmq/src/generic_mtrie_impl.hpp:304-399 | The recursive removal with its reallocations leaves the canonical trie and the exact result. |
| `MultiTrieNode.Node.RmValueHelper` | libzmq/src/generic_mtrie_impl.hpp:170-294 | The in-place removal leaves the stripped trie; the path buffer is large enough and holds the full key at every callback. |
| `MultiTrieNode.Node.Match` | libzmq/src/generic_mtrie_impl.hpp:403-445 | The cursor loop calls back once for each pair of a prefix that is a key and a member of its set, in order of growing prefix. |
| `MultiTrieNode.Node.Add` | libzmq/src/generic_mtrie_impl.hpp:68-74 | The public operation keeps the node valid and canonical and returns what the function returns. |
| `MultiTrieNode.Node.RmKey` | libzmq/src/generic_mtrie_impl.hpp:296-301 | The same for rm by prefix. |
| `MultiTrieNode.Node.RmValue` | libzmq/src/generic_mtrie_impl.hpp:154-166 | The same for rm by value; the arguments of the callback are the sorted trace. |
| `Pipes.PipeArray.EraseAt` | libzmq/src/array.hpp:97-108 | The last item takes the erased one's place, and every stored index stays exact. |
| `Pipes.PipeArray.Swap` | libzmq/src/array.hpp:110-117 | Two items change places, indices stay exact, and no item is gained or lost. |
| `Distribution.StepKeeps` | libzmq/src/dist.cpp:46-219 | matching, active, eligible stay nested and coincide between messages, whatever is attached, matched, activated, written or terminated. |
| `Distribution.OnlyWholePrefixes` | libzmq/src/dist.cpp:119-219 | In every run no pipe gets a frame twice, out of order, or without all earlier frames of the message. |
| `Distribution.NothingMoreOfThisMessage` | libzmq/src/dist.cpp:46-61 | A pipe attached, reactivated or failed in the middle of a message gets no further frame of it. |
| `Distribution.NorTheLastFrame` | libzmq/src/dist.cpp:141-156 | Nor does it get the last frame of that message. |
| `Distribution.WholeMessageArrives` | libzmq/src/dist.cpp:141-198 | A pipe that is matching when a message begins and is not taken out meanwhile, with room for every frame, gets all of them, the last one included, in order and nothing else. |
| `Distribution.BackForTheNext` | libzmq/src/dist.cpp:149-151 | A pipe that came in the middle of a message takes part from when that message has ended, and gets every frame of the next one that is for it and that it has room for. |
| `Distribution.ComesBack` | libzmq/src/dist.cpp:149-151 | Until then it gets nothing, and it is active exactly from the end of that message on. |
| `Distribution.AddressedGetsAll` | libzmq/src/dist.cpp:141-198 | A pipe for which every frame of a stretch is meant, with room, gets them all, the last one included, in order and nothing else. |
| `Distribution.StaysAddressed` | libzmq/src/dist.cpp:141-198 | A pipe that has taken a frame is addressed by the next one of the message. |
| `Distribution.ActiveExactly` | libzmq/src/dist.cpp:46-219 | Who is active after each operation, pipe by pipe: after the last frame of a message exactly those that were eligible and have not refused it. |
| `Distribution.EligibleExactly` | libzmq/src/dist.cpp:46-219 | Who is eligible after each operation: it is lost only by refusing a frame or going. |
| `Distribution.MatchingExactly` | libzmq/src/dist.cpp:63-219 | Who is matching after each operation. |
| `Distribution.FramesExactly` | libzmq/src/dist.cpp:135-219 | A pipe gets a frame exactly if it is addressed and has room. |
| `DistributionObjects.Distributor.Attach` | libzmq/src/dist.cpp:46-61 | The swaps in the index array do to the regions what attaching means for sets. |
| `DistributionObjects.Distributor.Match` | libzmq/src/dist.cpp:63-76 | An eligible pipe that is not matching joins the matching ones; others are left alone. |
| `DistributionObjects.Distributor.ReverseMatch` | libzmq/src/dist.cpp:78-92 | The loop of swaps makes matching exactly the eligible pipes that were not. |
| `DistributionObjects.Distributor.PipeTerminated` | libzmq/src/dist.cpp:99-117 | The pipe leaves each region and the array, and the regions stay what they were otherwise. |
| `DistributionObjects.Distributor.Activated` | libzmq/src/dist.cpp:119-133 | A passive pipe becomes eligible, and active unless a message is under way. |
| `DistributionObjects.Distributor.Write` | libzmq/src/dist.cpp:205-219 | A write that fails takes the pipe out of all regions by three swaps, and the part already served does not change. |
| `DistributionObjects.Distributor.WriteAll` | libzmq/src/dist.cpp:169-190 | The retry loop terminates; every matching pipe with room gets the frame once, every other becomes passive. |
| `DistributionObjects.Distributor.Distribute` | libzmq/src/dist.cpp:158-198 | Frames, regions and the content's counter after distribute, for small and for counted messages. |
| `DistributionObjects.Distributor.SendToMatching` | libzmq/src/dist.cpp:141-156 | At the end of a message all eligible pipes become active. |
| `Messages.FreedExactlyOnce` | libzmq/src/msg.cpp:211-324 | In every run a content block is freed exactly once, when its last handle and reserved reference are gone; a shared block counts its handles, an unshared one has exactly one. |
| `MessageContents.SharingDoesNotShow` | libzmq/src/msg.cpp:74-509 | In every run, what the owners see is what they would see if messages were plain values: a move takes the value and leaves a blank, a copy and each slot of a distribution get the source's, reserving and giving back references changes nothing, and no operation touches another message. |
| `Messages.StepKeeps` | libzmq/src/msg.cpp:74-509 | init, close, move, copy, add_refs and rm_refs keep the reference accounting, over all handles and blocks at once. |
| `Messages.DistributeKeeps` | libzmq/src/dist.cpp:158-198 | add_refs (matching - 1), the writes and rm_refs (failed) leave no reference reserved. |
| `Messages.DistributeExact` | libzmq/src/dist.cpp:180-198 | Afterwards there is one reference per successful write, and the block is freed exactly if there is none and nobody else held it. |
| `Messages.DistributeCell` | libzmq/src/dist.cpp:180-198 | The counter of the sender's content after distribute is the one that DistributionObjects.Distributor.Distribute leaves, and no other content changes. |
| `Messages.DistributeHandsOn` | libzmq/src/dist.cpp:184-198 | Each pipe that accepted has its own handle on the content, the sender has none, nobody else is touched. |
| `MessageObjects.Msg.Close` | libzmq/src/msg.cpp:211-262 | Frees the content exactly when it is unshared or its count drops to zero. |
| `MessageObjects.Msg.Copy` | libzmq/src/msg.cpp:285-324 | The first copy sets the count to two and marks both handles shared; later ones add one; the old content of the target is released. |
| `MessageObjects.Msg.Move` | libzmq/src/msg.cpp:264-283 | The source is left empty and the target has its content. |
| `MessageObjects.Msg.AddRefs` | libzmq/src/msg.cpp:444-465 | Sets or raises the count, and marks the message shared. |
| `MessageObjects.Msg.RmRefs` | libzmq/src/msg.cpp:467-509 | Lowers the count and frees the content exactly when it reaches zero. |
| `ReceiveBuffers.CountersAreExact` | libzmq/src/decoder_allocators.cpp:64-140 | In every interleaving of allocate with closes, a buffer's counter is the allocator's hold plus its live messages; it is freed once, and never while used. |
| `ReceiveBuffers.ReusedOnlyWhenFree` | libzmq/src/decoder_allocators.cpp:64-103 | A buffer is handed out again only when no message uses it and it has not been freed. |
| `ReceiveBuffers.PhasesExactly` | libzmq/src/decoder_allocators.cpp:64-124 | In every run allocate uses its buffer again exactly if no message on it is live, and gives it up otherwise; deallocate gives it up; nothing else does. |
| `ReceiveBuffers.LiveIsMadeLessClosed` | libzmq/src/decoder_allocators.cpp:105-140 | The live messages that the counter counts are those made on the buffer less those closed. |
| `ReceiveBuffers.StepKeeps` | libzmq/src/decoder_allocators.cpp:64-140 | Each atomic step, the two halves of allocate apart, keeps the accounting. |
| `ReceiveBuffers.SharedAllocator.Allocate` | libzmq/src/decoder_allocators.cpp:64-103 | Reuses the buffer exactly when its counter drops to zero, and otherwise gives it up for a new one. |
| `FairQueue.MessagesStayWhole` | libzmq/src/fq.cpp:52-127 | In every run the output is a concatenation of whole messages, each of one pipe, and each pipe's frames come out once and in order. |
| `FairQueue.MiddleNeverBlocks` | libzmq/src/fq.cpp:84-127 | In the middle of a message recv goes on with the same pipe, so its assertion holds. |
| `FairQueue.TerminationExact` | libzmq/src/fq.cpp:52-70 | Termination of a pipe in the middle of a message leaves the queue able to go on with it exactly if a condition on the two positions holds. |
| `FairQueue.TerminationCanMix` | libzmq/src/fq.cpp:58-63 | A run of three pipes after which the termination of one makes recv return a frame of another pipe in the middle of a message. |
| `FairQueue.ServedInTurn` | libzmq/src/fq.cpp:84-151 | While a ready pipe waits, at most as many messages of other pipes are completed as its cyclic distance, plus one per pipe that joins. |
| `FairQueue.NothingForgotten` | libzmq/src/fq.cpp:45-151 | In every run, a pipe that has been attached or reported readable, has a frame, and has neither gone nor been found empty since is not forgotten: recv returns a frame, and has_in says so. |
| `FairQueue.StaysInTurn` | libzmq/src/fq.cpp:45-151 | Until then it keeps taking turns. |
| `FairQueue.TakesTurns` | libzmq/src/fq.cpp:45-151 | Who takes turns after each operation. |
| `FairQueue.RecvExactly` | libzmq/src/fq.cpp:84-127 | recv returns a frame exactly if a pipe that takes turns has one, namely the first frame of such a pipe, and takes only that. |
| `FairQueue.HasInExactly` | libzmq/src/fq.cpp:129-151 | has_in says whether recv would return one, or another frame of the message is to come. |
| `FairQueue.LastInIsRemembered` | libzmq/src/fq.cpp:65-112 | In every run last_in is the pipe of the last message returned to its end, until that pipe goes. |
| `Rotation.TerminationAndTurn` | libzmq/src/fq.cpp:52-70 | The condition, in positions, under which termination leaves the turn where it is. |
| `Rotation.AdvanceDistance` | libzmq/src/fq.cpp:92-119 | Looking for a ready pipe never moves a ready pipe away from its turn. |
| `Rotation.NextDistance` | libzmq/src/fq.cpp:108-112 | A completed message of another pipe brings the turn nearer by one. |
| `Rotation.AttachDistance` | libzmq/src/fq.cpp:45-50 | A newcomer moves it away by at most one. |
| `Rotation.ActivatedActives` | libzmq/src/fq.cpp:72-77 | A pipe that is reported ready takes turns from then on, together with all that did before and nobody else. |
| `Rotation.AttachActives` | libzmq/src/fq.cpp:45-50 | The same for a new pipe. |
| `Rotation.ActivesAre` | libzmq/src/fq.cpp:45-77 | The pipes that take turns are those at a position before active. |
| `Rotation.TerminatedActives` | libzmq/src/fq.cpp:52-70 | A pipe that goes stops taking turns, and nobody else does. |
| `Rotation.AdvanceActives` | libzmq/src/fq.cpp:92-119 | The search takes only pipes that are not ready out of turn. |
| `Rotation.AdvanceFinds` | libzmq/src/fq.cpp:92-119 | It finds a pipe exactly if one of those that take turns is ready. |
| `FairQueueObjects.FairQueue.RecvPipe` | libzmq/src/fq.cpp:84-127 | The loop with its swaps fetches the frame, or none, that the ring function says, and releases the old content first. |
| `FairQueueObjects.FairQueue.HasIn` | libzmq/src/fq.cpp:129-151 | Looks for a ready pipe in the same way without taking a frame. |
| `FairQueueObjects.FairQueue.PipeTerminated` | libzmq/src/fq.cpp:52-70 | Swaps and erases the pipe; the ring is that of the function. |
| `LoadBalancer.PipesHoldWholeMessages` | libzmq/src/lb.cpp:51-143 | In every run each pipe holds whole flushed messages, followed only by the frames of the message under way on it. |
| `LoadBalancer.FramesStayTogether` | libzmq/src/lb.cpp:51-143 | All frames of a message go to the pipe of the first, or those sent are rolled back; from the termination of that pipe on all remaining frames, and only they, are dropped; the flags say which. |
| `LoadBalancer.TerminationExact` | libzmq/src/lb.cpp:51-69 | Termination of another pipe in the middle of a message keeps the pipe of the message exactly if the turn condition holds. |
| `LoadBalancer.TerminationCanSplit` | libzmq/src/lb.cpp:62-67 | A run of three pipes after which the termination of one sends the second frame of a message to another pipe than the first. |
| `LoadBalancer.ServedInTurn` | libzmq/src/lb.cpp:83-164 | A pipe with room is passed over by at most as many messages as its cyclic distance, plus one per pipe that joins. |
| `LoadBalancer.NothingForgotten` | libzmq/src/lb.cpp:45-164 | In every run, a pipe that has been attached or reported writable, has room, and has neither gone nor been found full since is not forgotten: a frame is taken, and has_out says so. |
| `LoadBalancer.StaysInTurn` | libzmq/src/lb.cpp:45-164 | Until then it keeps taking turns. |
| `LoadBalancer.TakesTurns` | libzmq/src/lb.cpp:45-164 | Who takes turns after each operation. |
| `LoadBalancer.SendExactly` | libzmq/src/lb.cpp:83-143 | When a frame is dropped, refused or taken, and by which pipes it can be taken. |
| `LoadBalancer.HasOutExactly` | libzmq/src/lb.cpp:145-164 | has_out says whether a pipe that takes turns has room, or another frame of the message is to come. |
| `LoadBalancerObjects.LoadBalancer.SendPipe` | libzmq/src/lb.cpp:83-143 | Dropping, rollback, the search for a pipe with room, and flushing, on the mutable ring; the content is released when the frame is dropped and untouched otherwise. |
| `LoadBalancerObjects.LoadBalancer.HasOut` | libzmq/src/lb.cpp:145-164 | Looks for a pipe with room without sending. |
| `Decoding.ChunksDoNotMatter` | libzmq/src/decoder.hpp:103-151 | However a stream is cut, with re-feeding after each message, the step calls, segments, messages and final state are those of the whole stream. |
| `Decoding.ByteByByte` | libzmq/src/decoder.hpp:103-151 | In particular they are those of feeding it byte by byte. |
| `Decoding.DecodeGathers` | libzmq/src/decoder.hpp:127-148 | bytes_used counts exactly the bytes that have gone into segments, in order. |
| `Decoding.FeedGathers` | libzmq/src/decoder.hpp:127-148 | A stream without error is gathered whole. |
| `DecodingSteps.CallsFollowAnswers` | libzmq/src/decoder.hpp:127-169 | For any stream and any cuts: the first call is made in the initial state with the first segment, each further one in the state and with the number of bytes that the answer before it said, and the decoder goes on with what the last answer said. |
| `DecodingSteps.DecodeStops` | libzmq/src/decoder.hpp:127-148 | decode makes calls as long as they answer 0, and returns what the last one answered. |
| `DecodingSteps.FailsExactly` | libzmq/src/stream_engine.cpp:336-346 | A stream fails exactly if a call answers -1, and that call is the last one. |
| `Decoding.InPlaceAgrees` | libzmq/src/decoder.hpp:112-125 | The zero-copy branch agrees with the copying one wherever its assertion holds. |
| `DecoderObjects.Decoder.GetBuffer` | libzmq/src/decoder.hpp:75-95 | Hands out the place of a large segment, or a buffer that no message uses, and so never the buffer of the segment under way at another place. |
| `DecoderObjects.Decoder.Decode` | libzmq/src/decoder.hpp:103-151 | The pointers, the copying and the in-place branch do what the function does; and after a message the rest may be fed from where it is exactly if the last step has not left its bytes in place or wants all of the rest. |
| `DecoderObjects.Decoder.Feed` | libzmq/src/stream_engine.cpp:336-346 | Decoding the rest again after each message has the outcome of Decoding.Feed; decode's assertion never fails if no step that stops wants its bytes in place. |
| `DecoderObjects.Decoder.Pump` | libzmq/src/stream_engine.cpp:304-346 | Any number of events, buffers and held buffers: the outcome is that of Decoding.FeedChunks on what was read, and so of the stream in one piece. |
| `DecoderObjects.RefeedCanAbort` | libzmq/src/decoder.hpp:112-113 | A decoder and three bytes for which the rest, fed again, runs into the assertion. |
| `Encoding.EncodeKeeps` | libzmq/src/encoder.hpp:76-129 | encode hands out a beginning of what remains, and less than the buffer size exactly when the message is finished. |
| `Encoding.EncodedToTheEnd` | libzmq/src/encoder.hpp:76-156 | Successive results concatenate to exactly the segments of the message. |
| `Encoding.BuffersDoNotMatter` | libzmq/src/encoder.hpp:101-117 | Any two sequences of buffer sizes, supplied or own, give the same bytes. |
| `EncodingMessages.MessagesInSequence` | libzmq/src/encoder.hpp:76-156 | Any messages, each encoded to its end into any buffers: the bytes and the state at the end are those that the step machine says for them one after the other. |
| `EncodingMessages.OneMessage` | libzmq/src/encoder.hpp:76-156 | The same for one message. |
| `V1Decoding.EndToEnd` | libzmq/src/v1_decoder.cpp:59-153 | v1_encoder_t and v1_decoder_t undo each other: whatever messages are encoded into whatever buffers, and however the bytes are cut, exactly those messages come out. |
| `V1Decoding.DecodesWhatWasEncoded` | libzmq/src/v1_decoder.cpp:59-153 | With a limit on the size, exactly the messages before the first one that is too long come out, and then decoding fails. |
| `V1Decoding.FrameIsRead` | libzmq/src/v1_decoder.cpp:59-153 | A frame that is not too long, in either form of its size, is read with its body and its flag. |
| `V1Decoding.LongFrameFails` | libzmq/src/v1_decoder.cpp:59-133 | A frame that is too long fails before anything of it is taken for a message. |
| `V1Decoding.V1DecoderProgress` | libzmq/src/v1_decoder.cpp:59-153 | The step functions meet the demands of Decoding: those that want no bytes cannot follow each other for ever, and none that stops wants its bytes in place. |
| `EncoderObjects.Encoder.EncodeInto` | libzmq/src/encoder.hpp:76-129 | The loop into a supplied buffer writes the bytes and leaves the state that the function says. |
| `EncoderObjects.Encoder.EncodeOwn` | libzmq/src/encoder.hpp:76-129 | The same for the own buffer, including segments handed out where they are. |
| `Pgm.OutEventKeeps` | libzmq/src/pgm_sender.cpp:173-208 | Every packet carries the offset of the first whole-message boundary in it, or 0xffff if there is none, for any encoder whose messages end in an idle state and have at least one byte. |
| `PgmSending.QueueGoesOut` | libzmq/src/pgm_sender.cpp:173-234 | In every run of the sender, what has been queued goes out in order and once, each part framed from the state in which the one before ended; packets and encoder hold exactly these frames. |
| `PgmSending.OutEventSends` | libzmq/src/pgm_sender.cpp:173-234 | out_event takes parts from the front of the queue and sends one packet at most, which is full unless all there was has been sent. |
| `PgmSending.PackTakes` | libzmq/src/pgm_sender.cpp:184-208 | Its loop goes on as long as there is a part and room. |
| `Pgm.JoinsAtFirstMessage` | libzmq/src/pgm_receiver.cpp:219-240 | A receiver that listens from any packet on has joined at the first message that begins there or later, or none has begun. |
| `Pgm.ReceiverSeesSuffix` | libzmq/src/pgm_receiver.cpp:211-257 | In every run of the sender, what a receiver's decoder has been given and what is still in the encoder are together the frames from a message boundary on. |
| `Pgm.PacketsDoNotShow` | libzmq/src/pgm_receiver.cpp:264-284 | The decoder ends where it would if given those bytes in one piece. |
| `V1Encoding.V1IsNeverEmpty` | libzmq/src/v1_encoder.cpp:37-73 | The encoder of pgm_sender_t, header and body, empty messages included, is one of those that Pgm speaks about. |
| `V1Encoding.LoadedIsFrame` | libzmq/src/v1_encoder.cpp:48-73 | What it hands out for a message is its header and its body. |
| `V1Encoding.V1Runs` | libzmq/src/v1_encoder.cpp:37-42 | As its constructor leaves it, it begins a run of the sender. |
| `PgmObjects.PgmSender.OutEvent` | libzmq/src/pgm_sender.cpp:173-234 | The loop that fills the buffer, the flags and the offset make the packet of the function. |
| `PgmReceiving.PgmReceiver.InEvent` | libzmq/src/pgm_receiver.cpp:161-262 | Over any packets and losses of any peers, each peer is given the bytes from its first message on; a peer with bad data or losses is dropped and may join again. |
| `PgmReceiving.PgmReceiver.RestartInput` | libzmq/src/pgm_receiver.cpp:119-154 | After a refused message input goes on where it stopped: the outcome is as if nothing had been refused. |
| `PgmReceiving.PgmReceiver.NothingLostOrDoubled` | libzmq/src/pgm_receiver.cpp:264-284 | Whenever no refusal is outstanding, the session has got of each peer exactly the messages in what it has been given, decoded in one piece. |
| `PgmReceiving.DecodeEnds` | libzmq/src/pgm_receiver.cpp:268-282 | decode adds one message to those made so far exactly if it returns 1. |
| `PgmReceiving.GiveExactly` | libzmq/src/pgm_receiver.cpp:189-257 | What each arrival means for each peer: a packet goes on with its stream or begins it at the offset, losses and bad data end it, and no other peer is concerned. |
| `PgmReceiving.OnePeer` | libzmq/src/pgm_receiver.cpp:211-240 | For one peer without losses or bad data this is the suffix of Pgm.ReceiveAll. |
| `Rendezvous.NothingLostOrDoubled` | libzmq/src/ctx.cpp:500-656 | In every interleaving of bind, connect and unbind a connection is in exactly one place, so it is joined at most once and never lost; each inc_seqnum has its command or belongs to a connection under way. |
| `RendezvousRuns.JoinedWhereAsked` | libzmq/src/ctx.cpp:500-656 | In every interleaving a bind command for a connection goes only to a socket that has been bound at the very address at which the connection was looked up. |
| `RendezvousRuns.ToldWhoAsked` | libzmq/src/ctx.cpp:605-656 | And only the socket that looked it up is told that it is connected. |
| `RendezvousRuns.EndpointsExactly` | libzmq/src/ctx.cpp:500-545 | Who is bound at an address after each operation: the first to register, until it unregisters. |
| `RendezvousRuns.ResultsExactly` | libzmq/src/ctx.cpp:500-566 | Registering, unregistering and looking up report failure exactly if nothing has been bound, unbound or found. |
| `RendezvousRuns.LookupExactly` | libzmq/src/ctx.cpp:547-566 | A lookup finds who is bound, and announces one command to it, or misses. |
| `RendezvousRuns.PendingExactly` | libzmq/src/ctx.cpp:568-588 | After a miss the connection is joined if somebody has bound meanwhile, and kept for its address otherwise. |
| `RendezvousRuns.ConnectsExactly` | libzmq/src/ctx.cpp:590-603 | connect_pending joins every connection pending at the address, tells both sides, and keeps all others. |
| `Rendezvous.NothingPendingWhereBound` | libzmq/src/ctx.cpp:568-603 | Once the binder has called connect_pending nothing is pending at its address until it unbinds. |
| `Rendezvous.QuietStateIsSettled` | libzmq/src/ctx.cpp:547-656 | With nobody in the middle of a call, the counts match but for one per connection pending at an unbound address, and all others have been joined once. |
| `Rendezvous.StepKeeps` | libzmq/src/ctx.cpp:500-656 | Each locked region keeps the accounting. |
| `RendezvousObjects.EndpointTable.ConnectPending` | libzmq/src/ctx.cpp:590-603 | The loop over the multimap range joins exactly the pending connections at the address and erases them. |
| `RendezvousObjects.EndpointTable.PendConnection` | libzmq/src/ctx.cpp:568-588 | Joins at once if the endpoint has appeared in between, and pends otherwise. |
| `SocketSlots.SlotsAreShared` | libzmq/src/ctx.cpp:284-410 | In every run free slots and open sockets partition the slot range without repeats, so at most max_sockets are open. |
| `SocketSlots.ReaperStopsOnce` | libzmq/src/ctx.cpp:135-228 | The reaper is told to stop at most once, only when no socket is open, and none is created afterwards. |
| `SocketSlots.TerminationLasts` | libzmq/src/ctx.cpp:154-228 | In every run, from the first terminate or shutdown after start on, the context is terminating for ever, no socket is added, and each socket open at that moment, and no other, has been sent one stop command. |
| `SocketSlots.TerminationStopsReaper` | libzmq/src/ctx.cpp:154-228 | When all sockets that were open then have been destroyed, the reaper has been told to stop, exactly once; at once if there was none. |
| `SocketSlots.NobodyStopped` | libzmq/src/ctx.cpp:154-228 | No socket is stopped before. |
| `SocketSlots.CreatesExactly` | libzmq/src/ctx.cpp:354-392 | A socket is opened exactly if it works, the limit is not reached and termination has not begun, under a number of its own. |
| `SocketSlots.DestroysExactly` | libzmq/src/ctx.cpp:394-410 | Only the socket that is destroyed goes. |
| `SocketSlots.LimitsOfLastCall` | libzmq/src/ctx.cpp:230-256 | The limits are those of the last call before the first socket. |
| `SocketSlots.SlotsStepKeeps` | libzmq/src/ctx.cpp:284-410 | start, create_socket, destroy_socket, shutdown and terminate keep the partition. |
| `SocketSlots.SocketTable.CreateSocket` | libzmq/src/ctx.cpp:354-392 | Refuses while terminating or without a free slot, and otherwise takes the last one. |
| `SocketSlots.SocketTable.DestroySocket` | libzmq/src/ctx.cpp:394-410 | Returns the slot, removes the socket by swapping, and stops the reaper after the last one. |
| `CurveConversation.NoncesAreFresh` | libzmq/src/curve_mechanism_base.cpp:52-100 | In every run of an honest client and server, from HELLO through any number of messages, each side's nonces increase strictly and none is used twice. |
| `CurveConversation.ReceivedIsSent` | libzmq/src/curve_mechanism_base.cpp:102-177 | In every such run each side has received a beginning of what the other has sent, unchanged. |
| `CurveConversation.NeverStuck` | libzmq/src/curve_client.cpp:58-110 | Between compatible sockets nothing ever fails, and in every state an action takes the handshake one of its eight stages on. |
| `CurveConversation.NeverBack` | libzmq/src/curve_server.cpp:63-123 | No action takes the handshake back or on by more than one stage. |
| `CurveConversation.ConnectedFacesReady` | libzmq/src/curve_server.cpp:389-390 | A connected client faces a ready server: one secret, and each has collected what the other announced. |
| `CurveConversation.OnlyIncompatibleFail` | libzmq/src/curve_server.cpp:423-424 | Only conversations between incompatible socket types fail, and they never get as far as a READY. |
| `CurveConversation.OverflowExactly` | libzmq/src/curve_server.cpp:327-336 | An honest INITIATE is longer than the server's buffers exactly if the client's type sends its routing id and that is longer than 227 bytes less the type's name. |
| `CurveConversation.LongRoutingIdOverflows` | libzmq/src/curve_server.cpp:330-331 | A DEALER with a routing id of 222 bytes is too long, one with 221 is not. |
| `CurveHandshake.HelloAccepted` | libzmq/src/curve_server.cpp:137-200 | The server opens the HELLO that the client makes, and learns its key and counter. |
| `CurveHandshake.WelcomeAccepted` | libzmq/src/curve_client_tools.hpp:93-134 | The client opens the WELCOME, and has the server's short-term key and the cookie. |
| `CurveHandshake.InitiateAccepted` | libzmq/src/curve_server.cpp:268-425 | Cookie, box and vouch of the INITIATE open; whether the server goes on depends on the metadata alone. |
| `CurveHandshake.InitiateNotRefused` | libzmq/src/curve_server.cpp:268-325 | Nothing stops the INITIATE of an honest client before its box is copied, however long it is. |
| `CurveHandshake.ReadyAccepted` | libzmq/src/curve_client.cpp:206-258 | The client opens the READY of the server it has a secret with; it connects exactly if the metadata are acceptable. |
| `CurveHandshake.ErrorAccepted` | libzmq/src/curve_client.cpp:260-288 | The server's ERROR ends the handshake of a client that waits for WELCOME or READY, with nothing else changed, and is an unexpected command for any other. |
| `CurveAuthenticity.ReadyServerWasShown` | libzmq/src/curve_server.cpp:91-425 | Whatever commands arrive, from whomever: a server that is ready has had a HELLO made with the short-term key it takes for the client's, and afterwards an INITIATE with the cookie for that key and a vouch of a long-term key for it. |
| `CurveAuthenticity.OnlyVouchedGoOn` | libzmq/src/curve_server.cpp:268-425 | INITIATE is accepted only with the cookie, a vouch for the client's key, and acceptable metadata; without cookie and vouch the state stays. |
| `CurveAuthenticity.HelloExactly` | libzmq/src/curve_server.cpp:137-200 | A HELLO is accepted exactly if it has the right form and version and a box made with the key in it for this server. |
| `CurveAuthenticity.WelcomeExactly` | libzmq/src/curve_client_tools.hpp:93-134 | A WELCOME is accepted exactly if its box was made with the server's long-term key for this client, whose peer is then the key in it. |
| `CurveAuthenticity.ReadyExactly` | libzmq/src/curve_client.cpp:206-258 | A READY connects the client exactly if its box was made with the common secret and its metadata are acceptable. |
| `CurveAuthenticity.ClientGoesOnExactly` | libzmq/src/curve_client.cpp:80-110 | The client goes on exactly after a right WELCOME, READY or ERROR; any other command is refused and leaves its state and peer. |
| `CurveAuthenticity.ServerGoesOnOnly` | libzmq/src/curve_server.cpp:91-123 | The server goes on only after a right HELLO or INITIATE in the state that waits for it, and refuses everything in any other state without changing. |
| `CurveHandshake.Initiate` | libzmq/src/curve_client.cpp:175-204 | The length is 113 + 128 + 16 and the basic properties. |
| `CurveHandshake.ReadyCommand` | libzmq/src/curve_server.cpp:427-472 | The length is 14 + 16 and the basic properties. |
| `CurveMessages.DecodeUndoesEncode` | libzmq/src/curve_mechanism_base.cpp:52-177 | decode after encode returns the same flags and body, for every body length. |
| `CurveMessages.AcceptedExactly` | libzmq/src/curve_mechanism_base.cpp:129-136 | With commands lost, repeated and reordered at will, one is accepted exactly if neither it nor a later one has been accepted before. |
| `CurveMessages.ReceivedInOrder` | libzmq/src/curve_mechanism_base.cpp:102-177 | Then what is received are frames that were sent, each at most once and in order. |
| `CurveMessages.FifoLosesNothing` | libzmq/src/curve_mechanism_base.cpp:102-177 | Over a FIFO every command is accepted and nothing is missing. |
| `CurveMessages.NoncesAreConsecutive` | libzmq/src/curve_mechanism_base.cpp:56-58 | The nonces on the wire are consecutive. |
| `CurveMessages.OnlyBoxesAreAccepted` | libzmq/src/curve_mechanism_base.cpp:150-151 | A message that is accepted carries a box made with this pair of keys under this nonce. |
| `CurveMessages.NothingIsAcceptedTwice` | libzmq/src/curve_mechanism_base.cpp:129-177 | Whatever messages arrive, made by anybody: of two that are accepted the later one has the larger nonce, so none is accepted twice. |
| `CurveMessages.NoncesGoUp` | libzmq/src/curve_mechanism_base.cpp:129-137 | Whatever arrives, the receiver's counter never goes back, and acceptance moves it to the larger nonce of the message. |
| `CurveMessages.NonceMovesExactly` | libzmq/src/curve_mechanism_base.cpp:102-150 | The receiver's counter moves exactly for what looks like a message with a larger nonce, whether or not its box opens, and nothing else changes. |
| `CurveMessages.OldNoncesAreRefused` | libzmq/src/curve_mechanism_base.cpp:129-136 | A nonce that is not larger than the last one is refused, whoever made the message, and changes nothing. |
| `CurveMessages.CurveMechanismBase.Encode` | libzmq/src/curve_mechanism_base.cpp:52-100 | Builds the command from the counter and advances it. |
| `CurveMessages.CurveMechanismBase.Decode` | libzmq/src/curve_mechanism_base.cpp:102-177 | All refusals in the order of the checks, with the counter moved exactly when the source moves it. |
| `CurveHandshakeObjects.CurveClient.ProcessHandshakeCommand` | libzmq/src/curve_client.cpp:80-110 | Recognises the command by its name and does to state, keys and counters what the function says. |
| `CurveHandshakeObjects.CurveClient.NextHandshakeCommand` | libzmq/src/curve_client.cpp:58-78 | Fills HELLO or INITIATE piece by piece; the bytes are those of the function. |
| `CurveHandshakeObjects.CurveServer.ProcessHandshakeCommand` | libzmq/src/curve_server.cpp:91-123 | HELLO and INITIATE with all their refusals, by state; and exactly when an INITIATE is copied past the end of the buffers. |
| `CurveHandshakeObjects.CurveServer.NextHandshakeCommand` | libzmq/src/curve_server.cpp:63-89 | Fills WELCOME, READY or ERROR piece by piece. |
| `Metadata.ParsePrinted` | libzmq/src/mechanism.cpp:126-145 | Parsing any concatenation of printed properties yields those pairs. |
| `Metadata.FirstValueWins` | libzmq/src/mechanism.cpp:244-246 | Of a repeated name the first value is kept. |
| `Metadata.ParseExact` | libzmq/src/mechanism.cpp:203-253 | With all checks passing, parsing returns 0 exactly for whole properties, optionally followed by one cut behind a non-empty name or behind a length that is not zero. |
| `Metadata.ParseOutcome` | libzmq/src/mechanism.cpp:203-253 | For any data: the properties before the first one that is refused are collected and parsing returns -1; if none is refused all are collected, and what is left behind the last decides between 0 and -1. |
| `Metadata.AcceptsExactly` | libzmq/src/mechanism.cpp:203-329 | A property is accepted exactly if a socket type in it is that of a listed partner and the hook agrees to all others, but for a routing id that has been asked for. |
| `Metadata.CutsAreExact` | libzmq/src/mechanism.cpp:210-226 | Exactly those cuts are taken as the end of the data. |
| `Metadata.CutIsAccepted` | libzmq/src/mechanism.cpp:203-253 | A name without its value is taken as complete, and so is one with a length and no value; cut inside the length it is malformed. |
| `Metadata.BasicLength` | libzmq/src/mechanism.cpp:176-184 | basic_properties_len is the number of bytes that add_basic_properties writes. |
| `Metadata.PartnersAreMutual` | libzmq/src/mechanism.cpp:273-329 | One side accepts the other's socket type exactly if the two are one of the listed combinations, and so exactly if the other accepts its own. |
| `Metadata.AnnouncementsAreUnderstood` | libzmq/src/mechanism.cpp:155-253 | What one side announces is accepted exactly by partners, who then know the type, and the routing id if it is sent and asked for. |
| `MetadataObjects.Mechanism.ParseMetadata` | libzmq/src/mechanism.cpp:203-253 | The loop returns 0 or -1 and has collected what the function says, for ZMTP and for ZAP properties. |
| `MetadataObjects.Mechanism.AddBasicProperties` | libzmq/src/mechanism.cpp:155-174 | The bytes written, their number, and that nothing before them changes. |
| `EventObservers.HistoryInStep` | EventClient.cpp:23-93 | After any sequence of registrations each pair is stored once if it is registered, and the socket holds one subscription per type with an observer and none otherwise. |
| `EventObservers.DeliveryIsExact` | EventClient.cpp:137-156 | A received title reaches exactly the targets registered for it, once each, and the prefix filter never withholds such a title. |
| `EventObservers.LocDeliveryExactly` | EventClient.cpp:120-128 | publish_loc_event reaches exactly the observers of the type if and only if the type has none or no observed type sorts after it. |
| `EventObservers.LocRunsOn` | EventClient.cpp:123-127 | It calls the observers of the type, if there are any, and then those of every type that sorts after it. |
| `EventObservers.LocRunsOnForA` | EventClient.cpp:123-127 | With observers of a and b, an event of type a reaches both. |
| `EventObservers.RegisterKeeps` | EventClient.cpp:23-60 | Registering adds the pair; it reports success exactly if subscriptions are in step, also when the socket refuses. |
| `EventObservers.RefusedIsKept` | EventClient.cpp:38-48 | The socket refuses the first observer of a type: the pair is stored, and nothing is subscribed. |
| `EventObservers.UnregisterKeeps` | EventClient.cpp:62-93 | Unregistering removes the pair; it reports success exactly if subscriptions are in step. |
| `EventObservers.FindIsFirst` | EventClient.cpp:26-27 | find returns the first entry with the key, if there is one. |
| `EventObservers.EventClient.RegisterObserver` | EventClient.cpp:23-60 | The loop over the entries of the key finds a stored pair, and the multimap and subscriptions are those of the function. |
| `EventObservers.EventClient.UnregisterObserver` | EventClient.cpp:62-93 | The loop erases the pair and unsubscribes exactly when it was the last of its type. |
| `EventObservers.EventClient.HandleEvent` | EventClient.cpp:137-156 | The loop over the range calls exactly the handlers of the title, in order. |
| `EventObservers.EventClient.PublishLocEvent` | EventClient.cpp:120-128 | The loop from the found key to the end of the map calls the handlers that the function says, in order. |

## Left out

- `pipe_t`, `ypipe_t`, `mailbox_t`: only as queues; high-water marks, batching and the reader's and writer's ends are not modelled.
- `own_t`: the base class only; subclasses that delay `process_term`, such as sessions and sockets, are not modelled.
- OwnershipTheorems.SeqnumWidth: `sent_seqnum` is bounded by 2^32 - 1 counted commands per object; what happens beyond that is stated for one check only.
- The 64-bit nonces of CURVE, `processed_seqnum` and the reference counters are assumed not to wrap around; counters are natural numbers below their modulus.
- MultiTrieNode.Node.Match: the order of the callbacks among the values of one node is left open, as that of `std::set` of pointers is.
- MultiTrieNode.Node.RmValueHelper: bytes that `realloc` adds to the path buffer are zero until written.
- Message metadata, routing ids, groups, join and leave messages, and flags other than `more` and `shared`.
- Allocation failure, except where `init_size` and `init_data` report it to their caller.
- `array_t`: one index per item; items that are in several arrays at once under different IDs are not modelled.
- `dist_t::check_hwm`, `fq_t::get_credential`, and the copies of routing ids that the callers of `fq_t` make.
- FairQueue.ServedInTurn: no pipe terminates meanwhile, as that may move the turn in either direction.
- LoadBalancer.ServedInTurn: the same.
- LoadBalancer.FramesStayTogether: other pipes terminate in the middle of a message only where LoadBalancer.TerminationExact says that this is harmless.
- FairQueue.MessagesStayWhole: later frames of a message are readable when the first one is; other pipes terminate between messages or harmlessly.
- Distribution.StepKeeps: `match` and `reverse_match` only between messages, and `activated` only on passive pipes, as their callers see to.
- EncoderObjects.Encoder.constructor: `new_msg_flag` begins true, as the constructors of the v1, v2 and raw encoders leave it through `next_step`.
- DecoderObjects.Decoder.GetBuffer: whether messages still use the buffer is a parameter; ReceiveBuffers says how the allocator knows. The number of content slots in a buffer is not bounded.
- DecoderObjects.Decoder.Decode: the data are elsewhere or where the next bytes are wanted, never at another place of the same memory, and are not empty; all callers see to this.
- `stream_engine_t`: its handshake, `process_msg` refusing a message, and restarting input after that.
- PgmReceiving.PgmReceiver.InEvent: the decoders are values in the table of peers, not objects of their own; timers, polling and the subscriptions that `restart_output` drops are not modelled.
- V1Decoding.EndToEnd: a message that does not fit into memory (`init_size` fails) or whose size is larger than `size_t`, and sizes above a limit, which V1Decoding.DecodesWhatWasEncoded covers.
- `pgm_sender_t`: what `pgm_socket` makes of a packet, rate limits and timers; payloads are shorter than 0xffff bytes.
- `ctx_t`: options, choice of I/O threads, VMCI, fork; `terminate` with pending inproc connections, which it sends away first; in `connect_inproc_sockets`, high-water marks, thread ids and the exchange of routing ids.
- Rendezvous.StepKeeps: a socket does not unbind an address that it is in the middle of binding.
- CURVE: ZAP authentication; how keys and boxes look as bytes; `Identity` of a peer beyond storing it. Secrets are known by the public keys they belong to.
- CurveConversation.ReceivedIsSent: requires that the client's announcement fits, as CurveConversation.OverflowExactly says; beyond that nothing is said.
- CurveHandshakeObjects.CurveServer.ProcessHandshakeCommand: after an INITIATE has been copied past the end of the buffers nothing is said; the source has no defined behaviour then.
- CurveConversation.NeverStuck: the property hooks of both sides accept, as the default ones do.
- Draft socket types, the NULL, PLAIN and GSSAPI mechanisms, v2 framing, pollers, sockets and addresses.
- EventObservers.DeliveryIsExact: handlers do not change the observers; `find` returns the first equal key, which `std::multimap` leaves open.
- `EventClient::publish_event`, the proxies of `EventBus`, and the thread wrappers.
