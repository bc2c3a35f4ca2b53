# Verified model of the OPC UA secure channel layer

A Dafny 4.11 model of the secure-channel layer of the OPC UA ANSI C stack and of the concurrent
containers beneath it, with proofs. `dafny verify dfyconfig.toml` checks the whole project.

| file | what it models |
|---|---|
| `Lists.dfy` | the doubly linked list with a cursor: heap nodes proved against a sequence and a cursor index |
| `SecureChannels.dfy` | the channel object: current and previous token with their keysets, activation flag, sequence counters |
| `SequenceNumbers.dfy` | whole runs of the sequence-number rule (section 6.7.2 of OPC UA Part 6) |
| `KeyOwnership.dfy` | who releases keysets and crypto providers over Open, any Renews, Clear |
| `Renewal.dfy` | token renewal between a client and a server over two first-in first-out wires (section 5.5.2 of OPC UA Part 4) |
| `TokenSets.dfy` | both sides from Open on: what Open leaves, which set a token finds, the lifetimes in use |
| `ChannelManagers.dfy`, `Lifetimes.dfy` | the server's channel list: reference counts, the watchdog pass that deletes while it walks, how long a channel lives |
| `SecureConnections.dfy`, `Completions.dfy` | the client's pending requests: the locked list in the heap, and exactly-once completion over all interleavings |
| `WatchdogGaps.dfy` | sequences of watchdog passes over those requests, across the wrap of the 32-bit tick counter |
| `ThreadPools.dfy`, `Stranding.dfy`, `Threads.dfy`, `PoolShutdown.dfy` | the thread pool with its semaphores, waiting callers, thread shutdown, and Clear |
| `PoolObjects.dfy` | the pool and thread objects with the real job list: each critical section as a method, and a machine that executes any schedule of the threads on them |
| `Buffers.dfy` | the growing byte buffer |
| `Utf8Lengths.dfy` | the UTF-8 character count |
| `Basics.dfy`, `Filters.dfy` | shared types; selecting from a sequence by verdicts |

## How it is built

Objects that the C code updates in place are classes: the list (nodes with next and previous
pointers), the secure channel, the channel manager, the connection's request list, the pool and thread
objects, the buffer. Each method's contract ties the new state to a function of the old one, and the
lemmas are about those functions. Protocols between threads are step systems: a step is one critical
section or one semaphore operation, and the theorems quantify over every possible sequence of steps.
Their steps use the same functions that the methods are proved against: the two sides of `Renewal` take
the steps `Lookup`, `Issuing` and `Renewing`, `Completions` works on `Take`, `TimeOuts` and `Completions`,
and the machine of `PoolObjects` goes through exactly the states of `ThreadPools` under every schedule.

A few properties one would expect are false of the code in general. The model keeps the code as it
is and the lemma says exactly when the property holds:

- Open and Renew return on a null transport connection or a null crypto provider before they take
  ownership: keysets handed in with such a call are never released (`KeysetsReleasedOnce`, `NullProviderLeaks`).
- A provider that was used before but is not the current one is released twice, and is in use after its
  release (`ProvidersReleasedOnce`, `InstalledProvidersAlive`, `ProviderReleasedTwice`).
- A sender whose first number is not below 1024 is rejected by a fresh receiver (`InOrderAccepted`).
- The handler of OpenSecureChannel responses looks the request up by the id in the response and does not check
  its type (`Stack/securechannel/opcua_secureconnection.c:3105-3118`). A session call whose id it carries is
  never answered (`AccountedForExactlyWhen`, `MisaddressedOpenAnswer`).
- When watchdog passes are more than 2^32 ms less the timeout apart, a request that is due can be passed over
  (`PunctualExactlyWhen`, `WideMisses`).
- With two callers of AddJob and room for two jobs, a caller can be left waiting beside free room (`StrandsExactlyWhen`).
- The character count does not end on some strings of more than 2^32 - 6 bytes (`EndsExactlyWhen`).

Where code and comments disagree the code is followed: `Stack/core/opcua_buffer.h:35` calls a maximum of 0
a fixed size, while `Stack/core/opcua_buffer.c:261` and `opcua_buffer.h:75` treat it as no limit.

Assumptions. Wires deliver in order, and a failed send has put nothing on the wire. Each side handles
received messages one after the other, in wire order. The server's renew step is RenewSecurityToken, then
Renew, then the response; a sender picks its token and sends under the write mutex, which also covers the
OpenSecureChannel messages (`Stack/securechannel/opcua_securestream.c:963-1052`). Both sides derive the same
keys. No request id is used again while its last user is pending or being sent. Semaphore posts saturate at
the maximum, mutexes are recursive, allocation succeeds, a thread is started once, and AddJob is not called
during Clear.

## Model

| member | source | states |
|---|---|---|
| Lists.List.AddElement | Stack/core/opcua_list.c:302-341 | inserts at the front; the cursor stays on its node; a null argument changes nothing |
| Lists.List.AddElementToEnd | Stack/core/opcua_list.c:650-687 | appends, the cursor index stays (a null cursor comes to stand on the new element) |
| Lists.List.ResetCurrent | Stack/core/opcua_list.c:351-359 | the cursor goes to the first element |
| Lists.List.GetCurrentElement | Stack/core/opcua_list.c:405-418 | the element at the cursor index, null when the cursor is null |
| Lists.List.GetNextElement | Stack/core/opcua_list.c:371-394 | steps forward and returns the element there, or leaves the list |
| Lists.List.GetPrevElement | Stack/core/opcua_list.c:432-447 | steps back, but stays on the first element and returns null there |
| Lists.List.GetElement | Stack/core/opcua_list.c:464-490 | finds the element exactly when it is in the list, without moving the cursor |
| Lists.List.GetNumberOfElements | Stack/core/opcua_list.c:701-710 | the counter is the length of the list |
| Lists.List.DeleteCurrentElement | Stack/core/opcua_list.c:503-542 | removes exactly the cursor's element; the cursor then stands on its successor; neighbours, ends and count stay consistent |
| Lists.List.DeleteElement | Stack/core/opcua_list.c:555-601 | removes the cursor's element if it matches, whatever else does, else the first match, with the cursor left on the same node; BadNotFound exactly when nothing matches |
| Lists.List.RemoveFirstElement | Stack/core/opcua_list.c:615-634 | hands out and removes the first element |
| Lists.List.EnQueueCurrentElement | Stack/core/opcua_list.c:727-784 | moves the cursor's node to the end of a detached, linked queue that shares no node with the list |
| Lists.List.Clear | Stack/core/opcua_list.c:188-218 | empties the list |
| Lists.QueueIsFifo | Stack/core/opcua_list.c:615-687 | any mix of AddElementToEnd and RemoveFirstElement is a queue: handed out + left = initial + appended, in order |
| SecureChannels.SecureChannel.constructor | Stack/securechannel/opcua_tcpsecurechannel.c:660-727 | a new channel: no token, next token id 1, last received number 0xFFFFFFFF |
| SecureChannels.SecureChannel.GetSecuritySet | Stack/securechannel/opcua_tcpsecurechannel.c:34-95 | finds the set of the current or previous token, else BadSecureChannelTokenUnknown; seeing the current token, and nothing else, activates it |
| SecureChannels.SecureChannel.GetCurrentSecuritySet | Stack/securechannel/opcua_tcpsecurechannel.c:100-164 | the sender's set: the current one once active, the previous one before |
| SecureChannels.ReviseLifetime | Stack/securechannel/opcua_tcpsecurechannel.c:190-205 | the revised lifetime is the allowed one that is nearest to the requested one |
| SecureChannels.SecureChannel.GenerateSecurityToken | Stack/securechannel/opcua_tcpsecurechannel.c:210-263 | a token with the next id, which then advances modulo 2^32, made now, with the allowed lifetime nearest to the requested one |
| SecureChannels.SecureChannel.RenewSecurityToken | Stack/securechannel/opcua_tcpsecurechannel.c:268-323 | the same for a renewal, with the channel id of the token to renew |
| SecureChannels.SecureChannel.GetSequenceNumber | Stack/securechannel/opcua_tcpsecurechannel.c:328-344 | the 32-bit successor of the last number sent |
| SecureChannels.SecureChannel.CheckSequenceNumber | Stack/securechannel/opcua_tcpsecurechannel.c:349-379 | accepts exactly the successor, and any number below 1024 when the last one is among the last 1024 before the wrap; a rejected number changes nothing |
| SecureChannels.SecureChannel.Open | Stack/securechannel/opcua_tcpsecurechannel.c:418-505 | installs the set, which is sent with at once and found by its token, arms the counters and leaves the previous set alone; or rejects and releases the keysets, or returns early exactly on a null argument |
| SecureChannels.OpeningActivates | Stack/securechannel/opcua_tcpsecurechannel.c:418-505 | after an accepted Open of any channel the new set is the sending one and the one its token finds |
| SecureChannels.SecureChannel.Renew | Stack/securechannel/opcua_tcpsecurechannel.c:510-635 | current becomes previous, the new set is current and inactive, the old previous keysets and an unshared old provider are released; or rejects |
| SecureChannels.SecureChannel.Clear | Stack/securechannel/opcua_tcpsecurechannel.c:732-827 | releases both sets, a shared provider once |
| SecureChannels.SecureChannel.Close | Stack/securechannel/opcua_tcpsecurechannel.c:640-655 | the channel is closed |
| SequenceNumbers.InOrderAccepted | Stack/securechannel/opcua_tcpsecurechannel.c:328-379 | all numbers produced from a start are accepted by a fresh receiver, forever and across every wrap, if and only if the first is below 1024 |
| SequenceNumbers.StartingNumberAccepted | Stack/securechannel/opcua_tcpsecurechannel.c:678-679 | the stack's own starting number meets that condition |
| SequenceNumbers.AcceptedNext | Stack/securechannel/opcua_tcpsecurechannel.c:358-369 | after any accepted number exactly the next one is accepted, and in the last 1024 before the wrap every number below 1024 too |
| SequenceNumbers.AnyWrapAccepted | Stack/securechannel/opcua_tcpsecurechannel.c:358-369 | a sender may wrap at any number of that window and continue at any number below 1024: all of it is accepted |
| SequenceNumbers.RecurrenceBound | Stack/securechannel/opcua_tcpsecurechannel.c:358-369 | in any run, two acceptances of the same number are at least 4294965250 acceptances apart |
| SequenceNumbers.RecurrenceBoundIsTight | Stack/securechannel/opcua_tcpsecurechannel.c:358-369 | a run from the initial state reaches that bound |
| SequenceNumbers.ClimbOrWrap | Stack/securechannel/opcua_tcpsecurechannel.c:358-369 | between two accepted numbers the run climbed by ones, or climbed into the wrap window and up again from at most 1023 |
| KeyOwnership.KeysetsConserved | Stack/securechannel/opcua_tcpsecurechannel.c:418-635 | at any time, each keyset handed in is installed, released or orphaned by a null argument, as often as it was handed in |
| KeyOwnership.KeysetsReleasedOnce | Stack/securechannel/opcua_tcpsecurechannel.c:418-827 | after Clear the released keysets are exactly those handed in, if and only if no call with a null argument handed one in |
| KeyOwnership.NullProviderLeaks | Stack/securechannel/opcua_tcpsecurechannel.c:430-432 | the failing input: an Open with a keyset and a null provider |
| KeyOwnership.InstalledKeysetsAlive | Stack/securechannel/opcua_tcpsecurechannel.c:591-601 | an installed keyset has not been released |
| KeyOwnership.ProvidersConserved | Stack/securechannel/opcua_tcpsecurechannel.c:603-620 | each uninterrupted use of a provider is released or still installed |
| KeyOwnership.ProvidersReleasedOnce | Stack/securechannel/opcua_tcpsecurechannel.c:603-796 | after Clear exactly the accepted providers are released, each once if and only if every accepted renewal request brings a fresh provider or the current one |
| KeyOwnership.InstalledProvidersAlive | Stack/securechannel/opcua_tcpsecurechannel.c:603-620 | at no time an installed provider has been released, if and only if the same condition holds |
| KeyOwnership.ProviderReleasedTwice | Stack/securechannel/opcua_tcpsecurechannel.c:603-620 | the failing input: provider A, then B, then A again |
| Renewal.StepKeepsInv | Stack/securechannel/opcua_tcpsecurechannel.c:526-620 | every step of either side keeps the two token sets one renewal apart at most, with mirrored keys |
| Renewal.EveryMessageUnpacks | Stack/securechannel/opcua_tcpsecurechannel.c:46-90 | in every run, each message on the way in either direction carries a token its receiver knows and is unpacked with the keys it was secured with |
| Renewal.RenewalsSucceed | Stack/securechannel/opcua_secureconnection.c:3163-3198 | in every run, neither side's Renew is refused, and the client's one leaves both sides with mirrored sets |
| Renewal.ServerTokenIsInstalled | Stack/securechannel/opcua_tcpsecurechannel.c:112-159 | the server sends with its current token only when the client holds it |
| Renewal.OldTokenUntilSeen | Stack/securechannel/opcua_securelistener.c:2242-2381 | after a renewal the server sends with the old token, keys and provider until a message with the new token has arrived |
| Renewal.ResponsesAnswerRenewal | Stack/securechannel/opcua_secureconnection.c:3163-3198 | in every run a renew response on the wire finds bRenewActive set, is the only one, and carries the server's current token and keys |
| Renewal.SecondRenewalForgets | Stack/securechannel/opcua_secureconnection.c:576-590 | what bRenewActive prevents: after two server renewals in a row a message with the client's token is unknown |
| Renewal.RenewalCanComplete | Stack/securechannel/opcua_secureconnection.c:592-611 | from every quiet state some run completes a renewal and both sides use the next token |
| TokenSets.EstablishedIsInitial | Stack/securechannel/opcua_securelistener.c:2275-2351 | two new channels, one issuing the first token and both opened with it, are in the state from which the renewal theorems start |
| TokenSets.EveryMessageUnpacksFromOpen | Stack/securechannel/opcua_secureconnection.c:3165-3185 | from the two Opens on, every message on the way is unpacked with the keys it was secured with |
| TokenSets.TokenFindsItsSet | Stack/securechannel/opcua_tcpsecurechannel.c:46-90 | over any run, on either side: a token id finds the whole set that was installed with it, provider included, if that is one of the two newest, and nothing else |
| TokenSets.TokensInRange | Stack/securechannel/opcua_tcpsecurechannel.c:190-205 | over any run, whatever lifetimes were requested, the tokens in use on both sides have an allowed lifetime |
| ChannelManagers.ChannelManager.AddChannel | Stack/securechannel/opcua_securelistener_channelmanager.c:376-415 | lists the channel first, with reference count 0 |
| ChannelManagers.ChannelManager.ReleaseChannel | Stack/securechannel/opcua_securelistener_channelmanager.c:420-455 | gives one handle back, or reports a missing handle or a count of 0; of a listed channel the count is 0 exactly when no handle is borrowed |
| ChannelManagers.ChannelManager.GetChannelBySecureChannelID | Stack/securechannel/opcua_securelistener_channelmanager.c:509-557 | lends the first channel with the id and counts the handle; the invalid id and an unknown id lend none |
| ChannelManagers.ChannelManager.GetChannelByTransportConnection | Stack/securechannel/opcua_securelistener_channelmanager.c:562-606 | lends the first channel of the connection and counts the handle |
| ChannelManagers.ChannelManager.StepChannel | Stack/securechannel/opcua_securelistener_channelmanager.c:92-162 | one pass for one channel: expired exactly when it ran out unheld and not closed, dropped exactly when closed and unheld, and which counter steps |
| ChannelManagers.ChannelManager.TimerCallback | Stack/securechannel/opcua_securelistener_channelmanager.c:59-185 | one pass, over the log and the fields: exactly the unheld channels that ran out are reported, those and the closed unheld ones are deleted and unlisted, the rest stay in order with one counter stepped, and a held one that ran out is closed |
| ChannelManagers.ChannelManager.AgeChannels | Stack/securechannel/opcua_securelistener_channelmanager.c:79-164 | the loop that walks the list while deleting and detaching |
| ChannelManagers.ChannelManager.NotifyExpired | Stack/securechannel/opcua_securelistener_channelmanager.c:167-180 | the detached queue is reported and deleted first to last |
| ChannelManagers.PassReports | Stack/securechannel/opcua_securelistener_channelmanager.c:92-180 | who is reported, who is deleted silently and who stays, as an if and only if over state, counters and reference count |
| ChannelManagers.PassIsOrderly | Stack/securechannel/opcua_securelistener_channelmanager.c:162-180 | each event of a pass occurs once, each report is directly followed by its deletion, reports go in list order and so do silent deletions |
| ChannelManagers.PassIsPartition | Stack/securechannel/opcua_securelistener_channelmanager.c:82-180 | survivors, silently deleted and expired channels together are the old list |
| ChannelManagers.RemovedIsNotKept | Stack/securechannel/opcua_securelistener_channelmanager.c:82-180 | a deleted channel was listed before and is not listed after |
| Lifetimes.CountsDown | Stack/securechannel/opcua_securelistener_channelmanager.c:100-112 | the expiration counter runs down first, then the overlap counter |
| Lifetimes.ExpirationThenOverlap | Stack/securechannel/opcua_tcpsecurechannel.c:453-454 | a channel just opened or renewed counts its lifetime/10000 passes down first, then the (lifetime/4)/10000 passes of the overlap |
| Lifetimes.RemovedOnExactlyThatPass | Stack/securechannel/opcua_securelistener_channelmanager.c:100-124 | an idle, unrenewed channel is removed on exactly pass r/10000 + (r/4)/10000 + 1 |
| Lifetimes.ProcessOpenSecureChannelRequest | Stack/securechannel/opcua_securelistener.c:2217-2351 | from the requested lifetime to the counters: issue, then Open or Renew; the channel then lives for exactly the passes that the nearest allowed lifetime gives |
| Lifetimes.RemovalTime | Stack/securechannel/opcua_secureconnection.c:3202-3203 | for the token issued for any requested lifetime and every tick phase: removal not before the lifetime has passed, at most one interval after the overlap, and a quarter of the lifetime or more after the client's renew timer |
| SecureConnections.SecureConnection.AddPendingRequest | Stack/securechannel/opcua_secureconnection.c:735-794 | stores the request first in the list |
| SecureConnections.SecureConnection.RemoveSecureRequestById | Stack/securechannel/opcua_secureconnection.c:691-730 | takes the first request with the id out, or none |
| SecureConnections.SecureConnection.RemoveSecureRequestByType | Stack/securechannel/opcua_secureconnection.c:647-686 | takes the first request of the type out, or none |
| SecureConnections.TakesExactly | Stack/securechannel/opcua_secureconnection.c:647-730 | a lookup takes a request out if and only if one with that id, or of that type, is pending: the first one, and the others stay in order |
| SecureConnections.SecureConnection.WatchdogTimerCallback | Stack/securechannel/opcua_secureconnection.c:427-489 | calls back with BadTimeout exactly the requests with a timeout whose 32-bit elapsed time has reached it, in order; the rest stay in order, and those without a timeout always |
| SecureConnections.SecureConnection.CancelOpenRequests | Stack/securechannel/opcua_secureconnection.c:1207-1263 | calls back exactly the pending requests that have a callback, in order and with that status, and empties the list |
| SecureConnections.SecureConnection.WatchdogTimerKillCallback | Stack/securechannel/opcua_secureconnection.c:495-536 | the same with BadDisconnect when the watchdog timer is deleted |
| SecureConnections.CompletionsInOrder | Stack/securechannel/opcua_secureconnection.c:1226-1250 | the callbacks come one for each request, in list order, with the status |
| SecureConnections.TimedOutElapsed | Stack/securechannel/opcua_secureconnection.c:442-450 | the 32-bit test compares the true elapsed time modulo 2^32: it is never early, and exact below 2^32 ms |
| WatchdogGaps.PunctualExactlyWhen | Stack/securechannel/opcua_secureconnection.c:427-489 | every request with a timeout T, stored at any instant, is found by the first pass at which it is due, in every sequence of passes at most G ms apart, if and only if G <= 2^32 - T |
| WatchdogGaps.WideMisses | Stack/securechannel/opcua_secureconnection.c:446-450 | the passes that miss it when they may be further apart |
| WatchdogGaps.PendingUntilDue | Stack/securechannel/opcua_secureconnection.c:427-489 | on the list, over any such passes: a request is pending exactly while it was not due when it was last looked at |
| WatchdogGaps.PendingAfterPasses | Stack/securechannel/opcua_secureconnection.c:427-489 | a request is pending after any passes exactly when none of them found it timed out |
| WatchdogGaps.WithoutTimeoutStays | Stack/securechannel/opcua_secureconnection.c:455-459 | over any passes with any clocks a request with timeout 0 or infinite is pending exactly when it was |
| WatchdogGaps.FiredHadTimeout | Stack/securechannel/opcua_secureconnection.c:455-459 | what any passes complete was pending with a timeout, and is told BadTimeout |
| Completions.StepConserves | Stack/securechannel/opcua_secureconnection.c:691-730 | every step keeps each issued request in exactly one place: pending, in hand, fired, withdrawn or discarded |
| Completions.AccountedForExactlyWhen | Stack/securechannel/opcua_secureconnection.c:3105-3118 | in every run a session request's callback fires at most once, and the request is accounted for (answered, or on its way to be, exactly once, unless its sender was told of the failure) if and only if no OpenSecureChannel response was taken for it |
| Completions.MisaddressedOpenAnswer | Stack/securechannel/opcua_secureconnection.c:3105-3118 | the failing run: EndSendRequest returns Good, an OpenSecureChannel response carries the call's id, no callback fires |
| Completions.CompletedExactlyOnce | Stack/securechannel/opcua_secureconnection.c:2233-2332 | when every OpenSecureChannel response is addressed to such a request: the callback fires at most once, never when EndSendRequest returned a bad status, and a good one means pending, in hand or fired |
| Completions.CancelLeavesNonePending | Stack/securechannel/opcua_secureconnection.c:1207-1263 | right after a cancellation that races with senders and handlers: none is pending, each request is in hand, answered, withdrawn or discarded, once |
| Completions.DeleteLeavesNoneUnanswered | Stack/securechannel/opcua_secureconnection.c:2573-2635 | in every continuation without new calls, once the last sender and the last handler are done, each session request was answered once, unless its sender was told of the failure or an OpenSecureChannel response was taken for it |
| Completions.FoundIsOwn | Stack/securechannel/opcua_secureconnection.c:2303-2323 | a failing sender takes back its own request or none |
| Completions.AnswerFindsItsRequest | Stack/securechannel/opcua_secureconnection.c:691-730 | in every run a response gets the pending request with its id and leaves all others where they are; without such a request it changes nothing |
| Completions.OpenErrorTakesOpenRequest | Stack/securechannel/opcua_secureconnection.c:3234-3245 | an error while connecting takes out a pending OpenSecureChannel request exactly when there is one, and never a session call |
| Completions.CallbackStatuses | Stack/securechannel/opcua_secureconnection.c:427-489 | which callbacks each step invokes and with which status, as an if and only if |
| ThreadPools.WakeupsSuffice | Stack/core/opcua_threadpool.c:129-215 | before the stop, stored and coming wakeups cover the queued jobs no woken worker will fetch, or all idle workers |
| ThreadPools.WakeupsArePaidFor | Stack/core/opcua_threadpool.c:716-723 | before the stop, wakings and stored wakeups together never exceed the posts of added jobs |
| ThreadPools.JobsConserved | Stack/core/opcua_threadpool.c:636-671 | uNoOfJobs counts reserved, queued and held jobs and never exceeds its maximum |
| ThreadPools.FetchedInOrderStartedOnce | Stack/core/opcua_threadpool.c:129-210 | jobs are fetched in append order and each is started at most once |
| ThreadPools.AtMostOneMoreJob | Stack/core/opcua_threadpool.c:134-210 | after the stop each worker starts at most one more job |
| ThreadPools.WorkersExit | Stack/core/opcua_threadpool.c:134-242 | after the stop every run is bounded and comes to rest only when all workers have exited |
| ThreadPools.StoppedWorkersWake | Stack/core/opcua_threadpool.c:303-318 | in every run after the stop each waiting worker has a stored wakeup, and when only timeouts are left all workers have exited |
| ThreadPools.StepNotStranded | Stack/core/opcua_threadpool.c:187-202 | with one caller or room for one job, no step leaves a waiting caller without a full pool or a permit |
| ThreadPools.WaitingCallerLeaves | Stack/core/opcua_threadpool.c:646-663 | a waiting caller goes on until its timeout, or until it finds room and reserves it |
| ThreadPools.RefusingNeverBlocks | Stack/core/opcua_threadpool.c:665-670 | in a pool that does not block no caller ever waits, in any run |
| Stranding.StrandsExactlyWhen | Stack/core/opcua_threadpool.c:646-663 | a blocking pool strands no caller in any run if and only if there is one caller or room for one job |
| Stranding.NarrowNeverStrands | Stack/core/opcua_threadpool.c:646-663 | the single-caller case, for every run |
| Threads.GoodMeansEnded | Stack/core/opcua_thread.c:222-264 | WaitForShutdown says Good after the start only when the main function has returned; an infinite wait says nothing else |
| Threads.NoWaiterIsForgotten | Stack/core/opcua_thread.c:58-74 | once the thread has ended, each blocked waiter can be woken, if need be after another has posted again |
| PoolShutdown.FreedOnlyWhenAllEnded | Stack/core/opcua_threadpool.c:308-415 | Clear frees the mutex, semaphores and job list only when every worker has exited and no step of the pool is possible |
| PoolShutdown.ClearNeverStuck | Stack/core/opcua_threadpool.c:308-334 | a pool that was told to stop always has a possible step until it is freed |
| PoolObjects.ThreadPool.constructor | Stack/core/opcua_threadpool.c:450-487 | the pool as Initialize leaves it: empty list, both semaphores 0 |
| PoolObjects.ThreadPool.FetchJob | Stack/core/opcua_threadpool.c:129-131 | takes the first job out of the linked list, as the fetch step does |
| PoolObjects.ThreadPool.TakeJobAdded | Stack/core/opcua_threadpool.c:149-150 | the wait at the instant at which it gets a stored wakeup |
| PoolObjects.ThreadPool.JobDone | Stack/core/opcua_threadpool.c:187-202 | counts the job off, and posts the queue-open permit only on leaving the full pool |
| PoolObjects.ThreadPool.Reserve | Stack/core/opcua_threadpool.c:636-671 | reserves a place and a number when there is room, else blocks or refuses |
| PoolObjects.ThreadPool.Recheck | Stack/core/opcua_threadpool.c:649-663 | the same after waiting, going back to the wait when the pool is full again |
| PoolObjects.ThreadPool.TakeQueueOpen | Stack/core/opcua_threadpool.c:652-653 | the wait at the instant at which it gets the permit |
| PoolObjects.ThreadPool.AppendJob | Stack/core/opcua_threadpool.c:716-719 | appends the job to the linked list |
| PoolObjects.ThreadPool.PostJobAdded | Stack/core/opcua_threadpool.c:723 | stores one more wakeup, at most one for each worker |
| PoolObjects.ThreadPool.Stop | Stack/core/opcua_threadpool.c:303-318 | sets the stop flag and stores a wakeup for each worker |
| PoolObjects.Machine.Execute | Stack/core/opcua_threadpool.c:113-242 | worker loops, AddJob calls and the stop on the real objects, under any schedule: they go through exactly the states that the theorems about runs speak of |
| PoolObjects.ThreadObject.constructor | Stack/core/opcua_thread.c:79-121 | not running, the shutdown event signalled |
| PoolObjects.ThreadObject.Start | Stack/core/opcua_thread.c:173-216 | takes the event and runs; a running thread is left alone; without the event it does not return |
| PoolObjects.ThreadObject.End | Stack/core/opcua_thread.c:70-73 | clears the running flag and posts the event |
| PoolObjects.ThreadObject.Ask | Stack/core/opcua_thread.c:233-240 | a thread that is not running need not be waited for |
| PoolObjects.ThreadObject.Wake | Stack/core/opcua_thread.c:242-246 | takes the event |
| PoolObjects.ThreadObject.Finish | Stack/core/opcua_thread.c:248-263 | Good and the event posted again when the thread has stopped, else GoodNonCriticalTimeout |
| Buffers.Buffer.constructor | Stack/core/opcua_buffer.c:40-63 | the initial contents and sizes; a block size of 0 becomes 1 |
| Buffers.Buffer.Write | Stack/core/opcua_buffer.c:225-296 | byte by byte: the chunk at the position, all bytes before and behind it as they were, grown if needed; or changes nothing and returns BadEndOfStream |
| Buffers.Buffer.Read | Stack/core/opcua_buffer.c:141-184 | the bytes from the position, as many as asked for and left; BadEndOfStream when none is left |
| Buffers.Buffer.Skip | Stack/core/opcua_buffer.c:189-220 | moves the position by the whole length or not at all |
| Buffers.Buffer.SetPosition | Stack/core/opcua_buffer.c:324-356 | start, end, or a position up to the end of data |
| Buffers.Buffer.SetEmpty | Stack/core/opcua_buffer.c:361-369 | forgets the contents, keeps the memory |
| Buffers.WritingGrows | Stack/core/opcua_buffer.c:243-293 | a write grows the buffer only if it must, then to the least multiple of the block size that suffices, and is refused if and only if that exceeds a nonzero maximum |
| Buffers.RoundTrip | Stack/core/opcua_buffer.c:160-183 | any chunks written to an empty buffer come back in any portions, then every read says BadEndOfStream |
| Buffers.UnboundedAcceptsAll | Stack/core/opcua_buffer.c:261-265 | without a maximum no chunk is refused |
| Buffers.WriteThenRead | Stack/core/opcua_buffer.c:285-293 | what is written anywhere is read back from there, and every range the write does not touch reads as before |
| Buffers.PositionThenRead | Stack/core/opcua_buffer.c:324-356 | SetPosition is refused exactly behind the end of data, and a read then gives the bytes from the position on |
| Buffers.SkipThenRead | Stack/core/opcua_buffer.c:189-220 | skipping n and reading m gives what reading n + m gives from n on; more than are left are not skipped |
| Buffers.ReadingEnds | Stack/core/opcua_buffer.c:141-184 | the end of data is reported exactly when bytes are asked for and none is left |
| Utf8Lengths.StrLen | Stack/core/opcua_string.c:463-514 | whenever the loop with its 32-bit index ends, the result is its number of rounds, at most the number of bytes, and the number of characters unless the index wrapped |
| Utf8Lengths.EndsExactlyWhen | Stack/core/opcua_string.c:492-508 | the loop ends on every string of a size, with the count of its characters, if and only if the size is at most 2^32 - 6 |
| Utf8Lengths.StrLenOfEncoded | Stack/core/opcua_string.c:492-513 | on an encoded string of any size the loop ends after as many rounds as it has code points |
| Utf8Lengths.OctetCount | Stack/core/opcua_string.c:499-503 | the inner loop finds the length that the first byte announces |
| Utf8Lengths.OctetsAreLeadingOnes | Stack/core/opcua_string.c:472-503 | the announced length is the number of leading ones, up to six |
| Utf8Lengths.CountOfEncoded | Stack/core/opcua_string.c:492-513 | the count of a string encoded per section 3 of RFC 3629 is its number of code points |

## Left out

- Interleavings are step systems over values: the pool's mutex, the list locks and the channel lock appear as the atomicity of a step. The worker loop, AddJob, Clear and WaitForShutdown are therefore not one method each, but the methods of `PoolObjects` for their critical sections and the program counters of `ThreadPools` and `Threads` between them.
- ThreadPools: dynamic threads (the expansion build), uFreeThreads, which only that build reads, failing semaphore waits, and AddJob during Clear.
- PoolObjects.ThreadObject.Start: for a thread that has ended only the fields are described; the step system does not start it again.
- Threads: starting a stopped thread again, and a failing platform thread start.
- Lists: the 32-bit wrap of the element counter, freeing of the nodes' memory, and null list handles.
- SecureChannels.SecureChannel.GetSecuritySet: that the channel stays locked until ReleaseSecuritySet.
- SecureChannels.SecureChannel.GetCurrentSecuritySet: that the channel stays locked until ReleaseSecuritySet.
- SecureChannels.SecureChannel.Open: the certificates and the security mode, which are copied.
- SecureChannels.SecureChannel.Renew: the certificates and the security mode, which are copied.
- KeyOwnership: the client's channel, which holds its one provider before Open already.
- SecureChannels: the flat current and previous members are grouped in two slots.
- Renewal: chunk assembly and the asymmetric protection of the OpenSecureChannel messages; liveness, because a renewal that times out leaves bRenewActive set.
- ChannelManagers.ChannelManager.AddChannel: adding a channel that is listed already, which would list it twice with its count reset, or one that was deleted.
- ChannelManagers.ChannelManager.ReleaseChannel: a handle to a channel that was deleted, whose memory is gone.
- ChannelManagers: the null manager, the connection limit (0 in the configuration, no limit), and IsValidChannelID.
- SecureConnections: the connection state machine, decoding of responses, and creation and deletion of the timers. EndSendRequest and the response handlers are steps of `Completions`.
- Completions.MisaddressedOpenAnswer: what becomes of the callback data that the handler then takes for an OpenSecureChannel request.
- Completions.AccountedForExactlyWhen: the wrap of the 32-bit request id while a request with the same id is pending is excluded by assumption.
- Buffers.Buffer.Write: a rounded size of 2^32 or more is excluded by a requires; allocation failure is not modelled.
- Buffers.Buffer.constructor: the array must have the length of the block size and the data must fit in it, which the C code cannot check.
- Buffers: SetEndOfData, which can put the position behind the end of data.
- Utf8Lengths.StrLen: what the C code computes on a string on which the loop never ends.
- Callbacks of the application are entries in a ghost log; what they do in return is not modelled.
- Encryption, key derivation, PKI, encoders, memory streams, date and string helpers, and the policy manager would only add easy members or are foreign code.
