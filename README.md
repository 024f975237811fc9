# Mix-network routers and message reports for the ONE simulator

This project models, in Dafny, the core of a mix-network extension to the
ONE (Opportunistic Network Environment) delay-tolerant network simulator,
and proves properties of the model.

## Routers

There are three routers. Each sends a message originated on a host through
`nrofmixes` relay hosts on its way to its real destination.

- **Path planning.** The relays are drawn at random from the `mixhosts`
  address range and stored in the message's `mixlist`, followed by the
  destination. The message is then addressed to `mixlist[mixindex]`.
- **Relay hops.** When a message reaches its current target with hops left,
  that host creates a relay step. The relay step has id `"r"+index+"-"+id`,
  carries the same path, and is addressed to the next entry of the path.
- **MixnetRouter.** It forwards a message only to the peer it is addressed
  to. It does so only once `nrofbundle` buffered messages share that next
  hop, counted in `nodeCount`.
- **MixnetEpidemicRouter.** It floods every buffered message to every idle
  peer once a bundle is buffered. It emits a dummy message (id
  `"f-"+host+":"+second`) when the buffer stays below the bundle for
  `maxTime`.
- **MixnetSnWRouter.** It adds Spray-and-Wait copy accounting to the Epidemic
  router. The receiver gets `ceil(n/2)` copies, or 1. The sender keeps
  `n/2`, or `n-1`. Only messages with copies left are offered.

## Reports

There are three message and connection listeners.

- **MessageDetailedReport.** It keeps global counters and sample lists. It
  ignores messages created during the warm-up.
- **MessageStatsReportPerApplication.** It keeps the same counters per
  application. The application key is a message id with its digits removed.
  A relay count is also kept per node type, the key being a host name
  reduced to its letters a to z.
- **SnoopReport.** It keeps a table of open connections and a histogram of
  contact durations.
  - The table is keyed by an unordered pair of hosts.
  - The histogram is a `Vector` with `null` slots, grown in place.
  - `hostsConnected` does not filter warm-up connections. So a
    `hostsDisconnected` finds no entry only for a pair whose connection was
    never recorded.

## How the model is built

The model follows the source's structure.

- **Mutating classes.** The routers and the reports are Dafny classes with
  the source's fields. Their methods state the new state exactly: the
  buffer, `nodeCount`, the pending set, the timer, the random stream and the
  report's counters.
- **Reports.** Each report also has a value-level transition function per
  listener call. The class methods are proved to implement these
  transition functions.
- **Invariants.** These are proved over the transition functions and
  preserved by the methods. One example: deliveries never exceed relays, and
  response deliveries never exceed deliveries.
- **Loops.** The source's loops are methods with invariants, proved against
  a reference function. These are:
  - the redraw loops of `drawToAddress`;
  - the path loop of `createNewMessage`;
  - the candidate loops of `tryOtherMessages` and `getMessagesWithCopiesLeft`.
- **Histogram update.** `increaseTimeCount` has no loop. It is a method that
  grows the vector and updates one slot in place. It is proved against the
  corrected growth rule `CountAt` (see Findings).
- **Data model.**
  - Hosts are their integer addresses.
  - Times are exact reals.
  - `java.util.Random` is the stream of raw values it will hand out.
- **Framework primitives.** These are parameters. `SimClock` time is `now`.
  The eviction victims of `makeRoomForMessage` are `victims`. Whether
  `startTransfer` accepts an offer is `starts`. The framework's
  `isTransferring` and `exchangeDeliverableMessages` results are booleans.
- **Missing source.** `DTNHost`, `ActiveRouter`, `Message` and `Report` are
  not part of this model. `DTNHost.compareTo` is taken to compare network
  addresses, and `toString` to return the host's name.

## Model

| member | source | states |
|---|---|---|
| Addressing.NextInt | routing/MixnetRouter.java:248 | `nextInt(k)` yields a value in `[0, k)` |
| Addressing.DrawHostAddress | routing/MixnetRouter.java:244-249 | a one-address range returns `lo` without consuming randomness; otherwise the result is in `[lo, hi)`, so `hi` is never drawn, and the draw fails exactly when the stream is empty |
| Addressing.DrawHostAddressCovers | routing/MixnetRouter.java:244-249 | every address of `[lo, hi)` is reachable by some random value |
| Addressing.DrawAvoidingAdmissible | routing/MixnetRouter.java:230-237 | rejection sampling only returns a drawable address outside the excluded set, and leaves a suffix of the stream |
| Addressing.DrawAvoiding | routing/MixnetRouter.java:230-237 | when every drawable address is excluded (a one-address range on `from`, or say mixhosts `10,12` with `from` 10 and `realTo` 11), the redraw never succeeds, whatever the stream |
| Addressing.Resolve | routing/MixnetRouter.java:232-236 | redrawing after a drawable first draw never succeeds when every drawable address is excluded |
| Addressing.DrawAvoidingStalls | routing/MixnetRouter.java:230-237 | over a proper range the redraw loop gives up exactly when every remaining random value lands on an excluded address |
| Addressing.DrawAvoidingReaches | routing/MixnetRouter.java:230-237 | every admissible address can be drawn |
| Addressing.RedrawWhileExcluded | routing/MixnetRouter.java:232-234 | the do-while loop computes the rejection-sampling result |
| Addressing.DrawToAddress | routing/MixnetEpidemicRouter.java:277-284 | the one-exclusion overload never returns `from` and returns a drawable address |
| Addressing.DrawToAddressExcluding | routing/MixnetRouter.java:230-237 | the two-exclusion overload never returns `from` or `realTo` |
| Addressing.PlanRelaysShape | routing/MixnetRouter.java:180-185 | every planned relay list has `k` drawable relays, each different from the previous hop and from the destination |
| Addressing.PlanRelays | routing/MixnetRouter.java:180-185 | a planned relay list has exactly `k` entries |
| Addressing.PathOfShape | routing/MixnetRouter.java:180-190 | a planned path has length `nrofmixes+1`, ends at the destination, and its relays differ from the origin (first), the previous hop and the destination |
| Addressing.BuildPath | routing/MixnetRouter.java:180-188 | the relay loop followed by adding the destination produces the reference path, which is well formed |
| Common.AddCount | report/MessageStatsReportPerApplication.java:98-104 | a counter update leaves the key present |
| Common.AddCountCounts | report/MessageStatsReportPerApplication.java:98-104 | read with a missing key as 0, the count under the key rises by one and no other count changes |
| Common.SaturatingDecrement | routing/MixnetRouter.java:349 | the decrement stops at 0, lowers a positive count by exactly one, always leaves the key present and touches no other key |
| Common.AppendSample | report/MessageStatsReportPerApplication.java:118-127 | the sample key is present afterwards |
| Common.AppendSampleAppends | report/MessageStatsReportPerApplication.java:118-127 | the sample goes at the end of the key's list, or starts a new list, and all other lists are unchanged |
| Common.CeilHalf | routing/MixnetSnWRouter.java:128 | `ceil(n/2.0)` is the least `r` with `n <= 2r` |
| Common.TruncHalf | routing/MixnetSnWRouter.java:329 | Java `n / 2` truncates toward zero, for negative `n` too |
| Common.Decimal | routing/MixnetRouter.java:129 | the decimal text of an index or a second, as string concatenation writes it, is a non-empty run of digits |
| Messages.NewMessage | routing/MixnetRouter.java:128-129 | a new message has no path, index 0 and no response size |
| Messages.KindOf | routing/MixnetEpidemicRouter.java:126-144 | the three-way dispatch: an `r` in the id means a relay step (checked first), else an `f` means a dummy, else an original |
| Messages.RelayIdIsRelay | routing/MixnetRouter.java:128-129 | a relay step's id always dispatches as a relay step |
| Messages.FakeIdKind | routing/MixnetEpidemicRouter.java:246-247 | a dummy never goes through the origination window, and is treated as a dummy iff the host name has no `r` |
| Messages.Successor | routing/MixnetRouter.java:125-134 | the relay step is addressed to `mixlist[mixindex+1]` and carries the same path and creation time. Its index is the bumped one, its sender is this host, and its size is the predecessor's response size |
| Messages.LineageAdvances | routing/MixnetRouter.java:125-134 | along a chain of relay steps the index rises by one per hop, the path and creation time never change, and step `k` is addressed to `mixlist[mixindex+k]` |
| Messages.Find | routing/MixnetSnWRouter.java:318-325 | `getMessage` returns a buffered message of that id, or none exists |
| Messages.RemoveId | routing/MixnetRouter.java:111 | `removeFromMessages` drops exactly the messages of that id and keeps ids unique |
| Messages.Put | routing/MixnetRouter.java:148 | `addToMessages` makes the message the one stored under its id, keeps all others and keeps ids unique |
| Messages.Evict | routing/MixnetRouter.java:146 | the buffer keeps exactly the messages not chosen as victims |
| Messages.SetCopies | routing/MixnetSnWRouter.java:334 | `updateProperty(copies)` changes the copy count of that id only |
| Messages.Receive | routing/MixnetRouter.java:123 | `super.messageTransferred`: a message for this host leaves the buffer as it was. Any other is stored in place of its id, with all other messages kept, and ids stay unique |
| Messages.PutTwice | routing/MixnetEpidemicRouter.java:96-110 | re-adding the message the framework has just buffered (`addToMessages` after `super.messageTransferred`) changes nothing |
| Messages.RemoveIdIdempotent | routing/MixnetRouter.java:111 | removing an id twice is removing it once |
| Messages.RemoveIdSnoc | routing/MixnetRouter.java:111 | removing an id undoes appending a message of that id |
| Origination.WindowIsInclusive | routing/MixnetRouter.java:172-177 | a message is refused iff `now/endTime > stoprate` or `< startrate`, so both bounds are accepted |
| Origination.DegenerateWindowAdmitsItsPoint | routing/MixnetRouter.java:172-177 | for every run length, with `startrate == stoprate == rate` a message is accepted iff `now == rate * endTime` |
| Origination.InWindow | routing/MixnetRouter.java:172-177 | an inverted window (`stoprate < startrate`) accepts nothing |
| Origination.OriginationOf | routing/MixnetRouter.java:166-190 | refused iff outside the window. An originated message has a well-formed path and is addressed to its first entry. Its creation time is `now`, and nothing else of the message changes |
| Origination.Originate | routing/MixnetRouter.java:166-190 | refused iff outside the window. Otherwise the result is the original with a well-formed path, index 0, target `mixlist[0]` and creation time `now`, and its other fields unchanged |
| Origination.OriginatedLineageEndsAtDestination | routing/MixnetRouter.java:180-190 | an originated message reaches its real destination after exactly `nrofmixes` relay steps, each addressed to the next path entry, keeping its creation time |
| Offers.FirstStarted | routing/MixnetRouter.java:331 | `tryMessagesForConnected` returns the first offer the framework starts, or none iff it starts none |
| Offers.UnheldMembers | routing/MixnetEpidemicRouter.java:223-228 | the inner loop lists exactly the messages the peer does not hold |
| Offers.FloodOffersMembers | routing/MixnetEpidemicRouter.java:212-230 | the candidates are exactly the pairs of an idle peer and a buffered message it lacks |
| Offers.FloodOffersEmpty | routing/MixnetEpidemicRouter.java:232-234 | the list is empty iff every peer is transferring or holds every message |
| Offers.FloodOffers | routing/MixnetEpidemicRouter.java:212-230 | no buffered message, or only transferring peers, gives no candidate |
| Offers.CollectOffers | routing/MixnetEpidemicRouter.java:212-230 | the nested loops build the reference candidate list, in order |
| Offers.CollectAddressedOffers | routing/MixnetRouter.java:304-324 | the plain router lists exactly the pending messages an idle peer lacks and is the current target of |
| MixnetRouting.Bundled | routing/MixnetRouter.java:337-343 | only buffered messages are released |
| MixnetRouting.BundleThresholdInclusive | routing/MixnetRouter.java:339 | a next-hop count equal to `nrofbundle` releases the message; one below does not |
| MixnetRouting.MixnetRouter.constructor | routing/MixnetRouter.java:63-74 | empty buffer, counts and pending set |
| MixnetRouting.MixnetRouter.AddToHostCount | routing/MixnetRouter.java:216-220 | the next hop's count rises by one and no other count changes |
| MixnetRouting.MixnetRouter.Admit | routing/MixnetRouter.java:191-195 | the message is added after eviction and counted for its next hop |
| MixnetRouting.MixnetRouter.CreateNewMessage | routing/MixnetRouter.java:141-209 | a relay step is admitted as is. An original is refused iff outside the window, buffer and counts unchanged; otherwise it is admitted with its planned path and counted |
| MixnetRouting.MixnetRouter.MessageTransferred | routing/MixnetRouter.java:121-137 | at its target with hops left, the index rises by one and the relay step is admitted. A path with no entry for that hop ends in `IndexOutOfBoundsException` (`NoNextHop`), with buffer and counts unchanged. Otherwise the message is received unchanged and no count changes |
| MixnetRouting.MixnetRouter.TransferDone | routing/MixnetRouter.java:105-117 | with `broadcast == 0` the sender drops its copy: silently before the last relay, reported (or failing for a missing id) after it. Otherwise it keeps it |
| MixnetRouting.MixnetRouter.UpdatePendingMessages | routing/MixnetRouter.java:337-343 | the pending set gains exactly the bundled messages and never shrinks |
| MixnetRouting.MixnetRouter.RemoveFromPendingMessages | routing/MixnetRouter.java:345-351 | nothing on a null send; otherwise the message leaves the pending set and its next hop's count drops by one, stopping at 0 |
| MixnetRouting.MixnetRouter.TryOtherMessages | routing/MixnetRouter.java:296-335 | nothing is sent iff no addressed candidate is started; a sent one is such a candidate and leaves the pending set |
| MixnetRouting.MixnetRouter.Update | routing/MixnetRouter.java:266-288 | nothing while the buffer is empty, there is no connection or a transfer runs. Otherwise the pending set is refreshed and then tried |
| DummyTraffic.IntTime | routing/MixnetEpidemicRouter.java:263 | `getIntTime` is the floor of the clock |
| DummyTraffic.TimerAfterAdmission | routing/MixnetEpidemicRouter.java:261-268 | below a bundle the timer restarts at the current whole second; otherwise it is pushed to `endTime` |
| DummyTraffic.DummyDueAfterQuietPeriod | routing/MixnetEpidemicRouter.java:252-268 | `checkTimer` after an admission below a bundle: the next dummy is due exactly `maxTime` after the current whole second, and not before |
| DummyTraffic.FullBufferSuppressesDummies | routing/MixnetEpidemicRouter.java:252-268 | `checkTimer` after an admission that completes a bundle: with a positive `maxTime` no dummy is emitted during the run |
| DummyTraffic.FakeMessage | routing/MixnetEpidemicRouter.java:242-250 | the dummy comes from this host, has size 0 and no path, and is never an original |
| DummyTraffic.FakeIdsPerSecond | routing/MixnetEpidemicRouter.java:246-247 | two dummies from one host in one whole second share their id |
| DummyTraffic.DummyOf | routing/MixnetEpidemicRouter.java:242-250 | a dummy is addressed to a drawable host other than this one, and fails iff the target draw fails |
| EpidemicMixRouting.MixnetEpidemicRouter.constructor | routing/MixnetEpidemicRouter.java:54-67 | empty buffer and timer 0 |
| EpidemicMixRouting.MixnetEpidemicRouter.UpdateTimer | routing/MixnetEpidemicRouter.java:261-268 | below a bundle the timer restarts at the whole second, otherwise it moves to the end of the run |
| EpidemicMixRouting.MixnetEpidemicRouter.Admit | routing/MixnetEpidemicRouter.java:167-172 | the message is added after eviction and the timer updated |
| EpidemicMixRouting.MixnetEpidemicRouter.CreateNewMessage | routing/MixnetEpidemicRouter.java:124-179 | relay steps and dummies skip the window. An original is refused iff outside it, state unchanged; otherwise it is admitted with its path |
| EpidemicMixRouting.MixnetEpidemicRouter.MessageTransferred | routing/MixnetEpidemicRouter.java:94-120 | a real message at its target with hops left gets its relay step admitted, or ends in `IndexOutOfBoundsException` (`NoNextHop`) with buffer and timer unchanged when the path has no entry for that hop. Any other message is buffered again and the timer updated |
| EpidemicMixRouting.MixnetEpidemicRouter.CreateFakeMessage | routing/MixnetEpidemicRouter.java:242-250 | the dummy is admitted like any non-original, or nothing changes when its target cannot be drawn |
| EpidemicMixRouting.MixnetEpidemicRouter.CheckTimer | routing/MixnetEpidemicRouter.java:252-256 | a dummy is created iff the timer has run for `maxTime` |
| EpidemicMixRouting.MixnetEpidemicRouter.TryOtherMessages | routing/MixnetEpidemicRouter.java:207-240 | the offer sent is the first started of the flood list: a buffered message to an idle peer that lacks it |
| EpidemicMixRouting.MixnetEpidemicRouter.Update | routing/MixnetEpidemicRouter.java:182-199 | the timer check first; then the flood only when a transfer can start, none runs and a bundle is buffered |
| SprayAndWaitMixRouting.CopiesConserved | routing/MixnetSnWRouter.java:126-135 | what the receiver gets and the sender keeps add up to the sender's copies |
| SprayAndWaitMixRouting.ReceiverCopies | routing/MixnetSnWRouter.java:126-133 | binary mode hands over `ceil(n/2)` copies, the least `c` with `n <= 2c`; otherwise exactly one copy |
| SprayAndWaitMixRouting.SenderCopies | routing/MixnetSnWRouter.java:326-333 | binary mode keeps Java's `n / 2`, the floor of half for `n >= 0` and the ceiling of half below; otherwise one copy fewer |
| SprayAndWaitMixRouting.BinaryCopiesStayNonNegative | routing/MixnetSnWRouter.java:126-129 | binary mode keeps counts non-negative and splits two or more copies into strictly smaller shares |
| SprayAndWaitMixRouting.BinaryConservationNeedsNonNegative | routing/MixnetSnWRouter.java:128 | with a negative odd count binary mode loses a copy |
| SprayAndWaitMixRouting.WithCopiesLeftMembers | routing/MixnetSnWRouter.java:293-306 | exactly the buffered messages with more than one copy |
| SprayAndWaitMixRouting.WithCopiesLeftAppend | routing/MixnetSnWRouter.java:293-306 | the filter keeps buffer order |
| SprayAndWaitMixRouting.WithCopiesLeft | routing/MixnetSnWRouter.java:293-306 | the filtered list is never longer than the buffer |
| SprayAndWaitMixRouting.MixnetSnWRouter.constructor | routing/MixnetSnWRouter.java:70-84 | empty buffer, empty copies-left list and timer 0 |
| SprayAndWaitMixRouting.MixnetSnWRouter.UpdateTimer | routing/MixnetSnWRouter.java:356-363 | as in the Epidemic router |
| SprayAndWaitMixRouting.MixnetSnWRouter.Admit | routing/MixnetSnWRouter.java:209-211 | every admitted message starts with `initialNrofCopies` |
| SprayAndWaitMixRouting.MixnetSnWRouter.CreateNewMessage | routing/MixnetSnWRouter.java:162-218 | as in the Epidemic router, and the created message carries `initialNrofCopies` |
| SprayAndWaitMixRouting.MixnetSnWRouter.MessageTransferred | routing/MixnetSnWRouter.java:118-158 | the received message gets the receiver's share of copies. A relay hop, the `IndexOutOfBoundsException` of a path too short for it, or re-buffering follows as in the Epidemic router |
| SprayAndWaitMixRouting.MixnetSnWRouter.TransferDone | routing/MixnetSnWRouter.java:316-335 | the sender keeps its share of its own copy; a message dropped meanwhile is left alone |
| SprayAndWaitMixRouting.MixnetSnWRouter.GetMessagesWithCopiesLeft | routing/MixnetSnWRouter.java:293-306 | the loop computes the filter of buffered messages with more than one copy |
| SprayAndWaitMixRouting.MixnetSnWRouter.CreateFakeMessage | routing/MixnetSnWRouter.java:337-345 | the dummy is admitted with `initialNrofCopies`, or nothing changes when no target can be drawn |
| SprayAndWaitMixRouting.MixnetSnWRouter.CheckTimer | routing/MixnetSnWRouter.java:347-351 | a dummy is created iff the timer has run for `maxTime` |
| SprayAndWaitMixRouting.MixnetSnWRouter.TryOtherMessages | routing/MixnetSnWRouter.java:254-286 | only messages with copies left are offered, to idle peers that lack them, first started wins |
| SprayAndWaitMixRouting.MixnetSnWRouter.Update | routing/MixnetSnWRouter.java:221-246 | timer first. When a transfer can start, `copiesLeft` is rebuilt; with a bundle, deliverable messages go first and the others only if none went |
| DetailedReport.Initial | report/MessageDetailedReport.java:49-66 | all counters zero and the state is consistent |
| DetailedReport.OnDeleted | report/MessageDetailedReport.java:69-82 | outside warm-up exactly one of dropped and removed rises, with one buffer-time sample; a warm-up message changes nothing |
| DetailedReport.OnAborted | report/MessageDetailedReport.java:85-91 | one more abort outside warm-up, nothing else changes |
| DetailedReport.OnStarted | report/MessageDetailedReport.java:129-135 | one more start outside warm-up, nothing else changes |
| DetailedReport.OnTransferred | report/MessageDetailedReport.java:94-112 | every transfer is a relay. A delivery (with latency and hop samples) happens iff the final target is reached at the path's last entry. A round trip is counted iff that delivery is of a response; without a request the response count is unchanged |
| DetailedReport.ReachesDestination | report/MessageDetailedReport.java:101 | a delivery is counted only at the last entry of a non-empty path |
| DetailedReport.OnNewMessage | report/MessageDetailedReport.java:115-126 | during warm-up only the id is remembered; afterwards the creation time, one more creation, and one more response request if one is asked for, none otherwise |
| DetailedReport.RunConsistent | report/MessageDetailedReport.java:69-135 | over any run, response requests stay within creations, deliveries within relays and response deliveries within deliveries, and warm-up ids are kept |
| DetailedReport.WarmupMessageInvisible | report/MessageDetailedReport.java:69-112 | no event about a warm-up message changes the report |
| DetailedReport.MessageDetailedReport.constructor | report/MessageDetailedReport.java:44-66 | the fields start as the initial report |
| DetailedReport.MessageDetailedReport.MessageDeleted | report/MessageDetailedReport.java:69-82 | the fields move as `OnDeleted` says |
| DetailedReport.MessageDetailedReport.MessageTransferAborted | report/MessageDetailedReport.java:85-91 | the fields move as `OnAborted` says |
| DetailedReport.MessageDetailedReport.MessageTransferred | report/MessageDetailedReport.java:94-112 | the fields move as `OnTransferred` says |
| DetailedReport.MessageDetailedReport.NewMessage | report/MessageDetailedReport.java:115-126 | the fields move as `OnNewMessage` says |
| DetailedReport.MessageDetailedReport.MessageTransferStarted | report/MessageDetailedReport.java:129-135 | the fields move as `OnStarted` says |
| ApplicationReport.StripDigitsAppend | report/MessageStatsReportPerApplication.java:77-83 | removing digits distributes over concatenation |
| ApplicationReport.StripDigits | report/MessageStatsReportPerApplication.java:81 | removing digits never lengthens a string |
| ApplicationReport.KeepLowercase | report/MessageStatsReportPerApplication.java:88 | keeping `a`-`z` never lengthens a string |
| ApplicationReport.GetApplication | report/MessageStatsReportPerApplication.java:77-83 | an application key has no digit and is its own key |
| ApplicationReport.GetNode | report/MessageStatsReportPerApplication.java:84-89 | a node key has only `a` to `z` and is its own key |
| ApplicationReport.StripDigitsHasNoDigits | report/MessageStatsReportPerApplication.java:77-83 | no application key contains a digit |
| ApplicationReport.StripDigitsKeepsNonDigits | report/MessageStatsReportPerApplication.java:77-83 | an id without digits is its own key, and every key is its own key |
| ApplicationReport.KeepLowercaseAppend | report/MessageStatsReportPerApplication.java:84-89 | keeping `a`-`z` distributes over concatenation |
| ApplicationReport.KeepLowercaseIsLowercase | report/MessageStatsReportPerApplication.java:84-89 | a node key has only the letters `a` to `z` |
| ApplicationReport.NodeKeyIdempotent | report/MessageStatsReportPerApplication.java:84-89 | every node key is its own key |
| ApplicationReport.NumberedIdsShareApplication | report/MessageStatsReportPerApplication.java:77-83 | `M1`, `M2`, ... fall under one application |
| ApplicationReport.RelayStepApplication | report/MessageStatsReportPerApplication.java:77-83 | every relay step of a message is counted under `r-` plus its application, whatever the hop |
| ApplicationReport.DummyApplication | report/MessageStatsReportPerApplication.java:77-83 | all dummies of one host share one application |
| ApplicationReport.Initial | report/MessageStatsReportPerApplication.java:55-75 | every table empty and the state consistent |
| ApplicationReport.OnDeleted | report/MessageStatsReportPerApplication.java:90-128 | outside warm-up one more drop or removal for the application, and one buffer-time sample; a warm-up message changes nothing |
| ApplicationReport.OnAborted | report/MessageStatsReportPerApplication.java:131-146 | one more abort for the application outside warm-up |
| ApplicationReport.OnStarted | report/MessageStatsReportPerApplication.java:287-302 | one more start for the application outside warm-up |
| ApplicationReport.OnTransferred | report/MessageStatsReportPerApplication.java:149-241 | a relay for the application and for the sender's node type. At the final target a delivery with latency and hop samples; for a response also a round trip |
| ApplicationReport.OnNewMessage | report/MessageStatsReportPerApplication.java:244-284 | during warm-up only the id is remembered. Otherwise: the creation time, and one more creation. A first message opens the application's other counts at 0. A response request is counted iff one is asked for |
| ApplicationReport.NewMessageCounts | report/MessageStatsReportPerApplication.java:244-284 | a first creation opens its application with created 1, nothing relayed, dropped or delivered, and one request iff asked; a later one adds to created and to requests iff asked |
| ApplicationReport.CountsUntouchedConsistent | report/MessageStatsReportPerApplication.java:90-146 | deletions, aborts and starts keep the per-application invariant |
| ApplicationReport.NewMessageConsistent | report/MessageStatsReportPerApplication.java:244-284 | creations keep the per-application invariant |
| ApplicationReport.TransferredConsistent | report/MessageStatsReportPerApplication.java:149-241 | transfers keep deliveries within relays and response deliveries within deliveries, per application |
| ApplicationReport.ApplyConsistent | report/MessageStatsReportPerApplication.java:90-302 | every listener call keeps the invariant and the warm-up ids |
| ApplicationReport.WarmupMessageInvisible | report/MessageStatsReportPerApplication.java:90-302 | no deletion, abort, start or transfer of a warm-up message changes a table |
| ApplicationReport.MessageStatsReportPerApplication.constructor | report/MessageStatsReportPerApplication.java:50-75 | the tables start as the initial report |
| ApplicationReport.MessageStatsReportPerApplication.MessageDeleted | report/MessageStatsReportPerApplication.java:90-128 | the tables move as `OnDeleted` says |
| ApplicationReport.MessageStatsReportPerApplication.MessageTransferAborted | report/MessageStatsReportPerApplication.java:131-146 | the tables move as `OnAborted` says |
| ApplicationReport.MessageStatsReportPerApplication.MessageTransferred | report/MessageStatsReportPerApplication.java:149-241 | the tables move as `OnTransferred` says |
| ApplicationReport.MessageStatsReportPerApplication.NewMessage | report/MessageStatsReportPerApplication.java:244-284 | the tables move as `OnNewMessage` says |
| ApplicationReport.MessageStatsReportPerApplication.MessageTransferStarted | report/MessageStatsReportPerApplication.java:287-302 | the tables move as `OnStarted` says |
| SnoopReporting.OpenInfo | report/SnoopReport.java:209-214 | a new info starts now and is not ended (`endTime == -1`) |
| SnoopReporting.ConnectionEnd | report/SnoopReport.java:221-223 | ending records the current clock and keeps hosts and start |
| SnoopReporting.EndedDuration | report/SnoopReport.java:233-240 | once ended at `now` the duration is `now - startTime`, the same as an open info measures at `now` |
| SnoopReporting.ConnectionTime | report/SnoopReport.java:233-240 | a contact that started by `now`, and ended no earlier than it started if ended, has a non-negative duration |
| SnoopReporting.SameHostsEquivalence | report/SnoopReport.java:245-260 | equality is reflexive, symmetric and transitive, and `(a,b)` equals `(b,a)` |
| SnoopReporting.SameHostsIsUnorderedPair | report/SnoopReport.java:245-260 | two infos are equal iff they join the same unordered pair of hosts |
| SnoopReporting.ToInt32 | report/SnoopReport.java:277 | Java `int` wrap-around: congruent modulo 2^32 and within `[-2^31, 2^31)` |
| SnoopReporting.JavaStringHash | report/SnoopReport.java:277 | the string hash is a Java `int` |
| SnoopReporting.HostStringSymmetric | report/SnoopReport.java:267-278 | ordering the hosts by address makes the hashed string independent of their order |
| SnoopReporting.EqualInfosHashEqually | report/SnoopReport.java:245-278 | equal infos have equal hash codes, given that distinct hosts have distinct addresses |
| SnoopReporting.HashCode | report/SnoopReport.java:267-278 | the hash is a Java `int` and is the same for both orders of two hosts with different addresses |
| SnoopReporting.Find | report/SnoopReport.java:120 | the entry found is equal to the key, and none is found iff no entry is equal |
| SnoopReporting.FindIgnoresOrder | report/SnoopReport.java:127-128 | looking up `(b,a)` finds the entry of `(a,b)` |
| SnoopReporting.PutConnection | report/SnoopReport.java:122 | `put` appends a new pair or overwrites the equal entry in place |
| SnoopReporting.PutConnectionStores | report/SnoopReport.java:117-123 | after `put` the keys stay distinct, the new info is stored under its pair, entries for other pairs remain and nothing else appears |
| SnoopReporting.RemoveConnection | report/SnoopReport.java:125-132 | `remove` returns the stored entry, if any, and takes exactly that entry out |
| SnoopReporting.RemoveConnectionDrops | report/SnoopReport.java:125-132 | the removed entry is equal to the key, no equal entry is left and the keys stay distinct |
| SnoopReporting.RemoveConnectionKeepsOthers | report/SnoopReport.java:125-132 | entries for other pairs remain, and nothing is added |
| SnoopReporting.PutThenRemove | report/SnoopReport.java:117-132 | connecting a new pair, then disconnecting it in either host order, returns that info and restores the table |
| SnoopReporting.Grow | report/SnoopReport.java:144 | `setSize` keeps the old slots and pads with `null` |
| SnoopReporting.BucketBounds | report/SnoopReport.java:139 | bucket `index` holds the durations whose quotient by the granularity lies in `[index, index+1)` |
| SnoopReporting.CountAtAsWritten | report/SnoopReport.java:138-154 | as written the histogram grows to `index+2` only when `index` is past its end |
| SnoopReporting.CountAt | report/SnoopReport.java:138-154 | corrected: it grows to `index+2` whenever `index` would be the last slot |
| SnoopReporting.CountAtSlots | report/SnoopReport.java:147-153 | either version adds one at `index` (a `null` counts as 0), leaves every other bucket and adds one to the total |
| SnoopReporting.CountAtKeepsLastSlotEmpty | report/SnoopReport.java:141-145 | the corrected version keeps the last slot `null`, as the comment there promises |
| SnoopReporting.AsWrittenFillsLastSlot | report/SnoopReport.java:141-145 | as written, bucket 0 then bucket 1 from empty fills the last slot |
| SnoopReporting.SnoopReport.constructor | report/SnoopReport.java:46-71 | granularity from the setting, else 1.0; empty table and histogram |
| SnoopReporting.SnoopReport.HostsConnected | report/SnoopReport.java:73-75 | the contact is stored as starting now. The returned flag is the asserted "no equal entry"; after a false flag the new entry replaces the old |
| SnoopReporting.SnoopReport.TakeConnection | report/SnoopReport.java:125-132 | the stored entry for the two hosts, in either order, is removed and returned |
| SnoopReporting.SnoopReport.IncreaseTimeCount | report/SnoopReport.java:138-154 | the histogram becomes the corrected `CountAt` at the duration's bucket, keeping its last slot `null` |
| SnoopReporting.SnoopReport.HostsDisconnected | report/SnoopReport.java:77-89 | an unknown pair leaves the histogram unchanged. Otherwise the entry is removed and its duration, ended now, counted into exactly one bucket |
| SnoopReporting.SnoopReport.CountEnded | report/SnoopReport.java:86-87 | the removed contact is ended now and its duration `now - startTime` counted into its bucket by the corrected rule; the table and warm-up ids are unchanged |
| SnoopReporting.SnoopReport.NewMessage | report/SnoopReport.java:178-185 | during warm-up the id is remembered, nothing else changes |

## Left out

- **Output.** Console and file output is left out because it is I/O. This
  covers `debugFunction`, the `System.out` calls, `write`, `newEvent` and
  the `done()` statistics (averages, medians, ratios).
- **Message state not modelled.** TTL handling (`setTtl`) and the `lastfwd`
  field are left out. Neither affects routing decisions or counts in the
  modelled code.
- **Floating point.** Times and rates are exact reals, so `double`
  rounding is left out.
- **Singletons.** `SimClock`, `SimScenario` and `World` are parameters
  (`now`, `endTime`, addresses as host identities). They are global
  singletons outside the core. Hence `Report.isWarmup()` is the `warmup`
  argument.
- **`ActiveRouter` internals.** These are parameters: buffer eviction,
  `startTransfer`, `isTransferring`, `exchangeDeliverableMessages` and
  `canStartTransfer`. The last is modelled as "buffer non-empty and some
  connection". They are framework code outside the core.
- **Queue mode.** The `sortByQueueMode` ordering of `copiesLeft` is left
  out. The list is kept in buffer order, because it is a framework policy.
- **Shared random generator.** The source seeds one `Random(25)` and shares
  it among every host's router: the copy constructors take `r.rng`
  (routing/MixnetRouter.java:94, routing/MixnetEpidemicRouter.java:87,
  routing/MixnetSnWRouter.java:105). So one router's draws are interleaved
  with the other routers' draws. Each router's stream here is a
  constructor argument and stands for an arbitrary subsequence of the
  shared one. Every contract holds for every stream.
- **Exhausted streams and endless loops.** Two of the model's outcomes the
  source does not have:
  - `Exhausted` / `DrawStalled` is the model's outcome when the stream runs
    out.
  - It is also the outcome whenever every drawable address of the range is
    excluded, where the do-while redraw loops never end. Examples: mixhosts
    `10,11` with `from == 10`; mixhosts `10,12` with `from == 10` and
    `realTo == 11`. `Addressing.DrawAvoiding` states this for every
    stream.

  The source would not return in either case.
- **Inverted host ranges.** `HostRange` requires `lo <= hi`, because for
  `hi < lo` the Java `nextInt` throws.
- **`nrofmixes`** is a `nat`. A negative setting simply plans no relays in
  the source.
- **Iteration order.** The order of `HashMap` / `HashSet` / `Hashtable`
  iteration is left out.
  - `MixnetRouting.MixnetRouter.TryOtherMessages` and
    `Offers.CollectAddressedOffers` state which candidates appear, not their
    order.
  - The following take the buffer in insertion order:
    - `EpidemicMixRouting.MixnetEpidemicRouter.TryOtherMessages`;
    - `SprayAndWaitMixRouting.MixnetSnWRouter.GetMessagesWithCopiesLeft`;
    - `SprayAndWaitMixRouting.MixnetSnWRouter.TryOtherMessages`;
    - `Offers.FloodOffers` and `Offers.CollectOffers`;
    - `SprayAndWaitMixRouting.WithCopiesLeft`.

    The source walks `getMessageCollection()`, the values of a `HashMap`
    in hash order (routing/MixnetEpidemicRouter.java:214-222,
    routing/MixnetSnWRouter.java:296). Those members therefore fix which
    offer is sent first in one particular order. Which offers appear is
    order-independent (`Offers.FloodOffersMembers`,
    `SprayAndWaitMixRouting.WithCopiesLeftMembers`).
- **Listener notification on buffering.** In the framework's
  `MessageRouter`, `addToMessages(msg, true)` also calls `newMessage` on
  every `MessageListener`. Those calls are at:
  - routing/MixnetRouter.java:148 and 194;
  - routing/MixnetEpidemicRouter.java:110 and 171;
  - routing/MixnetSnWRouter.java:148 and 210.

  The routers' `Admit` and `MessageTransferred` methods do not return that
  notification, and the reports here are not wired to the routers. The
  notification has a visible effect: the re-buffering at
  routing/MixnetEpidemicRouter.java:110 and routing/MixnetSnWRouter.java:148
  re-announces a received message as new. A report would then count one
  more creation (`OnNewMessage`) and overwrite its creation time.
  `MessageRouter` is not part of this model.
- **Identity of pending messages.** `MixnetRouting.MixnetRouter.pending` is a
  `set` of message values. `MixnetRouting.MixnetRouter.UpdatePendingMessages`,
  `MixnetRouting.MixnetRouter.RemoveFromPendingMessages` and
  `MixnetRouting.MixnetRouter.TryOtherMessages` therefore treat value-equal
  copies as one entry. The source's `HashSet<Message>`
  (routing/MixnetRouter.java:55) compares by object identity, because
  `Message` does not override `equals`. With `broadcast != 0` a re-created
  copy of the same relay step can be pending twice there, be offered and
  sent twice, and decrement `nodeCount` twice
  (routing/MixnetRouter.java:340-349). The model sends and decrements it
  once.
- **Unused code.** `deployList` and the empty `changedConnection` overrides
  are left out: they have no effect.
- **SnoopReport.** `gamma`, `secondsInTimeUnit`, `encounters` / `updated`,
  and the written lines of `messageTransferred` are left out. They feed
  only output.
- **Connection table data structure.** `SnoopReporting.SnoopReport` keeps
  the `HashMap` as a list of its values. Bucket layout and hash collisions
  are not modelled; equality of keys is. `SnoopReporting.JavaStringHash`
  hashes Unicode scalar values, where Java's `String.hashCode` hashes UTF-16
  code units, so the two differ for host names with characters above U+FFFF.
  No result of the model depends on the hash: the table is keyed by
  `SameHosts`.
- **Histogram bucket index.** `SnoopReporting.BucketOf` is Java's truncating
  `(int)` cast. That equals the floor for the non-negative durations that
  occur. The saturation of huge quotients at `Integer.MAX_VALUE` is left
  out.
- `SnoopReporting.SnoopReport.constructor`: a granularity setting of 0 or
  less is required away. The source divides by it anyway, in `double`
  arithmetic and without an exception (report/SnoopReport.java:139-147):
  - granularity 0 and a positive duration give `+Infinity`, cast to
    `Integer.MAX_VALUE`; then `index + 2` wraps negative and `setSize` throws;
  - granularity 0 and a zero duration give NaN, cast to 0: the contact is
    counted in bucket 0;
  - a negative granularity and a positive duration give a negative index,
    which `get` rejects with an exception.
- **Java `int` overflow of counters.** Counts are `nat`. The SnW copy count
  is an unbounded `int`.
- **Message properties.** `Message.copies` stands for the `copies` message
  property. `receiveMessage` only delegates, so it is not modelled.
- `ApplicationReport.OnTransferred` and
  `ApplicationReport.MessageStatsReportPerApplication.MessageTransferred`:
  require a recorded creation time for a message delivered outside the
  warm-up. The source dereferences a missing
  entry and throws a `NullPointerException` there.
- `ApplicationReport.OnTransferred`: counts a delivery whenever `finalTarget`
  holds, as the source does. It does not check the last path entry, unlike
  `DetailedReport.OnTransferred`, which follows its own source.
- `ApplicationReport.Consistent`: reads a missing key as 0. The source
  distinguishes a missing key from 0 only in `done()` output.
- `SnoopReporting.SnoopReport.HostsDisconnected` and
  `SnoopReporting.SnoopReport.CountEnded`: require a non-negative clock and
  that no stored contact started after `now`. The clock is monotonic, so this always holds
  in the source.
- `SnoopReporting.SnoopReport.IncreaseTimeCount`: follows the corrected
  growth rule (see Findings), not the source's `index >= size`.
  `SnoopReporting.CountAtAsWritten` models the source as written.

## Findings

| source | as written | input that shows it | evidently intended | confidence | as-written member | corrected member |
|---|---|---|---|---|---|---|
| report/SnoopReport.java:141-145 | the histogram grows to `index + 2` only when `index >= size` | starting empty, a contact in bucket 0 gives `[1, null]`; a contact in bucket 1 then gives `[1, 1]`, so the last slot is counted into | grow whenever `index + 1 >= size`, so the last slot stays `null` as the comment in the code says | not executed; low impact, since this report writes no histogram | SnoopReporting.AsWrittenFillsLastSlot | SnoopReporting.CountAtKeepsLastSlotEmpty |
