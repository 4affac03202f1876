# Verified models of the feed generators, the packet tools and the clock probe

This project models the stateful algorithms of the ITCH order-book repository and proves what they are for.
Everything is stated for every sequence of random draws: a draw is an arbitrary value in its range, and no
probability appears anywhere.

* **One security's day** (`Itch`, `Venue`, `QueueFeed`). The queue-faithful feed generator keeps per-price queues, a
  moving centre, halts and reopening auctions, and emits bytes. `Venue` is the other side: a reference book rebuilt
  from messages alone, and the rules of a tape that one venue could have printed, written without any knowledge of
  the generator. `QueueFeed.Feed.Valid` says that after every message the generator's own queues and share counts are
  exactly the consumer's, and that the bytes decode to a legal tape. Price-time priority, halt safety and fresh
  references are then facts about legal tapes. `QueueFeed.Short` says how long a run can be before anything it draws
  may outgrow a field; a short run never fails.
* **Many securities in one feed** (`MergeFeed`, `Merge`). Patching bytes in an encoded payload is the same as encoding
  the shifted message; sorting keeps each stream's order; and one shared reference map, projected onto a locate, goes
  through the very books of that security's own stream, with every reference moved by its stride.
  `Merge.BuildMarket` is the whole program, from the generator runs to the merged bytes; short runs fail only past
  65535 securities.
* **An exact median interval** (`Binomial`, `MedianInterval`). The integer loop is tied to a count of real outcomes:
  coverage is the number of n-bit words, not a formula assumed to count them.
* **A clock handoff between two threads** (`ClockHandoff`). The token protocol as interleaved sequentially consistent
  steps with arbitrary delays, the stamps it leaves, the bound on the estimated skew, and when the verdict is right.
* **MoldUDP64 packets** (`MoldPacket`, `MoldWrap`, `MoldDamage`). A greedy packer with a reused buffer, proved optimal
  among all order-preserving splits, and a fault injector whose every run conserves packets and whose output claims
  each sequence number for one packet or, when that was dropped or lost, for none; what a receiver decodes under a
  number is the input's message for it. The format is the "Downstream Packet" section of the MoldUDP64 Protocol
  Specification v1.00.
* **Slicing and replaying** (`Replay`). For any book: slicing a day to one security commutes with replaying it, and the
  snapshot loop writes exactly the plain definition of a time grid.
* **Pools of live orders** (`Tape`, `SwapPool`, `LazyPool`). A swap-remove index and a pool evicted only when a dead
  reference is drawn, both tied through every run to the book a consumer rebuilds.
* **A feed with a closed form** (`ToxicFeed`, `ToxicLedger`). The adverse-selection feed as a program and as a formula,
  and a market maker heard through it message by message: what its quotes get filled, and what the fills come to.

`Sample` holds what the generators share, `Bytes` the fields of a message, `Wrappers` options and outcomes, `Sorting`
one sort for every order. Random draws come from `Rng`, which promises a range and nothing else; a comparison of a
uniform draw with a probability is `Chance`, and a roll is an integer out of a thousand (or a hundred) cut at the
program's thresholds, with half-open ranges. An encoder that raises is an `Outcome` of `Raised`.

## Findings

Where the code and what its comments or documentation promise part, the code is modelled and the difference is proved.

* A run of the generator whose loop ends inside a halt emits a closing trading action without the reopening auction.
  The tape is then legal exactly when the book happens to be uncrossed (`QueueFeed.ClosingLegal`);
  `QueueFeed.CrossedClose` runs the generator to a file that resumes trading with a bid above an ask.
* A hidden trade with one side of the book empty uses a default a tick from the *starting* price. It prints through a
  resting quote exactly when one side is empty, the other has moved past that default, and the default is drawn
  (`QueueFeed.HiddenPrintThrough`); `QueueFeed.HiddenPrintCanGoThrough` runs the generator to such a print.
* The reopening auction prints 100 shares for each crossing order whatever its size (python/make_queue_feed.py:215),
  while the module's description has the auction volume on the tape (lines 42-46). The volume printed is the volume taken
  out of the book exactly when, over the orders at or through the centre, what the larger ones have above 100 makes up
  for what the smaller ones lack (`QueueFeed.AuctionVolumeIff`); one order of another size among orders of 100 makes it
  wrong (`QueueFeed.OneOtherSize`), and `QueueFeed.MisprintedAuction` runs into a wrong one.
* The median interval calls its result exact even when not even the full range of the sample reaches the asked
  coverage. The interval answered is covered exactly when 2,000,000 <= alpha 2^n, for alpha in millionths
  (`MedianInterval.AnswerCoversIff`); that always holds at 95% (`MedianInterval.NinetyFiveIsCovered`) and fails for
  eight samples at 99.99% (`MedianInterval.FullRangeMayNotCover`).
* The clock probe's "a real offset" compares the larger of two estimates with the first direction's bound, half its
  round trip rounded down. On a clock that sees the handoff, two clocks in step can get that verdict exactly when the
  first round trip is odd or half the reversed one, rounded up, exceeds that bound (`ClockHandoff.FalseOffsetIff`), and
  the verdict excludes clocks in step exactly when a direction leaves its own interval around zero
  (`ClockHandoff.RealOffsetIsEvidence`).
  `ClockHandoff.FalseOffsetVerdict` is two finished runs with no skew that are given it.
* Of clocks that it cannot distinguish, the probe says that their offset is under half the fastest round trip
  (tools/tsc_offset.cpp:293-298), and it accepts a run for as little (tools/tsc_offset.cpp:354-370). The offset can be the
  whole round trip: clocks a given skew apart can get that verdict exactly under the condition of
  `ClockHandoff.NotDistinguishableIff`, and be accepted exactly under that of `ClockHandoff.AcceptedIff`;
  `ClockHandoff.BeyondTheBound` is two finished runs of clocks six cycles apart that are told three, and accepted for three.
* The packet writer cuts the length to sixteen bits, so a packet file reads back exactly when no packet is longer than
  65535 bytes (`MoldPacket.FileReadsBack`); the packer accepts larger MTUs.
* The slicer stops at the first directory record for a symbol and the replayer follows the last one. With no message
  limit, and a day in time order when an end time is given, the slice to a locate replays like the day for every book
  exactly when every directory record for the symbol, up to the end of the window, gives that locate
  (`Replay.SliceCommutesIff`); `Replay.SecondLocateBreaksIt` is a day on which it does not.

## Model

| member | source | states |
|---|---|---|
| Bytes.BigEndianRoundTrip | python/make_sample.py:46-48 | a value that fits its width is read back from its big-endian bytes |
| Bytes.FromBigEndianRoundTrip | python/make_queue_feed.py:461-462 | any bytes are the big-endian form, at their own width, of the number they are read as |
| Bytes.BigEndianPlaces | python/make_sample.py:46-48 | the most significant byte stands first: each byte counts the power of 256 its place is worth |
| Itch.DecodeEncode | python/make_sample.py:51-121 | every message with fields in range decodes back to itself from its encoder's bytes, whatever its type |
| Itch.UnframeFrameAll | python/make_sample.py:41-43 | unframing the concatenation of framed payloads returns the payloads |
| Itch.ParseEncodeFeed | python/reference/parser.py:76-101 | a feed's bytes, unframed and decoded, are the messages that were encoded, in order |
| Itch.Frames | python/make_queue_feed.py:466-472 | the walk over any bytes ends, and over a well-framed stream it yields exactly the payloads |
| Venue.InsertConsistent | python/reference/book.py:84-87 | an add with a fresh reference keeps map and queues describing the same orders, each queue in order of arrival |
| Venue.EraseConsistent | python/reference/book.py:117-127 | a delete keeps map and queues in agreement and leaves no empty level behind |
| Venue.ReduceConsistent | python/reference/book.py:89-115 | an execution or cancel of any positive size keeps map and queues in agreement, adds no order, and counts an unknown reference exactly when there is one |
| Venue.FrontIsOldestAtBest | python/make_queue_feed.py:320-327 | the head of the queue at the best price is the order that price-time priority names, said over the order map alone |
| Venue.LegalBook | python/make_queue_feed.py:81 | a legal tape leaves a consistent book, only issued references in it, and no unknown reference ever met |
| Venue.PriceTimePriority | python/make_queue_feed.py:312-331 | at every execution of a legal tape the order named is live, holds the quantity, heads its queue, and no order on its side is better or older at its price |
| Venue.ReferencesNeverReused | python/make_queue_feed.py:293-304 | references on a legal tape are issued in strictly increasing order |
| Venue.HaltSafety | python/make_queue_feed.py:202-290 | after a halt nothing prints before the resuming action except one reopening cross, and the action that ends it is a resume on an uncrossed book |
| QueueFeed.Level.constructor | python/make_queue_feed.py:83-85 | a level starts empty |
| QueueFeed.Level.Add | python/make_queue_feed.py:87-89 | the reference joins the back of the queue and its shares are recorded |
| QueueFeed.Level.Remove | python/make_queue_feed.py:91-96 | the reference leaves queue and map; one that is absent changes nothing |
| QueueFeed.Feed.constructor | python/make_queue_feed.py:107-114 | the generator starts in agreement with an empty consumer |
| QueueFeed.Feed.Emit | python/make_queue_feed.py:116-117 | the bytes stay the encoding of the tape, one message longer, and the emission fails exactly when a field does not fit |
| QueueFeed.Feed.Lvl | python/make_queue_feed.py:127-128 | a missing level is created empty, and the levels still mirror the consumer's book |
| QueueFeed.Feed.Populated | python/make_queue_feed.py:136-137 | the listed keys are exactly those with a non-empty queue in the consumer's book |
| QueueFeed.Feed.Touch | python/make_queue_feed.py:139-149 | the best resting price of a side in the consumer's book, or none exactly when the side is empty |
| QueueFeed.OneStepReachesOnlyTheTouch | python/make_queue_feed.py:151-172 | with the book on the grid and around the centre, a level that a one-tick step would overrun lies at the new centre and has nothing ahead of it |
| QueueFeed.Feed.TakeFront | python/make_queue_feed.py:173-178 | one whole order at the front of a level with nothing ahead of it is executed, on the tape and in the book |
| QueueFeed.Feed.TakeOut | python/make_queue_feed.py:173-178 | the level's orders leave the book, by executions only, at one timestamp |
| QueueFeed.Feed.MoveCenter | python/make_queue_feed.py:151-179 | the centre moves one tick by executions alone, and exactly the orders not clear of the new centre are gone; being valid, each execution was in price-time priority |
| QueueFeed.Feed.Seed | python/make_queue_feed.py:181-194 | the three announcements, then adds alone, of the listed sizes and numbered from one; two to five orders on each of the six levels of both sides and none beyond, within the stated clock bounds |
| QueueFeed.Feed.Tick | python/make_queue_feed.py:119-125 | the clock advances by at least one and at most forty gaps |
| QueueFeed.Feed.EnterHalt | python/make_queue_feed.py:250-255 | one halt message, the book untouched, and the resume point 40 to 200 messages away |
| QueueFeed.Feed.GatherCrossing | python/make_queue_feed.py:208-213 | the gathered references are distinct and are exactly the live orders not clear of the centre |
| QueueFeed.Feed.FindLevel | python/make_queue_feed.py:219-221 | the search through the levels finds the one level that holds a live reference |
| QueueFeed.Feed.Uncross | python/make_queue_feed.py:214-225 | one auction print at the centre, then one delete for each crossing order, in order, and exactly those orders gone |
| QueueFeed.AuctionVolumeIff | python/make_queue_feed.py:214-225 | the volume printed is what the crossing orders hold exactly when the larger ones' surplus over 100 equals the smaller ones' shortfall; with no order below 100, or none above, exactly when each is 100 |
| QueueFeed.OneOtherSize | python/make_queue_feed.py:214-225 | among crossing orders of 100, one more makes the volume right exactly when it is of 100 too |
| QueueFeed.MisprintedAuction | python/make_queue_feed.py:199-229 | a run of the generator, in every turn of which the clock advances and the branch the program would take is taken, whose legal reopening auction prints a volume other than the shares its orders take out of the book |
| QueueFeed.Feed.Resume | python/make_queue_feed.py:207-229 | the halt ends with the crossing orders deleted after at most one auction, leaving exactly the orders on their own side of the centre |
| QueueFeed.Feed.TieBurst | python/make_queue_feed.py:259-269 | the burst is that many adds at one price and one timestamp, with consecutive references |
| QueueFeed.Feed.HaltedAdd | python/make_queue_feed.py:281-290 | an order may be entered through the centre during a halt, and the generator stays valid |
| QueueFeed.Feed.PassiveAdd | python/make_queue_feed.py:292-304 | an order one to six steps behind the centre, attributed or not |
| QueueFeed.Feed.DrawExecution | python/make_queue_feed.py:329-340 | between one share and all of them; a stated price is the resting one, and then printable, or one or two ticks away from it |
| QueueFeed.Feed.ExecuteTouch | python/make_queue_feed.py:312-347 | nothing when the side is empty, else one execution of an order at the touch of that side, whole or in part, in one of the stated shapes; being valid, it is the oldest there |
| QueueFeed.Feed.CancelAt | python/make_queue_feed.py:349-368 | one order of the level is deleted or reduced within its size, and with the front bias it is the oldest |
| QueueFeed.Feed.ReplaceAt | python/make_queue_feed.py:370-380 | one order of the level is replaced by the next reference behind the centre on the same side |
| QueueFeed.Feed.HiddenTrade | python/make_queue_feed.py:382-398 | the print lies inside or at the touch, one tick off the starting price standing in for an empty side; it goes through resting quotes exactly in the stated cases |
| QueueFeed.HiddenPrintThrough | python/make_queue_feed.py:389-394 | a hidden print trades through a resting order if and only if one side is empty, the other has moved past its default price, and the default is drawn |
| QueueFeed.Feed.HiddenTradeAt | python/make_queue_feed.py:395-398 | at a price the draw allows, one hidden trade and an untouched book; it goes through a quote exactly when the default has been passed |
| QueueFeed.HiddenPrintCanGoThrough | python/make_queue_feed.py:199-394 | a run of the generator, from its opening and with the clock advanced in every turn, whose hidden trade prints through the best bid |
| QueueFeed.Feed.CrossAtTouch | python/make_queue_feed.py:400-410 | one cross print of the drawn size at the touch of the drawn side under the next match number, and only an empty side prints none |
| QueueFeed.Feed.HaltedRoll | python/make_queue_feed.py:275-278 | during a halt the roll is redrawn into the add, cancel and replace ranges only |
| QueueFeed.Feed.Ladder | python/make_queue_feed.py:292-410 | each band of the roll emits one message of its own kind and sizes, and none only when the book is empty |
| QueueFeed.Feed.Rolled | python/make_queue_feed.py:257-410 | a rolled turn emits nothing, a tie burst of two to five adds if those are asked for, in a halt an add of 100, 200 or 300 up to six steps through the centre, or one message of a band the halt allows, with that band's sizes |
| QueueFeed.Feed.Iterate | python/make_queue_feed.py:199-410 | for any draws, generator and consumer stay in exact agreement on a legal tape; all of a turn's messages stand at its own time, later than any before; a halt starts with one message 40 to 200 messages from its end, ends in the turn it is due and no earlier; the centre moves one tick by executions alone, never in a halt; any other turn emits what its roll may; a turn is silent only over an empty book or a step with nothing in its way; after k turns prices, references and match numbers stay within the stated bounds, and while those and the clock are in reach of their fields no draw makes a turn fail |
| QueueFeed.BoundedFits | python/make_queue_feed.py:199-410 | within the bounds of k turns, with the outermost price still positive, every reference, match number and price that one more turn can print fits its field |
| QueueFeed.Feed.Closes | python/make_queue_feed.py:412-415 | what the invariant promises the epilogue: a legal tape, the consumer's session, and when the closing messages keep it legal |
| QueueFeed.Feed.Close | python/make_queue_feed.py:412-416 | the returned bytes are the encoding of the whole tape and its closing messages |
| QueueFeed.ClosingLegal | python/make_queue_feed.py:412-415 | the closing messages keep a legal tape legal if and only if a halt still open has an uncrossed book |
| QueueFeed.Build | python/make_queue_feed.py:105-416 | every run is an opening and then the main loop, legal all through, with the generator's own levels the consumer's; a finished run stopped in the first turn, all of it at one time, that brought the loop's messages to the number asked for, and one not finished has fewer; its bytes parse to that tape and its closing, which is legal exactly under the stated condition; no run fails whose turns keep the outermost price positive and whose longest waits keep the clock within 48 bits |
| QueueFeed.LateOpening | python/make_queue_feed.py:119-194 | where one wait can take the clock past 48 bits, a run of the opening whose first order has no encoding |
| QueueFeed.CrossedClose | python/make_queue_feed.py:412-416 | a run of the program whose finished bytes parse to a tape that resumes trading with a bid above an ask |
| MergeFeed.LocateOf | python/make_queue_feed.py:457 | writing two bytes at offset 1 of an encoded message is encoding it with that locate |
| MergeFeed.FirstRefPatch | python/make_queue_feed.py:460-462 | the eight bytes at offset 11 are the reference, and replacing them is encoding the message with another reference, for all eight types that carry one |
| MergeFeed.SecondRefPatch | python/make_queue_feed.py:449-451 | the same for a replace's new reference at offset 19 |
| MergeFeed.SymbolPatch | python/make_queue_feed.py:458-459 | the same for the directory's symbol |
| MergeFeed.Restamp | python/make_queue_feed.py:454-463 | patching the bytes yields the encoding of the message moved to its locate, symbol and reference stride, and fails exactly when a field then does not fit |
| Merge.StampedKept | python/make_queue_feed.py:485-488 | every message but a later stream's session events is in the stamped stream, moved to its locate and references |
| Merge.StampFeed | python/make_queue_feed.py:483-489 | a built feed's payloads, walked and restamped, are the stamped stream, or some restamped message has no encoding; session events survive only in the first |
| Merge.SortRows | python/make_queue_feed.py:497 | a permutation in (timestamp, stream, sequence) order, so one whose timestamps never fall |
| Merge.MergedInOrder | python/make_queue_feed.py:490-497 | whatever tapes go in, the merged messages are in time order, and at one time in the order of their securities |
| Sorting.InsertionSort | python/make_queue_feed.py:497 | for any total order, a sorted permutation |
| Merge.SortedOnce | python/make_queue_feed.py:493-497 | rows with distinct keys have one sorted order, whatever the sorting algorithm |
| Merge.SortKeepsEachStream | python/make_queue_feed.py:491-497 | any sorted permutation lists each chronological stream's rows in that stream's own order |
| Merge.OnLocateIsStream | python/make_queue_feed.py:488 | filtering the merged tape by locate is taking one stream's rows |
| Merge.ApplyProjects | python/make_queue_feed.py:437-440 | one message on the shared map changes its own locate's projection as the plain book would, and no other projection |
| Merge.SharedReplayProjects | python/make_queue_feed.py:437-440 | the shared book after any tape of in-range references, projected on a locate, is that locate's messages replayed alone |
| Merge.StampedStreamShape | python/make_queue_feed.py:477-489 | a stamped stream is in time order, on its own locate, with every reference inside its own stride |
| Merge.MovedApply | python/make_queue_feed.py:454-463 | a message restamped does to the book with moved references what the message did to the book |
| Merge.StampedIsMoved | python/make_queue_feed.py:433-441 | a stamped stream rebuilds its own stream's book, with every reference moved by the stream's stride and nothing else changed |
| Merge.BuiltFeedIsMergeable | python/make_queue_feed.py:445 | a legal tape with fewer than 2^40 references, closing included, meets the premise of the merge theorem |
| Merge.WriteRows | python/make_queue_feed.py:499-502 | the framed rows parse back to the rows' messages |
| Merge.BuildMulti | python/make_queue_feed.py:475-502 | it fails exactly when a restamped message has no encoding; otherwise the output parses to a permutation of all stamped rows in time order, at one time security by security |
| Merge.SymbolsDiffer | python/make_queue_feed.py:483 | securities numbered below a million have different names, each showing its number, and the first one past that shares its name with another |
| Merge.MergeProjection | python/make_queue_feed.py:475-502 | at every point of the merged feed, the messages on locate i+1 are stream i stamped as far as the feed has come in it, the shared book projected on that locate is stream i's own book at that place under moved references, and at the end the place is the stream's end |
| Merge.ReachedGrows | python/make_queue_feed.py:491-497 | the place a feed has come to in a stream never moves back |
| Merge.FewReferences | python/make_queue_feed.py:445 | a legal tape issues no more references than it has messages |
| Merge.BuiltIsFaithful | python/make_queue_feed.py:475-502 | tapes the generator built, shorter than 2^40 messages or with all references below it, are followed by the merged feed place by place |
| Merge.MergeEncodes | python/make_queue_feed.py:457-462 | with references below the stride, restamping has no encoding exactly past 65535 securities |
| Merge.BuildMarket | python/make_queue_feed.py:475-502 | the whole program: every generator runs until it has its share of the messages, 200 at least, under a name of its own; the merged bytes parse to all their stamped messages in time order, and every security goes through its own generator's books in order, to the end, under moved references; short runs fail only past 65535 securities, and no run finishes past them |
| Binomial.Absorption | scripts/phase12-8-pool.py:63-95 | k C(n,k) = (n-k+1) C(n,k-1), the identity the running term relies on |
| Binomial.Symmetry | scripts/phase12-8-pool.py:63-95 | C(n,k) = C(n,n-k), so one tail serves for both |
| Binomial.WordsAreAll | scripts/phase12-8-pool.py:63-95 | the outcomes counted are exactly the n-bit words |
| Binomial.ChooseCounts | scripts/phase12-8-pool.py:63-95 | C(n,k) is the number of n-bit words with k ones |
| Binomial.TailsSize | scripts/phase12-8-pool.py:63-95 | each tail holds as many words as the sum of the coefficients below k |
| Binomial.CoveredSize | scripts/phase12-8-pool.py:63-95 | the words with between k and n-k ones number 2^n less twice that sum |
| MedianInterval.MedianCi | scripts/phase12-8-pool.py:63-108 | in the exact range the interval returned trims the largest k with real coverage from each end; too small samples, large ones, and large ones at another confidence than 95% are told apart |
| MedianInterval.NextTerm | scripts/phase12-8-pool.py:63-95 | the integer division for the next coefficient leaves no remainder and gives C(n,k) |
| MedianInterval.CoversIffMeetsBound | scripts/phase12-8-pool.py:63-95 | the loop's integer test holds if and only if the counted outcomes reach the asked coverage |
| MedianInterval.TrimIsWidest | scripts/phase12-8-pool.py:63-95 | stopping at the first failure of the test gives the largest k that passes |
| MedianInterval.AnswerCoversIff | scripts/phase12-8-pool.py:83-95 | the interval answered has the asked coverage if and only if 2,000,000 <= alpha 2^n |
| MedianInterval.NinetyFiveIsCovered | scripts/phase12-8-pool.py:63-95 | at 95% every accepted sample is covered at k = 1, so the trim always has real coverage |
| MedianInterval.FullRangeMayNotCover | scripts/phase12-8-pool.py:63-95 | at 99.99% a sample of eight is answered with the full range although it is not covered |
| MedianInterval.OnesOfAscending | scripts/phase12-8-pool.py:63-95 | the i-th order statistic is at or below m exactly when more than i observations are |
| MedianInterval.IntervalHoldsIffCovered | scripts/phase12-8-pool.py:63-95 | the interval holds a level m exactly when the word of observations at or below m is one of the covered ones |
| MedianInterval.IntervalContainsMedian | scripts/phase12-8-pool.py:45-55 | the 50th percentile by index always lies in a trimmed interval |
| MedianInterval.Pct | scripts/phase12-8-pool.py:45-51 | the percentile is the value at the whole part of p percent of the count, the last one at 100 percent and beyond, and none of no values |
| ClockHandoff.RunKeepsInv | tools/tsc_offset.cpp:121-149 | the token, progress, array and bracketing invariant holds after every interleaving with any delays |
| ClockHandoff.OnlyTheHolderWrites | tools/tsc_offset.cpp:130-148 | in every reachable state only the thread whose turn it is can be about to change the token |
| ClockHandoff.NeverStuck | tools/tsc_offset.cpp:130-149 | every reachable state is finished or has a thread that can do more than spin |
| ClockHandoff.StepsAreConserved | tools/tsc_offset.cpp:130-149 | productive steps taken and left always add up to 8n + 3, in any interleaving |
| ClockHandoff.FinishedIffAllSteps | tools/tsc_offset.cpp:130-149 | a run is over exactly when 8n + 3 productive steps have been taken, and none takes more |
| ClockHandoff.FinishedRunBrackets | tools/tsc_offset.cpp:123-149 | all three arrays are full, and B's i-th stamp, brought to A's clock, lies between A's i-th stamps |
| ClockHandoff.MinRoundTrip | tools/tsc_offset.cpp:151-172 | the estimate comes from the first tightest usable sample, with the casts to signed words as written, or is zero when no sample is usable; the median is the middle of the sorted round trips |
| ClockHandoff.MedianIsNotFaster | tools/tsc_offset.cpp:151-172 | the median round trip is never below the fastest, so the guard's test of it never decides |
| ClockHandoff.CastDifference | tools/tsc_offset.cpp:164 | the difference of the casts is the true difference exactly when both values lie in the same half of the range |
| ClockHandoff.SkewBound | tools/tsc_offset.cpp:151-168 | in every finished run with a constant skew, the offset is within the bound below it and within the bound rounded up above it, up to one turn of the counter exactly when the two stamps lie in different halves of its range |
| ClockHandoff.UnmeasuredIff | tools/tsc_offset.cpp:259-279 | no round trip faster than three ticks is given a verdict, whatever the offsets, and a zero one never is; every other one is, on a clock that ticks; three ticks are counted on 64 bits, and what they leave there decides |
| ClockHandoff.AsymmetryIff | tools/tsc_offset.cpp:252-305 | of the trips the clock sees, an asymmetry is reported exactly when both offsets are positive or neither is, and one is beyond the forward bound |
| ClockHandoff.LargeSkewIsReported | tools/tsc_offset.cpp:252-311 | on a clock that sees the handoff, a skew beyond both directions' rounded bounds gives estimates of opposite sign and is never taken for an asymmetry, and one beyond the whole forward round trip is reported as a real offset |
| ClockHandoff.RealOffsetIsEvidence | tools/tsc_offset.cpp:241-311 | of the estimates called a real offset, those that exclude clocks in step are the ones where a direction leaves its own interval around zero, and any other is the forward one's odd cycle or a reversed one beyond the forward bound; which round trips allow such estimates is `ClockHandoff.FalseOffsetIff` |
| ClockHandoff.FalseOffsetIff | tools/tsc_offset.cpp:241-311 | two finished runs of clocks in step, with these fastest round trips and stamps in one half of the counter's range, can be called a real offset exactly when the forward round trip is odd or half the reversed one, rounded up, exceeds the forward bound; all others are called not distinguishable from zero |
| ClockHandoff.StampIsRead | tools/tsc_offset.cpp:121-172 | any three stamps in order, B's moved by the skew and in one half of the counter's range, are what some finished run of one sample leaves and the estimate is taken from |
| ClockHandoff.OffsetIsRead | tools/tsc_offset.cpp:121-172 | the bounds are sharp: every offset within them is read by some finished run with that skew and that round trip |
| ClockHandoff.FalseOffsetVerdict | tools/tsc_offset.cpp:252-311 | two finished runs without skew whose estimates the program calls a real offset |
| ClockHandoff.NotDistinguishableIff | tools/tsc_offset.cpp:252-298 | finished runs of clocks a given skew apart, with these fastest round trips, can be called not distinguishable from zero exactly when the skew is within the forward round trip, above by an odd cycle less, and within the forward bound and half the reversed trip together |
| ClockHandoff.AcceptedIff | tools/tsc_offset.cpp:352-370 | finished runs of clocks a given skew apart, with these fastest round trips, can pass for at most so much exactly when half the forward trip does and the skew is within that much and half a round trip more, each way and in both directions |
| ClockHandoff.BeyondTheBound | tools/tsc_offset.cpp:293-298 | two finished runs of clocks six cycles apart, of which the program says that their offset is under three, and which it accepts for three |
| MoldPacket.HeaderRoundTrip64 | include/itchbook/mold/packet.hpp:53-60 | a written header parses back to session, sequence and count, whatever follows it |
| MoldPacket.BlocksRoundTrip | include/itchbook/mold/packet.hpp:69-105 | the bounds-checked walk over framed messages returns them all |
| MoldPacket.DataPacketCarries | include/itchbook/mold/packet.hpp:53-105 | a data packet carries exactly its messages, under its own sequence and count |
| MoldPacket.MarkerCarriesNothing | include/itchbook/mold/packet.hpp:47-50 | heartbeats and end of session carry no message, although the latter's count is 65535 |
| MoldPacket.FileIsFramed | tools/mold_wrap.cpp:43-48 | with packets up to 65535 bytes the file is the packets in ordinary framing |
| MoldPacket.FileReadsBack | tools/mold_wrap.cpp:43-48 | the file reads back as the packets written if and only if none is longer than 65535 bytes |
| MoldWrap.Packer.constructor | tools/mold_wrap.cpp:89-94 | an empty packer satisfies sequence + count = messages + 1 |
| MoldWrap.Packer.Flush | tools/mold_wrap.cpp:96-103 | the pending messages become one packet under their sequence number, no message is lost, and an empty buffer writes nothing |
| MoldWrap.Packer.WriteHeader | include/itchbook/mold/packet.hpp:118-125 | the first twenty bytes of the buffer are overwritten in place and the blocks behind them are untouched |
| MoldWrap.Packer.CopyBlock | tools/mold_wrap.cpp:119-120 | a block copied behind the pending ones leaves those untouched |
| MoldWrap.Packer.Push | tools/mold_wrap.cpp:117-123 | one message more is taken, flushing first when it does not fit, and greediness is kept |
| MoldWrap.Packer.Marker | tools/mold_wrap.cpp:133-135 | the marker names the next sequence number and the stream still tiles |
| MoldWrap.Packer.Heartbeat | tools/mold_wrap.cpp:128-138 | a heartbeat goes out exactly when the feed's clock says one is due, last of all and naming the next number; otherwise nothing is written; the clock starts at the first timestamp and restarts at each heartbeat |
| MoldWrap.BeatsArePaced | tools/mold_wrap.cpp:128-138 | on timestamps that never fall, the heartbeats called for stand behind the cuts of a line that is cut at its first timestamp and then at each message an interval or more behind the last cut, with none in between |
| MoldWrap.PacedOnce | tools/mold_wrap.cpp:128-138 | messages can be cut into intervals in one way only |
| MoldWrap.BeatsTakeTime | tools/mold_wrap.cpp:128-138 | so many heartbeats, times the interval, fit between the first timestamp and any later one |
| MoldWrap.DueIff | tools/mold_wrap.cpp:129-131 | for any timestamps a heartbeat is due exactly when one lies an interval or more behind the clock or anywhere before it |
| MoldWrap.Packer.Finish | tools/mold_wrap.cpp:140-151 | what is pending is flushed and the last packet ends the session under the next number |
| MoldWrap.GreedyStaysAhead | tools/mold_wrap.cpp:117 | after any number of packets the greedy split has taken at least as many messages as any other split |
| MoldWrap.GreedyIsOptimal | tools/mold_wrap.cpp:117 | the greedy split uses no more packets than any order-preserving split that respects the MTU |
| MoldWrap.CountNeverRunsOut | tools/mold_wrap.cpp:117 | for an MTU up to 65535 the guard on the count can never be what forces a flush |
| MoldWrap.Wrap | tools/mold_wrap.cpp:77-151 | both refusals exactly as checked, the second with the packets already sent left in the file; otherwise the packets fit the MTU, number 1..M without gap or overlap, unpack to the input, end the session under M + 1, hold exactly the heartbeats that the timestamps call for, each naming the next message: on timestamps that never fall, one behind each interval's end; and without an interval hold none and are the fewest possible |
| MoldDamage.Damager.constructor | tools/mold_damage.cpp:109-122 | nothing read, written, held or injected |
| MoldDamage.Damager.Inject | tools/mold_damage.cpp:161-205 | one halt at the first packet past the mark and later one resume, at the sum cut to 64 bits, each right ahead of its packet under a number of its own, and otherwise nothing |
| MoldDamage.Damager.InjectOne | tools/mold_damage.cpp:172-196 | the injected packet takes the shifted number of the packet it precedes and shifts every later one by one |
| MoldDamage.Damager.Process | tools/mold_damage.cpp:127-241 | whatever the draws, one input packet meets one fate, after at most one injection, and the counts and the output stay as the fates say |
| MoldDamage.Damager.Lose | tools/mold_damage.cpp:134-159 | a packet in the outage is counted and leaves nothing in the output |
| MoldDamage.Damager.Route | tools/mold_damage.cpp:207-240 | the packet is renumbered and then dropped, held, clipped, sent once or twice, and end of session is never damaged |
| MoldDamage.HeldFollowsNextSent | tools/mold_damage.cpp:220-240 | a held packet is written once, right behind the next packet sent and its copy |
| MoldDamage.HeldAtEnd | tools/mold_damage.cpp:242 | a packet still held at the end of the input is written last |
| MoldDamage.DeliveryConserves | tools/mold_damage.cpp:218-242 | packets written are what the fates weigh: none for dropped and lost, two for duplicated, one for the rest |
| MoldDamage.SurvivorsAreWritten | tools/mold_damage.cpp:218-242 | a packet is in the output exactly when some slot that was neither dropped nor lost holds its bytes |
| MoldDamage.PacketsConserved | tools/mold_damage.cpp:250-256 | written = read - dropped - disconnected + duplicated + injected |
| MoldDamage.TilesAreContiguous | tools/mold_damage.cpp:111-115 | a stream that numbers its messages without gap, as the packer's does, is contiguous input |
| MoldDamage.RenumberChangesOnlyTheNumber | tools/mold_damage.cpp:209-212 | renumbering in place changes the eight sequence bytes and nothing else |
| MoldDamage.ClipKeepsHeader | tools/mold_damage.cpp:227-232 | a clipped packet keeps its header, count included, and is strictly shorter |
| MoldDamage.ActionPacketCarries | tools/mold_damage.cpp:172-192 | an injected packet carries one trading action, the encoder's own bytes for it |
| MoldDamage.SlotBytes | tools/mold_damage.cpp:207-232 | what is written of a packet is its own content, renumbered, with its whole length exactly when it was not cut |
| MoldDamage.SlotCarries | tools/mold_damage.cpp:207-232 | a receiver decodes of a surviving packet all its own messages, or the first of them if it was cut |
| MoldDamage.CarriesNow | tools/mold_damage.cpp:207-240 | the messages decoded under a surviving packet's numbers are the input's for those numbers less the notices ahead, all of them unless it was cut |
| MoldDamage.CutsAreCounted | tools/mold_damage.cpp:227-232 | the truncated counter is zero exactly when no packet was cut |
| MoldDamage.RangesInOrder | tools/mold_damage.cpp:111-118 | the sequence ranges of the fates are pairwise disjoint and in the order of the input |
| MoldDamage.NumbersArePartitioned | tools/mold_damage.cpp:111-118 | every number belongs to exactly one slot, some packet written claims it in its header exactly when that slot was neither dropped nor lost, and then only that slot's packet does |
| MoldDamage.NothingElseIsClaimed | tools/mold_damage.cpp:111-118 | no packet written claims a number outside the ones numbered |
| MoldDamage.RunIsScheduled | tools/mold_damage.cpp:134-205 | from the input and the configuration alone: the packets lost are the first one past a mark, by number or by the time of its first message, and as many after it as asked for; the halt goes right ahead of the first packet that gets through stamped at or past its time, the resume right ahead of the first one behind it at or past the halt's end, each with that packet's session, locate and time, and nothing else is injected |
| MoldDamage.Damage | tools/mold_damage.cpp:124-256 | for every run: each packet's slot follows from the ones before, numbered by the notices ahead of it; outage, halt and resume fall where the input and the marks say (`MoldDamage.RunIsScheduled`); output and counts follow the slots, one held at a time, one outage in one stretch, at most one halt and then one resume, packets conserved; a rate of zero, that of truncation included, never fires, the truncated counter is zero exactly when nothing was cut, the outage is no longer than asked, and with nothing asked for the output is the input; on contiguous input each of the numbers 1..M + injected is claimed by one packet written and its copies, or by none when its slot was dropped or lost; on a packer's output every packet written is a notice or decodes to the input's own messages for its numbers, less the notices ahead, all of them unless it was cut |
| Replay.LocateFinder.OnMessage | tools/itch_slice.cpp:32-39 | the first directory record that names the symbol fixes the locate for good |
| Replay.Slicer.OnMessage | tools/itch_slice.cpp:81-90 | what is kept stays the slice of what was seen |
| Replay.SliceIsPicked | tools/itch_slice.cpp:81-90 | a slice is the day's system events and the target's messages, each once and in the day's order, and nothing else |
| Replay.FirstLocateIff | tools/itch_slice.cpp:32-39 | the day gives a symbol the locate of the first directory record that lists it, and none when no record does |
| Replay.SliceDay | tools/itch_slice.cpp:57-98 | both passes: no output when the symbol is never listed, else the slice of the day at its first locate |
| Replay.Replayer.OnMessage | tools/book_replay.cpp:161-207 | one message is one step of the replay function, through every early return |
| Replay.Replayer.CatchUp | tools/book_replay.cpp:199-203 | the loop writes a row for each grid point reached, in order, each with the book as it stands |
| Replay.KeptIsPicked | tools/book_replay.cpp:161-207 | the messages that reach the book are exactly the modelled ones within the limit and before any at or past the end time that are system events or on the locate last listed for the symbol, each once and in order |
| Replay.ReplayIsPlain | tools/book_replay.cpp:161-207 | book and applied count are those of handing exactly these messages to the book, one after another |
| Replay.RunsInStep | tools/book_replay.cpp:161-207 | replaying the day and replaying its slice stay in step, stop flag included |
| Replay.SliceCommutes | tools/itch_slice.cpp:81-90 | for any book, a day whose directory gives the symbol one locate up to the end of the window replays to the same book, applied count and rows as its slice |
| Replay.SliceCommutesIff | tools/itch_slice.cpp:32-39 | day and slice replay alike for every book if and only if the directory gives the symbol one locate up to the end of the window |
| Replay.SecondLocateBreaksIt | tools/itch_slice.cpp:33 | for every symbol, a day with two directory records for it on which slice and day replay differently |
| Replay.DueCount | tools/book_replay.cpp:199-203 | the loop's number of rounds is the number of multiples of the interval passed |
| Replay.StepKeepsGrid | tools/book_replay.cpp:194-206 | one message, kept or not, keeps the rows the plain grid of the messages kept |
| Replay.ReplayIsOnGrid | tools/book_replay.cpp:194-206 | the rows are one for each multiple of the interval in (first, last], in order, each holding the book after exactly the kept messages before the first at or past its time, and written = last/I - first/I |
| Tape.ReduceRests | python/reference/book.py:89-104 | a table that drops or reduces an order stays equal to the book, also when more is taken than rests |
| Tape.SwapRests | python/reference/book.py:129-139 | a table that loses one reference and gains the next stays equal to the book after a replace |
| Tape.NothingRests | scripts/make-synthetic-feed.py:219-220 | an empty table means a book without an order or a level |
| SwapPool.Feed.constructor | scripts/make-synthetic-feed.py:32-68 | the generator starts in agreement with an empty consumer |
| SwapPool.IndexedSize | scripts/make-synthetic-feed.py:121-135 | the index lists each live order once and nothing else |
| SwapPool.Feed.AddLive | scripts/make-synthetic-feed.py:124-126 | map and list stay each other's inverse with one more entry |
| SwapPool.Feed.DropLive | scripts/make-synthetic-feed.py:128-135 | map and list stay each other's inverse with exactly that reference gone, also when it is the last one, and no other order's shares or security changes |
| SwapPool.Feed.SetShares | scripts/make-synthetic-feed.py:137-139 | only the shares of that order change |
| SwapPool.Feed.Quote | scripts/make-synthetic-feed.py:98-105 | the base drifts by at most 200 in steps of 100 and never below its floor, no other base moves, and a quote is at least 100 and on the tick within the band around it |
| SwapPool.Feed.Add | scripts/make-synthetic-feed.py:107-119 | one add of one to nineteen lots under the next reference, of the security's own name and at a price quoted from its drifted base; it joins the index, and the table still says what the consumer has |
| SwapPool.Feed.Execute | scripts/make-synthetic-feed.py:141-153 | one execution of a live order for whole lots within its size, on its own security and under the next match number, and the table loses just those shares |
| SwapPool.Feed.Cancel | scripts/make-synthetic-feed.py:155-165 | the same for a cancel |
| SwapPool.Feed.Delete | scripts/make-synthetic-feed.py:167-172 | the order is gone from the index and from the consumer's book |
| SwapPool.Feed.Replace | scripts/make-synthetic-feed.py:174-187 | the order's place is taken by the next reference on the same security, of one to nineteen lots at a price quoted anew |
| SwapPool.EmitTabled | scripts/make-synthetic-feed.py:107-187 | the refinement step: any message the table allows keeps table and consumer in agreement, names nothing unknown, stays on the issuing security, and keeps round lots |
| SwapPool.Feed.Turn | scripts/make-synthetic-feed.py:198-215 | every turn of the main loop emits exactly one message: an add under the next reference, or a mutation of an indexed order |
| SwapPool.Feed.Drain | scripts/make-synthetic-feed.py:219-220 | what is left in the index is deleted from its end, each order once |
| SwapPool.Feed.Build | scripts/make-synthetic-feed.py:189-223 | the feed is the session's opening, each security listed once, four adds each in turn, the main loop, the drain and the close, its length accounted for message by message and its clock one nanosecond on with each; every mutation is well-formed for the consumer, whose book ends empty |
| SwapPool.Reliable | scripts/make-synthetic-feed.py:39-43 | at every message of a well-formed feed an execution or cancel takes at least one share and at most all of an order that rests, a delete or replace names one that rests, all on the security that issued it, and no reference is issued twice |
| SwapPool.Feed.Stamp | scripts/make-synthetic-feed.py:225-250 | only timestamps change, to a strictly increasing clock cut to 48 bits |
| SwapPool.RetimedMeansTheSame | scripts/make-synthetic-feed.py:225-250 | a feed with other timestamps rebuilds the same book, securities and well-formedness |
| SwapPool.Feed.Generate | scripts/make-synthetic-feed.py:189-250 | the restamped feed is well-formed for the consumer, still ends with an empty book, and is as long as the built one |
| LazyPool.EvictKeeps | python/fuzz_feed.py:71-72 | moving the last slot into an evicted one loses exactly the evicted reference |
| LazyPool.Pool.AddLive | python/fuzz_feed.py:61-63 | a fresh reference becomes live and takes one slot |
| LazyPool.Pool.PickLive | python/fuzz_feed.py:65-73 | it ends with a live reference, or with none exactly when no order is live; no live order loses its slot, and each rejected draw costs one slot |
| LazyPool.RejectsAreBounded | python/fuzz_feed.py:55-58 | over any run the draws thrown away, plus the orders still live, are at most the orders ever added |
| LazyPool.Pool.Take | python/fuzz_feed.py:159-162 | shares come off, or the order dies and its slot stays behind |
| LazyPool.ReducedAgrees | python/fuzz_feed.py:154-179 | an execution or cancel, even for more than rests, does the same to the map and to the listener's book |
| LazyPool.GhostAgrees | python/fuzz_feed.py:132-146 | a mutation of a made-up reference changes no order, a replace included, and is counted as unknown exactly once |
| LazyPool.OtherAgrees | python/fuzz_feed.py:108-115 | orders on the other security and prints off the book never reach the listener's book |
| LazyPool.Feed.Turn | python/fuzz_feed.py:104-197 | every turn emits exactly one message, of a kind, reference, size and price the draws allow; a live order is always found when the pool is asked |
| LazyPool.Feed.Build | python/fuzz_feed.py:98-197 | the two securities are listed, and the loop then emits exactly the asked-for messages; the listener's orders and sizes are the generator's, its unknown count is the number of made-up references, and rejected draws stay within the adds |
| ToxicFeed.Build | python/make_toxic_feed.py:89-169 | the program's output is the closed form: four opening quotes and ten messages an episode with the stated references, prices and times |
| ToxicFeed.AllFit | python/make_toxic_feed.py:89-169 | every message of a run has an encoding exactly when its last timestamp fits 48 bits |
| ToxicFeed.Write | python/make_toxic_feed.py:89-169 | the bytes parse to the closed form, or an exception is raised exactly when the last timestamp is past 48 bits |
| ToxicFeed.EpisodeBooks | python/make_toxic_feed.py:125-160 | the consumer's book after each message of an episode is the stated one |
| ToxicFeed.BetweenEpisodes | python/make_toxic_feed.py:106-165 | between any two episodes the book is two deep orders and one quote each side of the mid, with nothing ever unknown |
| ToxicFeed.EveryInstant | python/make_toxic_feed.py:49-60 | at every message of every episode the book has two sides and is uncrossed, and both executions take the oldest order at the best price, the second leaving the level populated |
| ToxicFeed.FillIsAdverse | python/make_toxic_feed.py:49-83 | at the second print of every episode the mid is one tick from the near price, and a tenth of a second, one second and ten seconds later it is two ticks worse |
| ToxicLedger.ServeConserves | python/make_toxic_feed.py:53-55 | a print takes exactly its size from a queue, oldest first, or the whole queue |
| ToxicLedger.HitFollows | python/make_toxic_feed.py:43-48 | heard message by message, the quote at the back of the near level is passed by the first print and filled whole by the second |
| ToxicLedger.OneFillAnEpisode | python/make_toxic_feed.py:43-57 | a maker quoting both touches, heard through the whole tape, is filled exactly once an episode, for a whole quote, at the near price and the time of the second print |
| ToxicLedger.EveryFillIsAdverse | python/make_toxic_feed.py:12-30 | each of those fills has an edge of one tick over its moment's mid, and the mid a tenth of a second, one second and ten seconds later is two ticks worse |
| ToxicLedger.RoundTripsNetToZero | python/make_toxic_feed.py:17-30 | booked from those fills, position and cash are back to zero after an even number of episodes, and hold one quote at one price after an odd one |

## Left out

- QueueFeed.Build: the main loop is watched for a given number of turns, because no probability says that it reaches its length; every property is proved of the tape so far, and a run that has not finished is told apart.
- Sorting.InsertionSort: it stands for the libraries' sorts; `Merge.SortedOnce` shows that any sorting gives the same rows.
- Merge.BuildMulti: a row carries the decoded message instead of its payload and is encoded again when written.
- Merge.BuildMarket: each generator run is watched for a given number of turns, as in `QueueFeed.Build`; that the feed follows the generators' books is stated for short runs and for streams shorter than 2^40 messages.
- MedianInterval.IntervalContainsMedian: the percentile index is computed on integers, which for the 50th agrees with the float.
- MedianInterval.MedianCi: alpha is rounded from an exact real, half to even, where the program rounds a float; samples over 1000, answered by a normal approximation, are only told apart; the permutation test is not modelled.
- MoldWrap.Wrap: message lengths below 65536, as its reader guarantees, and fewer than 2^64 messages are assumed; a session name with a NUL byte is not modelled.
- MoldDamage.Damage: the partition of numbers, and what is decoded under them, are stated for inputs whose shifted numbers stay below 2^64.
- ClockHandoff.SkewBound: the skew is constant, the stamps do not wrap, and a signed difference that does not fit a word is the mathematical one.
- ClockHandoff.FalseOffsetIff: the stamps compared lie in one half of the counter's range, where their signed difference fits a word.
- Replay.ReplayIsOnGrid: the next grid point is an unbounded integer, so a wrap of the 64-bit grid time is not modelled.
- SwapPool.Feed.Build: one reference map for all securities, as references are unique across them; the byte layout and the field widths of this generator are not modelled, and without a symbol to draw from only runs that never enter the loop are covered.
- LazyPool.Feed.Build: the closing messages, three of which have types no consumer here models, and the encoding of the others are left out.
- ToxicLedger.OneFillAnEpisode: the maker quotes 100 shares a side and renews both quotes at the touch on the feed's trading beats; the backtester, its latencies, its fill models and its fees are outside.
- The order statistics of the reference book (volume, notional, open, high, low, close) and its session fields beyond the halt.
- The benchmark generator uses the same lazy pool (python/make_bench_feed.py:77-89) with another message mix, which is not modelled.
- ClockHandoff.RealOffsetIsEvidence: estimates and bounds are compared in cycles, where the program divides both by one float first; calibration, pinning and printed sentences are left out, and the atomics are sequentially consistent steps.
- Files, gzip, argument parsing, printing, JSON and CSV formats, and the random generators' algorithms.
- The order book, matcher, sequencer and fill models behind the tools, and every driver over them.
- Reports, figures, markouts and floating-point fits.
