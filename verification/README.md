# Etherview: verified models

Dafny models of the parts of Etherview, a blockchain explorer, whose behaviour is hardest to
see from the code, with proofs of what they promise. Check everything with
`dafny verify dfyconfig.toml`.

## What is modelled

**ABI preflight.** Hostile calldata is walked under four budgets before anything is decoded.
`AbiTypes` holds types, values and a decoder without budgets; `AbiEncoding` the encoder and
the round trip; `AbiValues` the shapes and the walk, proved to accept exactly what the
decoder turns into a small enough value; `AbiPreflight` the consequences for canonical
calldata, `AbiCosts` what is charged, measured against the encoder; `AbiTypeBounds` the bounds
on type expansion. The bound on stored list counts does
change the verdict for lists of zero-width elements; the exact condition and the failing
family are stated.

**Status cache.** `CacheFence` is a protocol of many processes around one Redis: brokers that
invalidate events for a relay and for subscribers ahead of it, reads that load, check and
store, lost and late replies, a local switch. No hit is older than its generation, over every
run. That a hit shows every event its own process has invalidated is true under an exact
condition on the process's failed calls; `CacheFenceOrder` has a run in which it fails.

**Rate limits.** `TokenBucket` is the bucket that never forgets; `RateLimiter` the bounded
limiter with two lists and idle expiry, `RedisLimiter` the script with its expiring key and
the circuit in front of it. Both answer like the first.

**Traces.** `Lexicographic` is the order of paths and cursors. `TracePath` parses and prints paths, `TraceTree` checks that scanned frames form a
tree, `TraceCache` models the slow path and the validator of cached traces and shows that the
cache accepts everything the slow path writes, `TraceRows` that it accepts little else.

**Payments.** `PaymentLog` is the reader of a payment's audit log, `PaymentLedger` the
statements that write it. The reader accepts every log the ledger writes with one exception:
an operator who fails a settlement that is pending on a transaction leaves a log that the
reader refuses. `TopupLedger` holds payments, intents, accounts and entries with every
statement that changes them; `TopupProtocol` runs any number of top-ups concurrently on it,
each with its progress observer, with lost replies, late effects, operators, sweeps and crashes.

**Metered calls.** `ResponseCapture` is the recorder of a handler's response, `UsageBilling`
the run that reserves, captures, decides and answers, `UsageLedger` the accounts under all
runs.

**Set and key structures.** `Diamond` checks the public description of a diamond proxy,
`DiamondMeaning` says what acceptance means,
`ApiToken` and `ApiKeys` tokens and the in-memory key repository, `Keyset` paging by key,
`AddressLogs` pages cut by bytes, `Analytics` charts over the buckets of a `Calendar`.

Where the sources disagree with their documentation the code is followed: the bound on
list counts in the preflight, the log of a failed pending settlement, a selector map entry
without a facet, the tokens that parse without having been issued, and the cache that is
enabled again by an older event are modelled as the code has them.

## Model

| member | source | states |
|---|---|---|
| AbiValues.CheckValuesWithLimits | internal/abibounds/values.go:16-38 | The preflight accepts a call exactly when the limits are valid, the argument types fit them, and the budget-free reference decoder yields values whose nodes, leaf bytes, dynamic leaves and list counts are within the four budgets, and no stored list count exceeds the length of the data. Aliased offsets are counted on each visit. |
| AbiValues.EarlyChecksAreRedundant | internal/abibounds/values.go:98-179 | For types without lists of zero-width elements the early bounds on counts never change that verdict. |
| AbiPreflight.ZeroWidthSliceIsRefused | internal/abibounds/values.go:98-113 | The exception is real: every slice of more than 64 empty tuples has a type and a value within all limits and is decoded by the reference, and its count exceeds the 64 bytes of its data, so the preflight refuses it. |
| AbiPreflight.CanonicalVerdict | internal/abibounds/values.go:16-38 | On a canonical encoding the budgets see the size of the value alone, never the layout. |
| AbiCosts.StaticCost | internal/abibounds/values.go:140-179 | For every static type the bytes charged for a value are exactly the bytes of its encoding. |
| AbiCosts.CanonicalCost | internal/abibounds/values.go:140-179 | On canonical calldata no byte is charged twice: the charge is at most the length of the data, for all types. |
| AbiCosts.ChargesAreCounts | internal/abibounds/values.go:140-179 | For values of any type the two charges are the length of all leaf contents and the number of visited values. |
| AbiCosts.ListCost | internal/abibounds/values.go:162-169 | A list or array of a static type is one node and those of each element, and the bytes of its elements. |
| AbiCosts.BlobsVerdict | internal/abibounds/values.go:16-38 | The whole verdict on any number of dynamic byte arguments, in numbers: together within the value budget, each within its own, one node each. |
| AbiCosts.OneBlob | internal/abibounds/values.go:146-153 | The verdict on one of them. |
| AbiCosts.TwoBlobs | internal/abibounds/values.go:146-153 | The verdict on two, with the sum of their lengths. |
| AbiCosts.WordListVerdict | internal/abibounds/values.go:16-38 | The whole verdict on a list of words, in numbers. |
| AbiCosts.WordArrayVerdict | internal/abibounds/values.go:16-38 | The whole verdict on a fixed array of words. |
| AbiCosts.WordTupleVerdict | internal/abibounds/values.go:16-38 | The whole verdict on a tuple of words. |
| AbiCosts.DepthVerdict | internal/abibounds/values.go:49-90 | A type nested k times is admitted exactly when the depth allows it, and counts one node for each level. |
| AbiCosts.IndexedIsSkipped | internal/abibounds/values.go:20-31 | Indexed arguments are neither in the data nor charged. |
| AbiCosts.ShortBlobBytes | internal/abibounds/values.go:140-153 | The bytes of one short dynamic argument: offset, length, content, zeros. |
| AbiEncoding.ArgumentsRoundTrip | internal/abibounds/values.go:115-179 | The reference decoder is the inverse of the encoder of the Solidity Contract ABI Specification ("Formal Specification of the Encoding") on all values of all types. |
| AbiValues.MakeShape | internal/abibounds/values.go:49-90 | A shape is built exactly for admissible types within the node budget, is the shape of the type, and spends exactly its nodes. |
| AbiValues.MakeTuple | internal/abibounds/values.go:71-87 | The same for the fields of a tuple, which share one budget. |
| AbiValues.MakeShapes | internal/abibounds/values.go:20-31 | The same for all arguments of a call, which share one budget and skip indexed arguments. |
| AbiValues.ValueBudget.ReadWord | internal/abibounds/values.go:98-113 | A word is read exactly when it lies in the data and is at most the length of the data, and its value is the big-endian number. |
| AbiValues.ValueBudget.WalkTuple | internal/abibounds/values.go:115-124 | Walking fields succeeds exactly when the decoder does and both budgets can pay for every field, and then has paid exactly that. |
| AbiValues.ValueBudget.WalkAt | internal/abibounds/values.go:126-138 | The same for one field, through its offset if its type is dynamic. |
| AbiValues.ValueBudget.WalkValue | internal/abibounds/values.go:140-179 | The same for one value at a position. |
| AbiValues.ValueBudget.WalkElements | internal/abibounds/values.go:162-169 | The same for the elements of a list, with the division check that stands for a product. |
| AbiValues.ValueBudget.VisitElements | internal/abibounds/values.go:165-169 | The element loop pays for exactly the elements it visits. |
| AbiValues.DivisionBound | internal/abibounds/values.go:65-70 | The overflow-free division test decides the product bound. |
| AbiTypes.HeadInsideData | internal/abibounds/values.go:126-138 | Whatever the decoder accepts has its head inside the data. |
| AbiTypes.ManyInsideData | internal/abibounds/values.go:162-169 | The same for the heads of all elements of a list. |
| AbiTypes.NodesAtLeastCount | internal/abibounds/values.go:140-179 | A list has at least as many nodes as elements, so the node budget bounds the work. |
| AbiTypeBounds.BoundedType | internal/abibounds/abi.go:99-141 | An argument type is accepted exactly when its nesting fits and the sum over its type nodes of the product of enclosing array sizes (zero counted as one) fits the budget, which is then reduced by that sum. |
| AbiTypeBounds.ScanSuffix | internal/abibounds/abi.go:103-127 | The suffix loop reads every dimension and keeps the multiplier within the node limit, so no product overflows. |
| AbiTypeBounds.ScanSize | internal/abibounds/abi.go:118-124 | One dimension: accepted exactly when it is a size within the limits, and multiplied without overflow. |
| AbiTypeBounds.BoundedTypes | internal/abibounds/abi.go:135-139 | Components share one budget and all must fit. |
| AbiTypeBounds.AdmitEntry | internal/abibounds/abi.go:83-95 | Inputs and outputs of an entry share the document budget. |
| AbiTypeBounds.AdmitEntries | internal/abibounds/abi.go:72-97 | A document is admitted exactly when its entries, argument counts and total weight fit. |
| AbiTypeBounds.DimsOfBrackets | internal/abibounds/abi.go:103-125 | Reading a printed list of dimensions gives the list back. |
| AbiTypeBounds.BracketsOfDims | internal/abibounds/abi.go:103-125 | Printing what was read gives the suffix back. |
| AbiTypeBounds.ArrayInNumbers | internal/abibounds/abi.go:99-141 | An array type of given sizes weighs their product, an empty size counted as one, times one and its components; it is admitted by its length, depth and sizes. |
| AbiTypeBounds.AtoiOfFormat | internal/abibounds/abi.go:118-124 | Sizes are read as the numbers they print. |
| CacheFence.NoStaleHit | internal/accelerator/redis.go:403-434 | In every run of any number of processes, whatever order their brokers invalidate in, a hit reflects everything committed before the generation that its final check confirmed, hence every event whose invalidation Redis had evaluated. |
| CacheFence.ReadIsFresh | internal/app/status_cache.go:43-76 | In every run a hit of a read reflects everything committed before the generation at which the read began, hence everything before its process fenced the cache; and every event whose invalidation the process had completed by then, even with Redis down, if each failed one was made up for or followed by some new generation. |
| CacheFence.FreshExactly | internal/accelerator/redis.go:369-401 | The exact condition: everything a process has invalidated lies below the current generation if and only if, for each event whose invalidation it saw fail and has not made up for, someone reached a new generation after that event was committed. A fence or bump of its own makes up for any event, a call without a bump for events that are not newer. |
| CacheFence.DoubtfulAndEnabled | internal/events/broker.go:310-338 | A process whose cache is enabled while an event is in doubt completed, after that failure, a call of an older event that bumped nothing; no other call enables it without making up. |
| CacheFence.InOrderIsFresh | internal/events/broker.go:139-166 | Calls in event order, as the relay alone would make them, leave no doubt behind when the last one succeeds. |
| CacheFence.FenceIsBump | internal/accelerator/redis.go:186-206 | A generation covers an event exactly when some bump came after its commit. |
| CacheFence.DoubtIsNewest | internal/accelerator/redis.go:369-401 | The newest event in doubt, computed call by call, is the newest failed call that no later call makes up for. |
| CacheFence.NeedIsCarried | internal/app/status_cache.go:43-76 | What a read had to see when it began is what it is held to when it ends. |
| CacheFence.StepKeeps | internal/accelerator/redis.go:186-206 | Every step of a broker, a read, a late or lost Redis reply, a commit or an eviction keeps the invariant that entries of a generation contain everything below its fence. |
| CacheFence.RunKeeps | internal/accelerator/redis.go:369-445 | The invariant over whole runs. |
| CacheFence.NoteBumpsExactly | internal/accelerator/redis.go:50-65 | In every run a note raises the generation, by one, exactly when its event exceeds every event noted before, by whichever process, heard or not, in time or late; otherwise Redis stays as it was. No event bumps twice. |
| CacheFence.CursorIsTop | internal/accelerator/redis.go:50-65 | In every run the cursor is the newest event noted so far. |
| CacheFence.NoteInNumbers | internal/accelerator/redis.go:50-65 | A note of an event that is not newer than the cursor does nothing; a newer one bumps once and keeps the entries. |
| CacheFence.BrokerRemembers | internal/events/broker.go:310-338 | In every run a broker remembers exactly the last 256 events it invalidated, failed ones included, works on none of them, and has invalidated what it published. |
| CacheFence.FailureDisables | internal/accelerator/redis.go:369-401 | A fence or invalidation that fails leaves the cache disabled, one that succeeds enables it. |
| CacheFence.DisabledBypasses | internal/app/status_cache.go:43-76 | While it is disabled a read goes to the database. |
| CacheFence.MissReadsDatabase | internal/app/status_cache.go:43-76 | A miss is answered with everything committed. |
| CacheFenceOrder.SubscriberAheadIsStale | internal/events/broker.go:194-338 | The condition can fail: a run of two processes under the broker's own rule, in which a subscriber ahead of the relay has the newer event invalidated without success, the relay then invalidates the older one without a bump, and the next hit lacks the newer event. |
| CacheFenceOrder.FreshHit | internal/app/status_cache.go:43-76 | Hits happen: a run in which a second read is served from the cache with nothing in doubt. |
| Decimal.NewerIsGreater | internal/accelerator/redis.go:50-65 | The length-then-text comparison of the script is numeric order on canonical decimals. |
| Decimal.SameLengthOrder | internal/accelerator/redis.go:50-65 | Text order is numeric order on digit strings of one length. |
| Decimal.FormatIsCanonical | internal/catalog/helpers.go:175-185 | Printed numbers are canonical and read back. |
| Decimal.FormatOfValue | internal/catalog/helpers.go:175-185 | A canonical text is the print of its value. |
| RateLimiter.MemoryLimiter.Allow | internal/auth/limiter.go:81-127 | One call: answers and new contents are those of the specification; the map, the two lists and the counters stay consistent. |
| RateLimiter.MemoryLimiter.ExpireBuckets | internal/auth/limiter.go:129-148 | Sweeps idle buckets from the front of one list, as the specification does. |
| RateLimiter.MemoryLimiter.RemoveFront | internal/auth/limiter.go:206-221 | Removes a bucket from map, list and counter together. |
| RateLimiter.MemoryLimiter.BucketRoomRetry | internal/auth/limiter.go:166-183 | The wait after which a bucket of the class can be dropped. |
| RateLimiter.MemoryLimiter.ServeKey | internal/auth/limiter.go:91-127 | Refill, spend and touch of one bucket. |
| RateLimiter.MemoryLimiter.Refill | internal/auth/limiter.go:115-120 | The refill is that of the unbounded token bucket. |
| RateLimiter.MemoryLimiter.Charge | internal/auth/limiter.go:113-127 | A token is spent or the wait for one is returned. |
| RateLimiter.MemoryLimiter.Touch | internal/auth/limiter.go:96-112 | The bucket moves to the end of its list. |
| RateLimiter.AllowIsIdeal | internal/auth/limiter.go:81-148 | For a key used with one limit, a limiter that forgets idle keys gives every answer of a token bucket that never forgets, whenever there is room. |
| RateLimiter.WindowBound | internal/auth/limiter.go:81-148 | Allowed calls in any stretch of a key's calls are at most burst plus what the rate earns over it; in integers, the calls beyond the burst times a second in nanoseconds are at most rate times the time. |
| RateLimiter.AllowedExactly | internal/auth/limiter.go:113-127 | A stored bucket with less than a token allows a call exactly when the nanoseconds since, times the rate, make up what is missing. |
| RateLimiter.RetryIsLeast | internal/auth/limiter.go:121-126 | The returned wait is the least number of milliseconds: one less is too early. |
| RateLimiter.RetentionInNumbers | internal/auth/limiter.go:185-204 | The retention is the configured one, or the least time in which the bucket fills, if longer. |
| RateLimiter.RoomExactly | internal/auth/limiter.go:150-164 | A new key is turned away only while its class holds as many buckets as its limit, with the two defaults. |
| RateLimiter.ExpireDropsExpired | internal/auth/limiter.go:129-148 | Only buckets idle for their retention are dropped. |
| RateLimiter.ClassOfKey | internal/auth/limiter.go:88 | The classes are told apart by the first ten characters of the key. |
| RateLimiter.RetrySucceeds | internal/auth/limiter.go:91-183 | With no other call in between, waiting the returned retry makes the same call succeed, for want of tokens as for want of room. |
| RateLimiter.AllowSpec | internal/auth/limiter.go:81-127 | The specification keeps the invariant: counters equal list lengths equal map entries of the class, each bucket in one list, lists ordered by last use, sizes within the caps, every bucket true to its history. |
| RateLimiter.RetentionRefills | internal/auth/limiter.go:185-204 | A bucket is kept long enough to be full when it is dropped. |
| TokenBucket.RateBound | internal/auth/limiter.go:115-127 | The bound on the unbounded bucket itself. |
| TokenBucket.WindowInNumbers | internal/auth/limiter.go:115-127 | The same in integers, for any unit of time. |
| TokenBucket.GrantedExactly | internal/auth/limiter.go:115-127 | With less than a token left a call is granted exactly when the time since has made up a whole one. |
| TokenBucket.FullRefillInNumbers | internal/auth/limiter.go:185-204 | A full refill is a burst earned at the rate. |
| TokenBucket.BurstAtOnce | internal/auth/limiter.go:91-123 | A key that was never used grants exactly its burst at one instant. |
| TokenBucket.ReplayWithin | internal/auth/limiter.go:115-123 | Its level stays between zero and the burst. |
| TokenBucket.ForgettingIsInvisible | internal/auth/limiter.go:185-204 | A bucket idle for a full refill answers like a new one. |
| TokenBucket.RetryEarnsToken | internal/auth/limiter.go:121-126 | The returned wait earns a whole token. |
| RedisLimiter.ScriptIsIdeal | internal/accelerator/redis.go:21-48 | The script with its expiring key gives every answer of the unbounded token bucket. |
| RedisLimiter.ScriptStep | internal/accelerator/redis.go:21-48 | One evaluation follows one step of the bucket. |
| RedisLimiter.ScriptWindow | internal/accelerator/redis.go:21-48 | The window bound of the script in integers, per thousand milliseconds. |
| RedisLimiter.ScriptExactly | internal/accelerator/redis.go:21-48 | A live hash with less than a token allows a call exactly when the milliseconds since make up a whole one. |
| RedisLimiter.ScriptRetryIsLeast | internal/accelerator/redis.go:21-48 | The returned wait is the least. |
| RedisLimiter.LifetimeInNumbers | internal/accelerator/redis.go:224-234 | A key lives at least a second, and no more than twice its refill if that is longer. |
| RedisLimiter.BackoffDoubles | internal/accelerator/redis.go:287-306 | The delay starts at the base, doubles with each failure and never exceeds five seconds. |
| RedisLimiter.RateCircuit.constructor | internal/accelerator/redis.go:262-269 | The base delay is the timeout, kept between a tenth of a second and five. |
| RedisLimiter.ScriptRetrySucceeds | internal/accelerator/redis.go:21-48 | With no other call in between, waiting the returned retry makes the same call succeed, whether or not the key expires meanwhile. |
| RedisLimiter.LifetimeRefills | internal/accelerator/redis.go:224-234 | The key lives at least as long as a full refill. |
| RedisLimiter.RateCircuit.Allow | internal/accelerator/redis.go:271-285 | While failing, one probe at a time and none before its time. |
| RedisLimiter.RateCircuit.Fail | internal/accelerator/redis.go:287-306 | The wait doubles with each failure up to its cap. |
| RedisLimiter.RateCircuit.Succeed | internal/accelerator/redis.go:308-317 | A success closes the circuit. |
| RedisLimiter.RateCircuit.CancelProbe | internal/accelerator/redis.go:319-326 | A cancelled probe frees the slot only. |
| TracePath.ParsePrint | internal/catalog/helpers.go:221-241 | Parsing the text of a storable path gives the path. |
| TracePath.PrintParse | internal/catalog/stats_trace.go:883-889 | Printing what was parsed gives the text: there is one text per path. |
| TracePath.PrintIsInjective | internal/catalog/stats_trace.go:883-889 | Different storable paths have different texts, so texts may stand for paths in a set. |
| TracePath.ParseTracePath | internal/catalog/helpers.go:221-241 | The loop computes the parser. |
| Lexicographic.LessTotal | internal/catalog/helpers.go:243-245 | The path order is total. |
| Lexicographic.LessTransitive | internal/catalog/helpers.go:243-245 | The path order is transitive. |
| TraceTree.CheckTree | internal/catalog/stats_trace.go:586-615 | Sorting and one pass accept a bag of scanned frames exactly when paths are unique, closed under parents, rooted, and agree with depth and parent text. |
| TraceTree.CheckSorted | internal/catalog/stats_trace.go:591-615 | The pass itself, on sorted frames. |
| TraceTree.SortFrames | internal/catalog/stats_trace.go:586-588 | The result is sorted and holds the same frames. |
| TraceTree.Preorder | internal/catalog/stats_trace.go:586-615 | In an accepted list the parent comes first, and everything between it and the child lies below it. |
| TraceTree.SubtreesAreContiguous | internal/catalog/stats_trace.go:586-615 | Every subtree is one block. |
| TraceCache.ReadTransactionTrace | internal/catalog/stats_trace.go:541-628 | The slow path succeeds exactly on rows that scan, fit the limits and form a tree; every row is shown by the one frame with its path, column by column, addresses and data decoding to the stored bytes; and its result, stripped as it is stored, satisfies the validator for the same identity. |
| TraceCache.ScanRows | internal/catalog/stats_trace.go:569-584 | The scan loop succeeds exactly within the frame and data limits. |
| TraceCache.ValidateCachedTrace | internal/catalog/stats_trace.go:630-705 | The validator accepts exactly the well-formed cached traces. |
| TraceCache.CheckFrame | internal/catalog/stats_trace.go:640-700 | One iteration of the validator decides the conditions of that frame. |
| TraceCache.CheckFields | internal/catalog/stats_trace.go:666-699 | Addresses, quantities, data and error of one frame. |
| TraceCache.CheckData | internal/catalog/stats_trace.go:684-696 | One data text against the byte budget. |
| TraceCache.StoreAndValidate | internal/catalog/stats_trace.go:362-412 | The cache never rejects its own writes, and what it stores shows the rows. |
| TraceCache.RowIsShown | internal/catalog/stats_trace.go:732-880 | A scanned row and its frame agree column by column. |
| TraceRows.AcceptedIsReadable | internal/catalog/stats_trace.go:630-705 | The converse: a cached trace that the validator accepts, with data in lower case and paths within the text limit, is what the slow path returns for some rows. |
| TraceRows.RowBack | internal/catalog/stats_trace.go:732-880 | The row that an accepted frame shows scans back to the frame. |
| TraceCache.TreeIsCached | internal/catalog/stats_trace.go:586-628 | A sorted tree of scanned frames satisfies every check of the validator. |
| TraceCache.HexRoundTrip | internal/catalog/helpers.go:116-125 | Hexadecimal texts read back to their bytes in either letter case. |
| TraceCache.ChecksumIsCanonical | internal/catalog/helpers.go:134-139 | A checksummed address is accepted as canonical. |
| TraceCache.DataOfPermutation | internal/catalog/stats_trace.go:575-584 | The data total does not depend on the order of the frames. |
| PaymentLog.EventsFromRows | internal/billing/postgres.go:982-1054 | The reader accepts exactly the logs that are walks from reserved to the payment's state with increasing ids and ordered times inside the payment's span, and returns their events, column by column. |
| PaymentLog.NothingFollowsTerminal | internal/billing/postgres.go:1056-1080 | Nothing follows settled, failed or expired. |
| PaymentLog.Forward | internal/billing/postgres.go:1056-1080 | States never move back. |
| PaymentLog.SettledWasVerified | internal/billing/postgres.go:1056-1080 | A settled log passed through verified and then settling, and ends with its transaction. |
| PaymentLog.ExpiredNeverSettled | internal/billing/postgres.go:1034-1080 | An expired log has no settling event and no transaction. |
| PaymentLog.EntryOf | internal/billing/postgres.go:1056-1080 | Every verified or settling state was entered by an event from another state. |
| PaymentLog.AcceptedMeans | internal/billing/postgres.go:982-1054 | What acceptance demands of every event and every two: ids, times, actors and their codes, transactions, first and last state. |
| PaymentLedger.LedgerLogs | internal/billing/postgres.go:982-1080 | Over every history of ledger calls the log is read back if and only if event times never go back and no operator failed a pending settlement; with ordered times the payment satisfies its stored facts. |
| PaymentLedger.PendingThenFailed | internal/db/queries/x402_billing.sql:358-403 | The failing family is reachable: verified, settling, pending with a transaction, failed by an operator; the log is then refused, because the failing event carries the transaction. |
| PaymentLedger.StepKeepsPresence | internal/billing/postgres.go:1082-1161 | Every transition keeps the presence of payer, timestamps, transaction and failure code that its state asks for. |
| PaymentLedger.StepKeepsOrder | internal/billing/postgres.go:1094-1120 | Every transition at a later time keeps the timestamps in order. |
| PaymentLedger.EventIsEdge | internal/db/queries/x402_billing.sql:264-301 | Each event leaves the true prior state, also where the statement reconstructs it from timestamps. |
| PaymentLedger.EventIsPlaced | internal/db/queries/x402_billing.sql:303-403 | An event breaks the rule on transactions exactly when it fails a pending settlement. |
| PaymentLedger.StampsAreEvents | internal/db/queries/x402_billing.sql:103-438 | Over every history the stamps of a payment are the times of its events, and the last event tells outcome, transaction and code. |
| PaymentLedger.DeadlineDecides | internal/db/queries/x402_billing.sql:405-438 | A reservation can be verified before its deadline and expired from then on, never both. |
| PaymentLedger.OperatorWaits | internal/db/queries/x402_billing.sql:303-403 | A marked settlement is decided by an operator alone, an unmarked one only after two minutes. |
| PaymentLedger.PendingKeepsTransaction | internal/db/queries/x402_billing.sql:303-357 | A pending settlement is settled with its own transaction only. |
| PaymentLedger.OpeningCodes | internal/db/queries/x402_billing.sql:103-183 | The codes of the events up to the settlement. |
| PaymentLedger.SettlementCodes | internal/db/queries/x402_billing.sql:185-262 | The codes of the settlement's events. |
| PaymentLedger.ClosingCodes | internal/db/queries/x402_billing.sql:264-301 | A failure carries its own code. |
| PaymentLedger.OperatorSettledCodes | internal/db/queries/x402_billing.sql:303-357 | An operator's code tells whether the settlement had been marked. |
| PaymentLedger.OperatorFailedCodes | internal/db/queries/x402_billing.sql:358-403 | The same for a failed one. |
| TopupLedger.ExecKeeps | internal/db/queries/prepaid_billing.sql:77-470 | Every statement keeps the coupling of payments and intents, one account entry per settled payment, and account totals equal to their entries. |
| TopupLedger.AllOrNothing | internal/db/queries/prepaid_billing.sql:392-470 | A statement that reports no row changed nothing, although several update the payment before they look at the intent. |
| TopupLedger.Holds | internal/db/queries/prepaid_billing.sql:89-127 | An unclosed payment holds its intent in the matching phase. |
| TopupLedger.CreditedOnce | internal/db/queries/prepaid_billing.sql:195-255 | A credited intent has exactly one entry, for its own credit and user, from the payment that holds it. |
| TopupLedger.UncreditedHasNoEntry | internal/db/queries/prepaid_billing.sql:195-255 | Nothing is credited for any other intent. |
| TopupLedger.NewIntentKeeps | internal/db/queries/prepaid_billing.sql:1-26 | A new intent, created after its account, keeps the invariant. |
| TopupLedger.LapseKeeps | internal/db/queries/prepaid_billing.sql:738-756 | Expiring open intents keeps it. |
| TopupLedger.ReopensExactly | internal/db/queries/prepaid_billing.sql:392-470 | After a payment fails or expires, a new payment of the intent's payer can reserve the intent exactly when its deadline has not passed. |
| TopupLedger.ReservesOnce | internal/db/queries/prepaid_billing.sql:77-127 | A reservation is for an open intent, its payer and a new fingerprint; it lets its owner go on and nobody else reserve. |
| TopupLedger.DoubtIsForOperators | internal/db/queries/prepaid_billing.sql:257-390 | While a settlement is marked, only an operator decides it, with a transaction that agrees with the marked and the observed one. |
| TopupLedger.MarksAreStored | internal/db/queries/prepaid_billing.sql:129-193 | Unknown leaves the transaction open, pending fixes it. |
| TopupLedger.TerminalStays | internal/db/queries/prepaid_billing.sql:77-470 | Credited and lost intents never change again. |
| TopupLedger.ExecTraced | internal/db/queries/prepaid_billing.sql:195-255 | Every statement keeps that a settled payment names a transaction, and the observed one if one was observed. |
| TopupLedger.LapsedIsClosed | internal/db/queries/prepaid_billing.sql:738-756 | A lapsed intent cannot be paid. |
| TopupLedger.NewIntentIsOpen | internal/db/queries/prepaid_billing.sql:1-26 | A new intent can be paid by its payer only. |
| TopupProtocol.TracesAreOk | internal/billing/topup_dispatcher.go:208-348 | In every interleaving every run sends at most one settlement request and only after reservation, verification, marking and beginning; fails the payment only before the request and the settlement only on a rejection; writes no observation once its observer is joined, although the observer polls and writes on its own and even after it was cancelled; credits only a matching settlement and reports success only after the credit; and otherwise attempts to mark the doubt. |
| TopupProtocol.OneSettlementPerFingerprint | internal/billing/postgres.go:124-171 | One fingerprint has at most one owner and at most one settlement request. |
| TopupProtocol.OneOpenSettlementPerIntent | internal/billing/topup_dispatcher.go:260-334 | While a settlement of an intent is not definitely rejected no other payment of that intent can be sent for settlement. |
| TopupProtocol.SuccessIsCredited | internal/billing/topup_dispatcher.go:316-348 | When the success writer ran, the run's payment is settled, its intent credited once, and the settlement matched payer and network. |
| TopupProtocol.CreditMatches | internal/billing/topup_dispatcher.go:311-334 | When a run heard its credit succeed, the facilitator had reported a settlement by the intent's payer on the intent's network, and the payment is settled under that transaction. |
| TopupProtocol.HeardIsStored | internal/billing/topup_dispatcher.go:208-348 | What a run heard succeed is in the ledger: verified, failed, marked or credited, for good or, for a mark, until an operator decides. |
| TopupProtocol.SentStaysSettling | internal/db/queries/prepaid_billing.sql:758-801 | After the request the payment is never reserved, verified or expired again, and its intent stays locked unless rejected. |
| TopupProtocol.NextKeeps | internal/billing/topup_dispatcher.go:208-348 | Every step of a run, its observer, an operator, a sweep or a crash, and every statement that takes effect long after its reply was lost, keeps the invariant. |
| TopupProtocol.EffectKeeps | internal/db/queries/prepaid_billing.sql:77-470 | A delayed statement may take effect at any time, more than once, after any other. |
| TopupProtocol.StepTrace | internal/billing/topup_progress.go:42-66 | Every step of a run or of its observer extends the trace admissibly; the observer runs only from the beginning of the settlement until it is joined. |
| TopupProtocol.LockKept | internal/db/queries/prepaid_billing.sql:431-470 | Only the owner's failed settlement releases a locked intent. |
| TopupProtocol.ExecIdentity | internal/db/queries/prepaid_billing.sql:77-470 | No statement changes a payment's owner or intent, or undoes a settlement. |
| UsageBilling.Serve | internal/billing/usage_dispatcher.go:92-186 | After a reservation exactly one commit or release is attempted, and the client is answered once, last. The captured response leaves exactly when it fits its limits and its commit, or its release as not chargeable, succeeded; it is the whole output of the handler under the headers that may leave, and the commit carries its digest and length. A charge is released exactly for a panic, a cancellation, a response that cannot be delivered or one that is not chargeable, and the release names which; a client without a response is told the reason of the first failure. |
| UsageBilling.Decide | internal/billing/usage_dispatcher.go:162-186 | The decision on a deliverable response. |
| UsageBilling.Release | internal/billing/usage_dispatcher.go:194-207 | A release attempt and the answer that follows it. |
| UsageBilling.CauseInWords | internal/billing/usage_dispatcher.go:148-162 | The cause of a release is the first that applies: streaming, headers, body, not chargeable. |
| UsageBilling.BodyLimitIsSmaller | internal/billing/usage_dispatcher.go:126-131 | The body limit is the smaller of the two. |
| ResponseCapture.CapturedResponse.Write | internal/billing/http_capture.go:48-62 | The recorder follows one without limits, with the body cut at its limit and the overflow remembered. |
| ResponseCapture.CapturedResponse.WriteHeader | internal/billing/http_capture.go:40-46 | The first status counts, and the headers are those of that moment. |
| ResponseCapture.CapturedResponse.SnapshotHeaders | internal/billing/http_capture.go:81-89 | The snapshot is taken once and measured. |
| ResponseCapture.CapturedResponse.Flush | internal/billing/http_capture.go:64-69 | A flush is remembered as streaming. |
| ResponseCapture.CapturedResponse.Refuse | internal/billing/http_capture.go:71-79 | So are hijack and push. |
| ResponseCapture.CapturedResponse.Close | internal/billing/http_capture.go:91-108 | Finishing succeeds exactly when nothing streamed and headers and body fit, and then every byte is held. |
| ResponseCapture.CapturedResponse.Play | internal/billing/http_capture.go:177-189 | A handler's calls in a row lead where the unlimited recorder leads. |
| ResponseCapture.CapturedResponse.constructor | internal/billing/http_capture.go:30-36 | A new recorder is blank. |
| ResponseCapture.WrittenIsAll | internal/billing/http_capture.go:48-62 | The recorded body is the concatenation of all writes. |
| ResponseCapture.ComputeHeaderBytes | internal/billing/http_capture.go:110-119 | The size is the same in whatever order the header is visited. |
| ResponseCapture.AnyOrder | internal/billing/http_capture.go:110-119 | Any name may be counted first. |
| ResponseCapture.ReleaseHeaders | internal/billing/http_capture.go:121-139 | Captured headers are copied under their canonical names unless held back, one without values removes its name, and all other headers of the destination keep their values. |
| ResponseCapture.ConnectionNames | internal/billing/http_capture.go:141-157 | The names held back for the connection are exactly the trimmed, canonical, non-empty parts of the connection headers. |
| ResponseCapture.ServerKeepsItsOwn | internal/billing/http_capture.go:159-176 | Hop-by-hop headers, cookies, lengths, caching, security and payment headers of a handler never replace the server's own. |
| ResponseCapture.HandlerSetsTheRest | internal/billing/http_capture.go:121-139 | Any other header that no connection header lists is the handler's. |
| ResponseCapture.FirstCallCounts | internal/billing/http_capture.go:40-69 | The first call with a status, a body or a flush fixes the status and the headers. |
| ResponseCapture.HeaderCost | internal/billing/http_capture.go:110-119 | A header costs its name and each value, with two bytes for each. |
| ResponseCapture.OneMoreValue | internal/billing/http_capture.go:110-119 | Each value adds its length and two. |
| ResponseCapture.EmptyIsNotListed | internal/billing/http_capture.go:141-157 | Empty parts of a connection header name nothing. |
| UsageLedger.EnsureKeeps | internal/db/queries/prepaid_billing.sql:56-75 | Opening an account keeps the invariant: nothing was posted or reserved for it before. |
| UsageLedger.RunKeeps | internal/db/queries/prepaid_billing.sql:518-736 | Over every interleaving held amounts are the open reservations, totals are the entries, no account is overdrawn, and a charge is debited exactly when committed, once and in full. |
| UsageLedger.EveryHistory | internal/db/queries/prepaid_billing.sql:56-736 | From no accounts at all, over every history, the same holds. |
| UsageLedger.DecidedOnce | internal/db/queries/prepaid_billing.sql:567-630 | A charge that was committed, released or expired never changes again. |
| UsageLedger.ReserveKeeps | internal/db/queries/prepaid_billing.sql:518-565 | Reserving keeps this, for covered amounts only. |
| UsageLedger.CommitKeeps | internal/db/queries/prepaid_billing.sql:567-604 | Committing turns a held amount into a debit. |
| UsageLedger.ReleaseKeeps | internal/db/queries/prepaid_billing.sql:606-630 | Releasing frees it. |
| UsageLedger.ExpireKeeps | internal/db/queries/prepaid_billing.sql:704-736 | A sweep over many charges frees exactly what it closes, per account. |
| UsageLedger.AdjustKeeps | internal/db/queries/prepaid_billing.sql:667-702 | Adjustments keep it. |
| UsageLedger.LapseSum | internal/db/queries/prepaid_billing.sql:704-736 | The grouped total that a sweep subtracts is the sum of the charges it closes. |
| UsageLedger.ReserveEffect | internal/db/queries/prepaid_billing.sql:518-565 | A reservation takes effect exactly when the account covers it, makes that much less available and touches nothing else. |
| UsageLedger.CommitEffect | internal/db/queries/prepaid_billing.sql:567-604 | A commit by the owner debits what was held: what is available does not change. |
| UsageLedger.ReleaseEffect | internal/db/queries/prepaid_billing.sql:606-630 | A release by the owner makes the amount available again. |
| UsageLedger.StrangersDecideNothing | internal/db/queries/prepaid_billing.sql:567-630 | Nobody else decides a charge, nor anyone a closed one. |
| UsageLedger.ExpireEffect | internal/db/queries/prepaid_billing.sql:704-736 | A sweep closes exactly the due charges that are held and frees their amounts. |
| UsageLedger.AdjustEffect | internal/db/queries/prepaid_billing.sql:667-702 | An adjustment moves the available amount by its own; a debit beyond it is refused. |
| Diamond.ValidatePublicDiamond | internal/app/proxy_reader.go:350-445 | Accepts exactly the descriptions whose parts agree. |
| Diamond.CheckFacets | internal/app/proxy_reader.go:377-412 | Roles, unique facets, and every listed selector valid, mapped to its facet and listed once. |
| Diamond.CheckSelectors | internal/app/proxy_reader.go:398-411 | The selectors of one facet. |
| Diamond.CheckRoutes | internal/app/proxy_reader.go:413-417 | Every entry of the map is a listed route, or names no facet for an unlisted selector. |
| Diamond.CheckImplementations | internal/app/proxy_reader.go:418-437 | The implementation addresses are exactly the external facets, without repetition. |
| Diamond.SamePublicProxyTargetSet | internal/app/proxy_reader.go:447-468 | The comparison of root targets with facets decides its one-sided specification. |
| Diamond.SamePublicSelectorSet | internal/app/proxy_reader.go:474-492 | So does the comparison of selectors. |
| Diamond.Agree | internal/app/proxy_reader.go:461-465 | Role, code and selectors of one pair. |
| Diamond.ListedOnce | internal/app/proxy_reader.go:398-411 | In an accepted description each selector is listed once, by one facet. |
| Diamond.AcceptedMap | internal/app/proxy_reader.go:413-417 | The map of an accepted description is the listed relation, ignoring case, if and only if none of its values is empty. |
| Diamond.EmptyRouteIsAccepted | internal/app/proxy_reader.go:413-417 | Adding an unlisted selector without a facet to any accepted description keeps it accepted. |
| Diamond.TargetsAreFacets | internal/app/proxy_reader.go:447-492 | Root targets equal facets as a map by address, with equal roles, code and selector sets, although only one side is checked for repetition. |
| DiamondMeaning.BuiltIsAccepted | internal/app/proxy_reader.go:350-445 | Facets with proper roles, different addresses and valid selectors, none listed twice, make a description that is accepted. |
| DiamondMeaning.AcceptedRoles | internal/app/proxy_reader.go:377-386 | In an accepted description the immutable facets are exactly those at the proxy's own address; code, hashes and sizes are as demanded. |
| DiamondMeaning.CutIsListed | internal/app/proxy_reader.go:438-443 | The standard cut function, if present, is listed by the facet it names. |
| DiamondMeaning.CompleteIsWhole | internal/app/proxy_reader.go:362-376 | A complete description is not truncated and has facets and routes. |
| DiamondMeaning.SelectorIsFourBytes | internal/app/proxy_reader.go:335-348 | A selector is four bytes in hexadecimal. |
| ApiToken.IssuedTokensParse | internal/auth/apikey.go:198-236 | Every issued token parses back to its prefix for all random bytes, underscores in the secret included. |
| ApiToken.ParsedTokens | internal/auth/apikey.go:289-303 | A token parses exactly when it is `evk_`, ten bytes, `_` and 43 characters of the URL alphabet, each of the ten being a letter of either case, a digit from 2 to 7, a carriage return or line feed (which the decoder skips), or part of one of the two letters outside ASCII whose upper case is in the alphabet; it parses to those ten bytes. |
| ApiToken.IssuedExactly | internal/auth/apikey.go:217-225 | Of the tokens that parse, exactly those can have been issued whose prefix is in lower case and whose prefix and secret leave no bits over. |
| ApiToken.BrokenPrefixParses | internal/auth/apikey.go:289-303 | Eight characters and two line feeds make a prefix that parses and is never issued, with any secret. |
| ApiToken.CapitalsParse | internal/auth/apikey.go:289-303 | So does any prefix in capitals. |
| ApiToken.PrefixIsInjective | internal/auth/apikey.go:217-225 | Different random bytes give different prefixes. |
| ApiToken.PrefixDecodes | internal/auth/apikey.go:217-225 | A prefix is ten lower-case characters that decode to its six bytes. |
| ApiToken.SecretDecodes | internal/auth/apikey.go:217-225 | A secret is 43 characters that decode to its 32 bytes. |
| ApiKeys.LimitHolds | internal/auth/apikey.go:532-765 | Over every run of calls of every kind a user's active keys stay within a maximum if and only if no call adds an active key of theirs when the maximum is reached. |
| ApiKeys.ManagerKeepsLimit | internal/auth/apikey.go:88-196 | The manager makes no such call: it stores owned keys only through the limited call, under one policy. |
| ApiKeys.PutIgnoresLimit | internal/auth/apikey.go:532-541 | The plain call would add an owned key whatever the count. |
| ApiKeys.ApplyKeepsLimit | internal/auth/apikey.go:532-765 | Each call keeps the maximum exactly unless it exceeds it. |
| ApiKeys.RotationKeepsCount | internal/auth/apikey.go:567-595 | A rotation revokes one key, adds one, changes no other and keeps every user's count. |
| ApiKeys.RevokedForGood | internal/auth/apikey.go:238-261 | A revoked or deleted key never authenticates again. |
| ApiKeys.DigestIsFixed | internal/auth/apikey.go:238-261 | Only the digest stored first ever authenticates under a prefix. |
| ApiKeys.PutEffect | internal/auth/apikey.go:532-541 | A stored key authenticates by its own digest at once and changes no other answer. |
| ApiKeys.PutForUserEffect | internal/auth/apikey.go:608-636 | A user's key is stored exactly when it is theirs, its prefix is free and the maximum is not reached. |
| ApiKeys.RevokeEffect | internal/auth/apikey.go:554-566 | After a revocation the key authenticates nobody; a user revokes only their own. |
| ApiKeys.RotateEffect | internal/auth/apikey.go:567-595 | A rotation hands over: the old key stops, the new one starts, with the same owner and policy. |
| ApiKeys.DeleteEffect | internal/auth/apikey.go:749-765 | A deletion hides a revoked key from its owner and changes no answer. |
| ApiKeys.AuthenticatesOnly | internal/auth/apikey.go:250-260 | Only the stored digest authenticates, not after a revocation, not for an inactive owner. |
| ApiKeys.ListedKeys | internal/auth/apikey.go:708-747 | A listed key is one of the user's that is not deleted, without its digest. |
| ApiKeys.DeletionKeeps | internal/auth/apikey.go:749-765 | Deleted keys are revoked keys, over every run. |
| ApiKeys.RunIsLater | internal/auth/apikey.go:532-765 | Records are never removed, never change digest or owner, and never come back from revocation. |
| ApiKeys.PagesShowAll | internal/auth/apikey.go:708-747 | Pages of one size over a listing show every key once, newest first. |
| ApiKeys.ListingExists | internal/auth/apikey.go:708-747 | Every user has exactly one listing. |
| ApiKeys.MemoryRepository.ListAll | internal/auth/apikey.go:708-747 | Calling for page after page, each from the last key of the one before, returns exactly that listing. |
| ApiKeys.MemoryRepository.ListForUser | internal/auth/apikey.go:708-747 | A page is the first keys below the cursor of the descending listing, with the number of active keys beside it. |
| ApiKeys.MemoryRepository.Collect | internal/auth/apikey.go:719-736 | The visible keys below the cursor, each once. |
| ApiKeys.MemoryRepository.CountActive | internal/auth/apikey.go:622-627 | The loop counts the active keys; leaving out deleted keys makes no difference while deleted keys are revoked keys. |
| ApiKeys.MemoryRepository.PutKey | internal/auth/apikey.go:532-541 | A key is added unless its prefix is taken. |
| ApiKeys.MemoryRepository.PutKeyForUser | internal/auth/apikey.go:608-636 | A key is added only below the maximum and under a free prefix. |
| ApiKeys.MemoryRepository.RotateKeyForUser | internal/auth/apikey.go:654-682 | Both records change together or not at all. |
| ApiKeys.MemoryRepository.RevokeKeyForUser | internal/auth/apikey.go:684-706 | The first revocation stands. |
| ApiKeys.MemoryRepository.DeleteKeyForUser | internal/auth/apikey.go:749-765 | Only revoked keys are deleted. |
| Keyset.WalkIsAll | internal/auth/apikey.go:708-747 | Pages that follow the last row as cursor give the rows below the first cursor in order, without gap or repetition, whatever their sizes. |
| Keyset.NextPage | internal/auth/apikey.go:728-731 | After a page the rows below its last row are the rest. |
| Keyset.DescendingIsUnique | internal/auth/apikey.go:737-742 | A descending list is determined by its elements, so storage order does not matter. |
| Keyset.SortSorts | internal/auth/apikey.go:737-742 | The sort yields the descending list of the same elements. |
| AddressLogs.ReadPage | internal/catalog/address_logs.go:227-270 | A page shows as many rows below the cursor as limit and bytes allow, has a cursor exactly when rows are left, is then not empty, and fails exactly when it meets a row that cannot be read or projected, or the first row alone exceeds the bytes. |
| AddressLogs.FillPage | internal/catalog/address_logs.go:237-263 | The loop under the byte budget. |
| AddressLogs.WalkShowsAll | internal/catalog/address_logs.go:227-270 | Following cursors ends, and shows every row once in descending order if and only if every row can be read, projected and fits the budget alone. |
| AddressLogs.RequestShowsRange | internal/catalog/address_logs.go:150-270 | From the first page on, the pages of a request show exactly the logs in its block range, newest first, or end in an error if one of them cannot be shown. |
| AddressLogs.FirstCursorCoversAll | internal/catalog/address_logs.go:115-122 | The first cursor lies above every log in range, unless a log has the largest possible position in the snapshot block. |
| AddressLogs.InRangeFacts | internal/catalog/address_logs.go:150-159 | The range keeps exactly the logs between its bounds, in order. |
| AddressLogs.FitIsLongest | internal/catalog/address_logs.go:237-263 | A page is as long as it can be: its rows fit the budget together, one more would not; the default limit is 25. |
| AddressLogs.NewestFirst | internal/catalog/address_logs.go:227-270 | The order is by block, transaction and log. |
| Analytics.AggregateHours | internal/analytics/reader.go:338-351 | The grouping loop yields the totals of the runs of rows in one bucket. |
| Analytics.PartsCover | internal/analytics/reader.go:338-351 | The runs are a partition of the rows, each inside one bucket. |
| Analytics.PartsIncrease | internal/analytics/reader.go:338-351 | For rows in order the buckets increase strictly. |
| Analytics.TotalsConserved | internal/analytics/reader.go:272-293 | Every column keeps its total. |
| Analytics.GroupSpan | internal/analytics/reader.go:272-276 | A group names the first block of its first row and the last of its last. |
| Analytics.AtMost500 | internal/analytics/reader.go:437-460 | An accepted interval yields at most 500 groups, so the final guard of the series never fires. |
| Analytics.Chart | internal/analytics/reader.go:338-364 | The points of the groups with a value: at most 500, in strictly increasing order; each tells the bucket, the blocks, the metric and whether the bucket is over of one run of hours, and every run with a value has its point. |
| Analytics.ChooseInterval | internal/analytics/reader.go:437-460 | A requested interval is taken exactly if it fits; otherwise the finest that fits is chosen. |
| Analytics.FitsInterval | internal/analytics/reader.go:438-447 | The counting loop decides whether 500 buckets cover the range. |
| Analytics.InBucket | internal/analytics/reader.go:462-493 | Every time lies in its bucket: hour, day, ISO week and calendar month. |
| Analytics.StartsApart | internal/analytics/reader.go:480-493 | Buckets do not overlap. |
| Analytics.EndIsStart | internal/analytics/reader.go:480-493 | A bucket ends where the next starts. |
| Analytics.MonthOfUnique | internal/analytics/reader.go:462-478 | A day lies in one month of the Gregorian calendar. |
| Analytics.StartIsMonotone | internal/analytics/reader.go:462-478 | Later times have later buckets. |
| Analytics.PointsFollowGroups | internal/analytics/reader.go:352-363 | Dropping groups without a value keeps the order. |
| Calendar.TwelveMonths | internal/analytics/reader.go:462-478 | The twelve lengths of the months, with the Gregorian rule for February. |
| Calendar.YearLength | internal/analytics/reader.go:462-478 | A year has 365 days, or 366 by the Gregorian rule. |
| Calendar.YearStart | internal/analytics/reader.go:462-478 | The day on which a year starts, in closed form. |
| Calendar.FourCenturies | internal/analytics/reader.go:462-478 | Four hundred years have 146097 days. |
| Calendar.March2000 | internal/analytics/reader.go:462-478 | 1 March 2000 is day 11017. |
| Calendar.StartsInNumbers | internal/analytics/reader.go:462-478 | Hours and days start at multiples of their length. |
| Calendar.WeeksInNumbers | internal/analytics/reader.go:462-478 | Weeks start a whole number of weeks from Monday, 5 January 1970. |
| Calendar.FitsInNumbers | internal/analytics/reader.go:437-460 | The ranges that each interval covers with 500 points. |

## Left out

- Clocks are parameters. The limiters assume readings that do not go back between calls on one lock; the ledger log states the condition on them.
- Floating point: the limiters compute over real numbers, without rounding. Rates and bursts are within the range in which a refill time fits a duration (`Refillable`, `Representable`).
- Redis and PostgreSQL: each script or statement is one atomic step. The generation key is not lost on its own, event ids follow commit order, and the database read of the status sees every committed event.
- Hashes, random bytes and identifiers: digests and checksums are functions passed in, payments are kept under their fingerprint, and a reservation's owner is the run that made it. Users are not deleted while a payment of theirs is open.
- Codecs: JSON, HTTP headers of the payment protocol, cursors as texts, and the ABI library behind the preflight.
- Texts are ASCII where case is folded: addresses, selectors and header names. In base 32 prefixes, bytes outside ASCII that do not fold into the alphabet stay as they are, and are refused either way.
- `TrustedProxySet` and forwarded-address parsing, middleware, metrics, log messages, and the texts and status codes of error responses.
- The legacy request payments share the payment statements of `PaymentLedger`; their dispatcher is not part of this model.
- The deadline of a top-up reservation: a statement may be refused at any time, which covers an expired one. Progress stages are reduced to the transaction they name.
- Which error a refused trace or description returns.
- Decoding and execution status of trace frames, added after the tree check and stripped before caching.
- Metric formulas and number formats of charts: a metric is a function of the totals.
- Analytics.AggregateHours: accumulators are values that replace one another, not objects updated in place.
- Canonical header names, lower case, trimming and case-blind comparison are functions passed in.
- The decoding of log arguments under a page's decoding budget; when it runs out a row is shown undecoded.
- TopupProtocol.TracesAreOk: states what a run attempts and in which order, not that an attempt succeeds; a crashed run may leave a settlement unmarked for an operator.
- Closing of the observer by a panic of the handler: a run that panics is a run that crashes.
