# Creator-engagement crawler: verified models

A Dafny model of the parts of the crawler whose correctness is hardest to see from the code,
with proofs about every input, every interleaving or every run. `dafny verify dfyconfig.toml`
checks the whole project.

What is modelled, component by component:

- **The `a_bogus` signature** (`Numerals`, `Bytes`, `Ascii`, `Base64`, `Cipher`, `CipherSteps`,
  `Noise`, `Signature`, `SignatureProofs`, `SignatureFields`, `SignatureChecks`, `Signer`):
  fifty scalar fields in a fixed permutation, an XOR checksum, a three-to-four byte noise
  expansion, a modified RC4 and base64 over a substituted alphabet, and the checker and decoder
  that take it apart. SM3 and UTF-8 are arbitrary functions (SM3 returns 32 bytes), every random
  draw is arbitrary, and the browser family is given. The user agent is given stripped, and text
  as UTF-16 code units. The comment at `douyin_abogus_v2.py:455-457` says that the tail branch
  of the expansion is unreachable because bodies are always a multiple of three bytes long. They
  are not: the length depends on the geometry text. The model follows the code, and the exact
  condition under which the generator's own checker refuses its output is proved
  (`SignatureVerdict`, `DropHappens`).
- **The proxy lease pool** (`ProxySlots`, `PoolModel`, `PoolSafety`, `PoolProgress`,
  `PoolRefill`, `PoolGrants`, `PoolReturns`, `PoolPenalties`, `PoolServed`, `PoolWitness`,
  `ProxyPool`): every critical section is one step, because the code holds the condition from
  its start to its end and suspends only in `wait`. The lock is therefore never contended, and a
  cancellation cannot fall inside a grant or a return. Clock readings are arbitrary; a borrowing
  pass reads the clock once for the search and once more for the replacement of an idle slot.
  That second reading matters: a caller can be parked with nobody to wake it, and the exact
  condition is proved. A penalty can also be forgotten before its deadline, when the resting
  slot runs out and the supplier names its endpoint again (`PenaltyForgotten`); this too has its
  exact condition, and a penalty that ends within the life of its slot is certain.
- **The lease scope of the HTTP client** (`LeaseScope`, `LeaseVerdicts`, `LeaseBalance`,
  `LeaseSystem`): a lazily acquired lease, its early return, its failure records and its end;
  and any number of scopes with the pool as one machine, in which every lease belongs to an open
  scope.
- **The batch-job engine** (`JobModel`, `JobSafety`, `JobTheorems`, `JobOutcomes`,
  `JobCompletes`, `JobPaging`, `ResultRows`, `Cursors`, `JobRepository`, `BatchJob`): workers on
  per-platform queues, numbered appends, crashes between append and progress update, recovery,
  resume and cursor paging.
- **The single-flight result cache** (`ResultCache`, `CacheHits`, `SingleFlight`, `TaskJoins`,
  `EngagementCache`).
- **Author jobs** (`AuthorKeys`, `AuthorModel`, `AuthorPaging`, `AuthorDetails`,
  `AuthorRepository`): deduplicating page saves, detail states and a cursor that must not run
  ahead. A page is saved work by work, and a read is three steps: the look at the job, the query
  for the first unfinished work, and the query for the rows. The comment at
  `author_repository.py:215-216` says that a cursor does not advance past a pending work. It
  does when a work is saved between the two queries: the work is given out unfinished, and its
  finished result is then skipped (`UnfinishedIsGiven`). The exact condition is proved, and so
  is what holds in every run: no stored work's identifier is skipped (`ReadingIsExact`).
- **Three smaller machines**: account pacing (`Pacing`, `PacingStops`), the order-insensitive
  source loader (`SourceRows`), and the comment merge (`CommentMerge`).

Each stateful component comes twice: as functions on values, about which the run-level results
are proved, and as a class whose fields are updated in place and whose methods are proved to do
what those functions say. The lemmas named `…Exactly`, and the modules
`SignatureFields`, `PoolGrants`, `PoolReturns`, `LeaseVerdicts`, `JobOutcomes`, `CacheHits`,
`AuthorDetails` and `PacingStops`, say the same from outside: which inputs and which history lead
to which outcome, in the numbers of the program rather than in terms of those functions.

## Model

| member | source | states |
|---|---|---|
| `SignatureProofs.SignatureVerdict` | app/crawlers/platforms/douyin_abogus_v2.py:727-788 | for every signable request and every random stream, `structure_error(get_value(..))` is None exactly when the geometry is under 65536 bytes and the noise layer does not drop a zero checksum; otherwise it is the one problem text that fits |
| `SignatureProofs.SignatureRoundTrip` | app/crawlers/platforms/douyin_abogus_v2.py:790-829 | whenever the checker accepts, `decode` gives back all fifty fields, the clock, the clock minus one, page id, aid, version, geometry and tail; whenever it refuses, `decode` raises |
| `SignatureProofs.GeometryText` | app/crawlers/platforms/douyin_abogus_v2.py:790-829 | an ASCII geometry comes back as the text it was, and so does the tail |
| `SignatureFields.DigestsAreSealed` | app/crawlers/platforms/douyin_abogus_v2.py:536-575 | an accepted signature holds bytes 9 and 18 of the doubly hashed, salted query in slots 48 and 49 and its first byte from the third on that is no sentinel in 51; the body's in 52, 53 and 55, of nothing for a multipart one, and the user agent's in 56, 57 and 59 |
| `SignatureFields.SlotsAreBound` | app/crawlers/platforms/douyin_abogus_v2.py:165-184 | two accepted signatures agree on the slots of each of the three inputs whenever that input agrees, whatever else differs |
| `SignatureFields.FixedSlots` | app/crawlers/platforms/douyin_abogus_v2.py:606-630 | the seventeen slots that never change, and the one that counts fortnights |
| `SignatureFields.TailIs` | app/crawlers/platforms/douyin_abogus_v2.py:604 | the tail is the clock plus three milliseconds modulo 256, and a comma |
| `SignatureFields.HeaderTellsFamily` | app/crawlers/platforms/douyin_abogus_v2.py:386-389 | the header's noise lies in the band of the browser family |
| `SignatureFields.VersionReports` | app/crawlers/platforms/douyin_abogus_v2.py:392-405 | the version block carries the version twice and the two reports |
| `SignatureChecks.AcceptedExactly` | app/crawlers/platforms/douyin_abogus_v2.py:727-788 | the checker accepts a text exactly when it is printed over the alphabet, padded to a multiple of four, and its payload has the magic, the version, lengths that account for the frame give or take two bytes, and the checksum |
| `SignatureChecks.TextVerdictExactly` | app/crawlers/platforms/douyin_abogus_v2.py:740-746 | which texts are refused for their alphabet or length |
| `SignatureChecks.PayloadVerdictExactly` | app/crawlers/platforms/douyin_abogus_v2.py:748-762 | which payloads are refused as too short, for their magic or for their version |
| `SignatureChecks.FrameVerdictExactly` | app/crawlers/platforms/douyin_abogus_v2.py:764-788 | which frames are refused as too short, for their declared lengths or for the checksum |
| `SignatureChecks.NamesAreDifferent` | app/crawlers/platforms/douyin_abogus_v2.py:134-145 | no slot is written twice |
| `Ascii.JsAsciiRoundTrip` | app/crawlers/platforms/douyin_abogus_v2.py:488-510 | ASCII text reads back from its bytes |
| `SignatureProofs.SignableClocks` | app/crawlers/platforms/douyin_abogus_v2.py:585-640 | a signature exists exactly for clocks from the epoch up to 256 fortnights later |
| `SignatureProofs.FieldsAreBytes` | app/crawlers/platforms/douyin_abogus_v2.py:585-640 | for such a clock every one of the fifty fields fits a byte |
| `SignatureProofs.DropHappens` | app/crawlers/platforms/douyin_abogus_v2.py:459-463 | for every request in the clock range whose body leaves two bytes over, some random stream makes the generator print a value its own checker refuses: the branch the comment calls unreachable is reached |
| `SignatureProofs.PayloadVerdict` | app/crawlers/platforms/douyin_abogus_v2.py:740-788 | the verdict on the bytes before base64: both cipher layers, the masked header and the frame come apart as they were put together |
| `SignatureProofs.NumbersRecovered` | app/crawlers/platforms/douyin_abogus_v2.py:807-829 | each little-endian run of fields read back is the number it was written from |
| `Bytes.LittleEndianRoundTrip` | app/crawlers/platforms/douyin_abogus_v2.py:512-515 | little-endian bytes of a number read back to the number modulo 256 to the count |
| `Bytes.ComputeJsBytes` | app/crawlers/platforms/douyin_abogus_v2.py:488-510 | the loop over code units produces one byte below U+0100 and two, high first, above |
| `Bytes.JsBytesOfLatin1` | app/crawlers/platforms/douyin_abogus_v2.py:488-510 | text below U+0100 keeps its code units as bytes |
| `Base64.RoundTrip` | app/crawlers/platforms/douyin_abogus_v2.py:325-341 | decoding an encoding over any alphabet of 64 digits gives the bytes back; the text is padded to a multiple of four, with digits only before the pads |
| `Base64.DecodeAccepts` | app/crawlers/platforms/douyin_abogus_v2.py:325-341 | decoding succeeds exactly on text over the alphabet once trailing pads are stripped |
| `Base64.AlphabetsAreValid` | app/crawlers/platforms/douyin_abogus_v2.py:96-99 | all four alphabets are 64 different digits without the pad |
| `Base64.EncodeBase64` | app/crawlers/platforms/douyin_abogus_v2.py:308-322 | the chunk loop computes the encoding whose round trip is proved |
| `Base64.DecodeBase64` | app/crawlers/platforms/douyin_abogus_v2.py:325-341 | the digit loop computes the decoding, error included |
| `Base64.AbogusEncode` | app/crawlers/platforms/douyin_abogus.py:129-147 | the hand-written three-byte masking loop computes the same encoding, padding included |
| `Base64.CustomIsEncode` | app/crawlers/platforms/douyin_abogus.py:64-66 | standard base64 followed by translation is base64 over the target alphabet |
| `Base64.EncodersAgree` | app/crawlers/platforms/douyin_abogus.py:129-147 | on every byte stream `_abogus_encode` and `_custom_base64` with its alphabet are the same text |
| `Cipher.Rc4` | app/crawlers/platforms/douyin_abogus_v2.py:278-305 | the in-place S-box loops compute masking by the keystream of the key alone |
| `Cipher.PrepareBox` | app/crawlers/platforms/douyin_abogus_v2.py:291-298 | the key schedule's swaps leave exactly the prepared box |
| `Cipher.ScheduleStaysPermutation` | app/crawlers/platforms/douyin_abogus_v2.py:291-298 | at every step of the key schedule the box is a permutation of 0..255 and the index is in range, for both variants |
| `Cipher.BoxStaysPermutation` | app/crawlers/platforms/douyin_abogus_v2.py:299-305 | so it is at every step of the keystream generator |
| `Cipher.CryptIsInvolution` | app/crawlers/platforms/douyin_abogus.py:69-83 | encrypting twice with the same key gives the data back, for both variants |
| `Cipher.TransformInPlace` | app/crawlers/platforms/douyin_abogus.py:86-111 | the loop with its wandering index, swaps and carried values computes masking by a stream of the start table alone |
| `Cipher.TransformStaysPermutation` | app/crawlers/platforms/douyin_abogus.py:86-111 | at every step its table is a permutation of the start table and every index is in range |
| `Cipher.TransformIsInvolution` | app/crawlers/platforms/douyin_abogus.py:86-111 | `_transform_bytes` is its own inverse |
| `Cipher.PermutationIsTable` | app/crawlers/platforms/douyin_abogus.py:24-42 | the start table has 256 entries in byte range |
| `CipherSteps.ScheduleRuns` | app/crawlers/platforms/douyin_abogus_v2.py:291-298 | every turn of the key schedule, entry by entry, in both variants |
| `CipherSteps.GeneratorRuns` | app/crawlers/platforms/douyin_abogus_v2.py:299-305 | every turn of the generator, and the byte it prints |
| `CipherSteps.TransformRuns` | app/crawlers/platforms/douyin_abogus.py:86-111 | every turn of `_transform_bytes`, and the word it prints |
| `CipherSteps.TransformStarts` | app/crawlers/platforms/douyin_abogus.py:92-100 | the exchange before its first word |
| `Noise.MaskPairRoundTrip` | app/crawlers/platforms/douyin_abogus_v2.py:435-441 | unmasking a masked pair gives the pair, whatever the noise |
| `Noise.GroupRoundTrip` | app/crawlers/platforms/douyin_abogus_v2.py:473-485 | four carriers collapse to the three bytes they were made from, because the three masks part the byte |
| `Noise.ExpandNoise` | app/crawlers/platforms/douyin_abogus_v2.py:443-470 | the group loop with its tail branch computes the expansion |
| `Noise.CollapseNoise` | app/crawlers/platforms/douyin_abogus_v2.py:473-485 | the group loop computes the collapse |
| `Noise.CollapseOfExpand` | app/crawlers/platforms/douyin_abogus_v2.py:473-485 | collapsing an expansion gives the body, or the body without its last byte exactly when two bytes are left over and the last is zero |
| `Noise.ExpandedLength` | app/crawlers/platforms/douyin_abogus_v2.py:443-470 | the length of an expansion, from which the checker's length arithmetic follows |
| `Noise.HeaderNoiseInBand` | app/crawlers/platforms/douyin_abogus_v2.py:386-389 | the header's noise stays in the forty-wide band of the browser family |
| `Noise.ProbeNoiseReachable` | app/crawlers/platforms/douyin_abogus_v2.py:392-400 | the probe byte is one of those the formula can produce |
| `Noise.TripwireBitsSet` | app/crawlers/platforms/douyin_abogus_v2.py:403-405 | the tripwire bits are set in every draw |
| `Noise.DrawnExactly` | app/crawlers/platforms/douyin_abogus_v2.py:407-433 | the noise bytes of pairs and groups in terms of their draws |
| `Noise.HeaderDrawn` | app/crawlers/platforms/douyin_abogus_v2.py:386-389 | the header's noise in terms of its draw |
| `Noise.ProbeDrawn` | app/crawlers/platforms/douyin_abogus_v2.py:392-400 | the probe byte in terms of its draw |
| `Noise.TripwireDrawn` | app/crawlers/platforms/douyin_abogus_v2.py:403-405 | the tripwire byte in terms of its draw |
| `Signature.Canary` | app/crawlers/platforms/douyin_abogus_v2.py:517-527 | the chosen byte is never the sentinel |
| `Signer.Sign` | app/crawlers/platforms/douyin_abogus_v2.py:642-715 | the step-by-step signer computes the printed value, or fails where the source raises |
| `Signer.ComputeChecksum` | app/crawlers/platforms/douyin_abogus_v2.py:687-700 | the running XOR over version and fields is the checksum the checker recomputes |
| `Signer.CheckStructure` | app/crawlers/platforms/douyin_abogus_v2.py:727-788 | the sequence of checks returns the first problem, in the source's order |
| `PoolProgress.LiveExactly` | app/crawlers/proxy_provider.py:771-861 | for any supplier and any two clock readings in a pass: throughout a run every parked caller has a refill in progress or a lease that will come back, exactly when no borrowing pass strands its caller |
| `PoolProgress.StepLive` | app/crawlers/proxy_provider.py:771-861 | a step strands a caller exactly when it is a borrowing pass that meets the stranding condition |
| `PoolProgress.LiveWithOneReading` | app/crawlers/proxy_provider.py:725-737 | with one reading in each pass: exactly when no pass finds an idle, useless and overfull pool |
| `PoolProgress.LiveWithFrugalSupplier` | app/crawlers/proxy_provider.py:798-809 | with a supplier that returns no more than asked: exactly when no pass finds a full useless pool whose every slot comes to qualify between the two readings |
| `PoolProgress.NoStrandedBorrower` | app/crawlers/proxy_provider.py:771-861 | so nobody is ever stranded in plain mode, whatever the supplier and the clock, nor in optimised mode with a frugal supplier and one reading |
| `PoolProgress.StrandsOneReading` | app/crawlers/proxy_provider.py:725-737 | with one clock reading a caller is stranded exactly when the pool is optimised, idle of refill and leases, holds nothing eligible, and is overfull |
| `PoolProgress.StrandsBetweenReadings` | app/crawlers/proxy_provider.py:798-809 | in a pool that is not overfull, exactly when every slot of a full idle pool is unfit at the search and fit at the replacement |
| `PoolProgress.StrandsWhen` | app/crawlers/proxy_provider.py:798-809 | for any two readings and any pool: exactly when nothing serves at the search in an idle pool, and at the replacement either every slot serves and the pool is full, or the slots not run out, less one if none of the unfit ones has run out, still fill it |
| `PoolWitness.OverfillStrands` | app/crawlers/proxy_provider.py:819-839 | a four-event run in which the supplier answers one request with two endpoints and the next caller, with a budget that the pool accepts, is stranded |
| `PoolWitness.CoolingStrands` | app/crawlers/proxy_provider.py:688-698 | a six-event run with a frugal supplier in which the one slot ends its cooldown between the two readings and the caller is stranded |
| `PoolProgress.ReturnsWakeEveryone` | app/crawlers/proxy_provider.py:872-936 | every lease that comes back finds its slot, and so wakes everybody; the end of a fetch always does |
| `PoolProgress.RunBounded` | app/crawlers/proxy_provider.py:798-809 | with a frugal supplier active slots and endpoints on order never exceed the pool size |
| `PoolProgress.LeasedSlotStays` | app/crawlers/proxy_provider.py:680-684 | no step removes a slot whose lease is still out |
| `PoolSafety.RunSafe` | app/crawlers/proxy_provider.py:771-936 | after any interleaving: per-slot limits, exclusivity, distinct endpoints, every slot charged exactly for the mappings out, leases = successes + failures + in flight, endpoints added = active + discarded + expired + replaced, peak not below the current load |
| `PoolGrants.ExclusiveIsAlone` | app/crawlers/proxy_provider.py:779-790 | over any run of an optimised pool an exclusive grant is of a mapping nobody holds, and it is out once and granted to nobody else until it has been returned |
| `PoolGrants.GrantsExactly` | app/crawlers/proxy_provider.py:688-723 | a borrower is given a lease exactly when some slot lends, has not run out and has room and, in optimised mode, lives long enough, is held by nobody exclusively, is idle if wanted exclusively, and does not rest; and the lease is of such a slot |
| `PoolGrants.PinsHold` | app/crawlers/proxy_provider.py:712-722 | a borrower with an affinity is given the endpoint it is pinned to whenever that is free, and is pinned to what it is given |
| `PoolGrants.LeastLoadedIsGiven` | app/crawlers/proxy_provider.py:717 | any other is given a free slot with fewest leases and, among those, earliest end |
| `PoolGrants.RefillsExactly` | app/crawlers/proxy_provider.py:798-809 | a borrower given nothing starts a refill exactly when none runs and the pool is not full, for what is missing or a batch |
| `PoolGrants.ReplacesExactly` | app/crawlers/proxy_provider.py:725-737 | only an optimised, full, unfetching pool gives a slot up, exactly when an idle one would not serve: the one ending earliest, whose endpoint is barred |
| `PoolGrants.GivesUpExactly` | app/crawlers/proxy_provider.py:840-855 | the refiller gives up exactly when its answer leaves nothing free for it, and pins what it finds |
| `PoolGrants.WaitingExactly` | app/crawlers/proxy_provider.py:771-936 | how every step changes the waiting callers and the endpoints on order |
| `PoolGrants.BoughtIsLent` | app/crawlers/proxy_provider.py:819-839 | an endpoint newly delivered can be lent at once to any borrower whose budget ends within the supplier's lifetime |
| `PoolSafety.StepSafe` | app/crawlers/proxy_provider.py:771-936 | each critical section keeps all of that |
| `PoolSafety.HeldIsFound` | app/crawlers/proxy_provider.py:863-865 | a mapping that is out always finds its slot and the slot is charged for it, so the clamp at zero never acts |
| `PoolSafety.BorrowGood` | app/crawlers/proxy_provider.py:779-809 | a borrowing pass grants one more copy of one mapping, starts a refill only if none runs, or changes no lease |
| `PoolSafety.SucceedGood` | app/crawlers/proxy_provider.py:872-890 | a success takes exactly one copy of the mapping back |
| `PoolSafety.FailGood` | app/crawlers/proxy_provider.py:892-936 | a failure takes exactly one copy back, whatever it costs the slot |
| `PoolReturns.SuccessSettles` | app/crawlers/proxy_provider.py:872-890 | the slot after a success, field by field, or that it is gone |
| `PoolReturns.FailureSettles` | app/crawlers/proxy_provider.py:892-936 | the slot after a failure, field by field, or that it is gone |
| `PoolReturns.FailureBars` | app/crawlers/proxy_provider.py:926-930 | until when an endpoint given up is barred, and that no other bar changes |
| `PoolSafety.MergeGood` | app/crawlers/proxy_provider.py:814-839 | merging an answer changes no lease and adds at most as many active slots as it has endpoints |
| `PoolRefill.MergeExtends` | app/crawlers/proxy_provider.py:814-839 | existing slots stay where they are; what is added is fresh, counted, and in optimised mode never outlives the supplier's lifetime counted from the request |
| `PoolRefill.MergeKnows` | app/crawlers/proxy_provider.py:819-825 | afterwards an endpoint is known exactly when it was before or was named and not given up lately |
| `PoolPenalties.FailureRests` | app/crawlers/proxy_provider.py:912-925 | a transport failure puts the endpoint to rest for 15 seconds, a platform failure for 30 on that platform |
| `PoolPenalties.ReboughtExactly` | app/crawlers/proxy_provider.py:819-839 | an endpoint that was away is in the pool after a step exactly when the step is an answer that names it, it was not given up lately, and the deadline of the new slot has not passed |
| `PoolPenalties.StepRests` | app/crawlers/proxy_provider.py:688-698 | a rest survives every step up to its deadline, except exactly such an answer after the endpoint left the pool |
| `PoolPenalties.RunRests` | app/crawlers/proxy_provider.py:912-925 | over any run a rest once imposed holds throughout exactly when no later answer buys the endpoint again |
| `PoolPenalties.PenaltyIsServed` | app/crawlers/proxy_provider.py:912-925 | over any run in which no answer buys the endpoint again, no borrower it is kept from is given it before the deadline that a failure set |
| `PoolServed.StepKeeps` | app/crawlers/proxy_provider.py:771-936 | before the deadline no step lets go of an endpoint that rests in a slot outliving the rest, or is given up until then |
| `PoolServed.PenaltyIsCertain` | app/crawlers/proxy_provider.py:912-930 | over any run, whatever the supplier delivers: if the slot lends at the failure and has more life left than the penalty, no borrower the endpoint is kept from is given it before the deadline |
| `PoolWitness.PenaltyForgotten` | app/crawlers/proxy_provider.py:670-686 | a run in which a resting slot runs out, the supplier names its endpoint again, and the endpoint is lent eight seconds before the penalty ends |
| `PoolPenalties.RestingIsNotLent` | app/crawlers/proxy_provider.py:688-698 | while an endpoint rests no borrower of that platform is given it |
| `PoolPenalties.GivenUpIsOut` | app/crawlers/proxy_provider.py:912-930 | a failed lease gives the endpoint up exactly for an unclassified failure, in plain mode, or at the third transport failure, and only once; in optimised mode it is then out for 30 seconds at least |
| `PoolPenalties.RunOut` | app/crawlers/proxy_provider.py:823-824 | over any run, an endpoint that is out is not bought back and takes no lease before its deadline |
| `ProxySlots.MappingIdentifiesEndpoint` | app/crawlers/proxy_provider.py:306-319 | two endpoints with the same mapping are the same endpoint, whatever the host text |
| `ProxySlots.Best` | app/crawlers/proxy_provider.py:717 | the search returns a fitting slot that no other fitting slot beats, the first of equals |
| `ProxySlots.Pinned` | app/crawlers/proxy_provider.py:712-716 | an affinity finds the first fitting slot of the pinned endpoint |
| `ProxyPool.AsyncProxyPool.Create` | app/crawlers/proxy_provider.py:571-622 | a pool starts, empty, exactly for an acceptable configuration and a supplier address |
| `ProxyPool.AsyncProxyPool.MarkExpiredAndCleanup` | app/crawlers/proxy_provider.py:670-686 | marks, counts and removes exactly what the state machine says |
| `ProxyPool.AsyncProxyPool.SelectAvailableSlot` | app/crawlers/proxy_provider.py:700-723 | clean-up, pinned slot, least loaded slot and new pin |
| `ProxyPool.AsyncProxyPool.ReplaceIneligibleIdleSlot` | app/crawlers/proxy_provider.py:725-737 | drops the earliest idle slot that does not serve |
| `ProxyPool.AsyncProxyPool.GetRequestsProxies` | app/crawlers/proxy_provider.py:779-809 | one pass of the loop is the machine's borrowing step, the waiting callers and the leases out included |
| `ProxyPool.AsyncProxyPool.LeaveWait` | app/crawlers/proxy_provider.py:808 | a caller cancelled while waiting is the machine's step |
| `ProxyPool.AsyncProxyPool.FetchArrived` | app/crawlers/proxy_provider.py:814-855 | merging and giving up are the machine's delivery step |
| `ProxyPool.AsyncProxyPool.FetchFinished` | app/crawlers/proxy_provider.py:856-861 | the end of a fetch is the machine's step: nobody waits afterwards |
| `ProxyPool.AsyncProxyPool.OnSuccessFor` | app/crawlers/proxy_provider.py:872-890 | the machine's success step, with its effect on the waiting callers |
| `ProxyPool.AsyncProxyPool.OnFailureFor` | app/crawlers/proxy_provider.py:892-936 | the machine's failure step, with its effect on the waiting callers |
| `LeaseScope.ScopeReturnsEverything` | app/crawlers/http_client.py:176-207 | for every list of requests, upgrades, failures and browser uses, and however the scope ends, every mapping taken goes back exactly once, in order, only the last possibly as a failure, and all requests used one mapping |
| `LeaseScope.BodyAccounted` | app/crawlers/http_client.py:225-251 | at every point of the body what was taken is what was given back plus the lease held; early returns count as successes |
| `LeaseScope.FinalVerdict` | app/crawlers/http_client.py:186-207 | the final lease is reported as failed exactly when a failure was recorded or, in optimised mode, the scope was cancelled |
| `LeaseVerdicts.ReportedExactly` | app/crawlers/http_client.py:184-207 | the lease a scope ends with is reported as failed exactly when some step spoiled it (a broken connection, one of the refused statuses, a lease outlived, a missing proxy that was required, a recorded failure) or, in optimised mode, the scope was cancelled |
| `LeaseVerdicts.FailedExactly` | app/crawlers/http_client.py:420-486 | over the whole body, which steps make the lease count as failed |
| `LeaseVerdicts.BlamesExactly` | app/crawlers/http_client.py:441-478 | on what grounds: the transport for a broken connection or a 407, the platform for other refusals, the task or the platform for the rest |
| `LeaseVerdicts.CausesExactly` | app/crawlers/http_client.py:192-207 | what the pool is told |
| `LeaseVerdicts.SendsThrough` | app/crawlers/http_client.py:372-418 | through which mapping a request goes, if it goes out |
| `LeaseVerdicts.StartsExactly` | app/crawlers/http_client.py:253-256 | when a scope has started |
| `LeaseVerdicts.ShortLeaseGoesBack` | app/crawlers/http_client.py:243-251 | a lease too short for a request goes back before anything used it, and the next is asked to last |
| `LeaseVerdicts.GoodLeaseStays` | app/crawlers/http_client.py:376-381 | otherwise a request keeps the lease it finds |
| `LeaseVerdicts.UpgradesExactly` | app/crawlers/http_client.py:225-251 | what an upgrade asks for and when it gives the lease back or fails |
| `LeaseVerdicts.ModesAreKept` | app/crawlers/http_client.py:543-559 | over a whole scope a client that must use a proxy never sends without one, and one that must not never takes a lease |
| `LeaseBalance.HeldIsBalance` | app/crawlers/proxy_provider.py:771-936 | what is out is what was out plus the grants minus the returns |
| `LeaseSystem.RunSound` | app/crawlers/http_client.py:176-251 | scopes and pool as one machine: after any interleaving the pool is safe, every scope accounts for its leases, and a mapping is out exactly as often as open scopes hold it |
| `LeaseSystem.RunIsPoolRun` | app/crawlers/http_client.py:176-207 | what the scopes do is a possible run of the pool: nothing is returned that is not out |
| `LeaseSystem.ChargesAreHolders` | app/crawlers/http_client.py:176-207 | every slot is charged exactly for the open scopes that hold its endpoint |
| `LeaseSystem.ScopesRestoreThePool` | app/crawlers/http_client.py:176-207 | a stretch of a run that ends with the same open scopes leaves every endpoint charged as before; with no scope open no lease is out |
| `LeaseScope.ProxyLeaseState.EnsureProxyLifetime` | app/crawlers/http_client.py:225-251 | the upgrade: no-op, early return, or failure once requests have started |
| `LeaseScope.ProxyLeaseState.SendRequest` | app/crawlers/http_client.py:361-486 | the lease branch of a request |
| `LeaseScope.ProxyLeaseState.AcquireProxy` | app/crawlers/http_client.py:543-559 | what is obtained in each mode, and when acquiring raises |
| `LeaseScope.ProxyLeaseState.ActiveProxyMapping` | app/crawlers/http_client.py:285-295 | a browser gets the scope's one lease |
| `LeaseScope.ProxyLeaseState.RecordCollectionFailure` | app/crawlers/http_client.py:258-267 | the first recorded failure wins in optimised mode |
| `LeaseScope.ProxyLeaseState.Leave` | app/crawlers/http_client.py:184-207 | the end of the scope and what is reported to the pool |
| `JobTheorems.ResultsExactlyOnce` | app/services/job_service.py:425-465 | after any interleaving, crash, stop and resume the stored sequences are 0..n-1 and the results answer distinct items of the request |
| `JobSafety.RunSound` | app/services/job_service.py:329-506 | numbering, counts at most one behind, honest completion, and no item lost between queues, workers and results, after every run |
| `JobTheorems.AppendIsNew` | app/repositories/job_repository.py:404-415 | an append never reuses a sequence number, so neither repository overwrites or refuses a row |
| `JobTheorems.CountsAfterPersist` | app/services/job_service.py:449-458 | after each persist completed = success + failed = the number of stored results, and success counts exactly the successful ones |
| `JobTheorems.ResumeConserves` | app/services/job_service.py:205-223 | at resume completed + pending = total, and the pending items are exactly the unanswered ones |
| `JobTheorems.CompletedMeansDone` | app/services/job_service.py:482-487 | a completed job has one stored, counted result for every item of the request |
| `JobOutcomes.FinishExactly` | app/services/job_service.py:482-487 | a run that is never resumed and ends by itself completes the job exactly when it was not cancelled and no ten refusals came with no success between them; otherwise, if not cancelled, it leaves it failed |
| `JobOutcomes.FewRefusalsComplete` | app/services/job_service.py:442-448 | fewer than ten refusals in all never stop it |
| `JobCompletes.SomeRunCompletes` | app/services/job_service.py:394-487 | for every accepted request, and whatever its collectors answer short of a refusal, some run completes it |
| `JobOutcomes.CancelledStaysOpen` | app/services/job_service.py:281-299 | a job cancelled and not resumed is never completed |
| `JobOutcomes.StopsExactly` | app/services/job_service.py:352-383 | what a timeout, a shutdown or an exception leaves |
| `JobOutcomes.RecoversExactly` | app/repositories/job_repository.py:145-165 | recovery fails exactly the open jobs, with exact counts |
| `JobOutcomes.StartsExactly` | app/services/job_service.py:394-422 | what a started run remembers and stores |
| `JobOutcomes.ResumesExactly` | app/services/job_service.py:205-223 | what resuming leaves: queued, not cancelled, refusals forgotten, the unanswered items |
| `JobOutcomes.QueuesKeepOrder` | app/services/job_service.py:414-422 | a queue holds its platform's items in the order of the request |
| `JobOutcomes.StaffExactly` | app/services/job_service.py:467-475 | as many workers per queue as items, up to both limits |
| `JobOutcomes.TakesHead` | app/services/job_service.py:427-434 | a worker takes the head of its queue |
| `JobTheorems.CompletedStays` | app/services/job_service.py:200-203 | nothing changes a completed job, as long as a storage call either happens or does not (a last save cancelled in its thread that lands later is outside the model) |
| `JobTheorems.ResultsOnlyGrow` | app/repositories/job_repository.py:123-129 | no step removes or changes a stored result |
| `JobSafety.EveryQueueIsManned` | app/services/job_service.py:467-475 | every platform with items gets at least one worker under the concurrency limits |
| `JobPaging.PagingIsExact` | app/services/job_service.py:251-279 | however reads and the job interleave, pages are the results in order without gap or repetition; a client given no further cursor by a completed job has read them all |
| `JobPaging.PagingProgress` | app/services/job_service.py:251-279 | one read of a completed job either ends or moves on |
| `JobPaging.PagingEnds` | app/services/job_service.py:251-279 | a completed job is read to the end in at most as many reads as it has results left, or one, and then everything has been given |
| `Cursors.CursorRoundTrip` | app/services/job_service.py:641-655 | decoding the cursor of any offset gives the offset; no cursor means zero |
| `ResultRows.PageIsSlice` | app/repositories/job_repository.py:131-143 | with consecutive sequences a page is the slice from its offset |
| `ResultRows.ReadPage` | app/repositories/job_repository.py:131-143 | sorting, filtering and cutting give the rows of smallest sequence from the offset on |
| `JobRepository.MemoryJobRepository.AppendResult` | app/repositories/job_repository.py:123-129 | adds one numbered row to one job |
| `JobRepository.MemoryJobRepository.UpdateJob` | app/repositories/job_repository.py:119-121 | replaces a record that exists |
| `JobRepository.MemoryJobRepository.CreateJob` | app/repositories/job_repository.py:92-105 | stores record and request and starts an empty result table |
| `JobRepository.MemoryJobRepository.GetResults` | app/repositories/job_repository.py:131-143 | reads a page |
| `JobRepository.MemoryJobRepository.RecoverInterrupted` | app/repositories/job_repository.py:145-165 | fails every open job with the counts of its rows and leaves the others alone |
| `BatchJob.BuildQueues` | app/services/job_service.py:414-422 | each platform's queue holds its items in request order |
| `BatchJob.HireWorkers` | app/services/job_service.py:467-475 | as many workers per queue as the limits and its length allow |
| `BatchJob.BatchJobManager.constructor` | app/services/job_service.py:128-186 | submission queues the whole request |
| `BatchJob.BatchJobManager.StartRun` | app/services/job_service.py:394-422 | the start of a run |
| `BatchJob.BatchJobManager.NextItem` | app/services/job_service.py:427-434 | a worker takes the head of its queue, or returns when stopped or drained |
| `BatchJob.BatchJobManager.Collected` | app/services/job_service.py:442-448 | ten refusals in a row raise the stop flag |
| `BatchJob.BatchJobManager.AppendResult` | app/services/job_service.py:449-451 | stores the result under the next number |
| `BatchJob.BatchJobManager.CountResult` | app/services/job_service.py:452-458 | counts it and saves the record |
| `BatchJob.BatchJobManager.FinishRun` | app/services/job_service.py:482-506 | the status a finished run ends with |
| `BatchJob.BatchJobManager.StopRun` | app/services/job_service.py:352-383 | the status a timeout, shutdown or exception ends with |
| `BatchJob.BatchJobManager.CancelJob` | app/services/job_service.py:281-299 | a cancel request marks the job |
| `BatchJob.BatchJobManager.ResumeJob` | app/services/job_service.py:188-227 | resumes with recomputed counts and exactly the unanswered items, unless running or completed |
| `ResultCache.CacheIsPartOfMap` | app/services/engagement_service.py:610-629 | after any run keys are distinct, both limits hold, and every entry is the last one stored for its key |
| `ResultCache.HitIsLastStored` | app/services/engagement_service.py:555-567 | a hit is an unexpired result, the last stored for that same key |
| `CacheHits.HitsExactly` | app/services/engagement_service.py:564-567 | after any run a look-up answers with a value exactly when the cache holds an unexpired entry of that key and value |
| `CacheHits.StoredIsFound` | app/services/engagement_service.py:612-629 | a stored result that fits is what every later look-up returns until it expires, however often anything is looked up meanwhile |
| `CacheHits.LookupKeepsFresh` | app/services/engagement_service.py:556-567 | a look-up removes nothing unexpired |
| `CacheHits.StoreWithRoom` | app/services/engagement_service.py:612-629 | storing with room to spare keeps every other entry |
| `ResultCache.OrderedByUse` | app/services/engagement_service.py:566-567 | entries stand in the order of their last use, so eviction takes the least recently used |
| `ResultCache.EvictsLeast` | app/services/engagement_service.py:624-629 | eviction drops the fewest entries that will do, oldest first |
| `ResultCache.StoredOrTooLarge` | app/services/engagement_service.py:612-629 | a stored result is kept, as newest, if it fits the byte limit; one larger empties the cache |
| `EngagementCache.EngagementService.DropStale` | app/services/engagement_service.py:556-563 | drops the expired entries at the old end and keeps the byte counter exact |
| `EngagementCache.EngagementService.Find` | app/services/engagement_service.py:564-567 | look-up and move to the newest place |
| `EngagementCache.EngagementService.Keep` | app/services/engagement_service.py:612-629 | replaces, appends and evicts; the counter is the sum of sizes and both limits hold |
| `EngagementCache.EngagementService.EvictOldest` | app/services/engagement_service.py:624-629 | the eviction loop ends within both limits |
| `EngagementCache.EngagementService.Enter` | app/services/engagement_service.py:555-574 | a hit, or registration on the key's task |
| `EngagementCache.EngagementService.LeaveOnCancel` | app/services/engagement_service.py:577-591 | a cancelled caller leaves |
| `EngagementCache.EngagementService.LeaveOnError` | app/services/engagement_service.py:592-601 | a caller leaves with the task's exception |
| `EngagementCache.EngagementService.LeaveWithResult` | app/services/engagement_service.py:602-629 | a caller leaves with the result and stores it |
| `SingleFlight.RunSafe` | app/services/engagement_service.py:568-609 | after any run the waiter count of a key is the number of callers registered on it, and nobody waits for a task a leaver cancelled |
| `SingleFlight.RegisteredIsCounted` | app/services/engagement_service.py:580-582 | a leaving caller's key is always counted, so the default of one is never used |
| `SingleFlight.CancelsOnlyAlone` | app/services/engagement_service.py:577-591 | a leaving caller cancels its task exactly when it still runs and no other caller is registered on the key |
| `SingleFlight.OneRunningTask` | app/services/engagement_service.py:568-573 | at most one unfinished, uncancelled task per key |
| `TaskJoins.JoinsExactly` | app/services/engagement_service.py:568-574 | a caller joins the task its key stands for, or starts one |
| `TaskJoins.ReturnedIsNotJoined` | app/services/engagement_service.py:592-609 | over any run, once a caller has a task's result nobody joins that task |
| `SingleFlight.UnclaimedExactly` | app/services/engagement_service.py:577-609 | a step leaves the first running task without a caller exactly when the only caller on a key leaves while the key's current task, not the one it awaited, still runs |
| `SingleFlight.AlwaysClaimedExactly` | app/services/engagement_service.py:577-609 | over a whole run every running task has a caller on its key exactly when no step is such a desertion |
| `SingleFlight.UnawaitedExactly` | app/services/engagement_service.py:577-591 | a step leaves the first running task that nobody awaits exactly when its only awaiting caller is cancelled while another caller is registered on the key |
| `SingleFlight.AlwaysAwaitedExactly` | app/services/engagement_service.py:577-609 | over a whole run every running task is awaited exactly when no step is such a cancellation |
| `SingleFlight.TaskWithoutCallers` | app/services/engagement_service.py:577-601 | a run in which both happen |
| `AuthorPaging.ReadingIsExact` | app/services/author_job_service.py:168-206 | however pages arrive and details finish, the works given out are the first stored ones, each once, and none at or before the cursor is missing |
| `AuthorPaging.PageIsSound` | app/repositories/author_repository.py:209-225 | an active job's page holds an unfinished work exactly when, at the second query, one of the next works before the stored barrier is unfinished; it never ends the reading, and a job that is not active ends it exactly with every stored work given |
| `AuthorPaging.ReadingEnds` | app/services/author_job_service.py:168-206 | a job that is not active is read to the end in at most as many reads as it has works left, or one, and then every work has been given |
| `AuthorPaging.StepShielded` | app/repositories/author_repository.py:209-225 | what a read waiting for its second query can return stays finished, except exactly when the first query found nothing unfinished and a new unfinished work is saved, or a failed work it can return is reopened |
| `AuthorPaging.AlwaysShieldedExactly` | app/repositories/author_repository.py:209-225 | the same over whole runs |
| `AuthorPaging.ShieldedPage` | app/repositories/author_repository.py:209-225 | such a read's page holds finished works only |
| `AuthorPaging.UnfinishedIsGiven` | app/repositories/author_repository.py:209-225 | a run in which a work is saved between the two queries and given out unfinished, with the cursor past it |
| `AuthorPaging.SelectIsSlice` | app/repositories/author_repository.py:209-225 | the key-range query is the slice of rows between two keys |
| `AuthorPaging.SavePageExtends` | app/repositories/author_repository.py:105-140 | a page save leaves stored works alone and adds new ones behind, under growing keys, each work once |
| `AuthorPaging.SavePageStores` | app/repositories/author_repository.py:105-140 | afterwards a work is stored exactly when it was before or the page lists it |
| `AuthorDetails.NewRowsAreListed` | app/repositories/author_repository.py:105-140 | a new row is the listed work at its first place on the page, in its listed state, untried |
| `AuthorDetails.ClaimsExactly` | app/repositories/author_repository.py:150-157 | a claim takes the earliest pending work, counts the attempt and changes nothing else |
| `AuthorDetails.SavesExactly` | app/repositories/author_repository.py:159-169 | a detail ends complete or failed and nothing else changes |
| `AuthorDetails.PreparesExactly` | app/repositories/author_repository.py:142-148 | preparing reopens interrupted details and, on resume, failed ones, and nothing else |
| `AuthorDetails.PrepareIsReopenings` | app/repositories/author_repository.py:142-148 | preparing is a run of the machine's reopenings |
| `AuthorDetails.ResumeRetries` | app/services/author_job_service.py:205-240 | a resumed job tries its works again in order, failed ones included |
| `AuthorDetails.WorkerSettles` | app/services/author_job_service.py:340-420 | one worker works an active job off: each pending work is claimed once and ends as it was found |
| `AuthorKeys.KeyOrder` | app/repositories/author_repository.py:116 | within the padded widths, key order is page order and then index order, and keys are distinct |
| `AuthorKeys.KeyShape` | app/repositories/author_repository.py:116 | a key is twelve digits, a colon and eight digits |
| `AuthorKeys.KeyOrderExactly` | app/repositories/author_repository.py:116 | with P pages of up to W works, text order is reading order throughout exactly when P is at most 10^12 and W at most 10^8 |
| `AuthorKeys.PageOrderBreaks` | app/repositories/author_repository.py:116 | one page past the width the order is reversed |
| `AuthorKeys.IndexOrderBreaks` | app/repositories/author_repository.py:116 | so it is one index past the width, on any page |
| `AuthorRepository.WorkRepository.SavePageOf` | app/repositories/author_repository.py:105-140 | the upserts and the two counts |
| `AuthorRepository.WorkRepository.PrepareDetails` | app/repositories/author_repository.py:142-148 | running details, and on resume failed ones, become pending |
| `AuthorRepository.WorkRepository.ClaimDetail` | app/repositories/author_repository.py:150-157 | the earliest pending work becomes running and its attempts are counted |
| `AuthorRepository.WorkRepository.SaveDetail` | app/repositories/author_repository.py:159-169 | a detail ends complete or failed |
| `AuthorRepository.WorkRepository.Counts` | app/repositories/author_repository.py:171-190 | saved = pending + completed + failed |
| `AuthorRepository.WorkRepository.FindBarrier` | app/repositories/author_repository.py:217-222 | the first query: the key of the first unfinished work, if the read waits for details |
| `AuthorRepository.WorkRepository.ResultRows` | app/repositories/author_repository.py:223 | the second query: rows after the cursor and before the barrier, up to the limit |
| `AuthorRepository.WorkRepository.ReadPage` | app/services/author_job_service.py:183-203 | the page and the next cursor |
| `Pacing.PacingBound` | app/crawlers/xiaohongshu_session.py:232-320 | n reads span at least 15 seconds each after the first and 90 more for every ten before the last, for any number of callers |
| `Pacing.StepPaced` | app/crawlers/xiaohongshu_session.py:239-248 | every step keeps the spacing of the reads |
| `Pacing.StopIsFinalExactly` | app/crawlers/xiaohongshu_session.py:109-111 | a session that is not ready sends no read before a login succeeds exactly when no read stands between its last check and its sending |
| `Pacing.StoppedSends` | app/crawlers/xiaohongshu_session.py:247-272 | otherwise at most that one read goes out |
| `Pacing.RecordedStopIsFinal` | app/crawlers/xiaohongshu_session.py:154-230 | a stop that a read records, on the network or by its answer, is final until a login succeeds |
| `PacingStops.AnswersExactly` | app/crawlers/xiaohongshu_session.py:209-230 | an answer leaves a ready session ready exactly when it is logged in and the answer is harmless in status, code and address, or refuses one note; otherwise no read goes out before a login |
| `PacingStops.ObservesExactly` | app/crawlers/xiaohongshu_session.py:154-184 | which responses on the network stop it |
| `PacingStops.BreaksExactly` | app/crawlers/xiaohongshu_session.py:292-310 | which broken reads stop it |
| `PacingStops.LateBreaksExactly` | app/crawlers/xiaohongshu_session.py:282-310 | the same for a read that breaks after its answer was judged |
| `PacingStops.ThreeBreaksStop` | app/crawlers/xiaohongshu_session.py:306-309 | over any run, three broken reads with no answer between them stop the session |
| `PacingStops.EntersExactly` | app/crawlers/xiaohongshu_session.py:240-247 | when a waiting caller may be checked |
| `PacingStops.ReadGoesOut` | app/crawlers/xiaohongshu_session.py:240-272 | a ready session lets a read out as soon as the pause is over |
| `PacingStops.OpensExactly` | app/crawlers/xiaohongshu_session.py:76-100 | how a session opens |
| `PacingStops.LoginDecides` | app/crawlers/xiaohongshu_session.py:131-152 | a successful login readies any session, a failed one does not |
| `Pacing.LoginDoesNotHoldBack` | app/crawlers/xiaohongshu_session.py:247-272 | a login started while cookies are fetched does not hold the read back |
| `Pacing.XiaohongshuSessionOwner.Prepare` | app/crawlers/xiaohongshu_session.py:240-246 | how long a caller sleeps |
| `Pacing.XiaohongshuSessionOwner.CheckAgain` | app/crawlers/xiaohongshu_session.py:247 | the check after the sleep |
| `Pacing.XiaohongshuSessionOwner.SendRead` | app/crawlers/xiaohongshu_session.py:264-272 | the read is counted and goes out |
| `Pacing.XiaohongshuSessionOwner.FinishAborted` | app/crawlers/xiaohongshu_session.py:312-318 | what a cancelled read leaves behind |
| `Pacing.XiaohongshuSessionOwner.ObserveNetwork` | app/crawlers/xiaohongshu_session.py:154-184 | what a refused or redirected response does to the session |
| `Pacing.XiaohongshuSessionOwner.InspectReply` | app/crawlers/xiaohongshu_session.py:209-230 | the status an answer leads to |
| `Pacing.XiaohongshuSessionOwner.FinishAnswered` | app/crawlers/xiaohongshu_session.py:282-286 | an answered read |
| `Pacing.XiaohongshuSessionOwner.FinishBroken` | app/crawlers/xiaohongshu_session.py:292-318 | a read without an answer: the third in a row stops the session |
| `SourceRows.LoadMeets` | app/crawlers/xiaohongshu_url_resolver.py:186-229 | the loaded table is the one the set of rows calls for: conflicts, authors and named notes |
| `SourceRows.OrderInsensitive` | app/crawlers/xiaohongshu_url_resolver.py:186-229 | order and repetition of the rows do not matter to conflicts, authors or which notes have a name |
| `SourceRows.BatchesJoin` | app/crawlers/xiaohongshu_url_resolver.py:186-229 | loading batches is loading their concatenation |
| `SourceRows.ConflictsStandAlone` | app/crawlers/xiaohongshu_url_resolver.py:210-214 | a note in conflict has neither author nor name |
| `SourceRows.NamesAreLast` | app/crawlers/xiaohongshu_url_resolver.py:217-221 | a name in the table is that of the last row giving its note nothing but a name |
| `SourceRows.NameIsStableExactly` | app/crawlers/xiaohongshu_url_resolver.py:217-221 | every order of the rows gives a note the same name exactly when all rows giving it nothing but a name agree |
| `SourceRows.NamesDependOnOrder` | app/crawlers/xiaohongshu_url_resolver.py:217-221 | two rows, in two orders, with two names |
| `SourceRows.XiaohongshuUrlResolver.LoadRows` | app/crawlers/xiaohongshu_url_resolver.py:186-229 | the loop computes the table |
| `CommentMerge.FetchAllComments` | app/api/routers/engagement.py:258-306 | the merge asks for at most ten thousand pages and returns the first comment of each identifier over the usable answers and their last total; it is complete exactly if the last answer says so, fails exactly if nothing was usable or the walk could not go on, and its guard fires only after ten thousand pages |
| `CommentMerge.PagesGrow` | app/api/routers/engagement.py:269-272 | page numbers only grow, so no page is asked for twice |
| `CommentMerge.FirstsKeepsIds` | app/api/routers/engagement.py:289-292 | each identifier is kept once and none is lost |
| `CommentMerge.FirstsAreFirst` | app/api/routers/engagement.py:289-292 | kept is exactly each comment that no earlier one shares its identifier with, in order |
| `CommentMerge.TotalIsLast` | app/api/routers/engagement.py:287-288 | the total is that of the last answer naming one |
| `CommentMerge.WalkFollows` | app/api/routers/engagement.py:266-306 | the walk asks for the page and cursor its last answer named, and ends only where an answer does not lead on |

## Left out

- SignatureVerdict: SM3 and UTF-8 are arbitrary functions, and the detection of the browser family, the stripping and lower-casing of the user agent and the choice of alphabet are inputs.
- SignatureRoundTrip: the geometry comes back as the bytes written; `GeometryText` reads them back as text if it was ASCII, and UTF-8 decoding beyond ASCII is not modelled.
- EncodersAgree: compares the two encoders on bytes only; the older signer's integers above 255 are not modelled there, and `_transform_bytes` is modelled on 16-bit words.
- The older signer's `sign`: the assembly of its fields and its random prefix.
- Length16: the OR of two disjoint bytes in the source is written as a sum.
- LiveExactly: a second cancellation during the refiller's `finally` is out of scope, and eligibility is judged at one time for all slots of a search, where the code reads the clock per slot.
- The supplier call itself, its rate limiters, the usage and affinity context variables beyond the affinity key, and the statistics that only count calls, rejections and cooldowns.
- AsyncProxyPool: slots are values in a sequence field that is reassigned, so aliasing between slot objects is not modelled.
- SendRequest: only requests inside a lease scope; the two-attempt path without a scope, the retry through a resolved address and account-direct requests are not modelled.
- ScopeReturnsEverything: assumes the provider has the scoped callbacks, and one task using the scope.
- JobSafety.RunSound: a storage call either happens or not; one that is cancelled in a thread and takes effect later is not modelled, and a run stopped between an append and its count ends there.
- Webhooks, durations, costs, item timeouts, idempotency keys, retention and expiry of jobs.
- DecodeCursor: refuses lenient spellings that Python accepts (stray characters in base64; signs, blanks and underscores in the number).
- MemoryJobRepository: expiry clean-up is not modelled, and neither are SQL statements beyond insert, ordered read and count.
- SingleFlight.RunSafe: `aclose` of the cache, and tasks that raise a cancellation of their own, are out of scope.
- ReadingIsExact: a page is saved work by work, but a process crash before the job update after it is not modelled; a page number is below 10^12 and a page has at most 10^8 works (`KeyOrderExactly`).
- Author discovery itself, its retries and deadlines, repeated-page detection, the coverage verdict of `_finish`, and the encoding of the author cursor.
- PacingBound: the lock, the sleep and the clock are taken at their word (a sleep does not end early); the queue timeout of a caller is a caller that does not enter.
- LoadMeets: takes rows with their note, profiles and texts already extracted; address parsing and the shape of a row are not modelled.
- SaveDetail: the content and the error text saved with a work are not modelled, nor are the job identifiers beside it.
- CancelJob: cancelling the task, the answer for a job that has ended and the texts of errors are not modelled.
- LeaveOnCancel: that the leaver then awaits the task it cancelled is not modelled.
- ObserveNetwork: responses of other addresses than the pending one, and the redirect's own record, are not modelled.
- PermutationIsTable: only length and range of the 256 entries are stated; no result depends on their being different.
- FetchAllComments: the service is an arbitrary function of page and cursor.
- Platform collectors, browser control, HTTP transport, configuration, alerts and command-line scripts.
