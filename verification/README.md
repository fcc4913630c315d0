# Verified models of the wallet agent

This project models the parts of the wallet agent where a mistake costs money or loses state, and
proves what they promise for all inputs and all runs. Each module stands for one component:

- **Addresses and codecs.** `Base58` and `Segwit` (on `Bech32`, `Bits`, `Alphabets`, `Digits`) follow
  the address decoders: Base58 is a bijection with byte strings, and the segwit decoder accepts
  exactly the texts an encoder written from BIP 173 and BIP 350 would print, which gives canonicity
  and burst detection at every length. `Crossing` says exactly which bursts turn one accepted address
  into another, with checksums worked out by a fast form of the checksum step (`FastChecksum`,
  `ChecksumRuns`). `Abi` follows the head/tail argument encoder and adds a decoder.
- **Bitcoin transfers.** `Scripts`, `Transaction`, `Psbt` (on `Framing`) print scripts, unsigned
  transactions and PSBT payloads, and parsers read every field back. `CoinSelection` and
  `TransferBuilder` select coins under a fee that depends on the selection, and account for every satoshi;
  `PayableSets` says which requests can be paid at all, `CoinPool` when no output is listed twice, and
  `TransferPayload` reads a finished transfer back from its PSBT.
- **The swap session.** `SwapSession` splits broadcasting a swap, broadcasting a transfer, approving,
  cancelling, and polling with order recovery into atomic steps on one stored record, guarded by a
  revision check, and proves what every interleaving keeps. `ChainObserver` is the retry loop that
  classifies a hash on chain; `TransactionHash` the form in which hashes are stored and compared.
- **Conversational state.** `TaskSlots` and `TaskRuns` merge patches into the slots of a task and prove
  where every surviving slot came from, over all runs. `StateReducers` holds the checkpoint reducers;
  `QuoteBatches` says when two batches of quotes merge as one.
- **Indexes and streams.** `MetadataCache` (a timed LRU cache against the timed map it stands for),
  `Portfolio` (aggregation of balances) and `Sse` (incremental splitting of an event stream).

Where the source changes state step by step the model does too: loops are methods with invariants, the
cache store, the slot dictionary and the session service are classes, and each is tied by its
postcondition to a specification function about which the lemmas speak. Hash functions, text case
tables, name canonicalisers, clocks, replies of chains and providers, and the scheduler are parameters.
Amounts of fiat value and fee rates are exact real numbers. Every raised error is a `None` or an error
constructor.

Some promises do not hold of the code as written. They are kept as they are, with an input that breaks
them and the exact condition under which they hold:

- a burst of six characters can turn an address of version zero into one of version 2 or 14, across one
  word per length (`Crossing.CrossingPair`, `Crossing.BurstExactly`);
- coin selection over mixed address families can miss a payable set of coins
  (`CoinSelection.MixedFamiliesMiss`, `PayableSets.MissesExactly`), or take more coins than needed
  (`CoinSelection.MixedFamiliesWaste`, `PayableSets.SmallestExactly`);
- one address in two letter cases is listed twice, and its coins are then pooled twice
  (`CoinPool.BothCasesListed`, `CoinPool.CountedTwice`, `CoinPool.ListedOnce`);
- an ABI integer too wide for its type, or an address longer than 20 bytes, is encoded but does not
  read back (`Abi.WideInteger`, `Abi.LongAddress`, `Abi.ArgumentsExactly`);
- cancelling a session is not final (`SwapSession.CancelledCompletes`, `SwapSession.CancelledLeft`);
- a swap patch can raise the revision without changing a slot, and again when it is repeated
  (`TaskRuns.VainPatch`, `TaskRuns.SwapRevision`, `TaskRuns.SwapRepeated`);
- a nameless quote can overwrite a named one (`StateReducers.NamelessOverwrites`, `StateReducers.KeyedKept`);
- batches of quotes or errors do not always merge as one (`StateReducers.QuotesCleared`,
  `QuoteBatches.NumberedApart`, `QuoteBatches.ClearedInTurn`, `QuoteBatches.ExtendsExactly`, `StateReducers.ReportCleared`,
  `StateReducers.ErrorsInTurn`).

## Model

| member | source | states |
|---|---|---|
| Base58.Decode | src/wallet_agent/domain/addresses.py:37-43 | the digit loop computes the decoding specified by big-endian value and leading ones, and fails exactly outside the alphabet |
| Base58.DecodeOfEncode | src/wallet_agent/domain/addresses.py:37-43 | decoding undoes the encoder on every byte string, leading zero bytes included |
| Base58.EncodeOfDecode | src/wallet_agent/domain/addresses.py:37-43 | encoding undoes the decoder on every Base58 string, so each byte string has one spelling |
| Base58.CheckPayload | src/wallet_agent/domain/addresses.py:46-58 | a payload is returned exactly when the text encodes 21 bytes followed by their checksum, with the wanted version |
| Bech32.PolyLinear | src/wallet_agent/domain/addresses.py:98-104 | the checksum of a symbol-wise xor is the xor of the checksums, at every length |
| Bech32.NoShortKernel | src/wallet_agent/domain/addresses.py:98-106 | a difference confined to six consecutive symbols that leaves the checksum unchanged is no difference, whatever follows |
| Bech32.EqualUpToBurst | src/wallet_agent/domain/addresses.py:98-106 | two symbol strings with the same checksum that differ only inside a window of six are equal |
| Bech32.ChecksumReachesTarget | src/wallet_agent/domain/addresses.py:105-106 | the six symbols the encoder appends bring the checksum to the target the decoder compares with |
| Bech32.ChecksumUnique | src/wallet_agent/domain/addresses.py:98-106 | no other six symbols do |
| Segwit.RegroupOfGroups | src/wallet_agent/domain/addresses.py:107-117 | regrouping the zero-padded five-bit groups of a program gives the program back |
| Segwit.GroupsOfRegroup | src/wallet_agent/domain/addresses.py:107-117 | a symbol string that regroups is exactly the zero-padded groups of its bytes |
| Segwit.Regroup | src/wallet_agent/domain/addresses.py:107-117 | the accumulator loop computes the regrouping, refusing five or more left-over bits and set padding bits |
| Segwit.TextIsEncoding | src/wallet_agent/domain/addresses.py:88-122 | the checks on a lower-case text hold exactly when it is the encoding of the program |
| Segwit.Decode | src/wallet_agent/domain/addresses.py:82-122 | a witness is returned exactly when the trimmed text is in one letter case and its lower-case form is the encoding of that witness |
| Segwit.OneSpelling | src/wallet_agent/domain/addresses.py:82-122 | two lower-case texts accepted with one witness program are the same text |
| Segwit.EncodeInjective | src/wallet_agent/domain/addresses.py:82-122 | two witness programs never share a text |
| Crossing.BurstExactly | src/wallet_agent/domain/addresses.py:82-122 | two accepted addresses of one length that differ only inside six consecutive characters are the same address if and only if they do not differ by the bridge, one word of six symbols after the prefix, at 42 and at 62 characters |
| Crossing.CrossingAccepted | src/wallet_agent/domain/addresses.py:82-122 | every accepted address of version zero has a neighbour across the bridge that is accepted too, of version 2 or 14 |
| Crossing.CrossingPair | src/wallet_agent/domain/addresses.py:82-122 | the address of twenty zero bytes and its neighbour of version 2, character by character |
| Crossing.PayableVersionsApart | src/wallet_agent/domain/addresses.py:82-122 | the versions 0 and 1, which the wallet can pay to, are always told apart inside such a window |
| FastChecksum.RunRefines | src/wallet_agent/domain/addresses.py:98-104 | thirty flags updated by fixed exclusive ors follow the checksum loop on zero symbols, for any number of steps |
| Abi.StaticExactly | src/wallet_agent/abi.py:58-93 | an encodable static value reads back if and only if it is in range: integers of the width of their type, 20-byte addresses, byte strings of full width; an address fills one word if and only if it has at most 32 bytes |
| Abi.WideInteger | src/wallet_agent/abi.py:60-69 | 256 is encoded as an 8-bit integer, into a word that a decoder refuses |
| Abi.LongAddress | src/wallet_agent/abi.py:70-82 | an address of 21 bytes is encoded into one word and reads back without its first byte |
| Abi.EncodeArguments | src/wallet_agent/abi.py:114-141 | the loop returns data exactly when every argument encodes and every offset fits a word, and then the heads followed by the tails |
| Abi.ArgumentsRoundTrip | src/wallet_agent/abi.py:114-141 | for every list of types and in-range values the length is a multiple of 32, each dynamic head is the byte offset of its tail, and the decoder recovers every value |
| Abi.ArgumentsExactly | src/wallet_agent/abi.py:114-141 | an encoded argument list reads back, every value at its offset, if and only if every value is in range for its type |
| Framing.ReadWrittenVarint | src/wallet_agent/chains/btc.py:102-109 | a compact size below 2^64 reads back, in each of its four widths |
| Transaction.Serialize | src/wallet_agent/chains/btc.py:133-153 | the loops print the specified bytes, and fail exactly when a number does not fit its field |
| Transaction.ParseOfSerialized | src/wallet_agent/chains/btc.py:126-153 | a parser recovers version, every input with its byte-reversed id, output index and sequence, every output, and the lock time |
| Psbt.Build | src/wallet_agent/chains/btc.py:213-232 | the loops print the specified payload of global, input and output maps |
| Psbt.ParseOfBuilt | src/wallet_agent/chains/btc.py:213-232 | a parser recovers the embedded transaction and every entry of every map from the payload |
| Scripts.ScriptPubkey | src/wallet_agent/chains/btc.py:65-99 | a script is returned exactly for an address of one of the four families, and it is the script of that family and payload |
| Scripts.ScriptDeterminesAddress | src/wallet_agent/chains/btc.py:65-99 | two addresses with one script have one family and are the same address up to surrounding space and, for witness addresses, letter case |
| Scripts.PushedDataOfScript | src/wallet_agent/chains/btc.py:112-123 | the memo script reads back as its data in each of its four push forms |
| Scripts.OutputSizeExact | src/wallet_agent/chains/btc.py:126-130 | the size formula is the exact length of the serialised output for every script under 2^32 bytes |
| CoinSelection.Select | src/wallet_agent/chains/btc.py:604-630 | the loop returns the shortest covering prefix with a fee and change that conserve value, or reports that no prefix covers, or an input of no known family before any cover |
| CoinSelection.LargestFirstSorts | src/wallet_agent/chains/btc.py:591 | the coins are ordered by falling value and are the same coins |
| CoinSelection.CompleteAndMinimal | src/wallet_agent/chains/btc.py:604-661 | with one address family, selection succeeds if and only if some set of coins could pay, and uses no more coins than any such set |
| CoinSelection.MixedFamiliesMiss | src/wallet_agent/chains/btc.py:604-661 | over mixed families it can fail although one smaller coin alone could pay |
| CoinSelection.MixedFamiliesWaste | src/wallet_agent/chains/btc.py:604-661 | over mixed families it can take two coins although the smaller one alone could pay |
| PayableSets.PayableExactly | src/wallet_agent/chains/btc.py:604-677 | over any mix of families some set of coins can pay if and only if the coins worth more than they cost to spend bring in the amount and the price of the rest of the transaction |
| PayableSets.PayableWithin | src/wallet_agent/chains/btc.py:604-677 | some set of at most m coins can pay if and only if the best m net values bring that in |
| PayableSets.MissesExactly | src/wallet_agent/chains/btc.py:604-630 | selection misses a payable set if and only if those net values suffice and the net values of no run of coins from the front do |
| PayableSets.SmallestExactly | src/wallet_agent/chains/btc.py:604-630 | the first covering prefix, which is what is selected, is no larger than any payable set if and only if the best net values of one coin fewer do not suffice |
| TransferBuilder.SpendableAddresses | src/wallet_agent/chains/btc.py:573-583 | the loop lists the usable addresses in order of first appearance |
| TransferBuilder.AppearancesOnce | src/wallet_agent/chains/btc.py:573-583 | every usable address text is listed exactly once, nothing else is, and later candidates only append |
| CoinPool.AddressUtxos | src/wallet_agent/chains/btc.py:585-591 | the loops pool the coins of all addresses, by falling value |
| CoinPool.ValidBitcoinAddress | src/wallet_agent/domain/addresses.py:125-132 | an address is valid exactly when it stands for a Base58Check payload of its version or for a witness program |
| CoinPool.SameDestination | src/wallet_agent/domain/addresses.py:125-132 | two trimmed valid texts stand for one destination if and only if they are one text, or one witness address in two letter cases |
| CoinPool.ListedOnce | src/wallet_agent/chains/btc.py:573-591 | when the explorer answers by destination, the pooled coins hold no output twice if and only if no two listed texts are one witness address in two letter cases that holds coins |
| CoinPool.BothCasesListed | src/wallet_agent/chains/btc.py:573-583 | the lower-case and the upper-case text of one witness address are both accepted and both listed |
| CoinPool.CountedTwice | src/wallet_agent/chains/btc.py:585-630 | a coin fetched for both is selected twice if and only if it cannot pay alone and twice its value would pay |
| TransferBuilder.BuildNativeTransfer | src/wallet_agent/chains/btc.py:440-494 | a built transfer pays recipient, memo and change, balances inputs against outputs and fee, spends no output twice if the pool lists none twice, and its fee pays the rate for every byte; it is refused only for a bad address, amount, memo, an empty wallet, missing funds or an overflow |
| TransferBuilder.TransactionLength | src/wallet_agent/chains/btc.py:51-53 | the unsigned transaction is never longer than the virtual size behind the fee, for any number of inputs |
| TransferPayload.Wrap | src/wallet_agent/chains/btc.py:496-512 | the PSBT of a transfer holds its transaction, the fields of its inputs, and fields of an output only for the change, the last one |
| TransferPayload.TransferRecovered | src/wallet_agent/chains/btc.py:440-512 | the PSBT around a built transfer parses back to every coin it spends, every output it pays, and the fields that came with them |
| ChainObserver.Classify | src/wallet_agent/api/app.py:1006-1069 | the first settling attempt decides; dropped exactly when the nonce moved on, not propagated exactly when every call was answered and none knew the hash, failed or confirmed only on a receipt or probe |
| TransactionHash.NormalizeTwice | src/wallet_agent/api/app.py:1103-1108 | normalising twice is normalising once, so comparing forms compares what is stored |
| SwapSession.Service.Update | src/wallet_agent/persistence/store.py:174-192 | with an expected revision the write happens exactly if it is current; every write raises the revision by one |
| SwapSession.Service.Serve | src/wallet_agent/api/app.py:3031-3220 | the service object under any schedule of requests and replies keeps the invariant, and what it stored before and stores after settle: hashes stay, and an ended session keeps hash, order and both statuses |
| SwapSession.StepWrites | src/wallet_agent/api/app.py:3086-3220 | only a committing step writes, and only over a record its endpoint may change: a broadcast its own hash over none or over the same one waiting for a retry, with an order registered for it and never confirmed; a recovery only a missing order, for the stored hash; a poll only an order that has not ended, in a session that is not cancelled; an approval or a cancellation nothing of the swap |
| SwapSession.StepKeeps | src/wallet_agent/api/app.py:850-915 | every step of every request keeps the invariant of record, snapshots and lock, and changes the record only in the permitted ways |
| SwapSession.RunSettles | src/wallet_agent/api/app.py:3064-3220 | in every interleaving from a consistent session a stored broadcast or approval hash is never replaced, and after a terminal order status the hash, order, order status and broadcast status never change |
| SwapSession.RunConsistent | src/wallet_agent/api/app.py:794-915 | in every interleaving a stored order was registered for exactly the stored hash under the session's reference, a swap is confirmed only if its order is completed, and one request at a time is inside the lock |
| SwapSession.OrderReplaced | src/wallet_agent/api/app.py:3119-3180 | a stored order is dropped or replaced only while the session status waits for a retry, and the hash stays |
| SwapSession.SwapCompletes | src/wallet_agent/api/app.py:3043-3220 | nothing blocks a swap: from any untouched session with a quote a broadcast and a poll reach the completed order |
| SwapSession.CancelledLeft | src/wallet_agent/api/app.py:3031-3220 | only a first broadcast or transfer hash and an approval take a cancelled session out of that status; a poll or a recovery never does |
| SwapSession.CancelledCompletes | src/wallet_agent/api/app.py:3031-3220 | a cancelled session without a hash can still be broadcast and completed |
| TaskSlots.ClearDerived | src/wallet_agent/graph/tasks.py:194-298 | the whole sequence of pops on the dictionary keeps exactly the slots a slot-by-slot table calls fresh |
| TaskSlots.MergePatch | src/wallet_agent/graph/tasks.py:84-123 | the merge returns the specified task, the changed slots, and the cached results to throw away |
| TaskRuns.DerivedProvenance | src/wallet_agent/graph/tasks.py:194-227 | over every run, a token address, decimals or chain id still held was given for the current chain and symbol of its side, and decimals for the current token address |
| TaskRuns.RawProvenance | src/wallet_agent/graph/tasks.py:212-268 | over every run, a raw amount held beside an amount was given for that amount |
| TaskRuns.InputProvenance | src/wallet_agent/graph/tasks.py:243-262 | over every run, an input amount still held was given by a patch and has not changed since |
| TaskRuns.InputAssetKept | src/wallet_agent/graph/tasks.py:233-262 | over every run, each source chain, symbol or token known since the input amount was given is still the same |
| TaskRuns.OriginsMatch | src/wallet_agent/graph/tasks.py:112-116 | over every run, exactly the held slots have a recorded origin |
| TaskRuns.OneAmount | src/wallet_agent/graph/tasks.py:267-298 | over every run, a swap holds at most one of input, output and target amount |
| TaskRuns.TransferRevision | src/wallet_agent/graph/tasks.py:101-122 | the revision of a transfer rises by one exactly when some slot changed |
| TaskRuns.SwapRevision | src/wallet_agent/graph/tasks.py:101-122 | the revision of a swap rises by one exactly when some slot changed or the patch newly gives amounts that displace each other and nothing that outlives them |
| TaskRuns.VainPatch | src/wallet_agent/graph/tasks.py:84-123 | a patch with an input and an output amount leaves an empty swap empty, but raises its revision, and raises it again when it is repeated |
| TaskRuns.RepeatedPatch | src/wallet_agent/graph/tasks.py:84-123 | merging a patch again changes nothing if and only if it changes nothing the first time, or no slot it gives goes stale by what it changes |
| TaskRuns.SwapRepeated | src/wallet_agent/graph/tasks.py:84-298 | merging a patch into a swap again changes nothing if and only if it changes nothing the first time, or none of the slots it gives is displaced by what it changes |
| TaskRuns.TransferRepeated | src/wallet_agent/graph/tasks.py:84-123 | in a transfer merging a patch again never changes anything |
| StateReducers.Merge | src/wallet_agent/graph/state.py:122-137 | the loop with its index dictionary computes the specified merge, also when stored rows repeat an identifier |
| StateReducers.MergeInTurn | src/wallet_agent/graph/state.py:112-137 | merging x and then y is merging x followed by y |
| StateReducers.LastWriteShown | src/wallet_agent/graph/state.py:128-137 | the row shown for an identifier is the one written last, where it was first stored |
| StateReducers.RepeatedBatch | src/wallet_agent/graph/state.py:116-120 | storing a batch again changes nothing if and only if all of its rows carry identifiers |
| StateReducers.MergeQuotes | src/wallet_agent/graph/state.py:85-100 | the loop over the insertion-ordered dictionary computes the list of quotes that the results below speak of |
| StateReducers.LastQuoteShown | src/wallet_agent/graph/state.py:96-100 | one entry per key, and it is the item filed under that key last |
| StateReducers.KeyedKept | src/wallet_agent/graph/state.py:96-100 | the last quote with a key of its own stays listed if and only if no nameless quote follows when the list has as many entries as the key spells |
| StateReducers.QuotesInTurn | src/wallet_agent/graph/state.py:85-100 | two batches merge as one when the second clears nothing and no quote is named by a number |
| QuoteBatches.ExtendsExactly | src/wallet_agent/graph/state.py:85-100 | every second batch that clears nothing merges as one with the first if and only if each nameless quote of the first list stands at the place whose number it is filed under |
| QuoteBatches.NumberedApart | src/wallet_agent/graph/state.py:96-100 | a nameless quote that overwrote a quote called "1" survives the next quote of that name if it comes in a second batch, and is lost if it comes in the same one |
| QuoteBatches.ClearedInTurn | src/wallet_agent/graph/state.py:85-100 | without numeral names, a second batch that clears merges as one with the first if and only if every quote of the first is named and the second names them first, in the same order |
| StateReducers.QuotesCleared | src/wallet_agent/graph/state.py:90-95 | a quote is lost to a second batch that clears, and kept when both come as one batch |
| StateReducers.NamelessOverwrites | src/wallet_agent/graph/state.py:98 | a quote called "1" is lost to the next nameless quote |
| StateReducers.ErrorsInTurn | src/wallet_agent/graph/state.py:103-109 | two batches of errors add up as one if and only if the second does not clear reports of the first |
| StateReducers.ReportCleared | src/wallet_agent/graph/state.py:103-109 | a report is lost to a second batch that clears, and kept when both come as one batch |
| MetadataCache.Store.Get | src/wallet_agent/observability.py:147-161 | a read moves a live entry to the end and counts a hit, or drops a dead one and counts a miss; the value returned is the one stored |
| MetadataCache.Store.Set | src/wallet_agent/observability.py:163-173 | a write puts the entry last and the eviction loop drops the least recent ones beyond the limit |
| MetadataCache.RunSound | src/wallet_agent/observability.py:147-173 | after every timed history, the empty one included, the size is within the limit, hits plus misses is the number of reads, entries hold the latest values in order of touching, and every absence is excused |
| MetadataCache.GetRefinesTimedMap | src/wallet_agent/observability.py:147-161 | a hit is the latest value of the key, still alive; a miss means never stored, expired, or at least max_entries other keys touched since |
| Portfolio.Aggregate | src/wallet_agent/portfolio.py:129-210 | the nested loops make one row per asset, with the exact sums of the balances counted for it, and mark the accounts that answered for another chain |
| Portfolio.UnpricedExactly | src/wallet_agent/portfolio.py:204-208 | a row has no value if and only if some balance counted for it is unpriced |
| Portfolio.Total | src/wallet_agent/portfolio.py:211-216 | the total is the sum of the priced rows, in whatever order they are listed |
| Portfolio.PortfolioOrderIrrelevant | src/wallet_agent/portfolio.py:132-216 | amounts, raw amounts, values and total do not depend on the order of accounts or of balances |
| Sse.SplitExactly | demo-next/lib/agent-utils.ts:1-4 | the split is the one way to cut a text at every blank line, earliest first, that loses nothing |
| Sse.SplitContinues | demo-next/app/page.tsx:624-631 | splitting the remainder with new text continues the split of the text before |
| Sse.Read | demo-next/app/page.tsx:622-631 | the reading loop hands on the frames of one split of the whole text, then what is left unless it is blank |
| Sse.ChunkingIrrelevant | demo-next/app/page.tsx:624-631 | two ways of cutting one stream into chunks give the same frames and remainder, which restore the text |

## Left out

- Networking, RPC, Redis and SQL back ends, HTTP handling, authentication, audit entries and response messages: replies and failures are arbitrary inputs.
- Graph nodes, prompts and model calls. `project_session` and quote selection, which may rewrite a session between operations, are not among the steps of `SwapSession`.
- Session deletion, which makes a request in flight fail, and writing the same session under a second session id.
- The language layer's canonicalisers are arbitrary functions; nothing is assumed of them, not even that they are idempotent.
- Base64, hexadecimal and UTF-8 text, the text form of derivation paths and of ABI type names: bytes and parsed values are modelled.
- The timeline and token-amount formatters of demo-next/lib/agent-utils.ts, address validity wrappers, and the fields of a PSBT input or output map: they would add only easier members.
- Reconnection of the event stream with the last event id, and what is done with a frame once it is handed on.
- The status of a chain, a case split on the statuses of its accounts.
- Prices are found per account and given with its balances; the price service and its deadline are not modelled.
- CoinSelection.Select: the fee rate is an exact non-negative real number, so decimal precision is not modelled.
- TransferBuilder.BuildNativeTransfer: returns the unsigned transaction, which `TransferPayload.Wrap` puts into a PSBT; what the fields of the inputs and of the change output say comes in as arbitrary maps.
- TransactionHash.NormalizeTwice: letters and white space beyond ASCII are not modelled; the hashes of the supported chains are ASCII.
- SwapSession.RunConsistent: says nothing about how often a provider is asked to register, which recovery and a retry can both do.
- QuoteBatches.ClearedInTurn: says nothing of quotes named by a number when the second batch clears; `StateReducers.KeyedKept` and `QuoteBatches.ExtendsExactly` cover them otherwise.
- PayableSets.PayableExactly: the amount is positive, as the builder demands before it selects.
- CoinPool.AddressUtxos: what the explorer answers for an address is one list of coins, already read and filtered by confirmations.
- MetadataCache.RunSound: the clock does not run backwards between operations, so a read that takes its time before it waits for the lock is not modelled.
- Portfolio.Aggregate: decimals are exact reals; the display fields of a row (logo, unit price rounding) are reduced to the first known price.
