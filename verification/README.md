# Verified model of a Solana trading toolkit

A Dafny model of the parts of the toolkit where correctness is subtle, with proofs about all inputs, all runs or all
reachable states. `dafny verify dfyconfig.toml` checks everything.

- **Transactions** (`CompactU16`, `Base58`, `Tx*`): the v0 message compiler and its reader as one compiler-correctness
  theorem, from instructions to bytes and back, with the signature slots and the wire form; and the reader on messages
  from any writer, legacy ones included.
- **IDL codec** (`Idl*`, `Utf8`): the type-driven Borsh printer and parser with the text coding they use, round trips in
  both directions and schema evolution.
- **Portfolio** (`Lots`, `LotFacts`, `LotAverage`, `Ledger`, `LedgerEarnings`, `LedgerJobs`, `JobFacts`, `LedgerRuns`,
  `CallFacts`, `Reconstructor`, `ReplayFacts`): lot reduction with its rounding, the per-wallet ledger under a promise
  mutex, and the cold-start replay with its early stop.
- **Logs** (`LogTypes`, `Logs`, `LogFacts`, `LogReports`, `LogRoundTrip`, `Registry`, `RegistryFacts`): the stack machine
  that builds a tree of shared chunk objects, against bracket matching and against printing; the walks over the tree.
- **Streams** (`DropOldest`, `Geyser`, `GeyserRuns`, `GeyserReports`, `Backfill`, `GapRecovery`, `GapEvents`,
  `SignalQueue`, `SignalLiveness`): bounded queues, slot gaps, checkpoints across crashes, gap backfill, and signal
  deduplication.
- **Trading maths** (`Curve`): constant-product swaps with floor division.
- **Instruction building** (`Resolution`, `ResolutionFacts`): account resolution as a least fixpoint.
- **Admission and dispatch** (`Breaker`, `Pool`, `PoolFairness`, `Bundles`): circuit breaker, endpoint pool, bundles.

Objects whose methods change their fields are classes; each method's contract ties the new state to a step function,
and the lemmas about runs speak of those functions. An asynchronous method is cut at its awaits, so a run is any
interleaving of its pieces with everything else that can happen there. Loops are methods with invariants. The helpers in
`Wrappers`, `Bytes`, `Slices` and `Division` (all in Bytes.dfy) are shared by everything.

Where the code and its comments disagree, the model follows the code, gives an input and says exactly when the promise
holds:

- packages/solana-tx/src/transaction-assembler.ts:63-65 promises table accounts in table order; the compiler indexes
  them in discovery order. `TxGrouping.KeysBackIff` says when that matters, `TxTheorems.InterleavedTablesSwapKeys` gives
  an input.
- packages/solana-events/src/parse-logs.ts:58-63 calls a chunk's raw lines complete: `LogFacts.Contents` says what they
  are, `LogFacts.RawCompleteIff` when they are complete.
- `compactU16.decode` accepts values past 16 bits: `CompactU16.ReadExceedsU16`.
- packages/solana-core/src/http-client.ts:460-464 promises one probe in flight: `Breaker.TwoProbesInFlight` gives a run
  with two, `Breaker.SecondProbe`, `Breaker.OutlivesIff` and `Breaker.EverTwoProbes` say when that happens, and
  `Breaker.OneProbe` what a caller must ensure against it.
- A stored checkpoint does not always bound what a restart misses: `GeyserRuns.SlotBeatsLoad`, `GeyserRuns.CoveredIff`,
  `GeyserRuns.AlwaysCoveredIff`.
- The IDL encoder mirrors the decoder, but not every byte string comes back: `IdlEvents.DecodeEncodeDiffers`,
  `IdlCanonical.ReencodeIff`.

A queue capacity of zero, which only the signal queue accepts, behaves as a capacity of one that counts an overflow on
every push.

## Model

| member | source | states |
|---|---|---|
| CompactU16.Encode | packages/solana-core/src/compact-u16.ts:34-57 | succeeds exactly for 0 to 65535 and then gives the little-endian base-128 groups, high bit on all but the last |
| CompactU16.Decode | packages/solana-core/src/compact-u16.ts:76-110 | reads from an offset exactly as the recursive reader does: at most three bytes, truncation and a continued third byte are errors |
| CompactU16.RoundTrip | packages/solana-core/src/compact-u16.ts:34-57 | reading an encoding inside any surrounding bytes gives the number and the encoding's length |
| CompactU16.ReadRange | packages/solana-core/src/compact-u16.ts:76-110 | the value is below 2^7, 2^14 or 2^21 as one, two or three bytes were read |
| CompactU16.ReadExceedsU16 | packages/solana-core/src/compact-u16.ts:76-110 | the value leaves the promised 16 bits if and only if three bytes were read and the third exceeds 3 |
| CompactU16.ReadIs | packages/solana-core/src/compact-u16.ts:76-110 | what is read, byte by byte: seven bits each, lowest first, ending at the first byte below 128; too long exactly when three bytes in a row continue |
| CompactU16.CanonicalIff | packages/solana-core/src/compact-u16.ts:76-110 | re-encoding what was read gives the bytes read if and only if the last byte is not a padding zero |
| Base58.Encode | packages/solana-core/src/base58.ts:33-59 | the loops compute the specification string: one 1 per leading zero byte, then the base-58 numeral |
| Base58.Decode | packages/solana-core/src/base58.ts:68-99 | succeeds exactly on strings over the alphabet, with the specified bytes; an error names the first bad character |
| Base58.BuildDecodeMap | packages/solana-core/src/base58.ts:19-25 | the 128-entry table maps each alphabet character to its digit and everything else to -1 |
| Base58.AlphabetIs | packages/solana-core/src/base58.ts:15 | the characters are the digits without 0, the capitals without I and O, the small letters without l |
| Base58.EncodedNumber | packages/solana-core/src/base58.ts:33-59 | the text stands for the number the bytes stand for, with one leading 1 per leading zero byte |
| Base58.RebaseInverse | packages/solana-core/src/base58.ts:33-99 | rebasing digits to another base and back is the identity, leading zeros included, for any two bases |
| Base58.DecodeEncode | packages/solana-core/src/base58.ts:33-59 | decoding the encoding of any byte string gives it back |
| Base58.EncodeDecode | packages/solana-core/src/base58.ts:68-99 | encoding the decoding of any string over the alphabet gives it back |
| TxCompile.AccountDirectory.Upsert | packages/solana-tx/src/transaction-assembler.ts:304-314 | adding a mention keeps first-seen order, and each key's flags stay the OR over all its mentions |
| TxCompile.CollectMentions | packages/solana-tx/src/transaction-assembler.ts:302-330 | the directory holds the payer, then every program and account of every instruction, in order |
| TxCompile.ResolveAccounts | packages/solana-tx/src/transaction-assembler.ts:332-346 | each key gets the first table holding it, unless it signs, pays or is invoked |
| TxCompile.Partition | packages/solana-tx/src/transaction-assembler.ts:348-366 | one loop splits the accounts into six classes, each in discovery order |
| TxCompile.CompileAccounts | packages/solana-tx/src/transaction-assembler.ts:284-406 | the imperative compiler equals the specification function |
| TxLayout.CompileWellLaidOut | packages/solana-tx/src/transaction-assembler.ts:284-406 | payer in slot 0, classes in header order, counts matching the classes, index map equal to positions, no account lost or repeated |
| TxLayout.MentionKeepsSlot | packages/solana-tx/src/transaction-assembler.ts:284-406 | every mention's key has a slot whose signer and writable flags are the OR over all mentions; signers and programs are static |
| TxLayout.PayerFirstKeepsOrder | packages/solana-tx/src/transaction-assembler.ts:368-374 | moving the payer to the front never moves anything |
| TxMessage.LookupDirectory.PushWritable | packages/solana-tx/src/transaction-assembler.ts:425-441 | a writable table account opens its table's entry on first sight and appends its index |
| TxMessage.LookupDirectory.PushReadonly | packages/solana-tx/src/transaction-assembler.ts:425-442 | likewise for a readonly one |
| TxMessage.BuildAddressTableLookups | packages/solana-tx/src/transaction-assembler.ts:416-445 | tables in order of first appearance over writable then readonly accounts, each with its own indexes in order |
| TxMessage.PushCompactArray | packages/solana-tx/src/transaction-assembler.ts:452-456 | length prefix and items, failing exactly when the length exceeds 65535 |
| TxMessage.PushInstructions | packages/solana-tx/src/transaction-assembler.ts:494-522 | fails exactly when a count is too large or a key has no index |
| TxMessage.PushLookups | packages/solana-tx/src/transaction-assembler.ts:524-532 | fails exactly when a count is too large |
| TxMessage.SerializeMessage | packages/solana-tx/src/transaction-assembler.ts:463-535 | succeeds exactly when every length fits, and then is the u8 truncation of the specified numbers |
| TxAssemble.CompileStep | packages/solana-tx/src/transaction-assembler.ts:577-621 | succeeds exactly for a 32-byte base58 blockhash and an encodable message, with that message |
| TxAssemble.CompileUnsigned | packages/solana-tx/src/transaction-assembler.ts:565-574 | signer list, account order and a wire form with a zero signature per signer |
| TxAssemble.Wire | packages/solana-tx/src/transaction-assembler.ts:624-635 | compact count, signatures, message; it fails exactly above 65535 signatures |
| TxAssemble.CollectSignatures | packages/solana-tx/src/transaction-assembler.ts:667-684 | one 64-byte signature per slot, in slot order, failing exactly when some slot's signer has none |
| TxAssemble.Assemble | packages/solana-tx/src/transaction-assembler.ts:637-688 | succeeds exactly when the message compiles and every signer slot has a signer, and then signs slot by slot; otherwise it names the missing payer, the blockhash, or the first slot without a signature |
| TxReader.DecompileMessage | packages/solana-tx/src/transaction-codec.ts:101-203 | the cursor-driven reader equals the specification reader, errors included |
| TxReader.ReadRawsLoop | packages/solana-tx/src/transaction-codec.ts:131-147 | the instruction loop, cursor and bounds errors included |
| TxReader.ReadLookupsLoop | packages/solana-tx/src/transaction-codec.ts:149-177 | the lookup loop resolves table by table, writable and readonly addresses collected apart |
| TxReader.ResolveLoop | packages/solana-tx/src/transaction-codec.ts:185-202 | indexes become keys with the flags of their slots, or an error past the end |
| TxReader.DecodeTransaction | packages/solana-tx/src/transaction-codec.ts:27-47 | splits signatures and message, refusing the v1 marker, truncation and trailing bytes |
| TxReader.MessageSigners | packages/solana-tx/src/transaction-codec.ts:50-65 | the keys of the signature slots |
| TxRoundTrip.RawsAt | packages/solana-tx/src/transaction-codec.ts:131-147 | instructions written at a place in a buffer are read back from it, and the cursor ends behind them |
| TxRoundTrip.LookupsAt | packages/solana-tx/src/transaction-codec.ts:149-177 | lookups written at a place are read back as the table accounts regrouped by table |
| TxRoundTrip.RegroupIff | packages/solana-tx/src/transaction-codec.ts:149-185 | regrouping table accounts by table changes nothing if and only if they already come grouped in table order |
| TxMeaning.FitsEncodable | packages/solana-tx/src/transaction-assembler.ts:463-535 | a compiled message whose counts and indexes fit a byte always serializes |
| TxMeaning.MessageNotTruncated | packages/solana-tx/src/transaction-assembler.ts:534 | under the same bounds no pushed number is truncated |
| TxMeaning.DecompileBack | packages/solana-tx/src/transaction-codec.ts:101-203 | the reader consumes the whole message and gives account order, signers, blockhash and the instructions over its own key list |
| TxMeaning.ReadBackOne | packages/solana-tx/src/transaction-codec.ts:185-202 | each instruction comes back with its program, data, flags and the reader's key for each index |
| TxTheorems.CompileDecompile | packages/solana-tx/src/transaction-codec.ts:101-203 | compile then decompile preserves programs, data, flags, account order and blockhash always, and the account keys if and only if the table accounts come out grouped by table |
| TxTheorems.PreloadedDecompile | packages/solana-tx/src/transaction-codec.ts:149-203 | with the table accounts given instead of the tables, the reader accepts exactly lists of the right lengths, and returns the very instructions if and only if they are the compiler's own lists, whatever order the tables are in |
| TxTheorems.OneTableGrouped | packages/solana-tx/src/transaction-assembler.ts:390-395 | with no table or one table the condition always holds |
| TxTheorems.InterleavedTablesSwapKeys | packages/solana-tx/src/transaction-assembler.ts:390-395 | two interleaved tables: a concrete message that parses with its second and third account keys swapped |
| TxGrouping.GroupedIff | packages/solana-tx/src/transaction-assembler.ts:332-395 | grouping, read off the inputs: in order of first mention neither the writable nor the readonly keys return to a table, and the readonly ones visit the tables in the writable ones' order |
| TxGrouping.KeysBackIff | packages/solana-tx/src/transaction-codec.ts:101-203 | compile then decompile gives the very instructions if and only if the moved keys visit the tables in that order, which a caller can check beforehand |
| TxTheorems.WireRoundTrip | packages/solana-tx/src/transaction-codec.ts:27-47 | splitting a wire transaction gives back its parts if and only if there is a message and the count prefix is not the v1 marker |
| TxTheorems.SignersBack | packages/solana-tx/src/transaction-codec.ts:50-65 | the reader's signers are the compiler's slots, payer first, exactly the keys mentioned as signers |
| TxWhole.MessageBack | packages/solana-tx/src/transaction-codec.ts:101-203 | for any accepted message, legacy or v0 and from whatever writer, the reader accepts its bytes and nothing trailing, and the result is exactly its header, keys, blockhash and instructions, the legacy key list being the whole account list |
| TxWhole.SignersOfMessage | packages/solana-tx/src/transaction-codec.ts:50-65 | the signers of a legacy or v0 message are its first keys, as many as its header says |
| TxWhole.LegacyIsVersioned | packages/solana-tx/src/transaction-codec.ts:101-203 | a legacy message reads as the same bytes behind a version byte and before an empty lookup section do |
| TxPrefix.PrefixFree | packages/solana-tx/src/transaction-codec.ts:101-203 | of two messages the reader accepts, neither is a beginning of the other: no accepted message can be cut short or extended |
| TxPrefix.SignersStay | packages/solana-tx/src/transaction-codec.ts:50-65 | the signers are read off the front, whatever follows |
| TxPrefix.VersionIs | packages/solana-tx/src/transaction-codec.ts:107-112 | only legacy and v0 messages are read; any other first byte is refused |
| TxPrefix.SplitIs | packages/solana-tx/src/transaction-codec.ts:38-46 | a wire transaction splits if and only if its count can be read and leaves at least one byte of message; signature i is the i-th run of 64 bytes behind the count |
| TxTheorems.AssembledSignaturesMatchSlots | packages/solana-tx/src/transaction-assembler.ts:637-688 | reading an assembled transaction succeeds if and only if its signers are not 129, and then pairs each signer key with the signature of the last signer given for it, whatever order the signers came in |
| TxTheorems.UnsignedIsBlank | packages/solana-tx/src/transaction-assembler.ts:565-574 | an unsigned transaction reads back under the same condition, with 64 zero bytes for each of its signers |
| TxAssemble.SignerIs | packages/solana-tx/src/transaction-assembler.ts:642-643 | of several signers given for one address the last one counts |
| IdlTypes.LeLoop | packages/pumpfun-events/src/idl-encoder.ts:11-20 | the shifting loop gives the low bytes of the two's complement, least first |
| IdlTypes.UintLELoop | packages/pumpfun-events/src/idl-decoder.ts:40-44 | the loop from the top byte down gives the little-endian value |
| IdlTypes.IntBack | packages/pumpfun-events/src/idl-decoder.ts:40-50 | every in-range integer of 1 to 16 bytes, signed or not, is read back |
| IdlLayout.IntLayout | packages/pumpfun-events/src/idl-encoder.ts:11-20 | byte i of an integer is its two's complement pattern divided by 256 to the i, modulo 256 |
| IdlLayout.ValueLayout | packages/pumpfun-events/src/idl-encoder.ts:22-49 | the bytes of each kind of value: one for a bool, four of length before a text, bytes or a list, items alone for an array, a 0 or a 1 and the value for an option |
| IdlLayout.DefinedLayout | packages/pumpfun-events/src/idl-encoder.ts:22-64 | a struct is its fields; an enum is the index of the first variant of the name in one byte, then that variant's fields |
| IdlLayout.CaseOkIff | packages/pumpfun-events/src/idl-encoder.ts:43-60 | an enum value is written if and only if the first variant of its name has no fields or the value brings fields that can be written; without fields nothing is asked of the value |
| IdlLayout.NamedLayout | packages/pumpfun-events/src/idl-encoder.ts:51-64 | each field is found under its camel-cased name and written in schema order |
| IdlLayout.CamelJoin | packages/pumpfun-events/src/idl-decoder.ts:52-54 | an underscore before a lower-case letter or digit goes, and the letter is capitalised |
| IdlLayout.CamelPlain | packages/pumpfun-events/src/idl-decoder.ts:52-54 | a name without such an underscore stays |
| IdlLayout.FindEventIs | packages/pumpfun-events/src/idl-decoder.ts:123-127 | the event decoded is the first one whose discriminator starts the payload |
| IdlLayout.NoEventIff | packages/pumpfun-events/src/idl-decoder.ts:123-127 | there is none if and only if no discriminator does |
| IdlEvents.Cursor.Take | packages/pumpfun-events/src/idl-decoder.ts:24-38 | advances by exactly the bytes returned, or fails at the end of data leaving the offset |
| IdlEvents.ReadValue | packages/pumpfun-events/src/idl-decoder.ts:62-98 | the cursor decoder follows the value specification and ends where it says |
| IdlEvents.ReadNamed | packages/pumpfun-events/src/idl-decoder.ts:100-112 | fields in order into one object |
| IdlEvents.ReadDefined | packages/pumpfun-events/src/idl-decoder.ts:114-120 | structs and enum variants |
| IdlEvents.DecodeIdlEvent | packages/pumpfun-events/src/idl-decoder.ts:123-137 | the first event with the discriminator, and fields until the payload ends |
| Utf8.TextBack | packages/pumpfun-events/src/idl-decoder.ts:76-77 | a text comes back from its encoding if and only if it does not start with a byte-order mark |
| Utf8.BytesBack | packages/pumpfun-events/src/idl-decoder.ts:76-77 | bytes come back from their decoding if and only if they are valid UTF-8 without a byte-order mark in front |
| IdlRoundTrip.ValueBack | packages/pumpfun-events/src/idl-encoder.ts:22-49 | every conforming value's encoding fits bytes and, wherever it lies in a buffer, decodes to the value with the cursor behind it |
| IdlRoundTrip.NamedBack | packages/pumpfun-events/src/idl-encoder.ts:51-64 | the same for field lists with distinct names |
| IdlDecoderFacts.ValueFuel | packages/pumpfun-events/src/idl-decoder.ts:62-98 | the recursion bound does not matter once it suffices |
| IdlDecoderFacts.ValueCut | packages/pumpfun-events/src/idl-decoder.ts:62-98 | cutting the buffer leaves a decoding alone or makes it fail at the end of data, as the cut falls |
| IdlEvents.ValueRoundTrip | packages/pumpfun-events/src/idl-decoder.ts:62-98 | decode after encode, with any bytes before and after |
| IdlEvents.EventRoundTrip | packages/pumpfun-events/src/idl-decoder.ts:123-137 | a whole event decodes to its fields up to a trailing run of empty ones, and comes back whole and complete if and only if its last field takes a byte |
| IdlEvents.PrefixPayload | packages/pumpfun-events/src/idl-decoder.ts:123-137 | a payload of the first k of n fields, empty ones included, decodes to those before its trailing empty run; complete says whether they are all |
| IdlEvents.CutPayload | packages/pumpfun-events/src/idl-decoder.ts:123-137 | a payload cut at any byte decodes if and only if the cut is at a field boundary, and otherwise fails at the end of data |
| IdlEvents.AppendedFields | packages/pumpfun-events/src/idl-decoder.ts:123-137 | decoding with appended fields is decoding without them and then going on |
| IdlEvents.OlderPayload | packages/pumpfun-events/src/idl-decoder.ts:123-137 | appending fields to the schema never changes what an older payload decodes to |
| IdlEvents.DecodeEncodeDiffers | packages/pumpfun-events/src/idl-encoder.ts:22-49 | decode then encode is not the identity: two concrete inputs |
| IdlCanonical.ReencodeIff | packages/pumpfun-events/src/idl-encoder.ts:22-64 | for every type and buffer, re-encoding a decoded value gives the bytes read if and only if they are canonical: bools and option tags 0 or 1, strings valid UTF-8 without a leading byte-order mark, no null inside a present option, each enum index the first of its name |
| IdlCanonical.EncodedIsCanonical | packages/pumpfun-events/src/idl-encoder.ts:22-64 | the encoder writes canonical bytes only |
| IdlCanonical.IntRewritten | packages/pumpfun-events/src/idl-encoder.ts:11-20 | every byte pattern of an integer, signed or not, is the one its value is written as |
| IdlCanonical.RepeatedFieldName | packages/pumpfun-events/src/idl-decoder.ts:100-112 | why field names must be distinct for that: a concrete input |
| Lots.ReduceLots | packages/solana-portfolio/src/accounting.ts:25-148 | the source's branches and loops, avg-cost written out, equal the specification |
| Lots.ScaleLots | packages/solana-portfolio/src/accounting.ts:56-85 | the avg-cost map and filter scale each lot by the sold fraction, floored |
| Lots.ConsumeLoop | packages/solana-portfolio/src/accounting.ts:91-136 | the FIFO loop over toTake, basis, proceeds and kept lots |
| LotFacts.ReduceConserves | packages/solana-portfolio/src/accounting.ts:87-147 | FIFO and LIFO conserve tokens and basis exactly and fail exactly on an oversell |
| LotFacts.ReduceReports | packages/solana-portfolio/src/accounting.ts:41-147 | a sale reports the proceeds it was given, and the basis as unresolved if and only if a lot it took from is, or at average cost any lot |
| LotFacts.NothingSold | packages/solana-portfolio/src/accounting.ts:25-54 | selling nothing changes and reports nothing; an empty position is refused by FIFO and LIFO and accepted at average cost |
| LotFacts.LifoIsReversedFifo | packages/solana-portfolio/src/accounting.ts:87-147 | LIFO is FIFO on the reversed lots, reversed back |
| LotFacts.FifoLeaves | packages/solana-portfolio/src/accounting.ts:87-147 | what FIFO leaves does not depend on the proceeds |
| LotFacts.LeavesShape | packages/solana-portfolio/src/accounting.ts:87-147 | whole lots from the front, one cut lot, the rest untouched |
| LotFacts.SplitSell | packages/solana-portfolio/src/accounting.ts:87-147 | what selling a then b leaves is what selling a+b leaves, or one lamport of basis more, and that only in a lot both sales cut |
| LotFacts.SplitSale | packages/solana-portfolio/src/accounting.ts:87-147 | the same of two FIFO sales, whatever they earn |
| LotFacts.ProceedsAllocation | packages/solana-portfolio/src/accounting.ts:106-116 | allocated proceeds never exceed proceeds, and fall short by at most lots touched minus one when no touched lot exceeds the sale |
| LotFacts.LargerLotScalesProceeds | packages/solana-portfolio/src/accounting.ts:106-113 | for every first lot larger than the sale, exactly the sold fraction of the proceeds is allocated and only that lot is touched |
| LotFacts.AvgCostBounds | packages/solana-portfolio/src/accounting.ts:41-85 | avg-cost leaves at least total minus sold and at most lots minus one more; basis never shrinks; a full sale is exact |
| LotAverage.AvgCostIs | packages/solana-portfolio/src/accounting.ts:56-66 | the cost charged is the sold fraction of the whole basis, rounded toward zero, bracketed from both sides; realized is the proceeds less that |
| LotAverage.AvgCostKeeps | packages/solana-portfolio/src/accounting.ts:67-85 | what each lot keeps: its tokens less the sold fraction, floored, its basis less the fraction of its tokens that left, floored; emptied lots go |
| LotAverage.AvgCostDrift | packages/solana-portfolio/src/accounting.ts:56-85 | charged cost plus remaining basis exceed the whole basis by less than the sum of the lots' unit prices and two lamports a lot |
| Reconstructor.Walk | packages/solana-portfolio/src/reconstructor.ts:178-223 | the paging loop equals one scan of the listing, early stop included |
| Reconstructor.ReplayLoop | packages/solana-portfolio/src/reconstructor.ts:144-154 | inflows append, outflows reduce by what is held |
| Reconstructor.Reconstruct | packages/solana-portfolio/src/reconstructor.ts:130-172 | walk, replay, reconcile, and the unaccounted amount |
| Reconstructor.RebuildSumsToBalance | packages/solana-portfolio/src/reconstructor.ts:130-172 | for any walked history, continuous or not, the lots sum exactly to the current balance |
| ReplayFacts.OutflowLeaves | packages/solana-portfolio/src/reconstructor.ts:150-155 | an outflow takes the oldest tokens, at most what is held, and leaves exactly the rest with its basis |
| ReplayFacts.ReplayIsQueue | packages/solana-portfolio/src/reconstructor.ts:143-156 | over any changes, continuous or not, the lots are, basis aside, the starting lots and the inflows in order with some of the oldest tokens dropped from the front |
| ReplayFacts.RebuildIsQueue | packages/solana-portfolio/src/reconstructor.ts:130-172 | the rebuilt lots are, by signature and amount, all lots of the walk in order with the oldest tokens dropped down to the current balance, or everything still held and one unresolved lot for the difference |
| ReplayFacts.ContinuousHeld | packages/solana-portfolio/src/reconstructor.ts:143-156 | on a continuous history what is held is the newest balance, and what was dropped from the front is the sum of the outflows |
| ReplayFacts.UnaccountedIs | packages/solana-portfolio/src/reconstructor.ts:166-172 | when every inflow is resolved, the unaccounted amount is what is left of the balance before the walk and what the walk does not explain |
| ReplayFacts.ScanReads | packages/solana-portfolio/src/reconstructor.ts:178-223 | the full walk collects exactly the changes of the landed transactions down to the cutoff and reports the slot of the oldest of them |
| Reconstructor.EarlyStopIsPrefix | packages/solana-portfolio/src/reconstructor.ts:178-223 | stopping early yields the changes up to the newest opening and no others |
| Reconstructor.OlderHistoryIsGone | packages/solana-portfolio/src/reconstructor.ts:141-154 | history before an opening leaves no lot behind |
| Reconstructor.EarlyStopRefinesFullReplay | packages/solana-portfolio/src/reconstructor.ts:130-172 | on a continuous history ending at the current balance, the early-stopping walk gives the lots of full replay |
| ReplayFacts.EarlySlot | packages/solana-portfolio/src/reconstructor.ts:208-216 | an early stop reports the slot of the opening it stopped at |
| Ledger.ApplyTrade | packages/solana-portfolio/src/store-file.ts:193-236 | the critical section's effect on the loaded copy; a throwing sale changes nothing |
| LedgerJobs.ChangeLoaded | packages/solana-portfolio/src/store-file.ts:86-236 | the four bodies that run under the mutex: landed trade, observation, rebuild, basis correction |
| JobFacts.ObserveIs | packages/solana-portfolio/src/store-file.ts:86-113 | observing leaves positions and totals alone; each held mint without a position gets one with the reconstructed lots and the slot of the newest, in the order of the holdings; the method changes only to one given |
| JobFacts.RebuildIs | packages/solana-portfolio/src/store-file.ts:120-140 | a rebuilt position has the reconstructed lots and the slot of the newest, in its place or last; nothing else changes |
| JobFacts.CorrectIs | packages/solana-portfolio/src/store-file.ts:143-171 | a correction sets one lot's basis and clears its mark and changes nothing else; refused exactly without a position or without that lot |
| JobFacts.MethodIsChosen | packages/solana-portfolio/src/store-file.ts:86-216 | over any jobs a wallet sells by the method the last observation chose |
| LedgerJobs.ReplayAdds | packages/solana-portfolio/src/store-file.ts:86-236 | whatever jobs run, and under every accounting method: one position per mint, and total realized is the sum over the positions' mints |
| LedgerJobs.ReplayIsFold | packages/solana-portfolio/src/store-file.ts:190-260 | where only trades landed, the replay is the ledger's own history of them |
| Ledger.PutSums | packages/solana-portfolio/src/store-file.ts:232-236 | replacing one position changes open basis and realized totals by exactly that position's change |
| Ledger.ApplyBalanced | packages/solana-portfolio/src/store-file.ts:193-236 | on balanced books a trade is rejected exactly when it oversells, and otherwise keeps them balanced |
| Ledger.HistoryBalanced | packages/solana-portfolio/src/store-file.ts:190-260 | from an empty FIFO or LIFO wallet, any trades: lots per mint are the sum of deltas, each mint's realized total is the sum of its sales' realized results and the wallet's the sum over mints, open plus consumed basis is the basis bought |
| Ledger.EarnedAfter | packages/solana-portfolio/src/store-file.ts:214-230 | a sale adds the realized result it emits to its mint's total and to the wallet's, and nothing else moves them |
| LedgerEarnings.BuyAdds | packages/solana-portfolio/src/store-file.ts:205-214 | a buy appends one lot of its own tokens at the SOL it cost; other positions and all totals stay |
| LedgerEarnings.SaleTakes | packages/solana-portfolio/src/store-file.ts:215-231 | which lots a sale takes is the wallet's own accounting: oldest first by default and under FIFO, newest first under LIFO, a share of each at average cost |
| LedgerEarnings.SaleEarns | packages/solana-portfolio/src/store-file.ts:215-231 | a FIFO or LIFO sale: realized result plus basis taken out never exceeds the SOL received, and falls short by at most the lots touched minus one when no touched lot exceeds the sale |
| LedgerEarnings.AvgSaleEarns | packages/solana-portfolio/src/store-file.ts:215-231 | an average-cost sale: realized result plus charged cost is exactly the SOL received |
| LedgerEarnings.HistoryEarns | packages/solana-portfolio/src/store-file.ts:193-236 | the same two bounds summed over a wallet's whole history |
| LedgerRuns.Store.WithMutex | packages/solana-portfolio/src/store-file.ts:343-350 | chaining on the wallet's mutex |
| LedgerRuns.Store.LoadWallet | packages/solana-portfolio/src/store-file.ts:190-192 | load once the awaited chain has settled; an absent file is an empty wallet |
| LedgerRuns.Store.WriteWallet | packages/solana-portfolio/src/store-file.ts:205-238 | write or refuse, from the copy that was loaded |
| LedgerRuns.Store.FinishCall | packages/solana-portfolio/src/store-file.ts:238-260 | audit and release |
| LedgerRuns.RunIsSerial | packages/solana-portfolio/src/store-file.ts:343-355 | any interleaving of concurrent trades, observations, rebuilds and corrections: each wallet file is the decided calls applied one by one in call order, and each call was stored or refused as that serial execution does |
| LedgerRuns.StoredBooksAdd | packages/solana-portfolio/src/store-file.ts:86-260 | after any such interleaving the stored totals add up, mint by mint |
| LedgerRuns.AppliedAreCommitted | packages/solana-portfolio/src/store-file.ts:190-260 | the serial history's effective trades are exactly the stored calls |
| LedgerRuns.StoredBooksBalance | packages/solana-portfolio/src/store-file.ts:190-260 | on a wallet that sees landed trades only, beside any jobs on others: serial and conserving together, with rejection exactly on an oversell of what earlier stored calls left |
| LedgerRuns.NeverWedged | packages/solana-portfolio/src/store-file.ts:343-355 | while a call on a wallet is unfinished, some call on it can step |
| CallFacts.OutcomeIs | packages/solana-portfolio/src/store-file.ts:190-260 | after any schedule each call has taken at most its three steps and stands as they say: refused exactly when the serial execution refuses it, not stored when a read or write failed, otherwise stored, with or without its audit line |
| CallFacts.AllGetDone | packages/solana-portfolio/src/store-file.ts:343-355 | whatever is in flight, finitely many steps finish every call made |
| Logs.JoinSlices | packages/solana-events/src/parse-logs.ts:271-281 | slices joined left to right, the first bad one refused |
| Logs.Chunk.Record | packages/solana-events/src/parse-logs.ts:245-346 | what a line does to the innermost open chunk, and which error it raises |
| Logs.Parser.OnInvoke | packages/solana-events/src/parse-logs.ts:156-184 | a new chunk object under the innermost open one, which keeps the line too |
| Logs.Parser.OnTerminator | packages/solana-events/src/parse-logs.ts:186-243 | the innermost chunk ends whatever program is named; its parent keeps the line |
| Logs.Parser.OnOther | packages/solana-events/src/parse-logs.ts:245-343 | recorded in the open chunk, or an error outside every invocation |
| Logs.Parser.TruncateOpen | packages/solana-events/src/parse-logs.ts:345-353 | chunks still open are marked truncated |
| Logs.ParseLogs | packages/solana-events/src/parse-logs.ts:142-356 | the aliased chunk objects built in place hold exactly the trees of the parser on values |
| LogFacts.PreorderIsInvokes | packages/solana-events/src/parse-logs.ts:142-356 | on any lines the pre-order walk is the invocations in order, one chunk each, each chunk being what bracket matching from its own line says |
| LogFacts.ParentIsInnermostOpen | packages/solana-events/src/parse-logs.ts:172-182 | a chunk's parent is the latest invocation that nothing had ended yet |
| LogFacts.Outcomes | packages/solana-events/src/parse-logs.ts:186-243 | success, failure and reason follow the matching terminator; marked truncated exactly without one (or on a failure with that very reason) |
| LogFacts.Contents | packages/solana-events/src/parse-logs.ts:58-63 | raw lines are a chunk's own lines and its direct children's first and last lines; logs and payloads are its own |
| LogFacts.RawCompleteIff | packages/solana-events/src/parse-logs.ts:58-63 | a raw trace is every line from the invoke to its terminator if and only if the direct children did nothing and no own data line is undecodable |
| LogFacts.ChildLinesMissing | packages/solana-events/src/parse-logs.ts:172-180 | a concrete trace: what a child logs and calls is not in its parent's raw lines, contrary to the comment |
| LogReports.ErrorsAre | packages/solana-events/src/parse-logs.ts:142-356 | on any lines the parse errors are exactly the lines that are wrong for the programs open at that point, each with its reason, in line order; the log counts as truncated exactly when a line says so |
| LogReports.Reports | packages/solana-events/src/parse-logs.ts:142-356 | compute units and return data are those of the invocation's own last such line, whatever nested programs report; a success has no failure reason |
| LogReports.JoinedIs | packages/solana-events/src/parse-logs.ts:183-226 | slices join to their concatenation if and only if all decode; otherwise the first bad one is named |
| LogRoundTrip.ParsePrint | packages/solana-events/src/parse-logs.ts:142-356 | parsing the lines printed for any invocation forest gives that forest, no errors, nothing truncated |
| LogRoundTrip.CallRun | packages/solana-events/src/parse-logs.ts:142-356 | a whole invocation adds one finished tree and two raw lines, in any parser state |
| Registry.EventDecoderRegistry.Decode | packages/solana-events/src/registry.ts:118-184 | events are the chunks' own events in pre-order, unknowns exactly the unknown ones among them |
| Registry.EventDecoderRegistry.Visit | packages/solana-events/src/registry.ts:122-172 | no decoder, a throwing decoder, and results with missing fields filled in |
| Registry.WalkFollowsTrace | packages/solana-events/src/cpi-decoder.ts:51-67 | the walk yields every invocation once in order, with its depth and the path of the latest open invocation extended by its own program |
| RegistryFacts.EventsByInvocation | packages/solana-events/src/registry.ts:118-172 | the events of any parsed log are one block an invocation, in order of invocation, each what the decoder of the invoked program makes of that chunk |
| RegistryFacts.UnknownsAre | packages/solana-events/src/registry.ts:118-184 | the unknowns are exactly the unknown events among the events, in their order |
| Geyser.Subscription.Data | packages/solana-connectivity/src/geyser-client.ts:543-548 | an arrival is queued, dropping the oldest when full, and wakes the loop |
| Geyser.Subscription.DrainHead | packages/solana-connectivity/src/geyser-client.ts:625-648 | from the loop head to the next await: gap detection, then the handler |
| Geyser.Subscription.Settle | packages/solana-connectivity/src/geyser-client.ts:632-680 | what follows each await: last slot, handler done, checkpoint when due |
| Geyser.Subscription.CheckpointLoaded | packages/solana-connectivity/src/geyser-client.ts:508-521 | the stored checkpoint counts only while no slot is known |
| Geyser.TiledOnce | packages/solana-connectivity/src/geyser-client.ts:627-642 | a tiling covers each slot after its start exactly once, marks ascending |
| GeyserRuns.QueueKeepsNewest | packages/solana-connectivity/src/geyser-client.ts:601-612 | over any run the queue is the newest arrivals within capacity; every earlier one was handled in order or counted dropped; the loop never sleeps on work |
| GeyserReports.RunAccounts | packages/solana-connectivity/src/geyser-client.ts:597-683 | over any run: one drop report a drop, numbered from one; one gap report a gap mark, with its bounds; the update count is that of the updates done on top of the loaded one; and with a store one checkpoint at each multiple of the period reached since a slot is known, in order, for the slot and count of its time |
| GeyserRuns.AccountedOnce | packages/solana-connectivity/src/geyser-client.ts:621-683 | over any interleaving a subscription starts at its loaded checkpoint or just below its first slot update, and each slot from there to its tip is in exactly one mark |
| GeyserRuns.LiveStart | packages/solana-connectivity/src/geyser-client.ts:508-642 | the live count starts at the stored checkpoint if and only if its load came before the first slot update the loop took; otherwise just below that slot |
| GeyserRuns.CoveredIff | packages/solana-connectivity/src/geyser-client.ts:508-683 | after any moves and restarts no slot between the first known and the last reached is missing if and only if each subscription starts at or below the first known slot or at a slot some subscription accounts for |
| GeyserRuns.AlwaysCoveredIff | packages/solana-connectivity/src/geyser-client.ts:508-683 | no slot is missing at any moment if and only if each subscription starts no further than the furthest slot reached before it |
| GeyserRuns.NoSlotLost | packages/solana-connectivity/src/geyser-client.ts:508-683 | across crashes and restarts with checkpoints loaded in time, no slot after the first known is missing at any moment |
| GeyserRuns.LateLoad | packages/solana-connectivity/src/geyser-client.ts:508-521 | one subscription on a stored checkpoint misses nothing after it if and only if the load came in time or the first slot update is at most the checkpoint's successor |
| GeyserRuns.SlotBeatsLoad | packages/solana-connectivity/src/geyser-client.ts:508-521 | a slot update that beats the load: a concrete slot in no mark |
| GeyserRuns.RestartFillsHole | packages/solana-connectivity/src/geyser-client.ts:508-521 | a hole that a restart from the old checkpoint fills: why the two conditions differ |
| DropOldest.KeptArrival | packages/solana-connectivity/src/geyser-client.ts:601-612 | adding to a full queue shifts out one oldest item and keeps the account of arrivals |
| Backfill.IterateSignatures | packages/solana-connectivity/src/historical-backfill.ts:213-237 | pages yield the whole listing after the cursor, in order, once, or stop on the page budget |
| Backfill.WalkRange | packages/solana-connectivity/src/historical-backfill.ts:294-303 | the lazily paged walk stops at the first older slot |
| Backfill.WalkedIsInRange | packages/solana-connectivity/src/historical-backfill.ts:294-303 | against a newest-first listing that stop loses nothing |
| GapRecovery.FetchEventsForProgram | packages/solana-connectivity/src/historical-backfill.ts:286-327 | oldest first, skipping errored and missing transactions, decoder failures as unknown events |
| GapRecovery.GapBackfill | packages/solana-connectivity/src/historical-backfill.ts:343-350 | one range walk per program, the upper slot excluded |
| GeyserReports.ClosedIsOver | packages/solana-connectivity/src/geyser-client.ts:543-595 | once closed, a subscription neither queues nor takes nor drops another update, whatever arrives or settles |
| GeyserReports.CatchesUp | packages/solana-connectivity/src/geyser-client.ts:621-683 | from any state a run reaches, finitely many settled awaits bring the loop to rest, with nothing queued unless the subscription is closed |
| GapEvents.DeliveredAre | packages/solana-connectivity/src/historical-backfill.ts:286-350 | what a gap delivers, event by event: program by program, exactly the listed signatures of the gap's slots, oldest first, and of each the events of its transaction, one unknown for a decoder that threw, nothing for an errored or missing one |
| GapRecovery.RefetchedIsMissed | packages/solana-connectivity/src/historical-backfill.ts:286-350 | all gaps of a stream together refetch exactly what they missed, each once, oldest first overall |
| GapRecovery.StreamRecovered | packages/solana-connectivity/src/historical-backfill.ts:286-350 | over any run: a listed signature in the covered slots is either in a live slot or refetched exactly once |
| SignalQueue.Queue.PushSignal | packages/solana-signals/src/signal-queue.ts:37-55 | sweep, duplicate check, remember, buffer, dispatch |
| SignalQueue.Queue.EvictExpiredDedup | packages/solana-signals/src/signal-queue.ts:83-89 | the early-break loop over insertion order |
| SignalQueue.Queue.HandlerSettled | packages/solana-signals/src/signal-queue.ts:64-81 | the next subscriber of the round, or the next signal |
| SignalQueue.SweepIsFilter | packages/solana-signals/src/signal-queue.ts:83-89 | the early break is a full filter if and only if no expired key stands behind a live one |
| SignalQueue.DedupAgreesWithHistory | packages/solana-signals/src/signal-queue.ts:37-55 | over any run, duplicates are exactly the ids among the last dedupWindow accepted with TTL left if and only if no expired key stands behind a live one |
| SignalQueue.PushFollowsHistory | packages/solana-signals/src/signal-queue.ts:37-55 | under a clock that never goes back, a push is dropped if and only if its id is recent, and otherwise accepted and remembered |
| SignalQueue.ClockGoesBack | packages/solana-signals/src/signal-queue.ts:83-89 | with a clock that goes back, a concrete push is dropped for an expired id |
| SignalQueue.RunDelivers | packages/solana-signals/src/signal-queue.ts:37-81 | over any interleaving, accepted signals are dispatched in order but for those evicted oldest first, no one gets a signal twice, and dispatch does not sleep on work |
| SignalQueue.RoundComplete | packages/solana-signals/src/signal-queue.ts:64-81 | before the next signal every current subscriber has had the one in hand |
| SignalLiveness.SubscribedIff | packages/solana-signals/src/signal-queue.ts:57-81 | after any run a name is subscribed if and only if its last word was a subscription, and each name once |
| SignalLiveness.Drains | packages/solana-signals/src/signal-queue.ts:64-81 | from any reachable state finitely many settled handlers bring the queue to rest, with nothing buffered unless nobody is subscribed |
| Curve.BuyPays | packages/pumpfun-protocol/src/curve/math.ts:46-53 | what a buy pays, exactly: a fee of that share of the SOL, rounded down, and then every token the product allows |
| Curve.SellPays | packages/pumpfun-protocol/src/curve/math.ts:59-66 | what a sale pays, exactly: all the SOL the product allows less a fee of that share, rounded down |
| Curve.BoughtProduct | packages/pumpfun-protocol/src/curve/math.ts:46-53 | after a buy at any fee the product is at most k and above k minus the new SOL reserve |
| Curve.SoldProduct | packages/pumpfun-protocol/src/curve/math.ts:59-66 | the same for a sell |
| Curve.ProductNeverGrows | packages/pumpfun-protocol/src/curve/math.ts:46-66 | over any run of trades the product never increases |
| Curve.SplitBuy | packages/pumpfun-protocol/src/curve/math.ts:46-53 | a fee-free purchase in n parts gains at least 0 and at most n - 1 token units over one purchase |
| Curve.RoundTrip | packages/pumpfun-protocol/src/curve/math.ts:46-66 | a fee-free buy with x sold back returns between x and x + ceil((vSol + x) / vToken) |
| Curve.BuyMonotone | packages/pumpfun-protocol/src/curve/math.ts:46-53 | more in and a lower fee never pay less |
| Curve.SellMonotone | packages/pumpfun-protocol/src/curve/math.ts:59-66 | more in and a lower fee never pay less |
| Curve.BuyRange | packages/pumpfun-protocol/src/curve/math.ts:46-53 | between nothing and the whole reserve |
| Curve.SellRange | packages/pumpfun-protocol/src/curve/math.ts:59-66 | between nothing and the whole reserve |
| Curve.CurveIsPool | packages/pumpfun-protocol/src/pumpswap/math.ts:54-88 | the pool is the curve with quote for SOL and base for the token, at every fee |
| Curve.SellIsBuySwapped | packages/pumpfun-protocol/src/curve/math.ts:59-66 | without a fee, selling is buying with the reserves swapped |
| Resolution.ResolveLoop | packages/pumpfun-protocol/src/instructions/idl-instruction.ts:37-65 | the loop ends, each productive pass leaving fewer accounts unresolved, with the specified map or error |
| Resolution.ResolveIsLeast | packages/pumpfun-protocol/src/instructions/idl-instruction.ts:37-61 | with names unique outside the known ones the result is the least map closed under derivation; it is an error if and only if every closed map meets one |
| Resolution.OrderIrrelevant | packages/pumpfun-protocol/src/instructions/idl-instruction.ts:37-61 | with names unique outside the known ones, the order in which accounts are listed does not matter |
| Resolution.RepeatedNames | packages/pumpfun-protocol/src/instructions/idl-instruction.ts:37-61 | for any list of accounts with fixed addresses, some relisting changes what a name resolves to if and only if the name is not known and two of its accounts differ in address |
| ResolutionFacts.DeriveIs | packages/pumpfun-protocol/src/instructions/idl-instruction.ts:42-60 | an account's address follows from its fixed address, from being the program, or from known seeds and a known owner, and in no other way; each error exactly when its cause is there |
| ResolutionFacts.ResolvedFollow | packages/pumpfun-protocol/src/instructions/idl-instruction.ts:37-65 | for any listing, names repeated or not: every resolved key was known or follows from the resolved ones, and nothing more follows |
| Resolution.BuildIdlInstruction | packages/pumpfun-protocol/src/instructions/idl-instruction.ts:19-84 | the whole builder: lookup, resolution, metas, data |
| Resolution.BuildIffDerivable | packages/pumpfun-protocol/src/instructions/idl-instruction.ts:19-84 | succeeds if and only if derivation is error-free, every account follows from what is known, and the arguments encode; keys in IDL order with their flags |
| ResolutionFacts.BuiltIs | packages/pumpfun-protocol/src/instructions/idl-instruction.ts:19-84 | every built instruction: the first schema of the name, keys in IDL order with grounds and flags, the caller's accounts after them, the discriminator before the encoded arguments |
| ResolutionFacts.AsksFor | packages/pumpfun-protocol/src/instructions/idl-instruction.ts:67-69 | the account asked for is the first one in IDL order that nothing resolvable gives an address |
| ResolutionFacts.MissingName | packages/pumpfun-protocol/src/instructions/idl-instruction.ts:26-27 | an unknown instruction is an error exactly when no schema has the name |
| Resolution.PartialFillAppends | packages/pumpfun-protocol/src/instructions/idl-instruction.ts:75-79 | leaving partial_fill out keeps the older bytes as a prefix |
| Breaker.HttpClient.BreakerPreCheck | packages/solana-core/src/http-client.ts:465-481 | admission and its effect on the breaker |
| Breaker.HttpClient.Failed | packages/solana-core/src/http-client.ts:492-511 | one-strike reopening while half-open, threshold while closed |
| Breaker.HttpClient.Succeeded | packages/solana-core/src/http-client.ts:483-490 | closes a half-open circuit |
| Breaker.Request | packages/solana-core/src/http-client.ts:209-326 | one request records exactly one outcome, after the first final answer or the whole budget |
| Breaker.RunSafe | packages/solana-core/src/http-client.ts:465-519 | over any interleaving: probe flag if and only if half-open; one admission per half-open spell; none within recoveryMs of an opening; closed means fewer failures in a row than the threshold |
| Breaker.OpensExactly | packages/solana-core/src/http-client.ts:483-511 | opens exactly on the failure completing a streak of the threshold or ending a half-open spell |
| Breaker.EventsAlternate | packages/solana-core/src/http-client.ts:465-511 | over any run no state event repeats the one before, and the last one is the state |
| Breaker.SettlingIs | packages/solana-core/src/http-client.ts:232-311 | a request stops at its first answer that is neither 429, nor 5xx, nor an error, and only a 2xx there is a success |
| Breaker.SecondProbe | packages/solana-core/src/http-client.ts:465-511 | a start puts a second probe in flight if and only if it opens a spell while an earlier spell's probe is in flight |
| Breaker.OutlivesExactly | packages/solana-core/src/http-client.ts:465-511 | at each step, a probe comes to outlive its spell if and only if another request in flight completes while half-open |
| Breaker.OutlivesIff | packages/solana-core/src/http-client.ts:465-511 | over any run, a probe has outlived its spell if and only if it is in flight and such a straggler ended the spell |
| Breaker.EverTwoProbes | packages/solana-core/src/http-client.ts:465-511 | a run ever has two probes in flight if and only if some start opened a spell beside an earlier spell's probe |
| Breaker.OneProbe | packages/solana-core/src/http-client.ts:460-464 | with no straggler completing during a spell there is never more than one probe in flight |
| Breaker.TwoProbesInFlight | packages/solana-core/src/http-client.ts:465-511 | a straggler ends a spell early and two probes are in flight: a concrete run |
| Pool.HealthState.RecordError | packages/solana-connectivity/src/health-state.ts:76-86 | thresholds in descending order, cooldown doubling while unhealthy |
| Pool.HealthState.TakeProbe | packages/solana-connectivity/src/health-state.ts:106-110 | due exactly when unhealthy and past the time, which it then moves |
| Pool.RpcPool.PickEndpoint | packages/solana-connectivity/src/rpc-pool.ts:396-426 | three passes from the cursor over the endpoint objects |
| Pool.RpcPool.Call | packages/solana-connectivity/src/rpc-pool.ts:288-383 | the attempt loop: pick, answer, one health report each, stop at the first answer |
| Pool.Tiers | packages/solana-connectivity/src/rpc-pool.ts:396-426 | a worse tier only when every better one is empty; nothing exactly when nothing is callable |
| PoolFairness.Fair | packages/solana-connectivity/src/rpc-pool.ts:396-426 | with health unchanged, any m consecutive picks over the m endpoints of the tier in use return each exactly once |
| PoolFairness.TakesTurns | packages/solana-connectivity/src/rpc-pool.ts:396-426 | in every tier, probes included, the pick is the first eligible endpoint from the cursor on, going round, and the cursor moves just past it |
| PoolFairness.RetryGoesElsewhere | packages/solana-connectivity/src/rpc-pool.ts:288-383 | whatever the picked endpoint reports, the next pick is another endpoint while one is healthy |
| PoolFairness.RunSane | packages/solana-connectivity/src/health-state.ts:40-110 | over any run one endpoint's probe claims are at least 5000 ms apart, and health follows the error count |
| PoolFairness.NeverDownForGood | packages/solana-connectivity/src/health-state.ts:76-110 | sixty seconds after the last event some endpoint is callable |
| PoolFairness.HealthIs | packages/solana-connectivity/src/health-state.ts:76-99 | over any run: errors are the failures since the last answer, healthy if and only if fewer than five, unhealthy if and only if a transport failure came tenth in a row or later |
| PoolFairness.TurnsUnhealthy | packages/solana-connectivity/src/health-state.ts:76-99 | a step makes an endpoint unhealthy if and only if it reports a transport failure with at least nine failures in a row before it; rate limits never do |
| PoolFairness.CooldownIs | packages/solana-connectivity/src/health-state.ts:76-110 | over any run the cooldown is 5000 ms doubled once per failure reported while unhealthy since the last success, capped at 60000 |
| PoolFairness.ProbeAfterFailure | packages/solana-connectivity/src/health-state.ts:76-110 | a failure that leaves an endpoint unhealthy puts its next probe exactly that cooldown off |
| PoolFairness.CallIsSteps | packages/solana-connectivity/src/rpc-pool.ts:288-383 | a call is a run of picks and reports, so every run property covers calls |
| PoolFairness.CallOutcome | packages/solana-connectivity/src/rpc-pool.ts:288-383 | a call ends with its first result or method error, every attempt before it having failed; out of budget it reports the last failure; nothing callable means all unhealthy with no probe due |
| Bundles.BundleAccumulator.AddEntry | packages/solana-executor/src/bundle-accumulator.ts:28-40 | push, flush at the maximum, or arm a timer |
| Bundles.BundleAccumulator.FlushGroup | packages/solana-executor/src/bundle-accumulator.ts:42-46 | the group leaves the map and its timer is cleared |
| Bundles.BundleAccumulator.FlushSettles | packages/solana-executor/src/bundle-accumulator.ts:47-52 | each promise of the flight settles with its own signature, an empty one if missing, or the error |
| Bundles.RunSound | packages/solana-executor/src/bundle-accumulator.ts:28-53 | over any interleaving: per group, flushes then waiting entries are exactly the added ones in order; flush sizes 1 to the maximum; every group left has a live timer and fewer than the maximum |
| Bundles.InExactlyOneFlush | packages/solana-executor/src/bundle-accumulator.ts:28-53 | every entry is in exactly one flush, once, or still waits |
| Bundles.SettlesOnce | packages/solana-executor/src/bundle-accumulator.ts:42-53 | a promise settles at most once, and exactly once when nothing is left pending |
| Bundles.SettledByIndex | packages/solana-executor/src/bundle-accumulator.ts:42-53 | over any run, the promise of entry i of a flight is settled exactly when the flight has landed, once, and with signature i, an empty one past the end, or the error |
| Bundles.WaitingGetsOut | packages/solana-executor/src/bundle-accumulator.ts:28-53 | a waiting group always has a live timer; when it fires everything waiting leaves in one flight, in order, and each promise gets its own signature |

## Left out

- Network, files, gRPC, RPC shapes, clocks and event listeners: their results and times are step inputs; listeners that call back into an object are not modelled.
- Cryptography: signatures are given bytes, and address search is an arbitrary function that may fail.
- Regular expressions and base64: log lines arrive classified, payload slices decoded or refused.
- Transactions of version 1 (first byte 0x81): the repository reads but never writes them; the reader treats them as unsupported here.
- Bit operations are written as arithmetic on unbounded integers; numbers beyond 2^53 held in JavaScript numbers are not rounded.
- Keys are their 32 bytes; the maps the source keys by base58 text are keyed by those bytes, and a lookup table given without its address is a table with the zero key.
- JavaScript's coercions of ill-typed values in the IDL encoder (a number for a boolean, a missing field): the model refuses such values.
- decodeIdlAccount and its layout provenance rules, and the SPL, Metaplex and Token-2022 readers.
- Price, price impact, graduation percentage, latency averages, priority fees and Sharpe ratio: floating point or one expression.
- The classification of inflows in the cold-start replay: each transaction carries the lot it would be classified as.
- getBlocks chunking, and the `until` option of signature paging, which the range walk does not use.
- The signal queue's drain helper and the bundle accumulator's scheduling delay: a timer may fire at any step.
- Retry delays and metrics of the HTTP client and pool; a client without a breaker admits everything and records nothing.
- pinForWrite: it orders endpoints by a floating-point average.
- Reconstructor.Walk: takes a fixed listing with distinct signatures, so the source's guard against repeated pages never has work to do.
- Reconstructor.Unseen: for the same reason its page holds nothing already seen.
- Backfill.WalkRange: the listing is fixed during the walk and its signatures are distinct.
- Pool.RpcPool.Call: no other call moves the pool between its awaits; interleaved calls are covered by the runs of PoolFairness.
- Breaker.Request: no other request moves the breaker between its awaits; interleaved requests are covered by the runs of RunSafe.
- Curve.BoughtProduct: reserves are natural numbers and fees at most 10000 basis points, as on chain.
- TxTheorems.CompileDecompile: counts and indexes fit their bytes, which the code does not check but silently truncates; `Fits` states the bounds.
- IdlRoundTrip.ValueBack: values conform to their types (a text starting with a byte-order mark does not, by `Utf8.TextBack`) and `fuel` bounds the nesting of defined types; `IdlDecoderFacts.ValueFuel` shows the bound is immaterial.
- TxReader.DecompileMessage: version 1 messages give an error where the source reads them.
- TxReader.DecodeTransaction: likewise.
- TxReader.MessageSigners: likewise.
- Strings with unpaired surrogates, which TextEncoder replaces and TextDecoder never gives.
- IdlCanonical.ReencodeIff: field names of a struct or variant differ after camel-casing, as generated schemas have them; `IdlCanonical.RepeatedFieldName` shows that it is needed.
- LedgerJobs.ChangeLoaded: what the reconstructor answers is part of the job; its failure is a failed write.
- Backfill.IterateSignatures: the listing is fixed between pages and the `until` option is not used.
