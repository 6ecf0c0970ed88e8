# CipherShed core, verified

A Dafny model of the parts of CipherShed that carry its data: the encryption thread pool, the cipher modes
and the field arithmetic under them, the DEFLATE decoder, the formatting pipeline with its writer thread and
the FAT layout, the volume header, and the keyfile pool, CRC and history file. Code that changes buffers,
tables, objects or arrays step by step is modelled by methods on arrays and classes, proved against functions;
protocols between threads are atomic-step machines, and their theorems hold for every interleaving.

Files, by source file:

- `EncryptionThreadPool.c`: `FragmentPlan`, `ThreadPool` (the machine: any number of callers, up to 64 workers, 128
  slots, two mutexes, auto-reset events), `ThreadPoolInvariant`, `ThreadPoolWorkers`, `ThreadPoolCountdown`,
  `ThreadPoolCallers`, `ThreadPoolFinish` (every step keeps the invariant), `ThreadPoolTheorem`,
  `ThreadPoolProgress`, `ThreadPoolTermination`.
- `Inflate.c`: `BitStrings`, `Bytes`; the specification `CanonicalCode` and `Deflate` (sections 3.2.2 to 3.2.7 of
  RFC 1951, a bit at a time, unbounded history); the table builder `HuftTables`, `HuftSteps`, `HuftCounts`, `HuftMake`,
  `HuftCodes`; the decoder `Inflater`, `InflateBlocks`, `InflateStream`, `DeflateLonger`; `DeflateRefused`; the
  writer's side `DeflateWriter`, `FixedCode`, `DeflateRoundTrip` (whatever is written is read back) and `DeflateExactly`
  (and nothing else).
- `Xts.c`: `XtsSpec` (IEEE Std 1619-2007, sections 5.2 and 5.3), `Xts`, `Xts32`.
- `GfMul.c`: `GfField`, `GfTables`, `GfMul`, `GfInstances`, `GfMirror`.
- `Crypto.c`: `CryptoSuite` (algorithms and key-schedule walks), `CryptoModes` (what every mode computes, and its
  inverse), `CryptoUnits` (data units), `CryptoBuffers`, `LrwIndex`, `CryptoDrivers`, `CryptoDataUnits` (the routines),
  `CryptoBlocks` (every block of every mode, with the ciphers written out).
- `Format.c` and `Fat.c`: `FormatWriter`, `Fat`, `FatFormat`, `FatImage` (what the device holds, sector by sector).
- `Volumes.c`: `HeaderTrials` (scheduling of the trials), `HeaderFormat`, `HeaderReadback`, `HeaderVersions` (headers of
  every version, byte by byte), `HeaderCiphers` (the header encrypted by the modes of `CryptoModes`).
- `Crc.c`, `Keyfiles.c`, `Xml.c` with `Combo.c`: `Crc`, `Keyfiles`, `KeyfilePool` (the pool in closed form), `Xml`.
  Shared by several: `Words`, `Sequences`, `BigEndian`.

How the parts fit: the thread pool leaves a buffer as one unit-wise pass (`ThreadPoolTheorem.DoWorkIsSequential`); that
unit-wise pass is what `Encrypt/DecryptDataUnitsCurrentThread` computes in every mode
(`CryptoUnits.UnitsCryptIsUnitWise` with `CryptoDataUnits.CryptDataUnitsCurrentThread`), and decryption undoes it
(`CryptoUnits.UnitsDecryptUndoesEncrypt`). `FatImage.Formatted` runs the requests of `FormatFat` through the writer
machine. `HeaderReadback.CreateThenRead` joins header creation, the trials of one key and the trial scheduling;
`HeaderCiphers.CreatedIsReadBack` puts the modes of `CryptoModes` under it.

What the definitions mean is stated apart from them as well: `CryptoBlocks` gives every block of XTS, LRW and CBC
with `encipher` and `decipher` written out; `DeflateRoundTrip.WrittenIsRead` and `DeflateExactly.ReadIsWritten` say that the format is what a
writer of all three kinds of blocks writes, and with `InflateStream.DecompressDeflatedData` that the program reads it; `HeaderVersions`, `FatImage` and
`KeyfilePool` say byte by byte what headers, formatted volumes and the keyfile pool hold; tables are compared with
ranges, names and sums that are given elsewhere (`FixedCode.FixedLitCode`, `CryptoSuite.NamesAre`, `CryptoModes.ModesAre`,
`HeaderVersions.KeySizes`, `Crc.CheckValue`).

Where a promise is not kept, a lemma gives the exact condition and another an input that fails: a run of fewer than
32 blocks that crosses a data unit (`XtsSpec.SplitsExactly`, `XtsSpec.StraddleDiffers`), fragments of 2^32 bytes
(`FragmentPlan.PointerExactWhen`, `PointerStandsStill`), valid dynamic blocks with 31 or 32 distance codes, or with
symbols for lengths but no distance code (`InflateStream.DecompressDeflatedData`, `DeflateRefused.RefusedStreams`), the
last threaded write (`FormatWriter.FinishedWrite`, `LastWriteLost`), a cluster size asked for that is larger than the FAT
(`Fat.IndexesExactly`, `AskedClusterFails`) or so small that an `int` overflows (`Fat.FitsIntExactly`,
`SmallClusterOverflows`), clusters past the end of the volume (`Fat.ClustersEnd`, `PastTheEnd`), 2^31 sectors left to
fill (`FatFormat.FillExactly`, `FillOverflows`), names too long for the history (`Xml.HistoryReadsBack`,
`LongestNameOverruns`, `AmpersandsAreLost`) or for its quoting buffer (`Xml.FullExactly`, `FullBuffer`).

Block ciphers are functions of cipher number, key-schedule address and block; the only assumption is that
deciphering inverts enciphering and both keep the block size. Key derivation is a function. Where a buffer is words,
they are little-endian 64-bit words.

## Model

| member | source | states |
|---|---|---|
| FragmentPlan.OffTotal | src/Common/EncryptionThreadPool.c:422-440 | the fragments end exactly where the buffer ends, for every unit and thread count |
| FragmentPlan.FragmentOf | src/Common/EncryptionThreadPool.c:455-478 | every unit lies in a fragment |
| FragmentPlan.FragmentFits | src/Common/EncryptionThreadPool.c:455-478 | no fragment reaches beyond the buffer |
| FragmentPlan.PointerExactWhen | src/Common/EncryptionThreadPool.c:474-475 | the 32-bit byte step gives every fragment's start if and only if the largest fragment is shorter than 2^32 bytes |
| FragmentPlan.PointerStandsStill | src/Common/EncryptionThreadPool.c:474-475 | two threads and 2^33 bytes: the step is 0, and the second fragment is the first one again |
| ThreadPoolInvariant.InitInv | src/Common/EncryptionThreadPool.c:218-300 | the started pool satisfies the invariant of slots, tickets, counters, locks and buffers |
| ThreadPoolTheorem.StepKeeps | src/Common/EncryptionThreadPool.c:123-207 | every step any thread can take keeps that invariant: locking, polling, waiting, claiming, running, freeing, counting, enqueueing, completing |
| ThreadPoolWorkers.ReadsOwnFirst | src/Common/EncryptionThreadPool.c:199-206 | a worker behind its slot's release still finds its job's first slot in the slot it freed |
| ThreadPoolCountdown.KeepDecrement | src/Common/EncryptionThreadPool.c:205-206 | counting a fragment down keeps the counter equal to the fragments not accounted for |
| ThreadPoolFinish.KeepFreeFirst | src/Common/EncryptionThreadPool.c:486-488 | the caller frees the first slot only after all fragments have been counted |
| ThreadPoolTheorem.RunKeeps | src/Common/EncryptionThreadPool.c:123-489 | the invariant holds in every state of every run |
| ThreadPoolTheorem.RunInBounds | src/Common/EncryptionThreadPool.c:129-134 | no thread uses a slot or buffer index out of range, in any run |
| ThreadPoolTheorem.DoWorkIsSequential | src/Common/EncryptionThreadPool.c:388-489 | when the call has returned, its buffer equals one sequential pass over all units, whatever other threads do |
| ThreadPoolTheorem.FragmentsRunOnce | src/Common/EncryptionThreadPool.c:123-207 | no fragment runs twice, and all fragments of a returned call have run |
| ThreadPoolTheorem.FlagMeansKey | src/Common/EncryptionThreadPool.c:185-186 | a completion flag that is set stands beside the right derived key |
| ThreadPoolTheorem.FreedSlotStillNamesFirst | src/Common/EncryptionThreadPool.c:199-206 | in every run, a worker about to read FirstFragment of a freed slot reads its own job's first slot, which is not free |
| ThreadPoolTheorem.CounterIsExact | src/Common/EncryptionThreadPool.c:453-488 | the counter is the number of fragments not yet counted; its event is set exactly between the last count and the caller's wake-up |
| ThreadPoolProgress.NoLostWakeUp | src/Common/EncryptionThreadPool.c:127-146 | in every run, a waiting thread whose condition holds has a signalled event or someone about to signal it |
| ThreadPoolProgress.StuckIsDone | src/Common/EncryptionThreadPool.c:445-488 | an awake state in which no thread can step has no unfinished work |
| ThreadPoolProgress.NoDeadlock | src/Common/EncryptionThreadPool.c:127-146 | no reachable state with unfinished work is deadlocked |
| ThreadPoolTermination.StepsAreBounded | src/Common/EncryptionThreadPool.c:123-207 | without new calls the threads take at most a fixed number of further steps, whatever the interleaving |
| ThreadPoolTermination.EveryCallReturns | src/Common/EncryptionThreadPool.c:388-489 | so every call returns and every fragment and key is done |
| CanonicalCode.KraftIsUsed | src/Common/Inflate.c:1136-1142 | the codes left unused are what the Kraft sum leaves |
| CanonicalCode.MatchUnique | src/Common/Inflate.c:1064-1267 | at most one symbol's canonical code begins a bit string (section 3.2.2 of RFC 1951) |
| HuftCounts.CountLengths | src/Common/Inflate.c:1108-1112 | counts the codes of every length |
| HuftCounts.Bounds | src/Common/Inflate.c:1121-1133 | finds the shortest and the longest length |
| HuftCounts.FillOut | src/Common/Inflate.c:1136-1142 | negative exactly when the code is oversubscribed, else the number of codes left over |
| HuftCounts.SortSymbols | src/Common/Inflate.c:1153-1160 | the symbols by length, and in order within a length |
| HuftMake.SizeTable | src/Common/Inflate.c:1184-1200 | a new table never asks for bits beyond the longest length, nor beyond the end-of-block code when it starts inside that |
| HuftMake.FillTable | src/Common/Inflate.c:1244-1247 | writes the entry at exactly the indices congruent to the code |
| HuftMake.Increment | src/Common/Inflate.c:1249-1252 | the backward increment gives the next canonical code |
| HuftMake.Backup | src/Common/Inflate.c:1254-1256 | backs up to exactly the levels whose prefix is unchanged |
| HuftSteps.FillCode | src/Common/Inflate.c:1229-1247 | filling in a code keeps every table entry right |
| HuftSteps.PushTable | src/Common/Inflate.c:1202-1226 | linking a new table keeps every table entry right |
| HuftSteps.NextAndPop | src/Common/Inflate.c:1249-1256 | going to the next code and popping levels leaves all finished entries final |
| HuftCodes.WalkFrom | src/Common/Inflate.c:557-566 | from any table on the walk decodes the canonical code |
| HuftCodes.WalkToEnd | src/Common/Inflate.c:1184-1200 | the end-of-block code is found with no bits beyond it, at every table level |
| HuftCodes.HuftBuild | src/Common/Inflate.c:1064-1267 | 2 exactly when the Kraft sum exceeds 1, 1 exactly for an incomplete code; else, for every limit on lookups, walking the tables over any bits equals the canonical bit-at-a-time code |
| Deflate.LengthTable | src/Common/Inflate.c:422-428 | base and extra bits of the length symbols (section 3.2.5 of RFC 1951) |
| Deflate.DistanceTable | src/Common/Inflate.c:429-436 | base and extra bits of the distance symbols |
| Inflater.Decoder.NeedBits | src/Common/Inflate.c:481-484 | fails only when the input runs out; else the bits are in the buffer and nothing is consumed |
| Inflater.Decoder.DumpBits | src/Common/Inflate.c:487-487 | drops exactly that many bits |
| Inflater.Decoder.Lookup | src/Common/Inflate.c:557-566 | consumes exactly the bits of the code found, or fails where the walk does |
| Inflater.Decoder.WriteByte | src/Common/Inflate.c:569-574 | a byte through the circular window is a byte appended to the output |
| Inflater.Decoder.CopyPiece | src/Common/Inflate.c:612-624 | a chunk copied inside the window, overlapping or not, is that many bytes of the match |
| Inflater.Decoder.WriteMatch | src/Common/Inflate.c:602-630 | chunked copies and flushes of the 32K window append exactly the match of an unbounded history |
| InflateBlocks.LookupAgrees | src/Common/Inflate.c:557-566 | a table walk on the remaining input equals the canonical decoder unless the input is about to end |
| InflateBlocks.InflateMatch | src/Common/Inflate.c:587-630 | distance and match as the format says |
| InflateBlocks.InflateCodes | src/Common/Inflate.c:530-641 | a block's codes as the format says |
| DeflateWriter.CopyIsRepeated | src/Common/Inflate.c:602-630 | a match repeats the bytes that stand at its distance, over and over if it is longer than that |
| DeflateWriter.TokensRead | src/Common/Inflate.c:530-641 | for any two codes: literals and matches written with their codewords and extra bits, then the end-of-block code, are read back as their text |
| InflateBlocks.InflateStored | src/Common/Inflate.c:649-700 | a stored block as the format says |
| InflateStream.BuildFixed | src/Common/Inflate.c:717-752 | the fixed tables are built once and decode the fixed codes |
| InflateStream.InflateFixed | src/Common/Inflate.c:711-757 | a fixed block as the format says |
| FixedCode.FixedLitCode | src/Common/Inflate.c:725-732 | the codes of section 3.2.6 of RFC 1951: 0 to 143 are the 8-bit codes from 00110000 on, 144 to 255 the 9-bit codes from 110010000 on, 256 to 279 the 7-bit codes from 0000000 on, 280 to 287 the 8-bit codes from 11000000 on |
| FixedCode.FixedDistCode | src/Common/Inflate.c:742-744 | a distance symbol is its own five bits |
| FixedCode.FixedRead | src/Common/Inflate.c:711-757 | literals and matches written with the bits of that table are read back, whatever they are |
| InflateStream.ReadHeader | src/Common/Inflate.c:810-818 | the code lengths of the code length code, in their permuted order |
| InflateStream.ReadAll | src/Common/Inflate.c:834-878 | the literal and distance lengths with all three kinds of repetition |
| DeflateRoundTrip.OrderedRead | src/Common/Inflate.c:420-421 | the code lengths written in the order 16, 17, 18, 0 and outwards from 8 are read back |
| DeflateRoundTrip.RunsRead | src/Common/Inflate.c:834-878 | any run-length coding of the code lengths, with all three kinds of repetition, is read back as those lengths |
| InflateStream.InflateDynamic | src/Common/Inflate.c:761-938 | a dynamic block as the format says, with up to 32 distance codes, unless it is one of those refused |
| InflateStream.InflateBlock | src/Common/Inflate.c:942-985 | one block and whether it is the last |
| InflateStream.Inflate | src/Common/Inflate.c:989-1034 | all blocks and the last flush |
| InflateStream.DecompressDeflatedData | src/Common/Inflate.c:1294-1307 | a valid stream that ends within the input is decompressed to exactly its bytes if and only if no block has more than 30 distance codes, or symbols for lengths but no distance code; what is accepted is what the format says |
| DeflateRoundTrip.WrittenIsRead | src/Common/Inflate.c:989-1034 | every list of stored, fixed and dynamic blocks, written by the rules of RFC 1951 with any codes, is a valid stream of its text, and accepted if and only if none of its blocks is among those refused |
| DeflateExactly.CodesWritten | src/Common/Inflate.c:530-641 | conversely, whatever is read as a block's codes is the writing of some literals and matches with that text |
| DeflateExactly.ReadIsWritten | src/Common/Inflate.c:989-1034 | and whatever is read as a stream is the writing of some blocks with that text; none of them is refused if and only if it is accepted |
| DeflateExactly.ValidExactly | src/Common/Inflate.c:989-1034 | so the streams that are read are exactly those that begin with written blocks |
| DeflateRoundTrip.LetterA | src/Common/Inflate.c:711-757 | the three bytes 4b 04 00 are a fixed block with the letter a |
| DeflateRefused.RefusedStreams | src/Common/Inflate.c:800-906 | two valid streams that are refused: one with 31 distance codes, one with no distance code |
| DeflateLonger.StreamThenByte | src/Common/Inflate.h:47-47 | the byte after the input that may be read changes nothing for a stream that ends before it |
| XtsSpec.MulAlphaIsStandard | src/Common/Xts.c:126-158 | the word-wise shift with 135 is multiplication by alpha as section 5.2 of IEEE Std 1619-2007 defines it on bytes |
| XtsSpec.SplitsExactly | src/Common/Xts.c:96-101 | every block is treated at its own unit and place if and only if the run starts a unit, stays in one, or has at least 32 blocks |
| XtsSpec.StraddleDiffers | src/Common/Xts.c:98-101 | for any other run, a block whose whitening value is wrong, and ciphers with which every plaintext of it is encrypted wrong |
| XtsSpec.XtsInverts | src/Common/Xts.c:316-460 | decrypting a block at the same place gives it back |
| Xts.NextWhitening | src/Common/Xts.c:126-158 | one step of the whitening value is multiplication by alpha |
| Xts.UnitParallel | src/Common/Xts.c:103-184 | all blocks of a unit at once give the section 5.3 formula |
| Xts.UnitBlockwise | src/Common/Xts.c:240-303 | block by block gives the same |
| Xts.BufferXts | src/Common/Xts.c:57-194 | both routines give every block of the buffer the same result, unit numbers modulo 2^64 |
| Xts.BufferIsStandard | src/Common/Xts.c:198-312 | that result is the standard's for every run that splits right |
| Xts.DecryptUndoesEncrypt | src/Common/Xts.c:332-581 | decrypting an encrypted buffer gives it back for every start and length |
| Xts32.NextWhitening32 | src/Common/Xts.c:674-699 | the step in 32-bit words is the same multiplication |
| Xts32.BufferXts32 | src/Common/Xts.c:600-716 | the 32-bit routine gives every block the same formula, with the unit number carried between halves |
| Xts32.SameBuffer | src/Common/Xts.c:720-745 | the 32-bit and the 64-bit routines leave the same buffer |
| GfTables.CompileTable | src/Common/GfMul.c:475-566 | every nibble-table entry is the sum of powers its nibble selects |
| GfMul.TabInit | src/Common/GfMul.c:618-690 | the tables read in mirrored form hold the products of every nibble |
| GfMul.MulTab | src/Common/GfMul.c:697-750 | the table product, skipping zero bytes, equals the shift-and-xor product |
| GfMul.MulBasic | src/Common/GfMul.c:772-836 | the bit-by-bit product is the sum of shifted operands |
| GfField.ProductZeroExtended | src/Common/GfMul.c:772-793 | zero bytes in front of the multiplier change nothing |
| GfInstances.Laws128 | src/Common/GfMul.c:280-365 | the 128-bit words with the reduction tables satisfy the laws used: mirroring is linear and turns doubling around, eight steps at a time |
| GfInstances.Laws64 | src/Common/GfMul.c:280-365 | the same for 64 bits |
| GfMirror.MirrorBits | src/Common/GfMul.c:588-614 | reverses the bits of a byte array |
| GfMirror.MirrorOfBytes | src/Common/GfMul.c:588-614 | byte-array mirroring is word mirroring |
| GfMirror.Gf128Agrees | src/Common/GfMul.c:618-724 | for every 128-bit a and 64-bit b, tables and multiplication give what the basic 128-bit multiplication gives |
| GfMirror.Gf64Agrees | src/Common/GfMul.c:654-750 | the same for 64-bit a and b |
| Crc.EntryIs | src/Common/Crc.c:18-52 | every one of the 256 table entries is eight bitwise steps of its index |
| Crc.ByteAtATime | src/Common/Crc.c:108-111 | eight bitwise steps are one shift by a byte and the eight steps of the low byte |
| Crc.GetCrc32Small | src/Common/Crc.c:68-86 | the bitwise loop computes the CRC of section 8 of RFC 1952 |
| Crc.GetCrc32Large | src/Common/Crc.c:104-114 | the table loop computes the same, for every byte string |
| Crc.Crc32IntIsCrc | src/Common/Crc.c:55-65 | crc32int is the CRC of the four bytes |
| Crc.BytesOfIs | src/Common/Crc.c:55-65 | the four bytes are those of the word, the lowest first |
| Crc.CheckValue | src/Common/Crc.c:104-114 | the CRC of the nine digits 123456789 is 0xcbf43926 |
| CryptoSuite.TableRows | src/Common/Crypto.c:59-79 | every algorithm's ciphers are different, none 0, and end with a 0 |
| CryptoSuite.EAGetName | src/Common/Crypto.c:457-469 | the names of the ciphers, the last one first, with hyphens between them |
| CryptoSuite.NamesAre | src/Common/Crypto.c:59-79 | so the table holds the ciphers of AES, Serpent, Twofish, AES-Twofish, AES-Twofish-Serpent and the others in the order of these names, backwards |
| CryptoModes.ModesAre | src/Common/Crypto.c:64-79 | an algorithm has XTS mode if and only if all its ciphers have 16-byte blocks, LRW if all have one block size, CBC if it is one cipher, outer CBC if it is a cascade with one block size, inner CBC if the sizes differ |
| CryptoSuite.EAGetFirstCipher | src/Common/Crypto.c:631-634 | the first cipher of the algorithm |
| CryptoSuite.EAGetLastCipher | src/Common/Crypto.c:637-643 | the last cipher of the algorithm |
| CryptoSuite.EAGetNextCipher | src/Common/Crypto.c:646-656 | the cipher after the given one, 0 after the last or for a cipher that is not there |
| CryptoSuite.EAGetPreviousCipher | src/Common/Crypto.c:659-674 | the cipher before the given one, 0 before the first or for a cipher that is not there |
| CryptoSuite.EAGetKeyScheduleSize | src/Common/Crypto.c:575-586 | the key schedules of all ciphers together |
| CryptoSuite.CascadeUndone | src/Common/Crypto.c:843-943 | walking back over the ciphers with descending key schedules undoes the cascade |
| CryptoSuite.EncipherCascade | src/Common/Crypto.c:1104-1113 | every cipher in order, each with the key schedule after the one before |
| CryptoSuite.DecipherCascade | src/Common/Crypto.c:1203-1212 | every cipher backwards at the same key schedules |
| CryptoModes.RunInverts | src/Common/Crypto.c:816-1234 | a run of blocks in XTS, LRW or CBC decrypted from the same state gives the data back, with whitening |
| CryptoModes.RunAppend | src/Common/Crypto.c:816-1234 | a run may be cut anywhere between blocks if the second part starts in the state the first leaves |
| CryptoModes.DecryptUndoesEncrypt | src/Common/Crypto.c:1243-1588 | for every algorithm, supported mode and length that fits its blocks, all passes backwards undo all passes forwards |
| CryptoUnits.LrwIndexAdvances | src/Common/Crypto.c:1341-1363 | the LRW index of the next data unit is the index after the blocks of this one, modulo 2^64 |
| CryptoBlocks.LrwCountsFrom | src/Common/Crypto.c:1341-1363 | LRW indices count blocks from 1 on: from data unit 1 in a normal volume, from the unit the hidden volume starts at in a hidden one |
| CryptoUnits.UnitLeads | src/Common/Crypto.c:1376-1489 | in XTS and LRW the state after a data unit is the start state of the next |
| CryptoUnits.PassOverUnits | src/Common/Crypto.c:1394-1408 | so one pass over a whole run is that pass over every unit |
| CryptoUnits.UnitsCryptIsUnitWise | src/Common/Crypto.c:1376-1489 | the result on a run of units is the unit-wise map the thread pool splits |
| CryptoUnits.UnitsDecryptUndoesEncrypt | src/Common/Crypto.c:1599-1716 | decrypting any number of data units from the same unit number gives them back |
| LrwIndex.StepIndex | src/Common/Crypto.c:861-864 | stepping the last byte, or the whole number at a carry, adds 1 modulo 2^64 |
| LrwIndex.BytesRoundTrip | src/Common/Crypto.c:828-828 | a big-endian number read back from its bytes |
| LrwIndex.NumberIs | src/Common/Crypto.c:828-828 | the eight bytes are the number's digits to the base 256, the highest first |
| CryptoBuffers.CryptBlock | src/Common/Crypto.c:837-857 | xor, ciphers, xor in place on one block and nowhere else |
| CryptoBuffers.BufferCBC | src/Common/Crypto.c:1065-1234 | EncryptBufferCBC and DecryptBufferCBC leave exactly the CBC run with whitening |
| CryptoDrivers.StepXts | src/Common/Xts.c:240-303 | a block of an XTS pass is the standard's formula |
| CryptoDrivers.XtsIsRun | src/Common/Xts.c:57-312 | what the XTS routines leave is a run of blocks through the data units |
| CryptoDrivers.BufferXTS | src/Common/Xts.c:41-312 | the XTS buffer routines leave exactly the XTS run |
| CryptoBlocks.XtsWhitening | src/Common/Xts.c:106-158 | in both directions the whitening value of a unit's first block is its number enciphered under the secondary key, and of every next block the product of the one before with alpha |
| CryptoBlocks.XtsBlocks | src/Common/Crypto.c:1394-1635 | what encryption and decryption in XTS mode leave in every block: through each cipher with its own key schedules, xored before and after with that whitening value of the block's own unit and place |
| CryptoDrivers.LrwSingle | src/Common/Crypto.c:59-79 | algorithms with 64-bit blocks in LRW mode are single ciphers |
| CryptoDrivers.BufferLRW | src/Common/Crypto.c:816-1000 | the four LRW routines leave exactly the LRW run |
| CryptoBlocks.LrwBlocks | src/Common/Crypto.c:816-1000 | every block: xored with the product for its own index, through the whole cascade, xored with it again |
| CryptoDataUnits.InitIVAndWhitening | src/Common/Crypto.c:1004-1052 | IV and whitening of a data unit for the cipher's block size |
| CryptoBlocks.CbcIvIs | src/Common/Crypto.c:1017-1031 | IV words are those of the seed, xored with the unit number for a data unit |
| CryptoBlocks.CbcWhiteningIs | src/Common/Crypto.c:1036-1046 | both whitening words as sums of the CRCs of the seed's 32-bit words 4 and 7, 5 and 6, or for 8-byte blocks 2 and 5, 3 and 4 |
| CryptoDataUnits.EncryptXTS | src/Common/Crypto.c:1394-1408 | every cipher's pass in order, both key schedules in step |
| CryptoDataUnits.DecryptXTS | src/Common/Crypto.c:1618-1635 | every cipher's pass backwards at the same key schedules |
| CryptoDataUnits.EncryptCBC | src/Common/Crypto.c:1436-1461 | one pass per cipher with the IV and whitening for its block size |
| CryptoDataUnits.DecryptCBC | src/Common/Crypto.c:1663-1688 | the same passes backwards |
| CryptoDataUnits.CryptOuterCBC | src/Common/Crypto.c:1463-1482 | one pass through the whole cascade |
| CryptoBlocks.CbcBlocks | src/Common/Crypto.c:1065-1234 | every block of every CBC pass: xored with the ciphertext block before it (first with the IV), through the cipher or cascade, xored with the whitening; chained without the whitening |
| CryptoDataUnits.CryptBuffer | src/Common/Crypto.c:1243-1588 | EncryptBuffer and DecryptBuffer leave exactly what the mode computes on a buffer of its own |
| CryptoDataUnits.CryptDataUnitsCurrentThread | src/Common/Crypto.c:1376-1716 | every data unit is encrypted (decrypted) on its own under its number, in every mode |
| CryptoBlocks.UnitsAt | src/Common/Crypto.c:1376-1716 | unit i of a run is what the mode makes of it under the number i places on |
| FormatWriter.StartFlushIs | src/Common/Format.c:976-981 | a flush encrypts exactly what is pending, the first pending byte giving the unit number |
| FormatWriter.RequestKeeps | src/Common/Format.c:831-855 | taking a sector, a flush or a new key keeps the invariant |
| FormatWriter.Always | src/Common/Format.c:871-1010 | in every interleaving the device, the buffer in transit and the pending buffer together hold what was sent, in order |
| FormatWriter.OneOwnerAlways | src/Common/Format.c:983-1001 | exactly one of the two events, the formatting thread and the writer owns the hand-off buffer |
| FormatWriter.DeviceIsPrefix | src/Common/Format.c:888-891 | at any moment, even after a failure, the device holds a prefix of the sequential encrypted write |
| FormatWriter.FinishedWrite | src/Common/Format.c:953-968 | after the last flush and the join the device holds the whole sequential write if and only if the last WriteFile of the run did not fail |
| FormatWriter.LastWriteLost | src/Common/Format.c:953-968 | a run that finishes with nothing on the device: the last WriteFile fails after the last flush |
| FormatWriter.NoDeadlock | src/Common/Format.c:871-968 | no reachable state is stuck before the formatting thread has finished or given up |
| FormatWriter.RunsAreBounded | src/Common/Format.c:871-1010 | no run has more than a fixed number of steps that do anything |
| Fat.FatParams.ChooseClusterSize | src/Common/Fat.c:32-71 | the default cluster size, or the one asked for, or one sector for small volumes; never zero |
| Fat.ClusterBytesIs | src/Common/Fat.c:32-52 | each default size is chosen if and only if the volume lies between its limit and the next one |
| Fat.DefaultClusterIs | src/Common/Fat.c:54-63 | in sectors: as many as make up that size, but at least one and at most 128 |
| Fat.TypeBySectors | src/Common/Fat.c:84-100 | FAT12, FAT16 and FAT32 by the number of sectors: the limits are 4085 and 65525 clusters behind two reserved sectors and the root directory |
| Fat.SearchStops | src/Common/Fat.c:100-118 | for every size some number of reserved sectors from 32 to 41 is aligned |
| Fat.FatParams.SearchFat32 | src/Common/Fat.c:100-118 | the search stops at the first aligned number, with the FAT length for that number and no int out of range, if none of its turns computes one |
| Fat.FatParams.GetFatParams | src/Common/Fat.c:27-132 | for exactly the volumes and cluster sizes that keep every int in range: the layout, with FAT type by the cluster count, FATs for all clusters counted, alignment; every int computed is checked |
| Fat.FitsIntExactly | src/Common/Fat.c:27-132 | no int overflows if and only if a cluster has less than 2^31 bytes and the volume less than so many clusters (about 2^28 with 512-byte sectors, else 2^29) |
| Fat.RoundedUp | src/Common/Fat.c:105-117 | with 512-byte sectors the search ends where the sectors before the data area, counted with the first FAT length, are rounded up to a multiple of 8 |
| Fat.SmallClusterOverflows | src/Common/Fat.c:112-112 | one sector per cluster on 536870944 sectors: four bytes per cluster are 2^31 |
| Fat.DialogFitsInt | src/Format/Tcformat.c:7398-7405 | the cluster sizes the format dialog lets through never overflow |
| Fat.LayoutFits | src/Common/Fat.c:84-120 | reserved sectors, both FATs and root directory fit in every volume of the minimum size, in every layout that can be computed |
| Fat.ClustersEnd | src/Common/Fat.c:120-120 | the last counted cluster ends past the volume if and only if the FATs leave more of a cluster over than the data area; by less than a cluster |
| Fat.PastTheEnd | src/Common/Fat.c:120-120 | a volume of 1048622 sectors whose last cluster, with the default cluster size, ends two sectors past it |
| Fat.LongFatIndexes | src/Common/Fat.c:120-120 | a FAT at least as long as a cluster has entries for all counted clusters and two more |
| Fat.IndexesExactly | src/Common/Fat.c:84-120 | in general if and only if not, from the clusters counted: the FAT is shorter than a cluster and its last sector has less to spare than the two entries, or the one, for which no cluster is taken off |
| Fat.AskedClusterFails | src/Common/Fat.c:84-120 | a volume and a cluster size asked for where it has not |
| Fat.DefaultLongFat | src/Common/Fat.c:32-71 | with the default cluster size a FAT is never shorter than a cluster |
| Fat.DefaultFitsInt | src/Common/Fat.c:84-118 | with the default cluster size and fewer than 2^31 sectors no int overflows |
| FatFormat.RootFits | src/Common/Fat.c:421-421 | reserved sectors, both FATs and root directory fit, so what is left to fill is not negative |
| FatFormat.FillExactly | src/Common/Fat.c:421-427 | it stays an int if and only if the volume has fewer than 2^31 sectors, or exceeds that by less than the sectors that are reserved, in FATs and in the root directory, which are given from the number of sectors, their size and the cluster size |
| FatFormat.FillOverflows | src/Common/Fat.c:421-422 | a volume of 0x90000000 sectors with the default cluster size, of which more than 2^31 are left |
| FatFormat.FormatFat | src/Common/Fat.c:256-445 | the requests made: all sectors in order, the fill after a flush under the temporary key, counted down in an int that does not overflow; and which of them writes what |
| FatFormat.SectorsAre | src/Common/Fat.c:286-427 | FAT32: the boot sector is sector 0 and 6, FSInfo 1 and 7, and 2 to 5 are signed; otherwise sector 0 is the boot sector; both FATs start behind the reserved sectors, one after the other; every other sector is zero |
| FatFormat.DeviceIs | src/Common/Fat.c:256-445 | in every interleaving in which the last write does not fail, the device ends up with exactly the sectors written, num_sectors in a full format |
| FatImage.Formatted | src/Common/Fat.c:256-445 | and each of them at its place: unit k of sector i encrypted under its own data unit number, with the volume's key up to the root directory and the temporary key behind it |
| HeaderTrials.FreeItemLeft | src/Common/Volumes.c:244-262 | when a derivation is to be queued a free item is found |
| HeaderTrials.StepKeeps | src/Common/Volumes.c:236-293 | every step keeps: each PRF in exactly one place, the count of busy items, right keys, no lost wake-up |
| HeaderTrials.AlwaysFree | src/Common/Volumes.c:244-262 | in every run a free item is found and queuedWorkItems counts the items taken |
| HeaderTrials.WrongMeansAllTried | src/Common/Volumes.c:236-293 | ERR_PASSWORD_WRONG only after each PRF was tried exactly once with its own key |
| HeaderTrials.NeverTwice | src/Common/Volumes.c:236-293 | no PRF is tried twice |
| HeaderTrials.OnlyOneStops | src/Common/Volumes.c:236-486 | if one PRF's key stops the search, every finished run ends with its status, for any thread count and completion order |
| HeaderTrials.NoDeadlock | src/Common/Volumes.c:271-290 | until the loop is done something can move |
| HeaderTrials.RunsAreBounded | src/Common/Volumes.c:236-293 | every run ends |
| HeaderFormat.BeRoundTrip | src/Common/Volumes.c:124-148 | a big-endian field read back is the number written |
| HeaderFormat.KeySizeFits | src/Common/Crypto.c:491-502 | primary and secondary keys of every supported mode fit the 256-byte key area |
| HeaderVersions.KeySizes | src/Common/Crypto.c:491-502 | the bytes of key of each of the 13 algorithms |
| HeaderVersions.KeyPlaces | src/Common/Volumes.c:335-373 | where in a key area each byte of the keys lies: XTS keys from 0 on and secondary keys behind them; else 32 bytes of tweak key or seed, then the keys |
| HeaderFormat.PlainReadsBack | src/Common/Volumes.c:404-479 | a header laid out from values passes magic and both CRC checks and gives all values back, if and only if the program is new enough for it |
| HeaderVersions.Field4 | src/Common/Volumes.c:130-133 | a field is its bytes as digits, the highest first |
| HeaderVersions.Field8 | src/Common/Volumes.c:136-148 | the same for eight bytes |
| HeaderVersions.Verdicts | src/Common/Volumes.c:404-479 | for every decrypted header exactly when it is skipped, refused as too new, refused for its sector size, or accepted; the header CRC counts from version 4 on, the stored sector size from 5 on |
| HeaderVersions.AcceptedValues | src/Common/Volumes.c:441-471 | the values an accepted header gives; below version 5 sectors have 512 bytes whatever stands at 128 |
| HeaderVersions.OldIsBlind | src/Common/Volumes.c:404-479 | below version 4 the verdict does not depend on the creation times, the sector size, the reserved bytes and the header CRC |
| HeaderVersions.OldReadsBack | src/Common/Volumes.c:404-479 | headers laid out for versions 0 to 4 give their values back, with 512-byte sectors |
| HeaderVersions.CreatedLayout | src/Common/Volumes.h:106-118 | a created header has every value at its own place, zeros between them, and both CRCs |
| HeaderReadback.PutFields | src/Common/Volumes.c:792-861 | the fields through the advancing pointer lie one after the other |
| HeaderReadback.CryptoInfo.SetKeys | src/Common/Volumes.c:874-936 | key schedules, secondary key or seed and LRW table are those of the key area for the mode and algorithm |
| HeaderReadback.CreateVolumeHeaderInMemory | src/Common/Volumes.c:687-985 | salt in clear, then the fields, their CRC and the master key encrypted under the derived keys; the CRYPTO_INFO returned is set up with the master keys |
| HeaderReadback.CryptoInfo.Prepare | src/Common/Volumes.c:335-395 | each trial decrypts with its own keys; the lazily built LRW tables are this key's |
| HeaderReadback.CryptoInfo.TryKey | src/Common/Volumes.c:328-542 | the first mode, and in it the first algorithm, whose decryption is accepted or refused, whatever tables are left from another key; on success the CRYPTO_INFO is set up with the master keys |
| HeaderReadback.SearchIsFirst | src/Common/Volumes.c:328-407 | the search ends at the first mode and algorithm, modes first, whose decryption is not skipped, or finds nothing |
| HeaderVersions.OldIsFound | src/Common/Volumes.c:328-479 | so a volume whose header is older than the stored sector size is found by its key |
| HeaderReadback.CreatedIsFound | src/Common/Volumes.c:328-542 | the creating key finds the header at the creating mode and algorithm with the same contents |
| HeaderReadback.CreateThenRead | src/Common/Volumes.c:236-540 | reading a created header ends with success at the creating PRF and gives everything back, in every run |
| HeaderCiphers.EnvIsSound | src/Common/Volumes.c:901-905 | decrypting a header encrypted by EncryptBuffer gives it back, in every supported mode and algorithm |
| HeaderCiphers.WordAtNumber | src/Common/Xts.c:71-71 | a 64-bit word of a buffer is the number of its eight bytes, the lowest first |
| HeaderCiphers.HeaderBlocks | src/Common/Volumes.c:901-905 | in XTS mode every block of the encrypted part is that of data unit 0, with the ciphers written out |
| HeaderCiphers.CreatedIsReadBack | src/Common/Volumes.c:236-540 | so a header created with these ciphers and CRC-32 is read back, in every run |
| Keyfiles.MixByte | src/Common/Keyfiles.c:178-186 | one byte adds the register's four bytes at the write position, which wraps |
| Keyfiles.KeyFileProcess | src/Common/Keyfiles.c:166-201 | the pool grows by what the first megabyte contributes, however it is cut into chunks; FALSE exactly on a failed or empty read |
| Keyfiles.TokenProcess | src/Common/Keyfiles.c:258-276 | a token's bytes contribute the same |
| KeyfilePool.PartsAreDigits | src/Common/Keyfiles.c:180-183 | the four bytes added are the register's digits to the base 256, the highest first |
| KeyfilePool.FourBytesGrow | src/Common/Keyfiles.c:178-186 | so after one byte the four pool bytes at the write position have grown by those, modulo 256, and no other has |
| KeyfilePool.PoolByte | src/Common/Keyfiles.c:166-201 | what a keyfile adds to pool byte i: the sum, over every 16th position from i / 4 on, of byte i % 4 of the register there |
| KeyfilePool.ZeroKeyfile | src/Common/Keyfiles.c:178-183 | a keyfile of one zero byte adds 2d fd 10 72 and nothing else |
| Keyfiles.ApplyDirectory | src/Common/Keyfiles.c:297-362 | a directory adds what its visible files add; TRUE exactly if it has some and all could be read |
| Keyfiles.MixIntoPassword | src/Common/Keyfiles.c:374-383 | the pool is added to the characters there are and put behind them, up to 64 |
| Keyfiles.KeyFilesApply | src/Common/Keyfiles.c:218-388 | no keyfiles or a failing token leave the password alone; else the total of all contributions of files, tokens and directories is mixed in, and TRUE exactly if all could be read |
| KeyfilePool.PasswordByte | src/Common/Keyfiles.c:374-383 | character i of the new password: what was there, if anything, plus those sums of all keyfiles, modulo 256 |
| Keyfiles.OrderDoesNotMatter | src/Common/Keyfiles.c:238-280 | totals of the same multiset of contents are equal |
| Keyfiles.PoolIsOfMultiset | src/Common/Keyfiles.c:166-280 | so the pool depends on the multiset of first megabytes only |
| Keyfiles.PasswordIsOfMultiset | src/Common/Keyfiles.c:238-383 | and so does the password |
| Xml.BeginsWith | src/Common/Xml.c:14-23 | whether the one string is a prefix of the other |
| Xml.XmlNextNode | src/Common/Xml.c:26-38 | the next node start that is no closing tag |
| Xml.NodeIsFirst | src/Common/Xml.c:26-38 | no node start is passed over |
| Xml.XmlFindElement | src/Common/Xml.c:41-55 | the first element of the name |
| Xml.ElementIsFirst | src/Common/Xml.c:41-55 | no element of the name is passed over, and if none is found there is none |
| Xml.XmlGetNodeText | src/Common/Xml.c:116-161 | the text between the tags with entities replaced and its terminator in the buffer; nothing if the text with its entities is longer than the buffer; a terminator behind the buffer exactly if it is as long and has none |
| Xml.XmlQuoteText | src/Common/Xml.c:164-207 | the quoted text and its terminator, exactly if two characters stay free, or one and the last character is no entity; else the quoted form of the characters before the first that does not go in |
| Xml.QuoteExample | src/Common/Xml.c:171-199 | each of the three characters becomes its own entity |
| Xml.FullExactly | src/Common/Xml.c:171-203 | quoting stops with the buffer filled to the end if and only if some beginning of the text has a quoted form of exactly that length and ends in two characters that are no entities |
| Xml.FullBuffer | src/Common/Combo.c:188-191 | 66 ampersands and 190 plain characters fill the buffer |
| Xml.DecodedQuote | src/Common/Xml.c:136-207 | decoding quoted text gives the text, whatever follows |
| Xml.NodeReadsBack | src/Common/Xml.c:116-161 | a node's text is what was quoted into it if and only if the quoted form is no longer than the buffer and the text is shorter |
| Xml.LongestNameOverruns | src/Common/Xml.c:134-158 | 260 plain characters: not refused, and no room for the terminator |
| Xml.AmpersandsAreLost | src/Common/Combo.c:186-191 | 53 ampersands are written whole and read back as nothing |
| Xml.DumpCombo | src/Common/Combo.c:157-198 | the history holds the non-empty names of fewer than 260 characters, quoted, in order, each as far as its quoted form fits; a buffer without terminator is printed if and only if the quoted form of a name fills it; every name is accepted |
| Xml.HistoryExample | src/Common/Combo.c:157-198 | a history with one name, in full |
| Xml.LoadCombo | src/Common/Combo.c:136-155 | reading gives the texts of all volume elements, if none runs over the buffer |
| Xml.HistoryReadsBack | src/Common/Combo.c:136-198 | reading a history gives its names back, all and in order, if and only if every quoted form is at most 260 characters and every name shorter than that |
| Xml.DumpThenLoad | src/Common/Combo.c:136-198 | for every list of names: what DumpCombo writes is read back as the names it kept if and only if all their quoted forms are at most 260 characters |

## Left out

- ThreadPool: starting and stopping the pool, StopPending, failing thread creation; the threads are machine steps on values, with sequentially consistent memory, a data fragment being worked on as a buffer whose contents may be anything until it is done.
- ThreadPool: the claim that noOutstandingWorkItemEvent signalled means none outstanding; its two pairs of operations are not one step each.
- HuftCodes.HuftBuild: allocation failure (return code 3) and the list links that huft_free follows; tables are numbered values instead of pointers, filled as values.
- InflateStream.DecompressDeflatedData: nothing is said about streams that are invalid in ways the program does not check (distances before the output, over-long trailing codes); codes are complete, or one code of one bit (section 3.2.7 of RFC 1951); the memcpy at line 616 is a forward copy.
- GfMul.MulTab: elements are pairs of 64-bit halves, byte-swapped once instead of at every access; the 8K multiplication of two 128-bit operands is not modelled.
- CryptoDrivers.BufferXTS: hardware AES is the same block function; 32-bit lengths of CBC buffers above 4 GB are not modelled.
- CryptoModes.DecryptUndoesEncrypt: in LRW mode the product of tweak key and index is a function of the index; GfMul.MulTab says which.
- CryptoUnits.LrwIndexAdvances: subtraction from a unit number is counted down, as addition is counted up, modulo 2^64.
- FormatWriter: failing waits and event calls; progress bars; after a failure the formatting thread's own clean-up.
- FatFormat.FormatFat: the contents of boot and FSInfo sectors are given; key generation and cipher initialization are one change of key.
- Fat: the final cluster count need not lie in the range of its FAT type, and is not claimed to.
- HeaderReadback.CreateVolumeHeaderInMemory: salt, master key and derived key are parameters; failing and weak cipher initialization, and the keys shown in the dialog.
- HeaderReadback.CreateThenRead: weak and failing cipher initialization, keeping only the header keys (retHeaderCryptoInfo) and the boot loader's reader are not modelled.
- HeaderTrials: queueing a derivation is one step (the pool's own protocol is ThreadPool), and the final wait for outstanding derivations is not modelled.
- Keyfiles.KeyFileProcess: file access times, errors in the middle of a chunk; what a directory listing contains is a parameter.
- Xml.LoadCombo: nothing is said about what follows when a terminator is put behind the buffer.
- Xml.DumpCombo: what is printed behind a buffer without terminator; attributes and the fixed number of entries are not modelled.
- Dialogs, drivers, boot installation, registry, PKCS #11, language packs, random pool, wiping, key derivation and cipher internals, big-endian branches.
