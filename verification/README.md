# A verified model of the MFTAH boot loader's core routines

The boot loader decrypts a disk image, possibly on several processors at once, and serves the
result as a RAM disk; a small kernel stub formats text. This project models the routines that
carry that work and proves what they promise.

- **AES-256 in CBC mode, decryption in place** (`aes.c`). `Aes` and `AesCbc` are the routines on
  arrays: the key schedule, the four inverse transformations, the inverse cipher and the loop over
  a buffer with its carried IV. `Fips197` and `Cbc` define the cipher, its inverse and the chaining
  mode of FIPS 197 and NIST SP 800-38A; `Galois` and `Columns` hold the field and the column
  algebra behind MixColumns, `SubstitutionBox` and `AffineBox` the substitution tables and the
  definition they come from. `Fips197Example` works out the published example.
- **SHA-256 and HMAC** (`sha256.c`). `Sha256Compress` is the compression with its sixteen-word
  window, `Sha256Stream` the streaming context, `Hmac` the keyed hash. `Fips180` is the one-shot
  definition of FIPS 180-4 they are proved against; `Fips180Roots` derives its constants from the
  primes, and `Fips180Example` works out the published hash of "abc".
- **Parallel decryption** (`util.c`, `threading.c`). `Spawn` queues work orders into thread slots.
  `Protocol` is the spin of the boot processor and the workers it starts, as a state machine. A step
  touches at most one place that another processor may change meanwhile, and steps interleave in any
  order. (`started` and `finished` are tested in one step, as only the boot processor writes
  `started`.)
  `ProtocolSafety` proves an invariant step by step; `ProtocolWorker` shows that a worker's steps
  add up to one call of the decryption loop, `ProtocolScan` what one scan can miss; `ProtocolRuns`,
  `ProtocolHistory` and `ProtocolLiveness` draw conclusions about whole runs, and `ProtocolFairness`
  shows that fair ones return; `ParallelPayload` joins queueing and spinning. The path modelled is
  the one taken when threading is enabled, although the call of `InitializeThreading` is commented
  out at line 226 of `main.c`.
- **RAM disk** (`ramdisk.c`). `RamDisk` has the argument checks and block requests with their
  wrapping 64-bit arithmetic, against an array of 512-byte blocks.
- **Formatting** (`str.c`). `Str` has the kernel's `snprintf` on a character array, against a pure
  rendering of the format.

Routines that change memory in place are methods on arrays or classes; each is tied by its
postcondition to a function on values, and the lemmas are about those functions. `Octets` holds
what they share: bytes, exclusive or, and overwriting part of a buffer (`Splice`).

## Notes on the source

- `MultiplyExact`: the `Multiply` macro agrees with multiplication in GF(2^8) exactly for
  multipliers below 32. InvMixColumns uses 9, 11, 13 and 14.
- `SumsWrapExactly`, `LargestRegion`: `Size + RAM_DISK_BLOCK_SIZE` wraps exactly for sizes above
  2^64 - 513, and `StartingAddr + Size` exactly for regions that end at 2^64. By `GeometryExact` the
  last block and the ending address are right all the same, because the next subtraction wraps back.
- `EveryOrderIsSettled`, `AllRunExactlyWhenDistinct`: an order whose thread index is used again
  before the spin is dropped without an error. The spin returns with the bytes of that order still
  encrypted, and all orders are run to their ends exactly when no index is used twice.
  `ReusedIndexReturnsWrong` follows two such orders to the return.
- `SkipZeros`: the loop behind %0 skips what is not a digit, where digits were probably meant. So
  "%05d" gives -1, and a %0 without a digit from 1 to 9 behind it reads past the end of the format.
- The digits of %u and %d are collected in arrays declared inside the `switch` of `str.c` (lines 100
  and 115) and read after its block has ended (line 145), when their lifetime is over. The model
  returns the numeral as a value (`Numeral`), as if the arrays lived on.
- The message at `util.c` line 151 gives the range of thread indices as 1 to the maximum; the check
  above it accepts 0 and refuses the maximum. The model follows the check.
- `SpinReturnsDecrypted` needs no mutual exclusion: it holds for every interleaving, whatever the
  list of busy processors says and whichever offers the firmware refuses.

## Model

| member | source | states |
|---|---|---|
| Galois.XTimeReduces | src/boot/mftah_uefi/aes.c:261-266 | `xtime` is multiplication by x: the shifted polynomial, less the modulus when it reaches degree 8 |
| Galois.ProductAssociates | src/boot/mftah_uefi/aes.c:269-278 | multiplication in GF(2^8), built from `xtime` and the bits of one factor, is associative |
| Galois.ProductAdditiveLeft | src/boot/mftah_uefi/aes.c:269-278 | it distributes over exclusive or on the left |
| Galois.ProductAdditiveRight | src/boot/mftah_uefi/aes.c:269-278 | and on the right |
| Galois.MultiplyIsProduct | src/boot/mftah_uefi/aes.c:273-278 | the `Multiply` macro is field multiplication for every multiplier below 32 |
| Galois.MultiplyExact | src/boot/mftah_uefi/aes.c:273-278 | and for no other: it is exact for all x if and only if the multiplier is below 32 |
| Columns.TimesAssociates | src/boot/mftah_uefi/aes.c:282-303 | the product of columns modulo x^4 + 1 (section 4.3 of FIPS 197) is associative |
| Columns.UnmixUndoesMix | src/boot/mftah_uefi/aes.c:282-303 | the polynomials of MixColumns and InvMixColumns cancel on every column, in either order |
| Columns.MixByBytes | src/boot/mftah_uefi/aes.c:282-303 | the forward MixColumns that is undone is the one section 5.1.3 of FIPS 197 writes out byte by byte |
| SubstitutionBox.InvSBoxUndoesSBox | src/boot/mftah_uefi/aes.c:86-123 | `rsbox` inverts `sbox` on every byte |
| SubstitutionBox.SBoxUndoesInvSBox | src/boot/mftah_uefi/aes.c:86-123 | `sbox` inverts `rsbox` on every byte |
| AffineBox.InverseExists | src/boot/mftah_uefi/aes.c:86-104 | every nonzero field element has a two-sided inverse, read off the table through the inverse affine map |
| AffineBox.SBoxIsAffineOfInverse | src/boot/mftah_uefi/aes.c:86-104 | the table entry of x is the affine image of the inverse of x, the definition of section 5.1.1 of FIPS 197 |
| Fips197.SubBytesInverse | src/boot/mftah_uefi/aes.c:306-320 | InvSubBytes undoes SubBytes, and the reverse, on every state |
| Fips197.ShiftRowsByCoordinates | src/boot/mftah_uefi/aes.c:323-351 | the row shifts by coordinates: the byte in row r and column c comes from column c + r or c - r of its row |
| Fips197.ShiftRowsInverse | src/boot/mftah_uefi/aes.c:323-351 | InvShiftRows undoes ShiftRows, and the reverse |
| Fips197.MixColumnsInverse | src/boot/mftah_uefi/aes.c:285-303 | InvMixColumns is left and right inverse to the MixColumns of section 5.1.3 of FIPS 197 on every state |
| Fips197.RoundsPeelOff | src/boot/mftah_uefi/aes.c:364-376 | undoing the last rounds of the forward cipher leaves the state before them, for any number of rounds |
| Fips197.InvCipherUndoesCipher | src/boot/mftah_uefi/aes.c:354-377 | for every schedule and block the inverse cipher undoes the forward cipher of section 5.1 of FIPS 197 |
| Fips197.CipherUndoesInvCipher | src/boot/mftah_uefi/aes.c:354-377 | and the forward cipher undoes the inverse cipher, so both are permutations of the blocks |
| Fips197.FirstKeyMasksOutput | src/boot/mftah_uefi/aes.c:250-257 | replacing the first round key changes byte j of the inverse cipher's result by byte j of the old and the new key, for every schedule and block |
| Fips197.LastKeyMasksInput | src/boot/mftah_uefi/aes.c:362-362 | replacing the last round key is undone by adding byte j of the old and the new key to byte j of the input |
| Fips197Example.PublishedExample | src/boot/mftah_uefi/aes.c:354-377 | for the key and block of appendix C.3 of FIPS 197 the cipher gives the published ciphertext, and the inverse cipher takes it back |
| Cbc.DecryptUndoesEncrypt | src/boot/mftah_uefi/aes.c:393-414 | CBC decryption of a CBC encryption is the plaintext, for every schedule, IV and number of blocks |
| Cbc.EncryptUndoesDecrypt | src/boot/mftah_uefi/aes.c:393-414 | CBC encryption of a decryption is the ciphertext |
| Cbc.DecryptSplits | src/boot/mftah_uefi/aes.c:400-414 | decryption may be cut at any block boundary when the last ciphertext block is carried over as IV |
| Cbc.DecryptByBlock | src/boot/mftah_uefi/aes.c:400-414 | block i of the result is the deciphered block i added to the ciphertext block before it |
| Cbc.IvMasksFirstBlock | src/boot/mftah_uefi/aes.c:383-390 | for all IVs and ciphertexts byte j of the IV is added to byte j of the first block of the message, and to no other byte |
| Aes.RconIsRoundConstant | src/boot/mftah_uefi/aes.c:125-129 | entries 1 to 7 of `Rcon`, the ones AES-256 uses, are the powers of x in the field |
| Aes.StepTemp | src/boot/mftah_uefi/aes.c:169-214 | the previous word is transformed as in section 5.2 of FIPS 197 for a key of eight words, with the extra SubWord at index 4 modulo 8 |
| Aes.CopyKey | src/boot/mftah_uefi/aes.c:157-164 | the first eight words of the schedule are the key |
| Aes.KeyExpansion | src/boot/mftah_uefi/aes.c:148-222 | on the 240 bytes themselves: the first 32 are the key, and each later byte is the one 32 places back plus the byte that section 5.2 takes from the previous word (rotated, substituted and with a power of x, substituted, or as it is); so all 60 words are the schedule, and every index is in range |
| Aes.ScheduleByBytes | src/boot/mftah_uefi/aes.c:166-221 | 240 bytes are the key schedule if and only if they begin with the key and satisfy that recurrence byte by byte |
| Aes.HeldWordsAreSchedule | src/boot/mftah_uefi/aes.c:148-222 | the 240 bytes, sixteen at a time, are the fifteen round keys |
| Aes.AddRoundKey | src/boot/mftah_uefi/aes.c:242-258 | byte j of the block becomes its sum with byte 16 * round + j of the expanded key, in place, and nothing else is touched |
| Aes.InvSubBytes | src/boot/mftah_uefi/aes.c:306-320 | substitutes each byte of the block once, in place |
| Aes.InvShiftRows | src/boot/mftah_uefi/aes.c:323-351 | the chains of assignments are the inverse row shift on the whole block |
| Aes.InvMixColumn | src/boot/mftah_uefi/aes.c:293-301 | one column is multiplied by the inverse polynomial, in place: each byte is the sum of field products with 14, 11, 13 and 9 of section 5.3.3 |
| Aes.InvMixColumns | src/boot/mftah_uefi/aes.c:285-303 | and so all four columns of the block |
| Aes.InvCipher | src/boot/mftah_uefi/aes.c:354-377 | replaces the block in the caller's buffer by its inverse cipher and leaves the rest of the buffer as it was |
| AesCbc.XorWithIv | src/boot/mftah_uefi/aes.c:383-390 | byte j of the block becomes its sum with byte j of the IV, in place |
| AesCbc.Context.constructor | src/boot/mftah_uefi/aes.c:225-232 | a fresh context holds the expanded key and the IV |
| AesCbc.Context.DecryptBuffer | src/boot/mftah_uefi/aes.c:393-419 | decrypts any number of whole blocks in place, leaves the last ciphertext block as IV, and reports every multiple of 2^22 below the length and then the length |
| AesCbc.ReportsIncrease | src/boot/mftah_uefi/aes.c:402-418 | the places reported strictly increase, and the full length is reported only last |
| AesCbc.ReportsExactly | src/boot/mftah_uefi/aes.c:402-418 | a place is reported if and only if it is the length or a multiple of 2^22 below it |
| AesCbc.DecryptInPieces | src/boot/mftah_uefi/aes.c:393-414 | calls on consecutive pieces of any whole-block lengths with one context give the bytes and the IV of a single call |
| AesCbc.CryptOrder | src/boot/mftah_uefi/util.c:98-108 | what a worker does for its order: a context from key and IV and one decryption in place; a CBC encryption is restored to its plaintext |
| Fips180.PaddingShape | src/boot/mftah_uefi/sha256.c:231-259 | the padding is a one bit, the fewest zero bits that fill a chunk, and the 64-bit big-endian bit length |
| Fips180.PaddingInjective | src/boot/mftah_uefi/sha256.c:231-259 | different messages shorter than 2^61 bytes have different padded forms |
| Fips180.HashChunksSplits | src/boot/mftah_uefi/sha256.c:196-220 | hashing may stop and resume at any chunk boundary |
| Fips180.ChSelects | src/boot/mftah_uefi/sha256.c:118-118 | wherever x has ones, under any mask, Ch takes y, and wherever it has zeros, z |
| Fips180.MajFollowsTwo | src/boot/mftah_uefi/sha256.c:139-139 | wherever two arguments agree, under any mask, Maj takes what they agree on |
| Fips180.MajSymmetric | src/boot/mftah_uefi/sha256.c:139-139 | Maj does not depend on the order of its arguments |
| Fips180Roots.PrimesInOrder | src/boot/mftah_uefi/sha256.c:120-135 | the numbers used for the constants are the first 64 primes: each is prime, and none lies between one and the next |
| Fips180Roots.RoundConstantIsCubeRoot | src/boot/mftah_uefi/sha256.c:120-135 | round constant t is the first 32 bits of the fractional part of the cube root of the t-th prime |
| Fips180Roots.InitialWordIsSquareRoot | src/boot/mftah_uefi/sha256.c:168-179 | initial hash word i is the first 32 bits of the fractional part of the square root of the i-th prime |
| Fips180Example.PublishedHash | src/boot/mftah_uefi/sha256.c:274-283 | the hash of "abc" is the published one |
| Sha256Compress.RightRotRotates | src/boot/mftah_uefi/sha256.c:55-64 | the two shifts are a rotation for every count that is used |
| Sha256Compress.WindowLooksBack | src/boot/mftah_uefi/sha256.c:109-115 | with slots below j holding words of group i and the rest words of group i - 1, the schedule word up to 16 places back is in its slot modulo 16 |
| Sha256Compress.LoadWord | src/boot/mftah_uefi/sha256.c:104-107 | a word of the chunk, big-endian, enters the window |
| Sha256Compress.ExtendSchedule | src/boot/mftah_uefi/sha256.c:108-116 | the slot is overwritten with the next word of the 64-word schedule, and the window keeps its meaning |
| Sha256Compress.StepRound | src/boot/mftah_uefi/sha256.c:117-149 | one round of section 6.2.2 of FIPS 180-4 on the eight working variables in place |
| Sha256Compress.ConsumeChunk | src/boot/mftah_uefi/sha256.c:74-156 | with its window of sixteen words the routine computes the hash value that the 64-word schedule defines |
| Sha256Stream.WriteLength | src/boot/mftah_uefi/sha256.c:252-259 | the shift by 3, the shift by 5 and the byte loop write the 64-bit big-endian bit length |
| Sha256Stream.ClosesInOneChunk | src/boot/mftah_uefi/sha256.c:235-260 | with at most 55 bytes left over, one chunk of padding gives the hash of the message |
| Sha256Stream.ClosesInTwoChunks | src/boot/mftah_uefi/sha256.c:235-260 | with more than 55 left over, two chunks do |
| Sha256Stream.Context.constructor | src/boot/mftah_uefi/sha256.c:159-180 | the context stands for the empty message |
| Sha256Stream.Context.Fill | src/boot/mftah_uefi/sha256.c:207-219 | bytes that fit are buffered, and a full buffer is folded into the hash; the message grows by them |
| Sha256Stream.Context.TakeChunk | src/boot/mftah_uefi/sha256.c:197-206 | with an empty buffer a whole chunk is folded directly; the message grows by it |
| Sha256Stream.Context.Write | src/boot/mftah_uefi/sha256.c:183-221 | the message grows by the data, whatever its length and however full the buffer is |
| Sha256Stream.Context.Close | src/boot/mftah_uefi/sha256.c:224-271 | delivers the SHA-256 of all that was written, in both padding cases, and leaves the output behind the digest alone |
| Sha256Stream.Deliver | src/boot/mftah_uefi/sha256.c:261-269 | the digest is the eight words in big-endian order |
| Sha256Stream.HashPieces | src/boot/mftah_uefi/sha256.c:159-271 | for any list of byte strings, one write for each gives the SHA-256 of their concatenation |
| Hmac.LongKeyActsAsDigest | src/boot/mftah_uefi/sha256.c:326-331 | a key longer than 64 bytes and its digest give the same code |
| Hmac.ZeroExtendedKeyActsAlike | src/boot/mftah_uefi/sha256.c:322-331 | zero bytes that extend a key up to 64 bytes change nothing |
| Hmac.HmacByBytes | src/boot/mftah_uefi/sha256.c:322-342 | for a key of at most 64 bytes: the hash of the outer pad and the hash of the inner pad and the message, where byte j of the inner pad is byte j of the zero-filled key plus 36 (hexadecimal) and of the outer pad plus 5c |
| Hmac.CalcSha256 | src/boot/mftah_uefi/sha256.c:274-283 | the SHA-256 of the input |
| Hmac.H | src/boot/mftah_uefi/sha256.c:287-304 | the SHA-256 of both inputs joined |
| Hmac.XorPads | src/boot/mftah_uefi/sha256.c:333-336 | both pads are combined with the key block |
| Hmac.ComputeHmac | src/boot/mftah_uefi/sha256.c:307-343 | HMAC-SHA-256 as section 2 of RFC 2104 defines it, for every key and message |
| Spawn.Threads.constructor | src/boot/mftah_uefi/main.c:26 | all slots start empty, not started and not finished |
| Spawn.Threads.CreateThread | src/boot/mftah_uefi/threading.c:268-271 | the slot belongs to the new context and is neither started nor finished |
| Spawn.Threads.SpawnDecryptionWorker | src/boot/mftah_uefi/util.c:125-226 | null arguments, indices out of range, empty orders and slots that are started and not finished change nothing and get their status; any other order, also one for a finished slot, is copied field by field with its key and IV into a new context, its slot points to it with both flags down, and no other slot changes |
| Spawn.SpawnAllWaits | src/boot/mftah_uefi/util.c:148-226 | from zeroed slots, with indices in range, every spawn succeeds; one context for each nonempty order, and each slot holds the last one queued for it |
| Spawn.HeldExactlyWhenDistinct | src/boot/mftah_uefi/util.c:183-215 | no order is lost if and only if no thread index is used twice |
| Spawn.BytesHeldExactlyWhenDistinct | src/boot/mftah_uefi/util.c:257-282 | the slots account for every queued byte if and only if no index is used twice, and never for more |
| Spawn.QueueMakesPlan | src/boot/mftah_uefi/util.c:183-215 | whatever disjoint whole-block orders are queued, indices used twice or not, the result is a plan that all theorems about the spin apply to |
| Spawn.StandsExactlyWhenLast | src/boot/mftah_uefi/util.c:183-215 | an order's context is the last one for its slot if and only if no later nonempty order has its thread index |
| Spawn.ReusedIndexLosesOrder | src/boot/mftah_uefi/util.c:183-215 | after two orders of 16 bytes for index 0 the slot holds only the second, while 32 bytes are queued; what the spin makes of them is in ParallelPayload.ReusedIndexReturnsWrong |
| ProtocolSafety.InitialHolds | src/boot/mftah_uefi/util.c:230-261 | the invariant holds when the spin begins |
| ProtocolSafety.OfferedIsUnstarted | src/boot/mftah_uefi/threading.c:298-304 | a thread that is offered to a processor has never had a run |
| ProtocolSafety.DispatchKeeps | src/boot/mftah_uefi/threading.c:320-343 | starting a run keeps the invariant, although `Started` is set only afterwards |
| ProtocolSafety.SpinEndsComplete | src/boot/mftah_uefi/util.c:257-282 | when the loop condition fails every order is complete, whether all flags were up or all bytes were reported |
| ProtocolSafety.BootStepKeeps | src/boot/mftah_uefi/util.c:257-282 | every step of the boot processor keeps the invariant |
| ProtocolSafety.MemoryOkAfterBlock | src/boot/mftah_uefi/aes.c:402-414 | a worker's block advances its own region by one block and leaves every other region and all other memory alone |
| ProtocolSafety.ReportKeeps | src/boot/mftah_uefi/util.c:84-93 | a progress report keeps the invariant: a place never runs ahead of its blocks |
| ProtocolSafety.LastReportKeeps | src/boot/mftah_uefi/aes.c:416-418 | the full length is reported only after the last block |
| ProtocolSafety.FinishKeeps | src/boot/mftah_uefi/threading.c:355-383 | a thread is marked as finished only when its run is complete |
| ProtocolSafety.WorkerStepKeeps | src/boot/mftah_uefi/util.c:96-122 | every step of a worker keeps the invariant |
| ProtocolSafety.NotifyStepKeeps | src/boot/mftah_uefi/threading.c:273-282 | so does the firmware's completion event, which marks the thread once more |
| ProtocolScan.SumOfAScan | src/boot/mftah_uefi/util.c:257-282 | the sum that a scan arrives at lies between the sums of the places at its start and at its end, and flags that were all up at its start are all seen |
| ProtocolScan.ScanReturns | src/boot/mftah_uefi/util.c:257-282 | if all flags of held threads are up when a scan begins, or the places already add up to the queued bytes, the spin returns after that scan, in every interleaving |
| ProtocolWorker.ReportedFrom | src/boot/mftah_uefi/aes.c:402-418 | what a worker reports from any block on completes the list of places that the decryption loop reports; nothing when progress is suppressed |
| ProtocolWorker.WorkerActsAsOneCall | src/boot/mftah_uefi/util.c:98-108 | the steps of a worker, taken together, decrypt its region and report as one call of the decryption loop does |
| ProtocolRuns.NoOrderRunsTwice | src/boot/mftah_uefi/threading.c:298-347 | in every run, a thread that has been given to a processor is never given to one again |
| ProtocolRuns.RegionsAdvanceByBlocks | src/boot/mftah_uefi/aes.c:400-414 | at any moment each region is the CBC decryption of a whole number of its blocks, followed by its original bytes |
| ProtocolRuns.SpinReturnsDecrypted | src/boot/mftah_uefi/util.c:257-291 | `UefiSpin` returns only when every region whose context is held is decrypted under the key and IV copied at the spawn; lost regions and all other memory are unchanged |
| ProtocolRuns.LostOrderNeverRuns | src/boot/mftah_uefi/util.c:260-270 | an order whose slot was given to another is never dispatched, and its region holds its first bytes at every moment of every run |
| ProtocolRuns.CompleteExactlyWhenHeld | src/boot/mftah_uefi/util.c:257-282 | when the spin has returned, an order has been run to its end if and only if its slot still holds it |
| ProtocolRuns.EveryInterleavingAgrees | src/boot/mftah_uefi/util.c:257-291 | any two runs that return leave the same memory |
| ProtocolRuns.MemorySettledOnReturn | src/boot/mftah_uefi/util.c:284-291 | workers that are still reporting after the return no longer change memory |
| ProtocolRuns.ProgressWithinTotal | src/boot/mftah_uefi/util.c:272-282 | the sum that is compared with the queued bytes never exceeds them, so the 64-bit sum does not wrap |
| ProtocolRuns.ParallelIsSequential | src/boot/mftah_uefi/util.c:187-201 | when each IV is the ciphertext block before its region, the parallel decryption of adjoining regions is one sequential decryption |
| ProtocolHistory.HistoryCounts | src/boot/mftah_uefi/aes.c:402-414 | along any run a block is decrypted once if it becomes done in it, and otherwise not at all |
| ProtocolHistory.NoBlockTwice | src/boot/mftah_uefi/util.c:268-270 | no block is ever decrypted twice |
| ProtocolHistory.EachBlockOnce | src/boot/mftah_uefi/util.c:257-282 | when the spin returns, exactly the blocks of the orders that are held have been decrypted, each once |
| ProtocolLiveness.WorkersEnd | src/boot/mftah_uefi/util.c:96-122 | left to themselves, all workers that were started come to their ends |
| ProtocolLiveness.BootReturns | src/boot/mftah_uefi/util.c:257-282 | with the workers ended and offers accepted, the boot processor returns |
| ProtocolLiveness.SpinCanReturn | src/boot/mftah_uefi/util.c:257-282 | after any run there is a continuation in which `UefiSpin` returns: it never gets stuck |
| ProtocolFairness.EveryHeldOrderRuns | src/boot/mftah_uefi/util.c:260-274 | in every interleaving in which the offers are accepted, two scans' worth of turns of the boot processor give every held order its run |
| ProtocolFairness.WorkerWithTurnsEnds | src/boot/mftah_uefi/util.c:96-122 | in every interleaving, a worker that has had an order's worth of turns has ended |
| ProtocolFairness.TurnsAtWorkBounded | src/boot/mftah_uefi/util.c:96-122 | in no run does a worker take more steps than its order calls for |
| ProtocolFairness.NoMoreRuns | src/boot/mftah_uefi/threading.c:298-304 | once every held order has its run, no step adds another |
| ProtocolFairness.QuietRunReturns | src/boot/mftah_uefi/util.c:257-282 | once all workers have ended, every interleaving with two scans' worth of boot turns has returned, whatever the firmware accepts |
| ProtocolFairness.FairRunReturns | src/boot/mftah_uefi/util.c:257-291 | every fair run returns: after any beginning, turns of the boot processor with offers accepted, turns for each worker and turns of the boot processor again are enough, mixed with any other steps |
| ParallelPayload.EveryOrderIsDecrypted | src/boot/mftah_uefi/util.c:125-291 | for distinct indices and disjoint whole-block orders, spawning all and spinning until the return decrypts every order under its own key and IV |
| ParallelPayload.EveryOrderIsSettled | src/boot/mftah_uefi/util.c:125-291 | for any disjoint whole-block orders, on return an order whose index was not taken again is decrypted under its own key and IV, and any other order still has its first bytes |
| ParallelPayload.AllRunExactlyWhenDistinct | src/boot/mftah_uefi/util.c:125-291 | on return every order has been run to its end if and only if no thread index was used twice |
| ParallelPayload.LostOrderIsNotDecrypted | src/boot/mftah_uefi/util.c:183-291 | an order whose index was taken again ends up decrypted if and only if decryption would not have changed its bytes |
| ParallelPayload.FixedForOneIv | src/boot/mftah_uefi/aes.c:409-410 | a block is left as it is by its decryption for at most one IV |
| ParallelPayload.ReusedIndexReturnsWrong | src/boot/mftah_uefi/util.c:183-291 | two one-block orders for index 0, under any key, on any memory and with at least one of any two IVs: a run of the spin returns with the second order decrypted and the first one not |
| RamDisk.RegisterAcceptsExactly | src/boot/mftah_uefi/ramdisk.c:343-365 | a region is accepted if and only if it is a positive number of whole blocks that ends inside the 64-bit address space, with type and path given |
| RamDisk.RegisterRejects | src/boot/mftah_uefi/ramdisk.c:343-365 | which status a rejected region gets, for each of the three reasons |
| RamDisk.GeometryExact | src/boot/mftah_uefi/ramdisk.c:307-307 | the ending address and the last block are exact for every accepted region, even where an intermediate sum wraps |
| RamDisk.SumsWrapExactly | src/boot/mftah_uefi/ramdisk.c:307-307 | for an accepted region the sum for the last block wraps if and only if the size is above 2^64 - 1 - 512, and the sum for the ending address if and only if the region ends at 2^64; such regions are accepted |
| RamDisk.LargestRegion | src/boot/mftah_uefi/ramdisk.c:567-572 | at base 0 and size 2^64 - 512 the sum wraps to zero and the last block is right |
| RamDisk.RequestExact | src/boot/mftah_uefi/ramdisk.c:622-639 | no computation on a request that starts inside the device wraps, and one that is accepted touches only bytes from the base to the ending address |
| RamDisk.Device.constructor | src/boot/mftah_uefi/ramdisk.c:545-572 | the medium of an accepted region: 512-byte blocks, writable, with its last block |
| RamDisk.Device.Locate | src/boot/mftah_uefi/ramdisk.c:622-639 | a nonempty request passes the checks if and only if it is whole blocks inside the device |
| RamDisk.Device.ReadBlocks | src/boot/mftah_uefi/ramdisk.c:597-642 | the status an array of blocks would give, and on success exactly the bytes of memory from the base plus 512 times the block number on, which are the blocks asked for; a rejected read changes nothing |
| RamDisk.Device.WriteBlocks | src/boot/mftah_uefi/ramdisk.c:645-694 | a successful write overwrites exactly the bytes of memory from the base plus 512 times the block number on, any other changes nothing, and so the contents change as the array of blocks does |
| RamDisk.Device.ReadBlocksEx | src/boot/mftah_uefi/ramdisk.c:714-746 | as the plain read; the token's event is signalled exactly when the read succeeds |
| RamDisk.Device.WriteBlocksEx | src/boot/mftah_uefi/ramdisk.c:749-781 | as the plain write; the token's event is signalled exactly when the write succeeds |
| RamDisk.Register | src/boot/mftah_uefi/ramdisk.c:326-391 | the status of the argument checks, and a device over the region exactly when they pass |
| RamDisk.ChopUpdates | src/boot/mftah_uefi/ramdisk.c:687-691 | overwriting whole blocks of a region replaces those blocks of the array and no other byte |
| RamDisk.ChopCuts | src/boot/mftah_uefi/ramdisk.c:635-639 | the blocks of the array have 512 bytes each and are, one after the other, the bytes of the region |
| RamDisk.AnswerExactly | src/boot/mftah_uefi/ramdisk.c:610-633 | each status is given exactly for its reason: another medium, write protection, no whole blocks, or success for nothing or whole blocks inside the device |
| RamDisk.LatestWriteWins | src/boot/mftah_uefi/ramdisk.c:645-694 | in the array that RamDisk.Serve proves the device to follow, a block holds what the latest accepted write over it put there |
| RamDisk.UntouchedBlockStays | src/boot/mftah_uefi/ramdisk.c:645-694 | in that array a block that no accepted write covers keeps its first contents |
| RamDisk.PerformRead | src/boot/mftah_uefi/ramdisk.c:597-642 | one read through either form: the answer and the blocks that the array gives, and the event signalled exactly on success of the extended form |
| RamDisk.PerformWrite | src/boot/mftah_uefi/ramdisk.c:645-694 | one write through either form: the array's next state and answer |
| RamDisk.Serve | src/boot/mftah_uefi/ramdisk.c:597-781 | any history of reads and writes on a registered device, each through either form: the device ends as the array does, every answer is the array's, and a read finds in each block the latest accepted write before it, or the first contents if there was none |
| Str.DecimalIsCanonical | src/kernel/core/str.c:95-123 | the digits of a number have no superfluous leading zero |
| Str.DecimalParsesBack | src/kernel/core/str.c:95-123 | and parse back to the number |
| Str.CanonicalIsDecimal | src/kernel/core/str.c:95-123 | each canonical numeral is the one written for its value |
| Str.DigitsInOrder | src/kernel/core/str.c:104-104 | the digits are the characters 0 to 9 in order |
| Str.LiteralsShowThemselves | src/kernel/core/str.c:153-157 | characters other than % stand for themselves in the rendering |
| Str.EachTokenShows | src/kernel/core/str.c:50-147 | behind any literal text and before any rest of the format, %u and %d show a canonical numeral that parses to the argument, %s the string or nothing for a null pointer, %c the one character with the argument's code modulo 256, and %x and %X of zero a 0 |
| Str.PercentShows | src/kernel/core/str.c:51-54 | %% shows one percent sign |
| Str.UnsupportedStops | src/kernel/core/str.c:132-134 | at an unsupported token, or a % at the end, the text stops |
| Str.StrLen | src/kernel/core/str.c:9-18 | the number of characters before the first NUL, and 0 for a null pointer |
| Str.WriteDigits | src/kernel/core/str.c:103-106 | the digit loop stays inside its buffer for every positive 32-bit value and leaves the numeral in front of the NUL |
| Str.Numeral | src/kernel/core/str.c:95-123 | the string for %u and non-negative %d is the decimal numeral, also for zero |
| Str.Convert | src/kernel/core/str.c:50-148 | one conversion writes what fits below the limit of its text, in place |
| Str.Emit | src/kernel/core/str.c:145-147 | the copying loop writes as many characters of the string as fit |
| Str.SkipZeros | src/kernel/core/str.c:56-63 | the skipping after %0 stops inside the format at a digit from 1 to 9, which no case supports: %0 never formats anything |
| Str.Snprintf | src/kernel/core/str.c:21-162 | writes exactly the first min(limit, length) characters of the rendering, returns that count, and never writes at or past the limit; -1 exactly when an unsupported token comes up before the limit is reached |

## Left out

- The MFTAH library (`create_payload`, `decrypt`, the default crypt hook): its source is not part of this model. A worker is taken to run one CBC decryption of its order with a context of its own, and to pass the progress hook through; how a payload is divided and how IVs are chosen are hypotheses of the theorems (`RegionsOk`, `Chained`).
- The path without threading, in which `SpawnDecryptionWorker` decrypts at once: it is `CryptOrder` on the order.
- Protocol.WorkerStep: the parallel part is a state machine on values rather than methods on shared memory, because its steps interleave; a block, with the copy of its IV, is one step of a worker, as no other step reads or writes its region. `ProtocolWorker.WorkerActsAsOneCall` ties the steps to `AesCbc.Context.DecryptBuffer`.
- `MUTEX_SYNC` and `MUTEX_LOCK`, `RefreshMPs`, the busy list `MpList`, processor numbers and the choice of processor: the firmware may accept or refuse any offer, and nothing proved depends on the list.
- ProtocolFairness.FairRunReturns: fairness and the acceptance of offers are hypotheses, because neither a scheduler nor the firmware promises them.
- The panic of `UefiSpin` when nothing was queued, its scan for progress suppression, `PrintProgress` (floating point and console output) and the stall between scans.
- `MFTAH_MAX_THREAD_COUNT` is a parameter, as its header is not part of this model; so is the number of slots.
- Null protocol pointers, allocation failures, console output, pools and `JoinThread`/`DestroyThread`.
- `AES_ctx_set_iv` and `IsThreadingEnabled`: one assignment and one test.
- AesCbc.Context.DecryptBuffer: covers whole blocks only, because the head of `aes.c` demands them of its callers and the routine would otherwise reach past the buffer.
- Aliasing between the hash output and its inputs, between the pads of HMAC, and between a request's buffer and the disk's memory: the model keeps them apart, as the callers do.
- Str.Snprintf: covers the arguments for which the routine has a defined behaviour. Excluded are a negative %d (it reads `d_at` unset), %x and %X of a number that is not zero in its low 32 bits (the byte behind the digits is never set), and a %0 whose skipping runs past the format, overflows `leading_zeros` or meets a character that is not ASCII. Strings are at most `INT_MAX` characters long, so that the counters do not overflow.
- Loops of the source whose body is a method here (`StepTemp`, `InvMixColumn`, `LoadWord`, `ExtendSchedule`, `StepRound`, `Fill`, `TakeChunk`, `Locate`, `Convert`) are the same statements under a name of their own.
- `CalculateCheckSum8`, `RamDiskPublishNfit`, device paths, handles, reset and flush in `ramdisk.c`: firmware calls or routines without effect. An event is only a flag.
- `multiboot2_seek_tag`, the memory map of `kinit`, payload selection, password entry, graphics, ACPI, UART and port I/O: plumbing with little to state.
