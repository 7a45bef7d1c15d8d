# Verified model of the IoT device SDK's codec, crypto and container layer

The device SDK signs, encrypts, encodes and parses everything it exchanges with the cloud in a small
set of C files. This project models those files in Dafny and proves what they are for:

- **AES and its modes.** The run-time generated tables, both key schedules and the table-driven block
  functions are proved equal to the Cipher, the Key Expansion and the Equivalent Inverse Cipher of
  sections 5.1, 5.2 and 5.3.5 of FIPS 197 (`FipsAes` states those independently, over states and
  columns; `GaloisField` proves that the arithmetic below is a field generated by 3). Decryption undoes
  encryption for every key and block. CBC, CFB128, CFB8 and CTR (sections 6.2, 6.3 and 6.5 of NIST SP
  800-38A) are proved over an arbitrary block function, then CBC is joined to the real one.
- **Digests.** The compression functions of SHA-1 and MD5 against sections 6.1 of RFC 3174 and 3.4 of
  RFC 1321, the streaming context against the padded message, HMAC against section 2 of RFC 2104.
- **Base64** (section 4 of RFC 4648) and **DER lengths and sequences** (sections 8.1.3 and 10.1 of ITU-T
  X.690), with their round trips.
- **JSON.** The cursor scanner, the dotted-path lookup and the recursive key collector against a grammar
  of written documents with arbitrary white space.
- **Containers.** A doubly linked list on the heap with a prefetching iterator, and a byte ring.
- **Bounded arithmetic.** Schrage's generator and the timestamp-to-date conversion.

Each method mirrors the C function's steps: classes for the contexts, arrays for the buffers, loops
where the source loops, and an error code where the source returns one. Its `ensures` ties it to a
specification function or states the promise outright; the lemmas beside it prove the laws of that
specification. So that specification and code cannot err together, the building blocks are also stated in
plain bytes and numbers, and the known answers of the standards are proved: the S-box of figure 7 and the
examples of appendices A.2, A.3 and C.1 of FIPS 197, the digests of "abc", the vectors of section 10 of RFC
4648, and octets of DER. Integer widths are explicit where they matter (`% 2^32`, `int32`, bit-vectors); C's
truncating division is `Arithmetic.Quotient` and `Arithmetic.Remainder`. I/O, allocation and hardware
calls do not occur in the modelled functions or are left out.

Where a promised property fails, the failing behaviour is modelled as the code has it, a lemma or method
gives failing inputs, and another states exactly when the property holds:

- The padding wrapper writes its zeros into the output buffer and encrypts from the input buffer: between
  separate buffers it encrypts whatever lies behind the data, and reads past an input that ends with the
  data (`AesCbc.SeparateBuffersPad`, `AesCbc.SeparateBuffersExample`). It also leaves its last block in the
  IV buffer, so decrypting with the same IV buffer spoils the first block unless that block is the IV
  (`AesCbc.EncryptThenDecrypt`); of two short plaintexts at least one fails (`AesCbc.IvBufferSpoiled`).
- An update of 2^32 bytes or more is not counted in full. The padding is right if and only if the multiples
  of 2^32 that the updates lose add up to a multiple of 2^61 (`Digest.ChunksPadded`, `Digest.LongUpdate`).
  For the digest itself this is stated in one direction: a wrongly padded message with the right digest
  would be a collision of the hash.
- The date conversion answers a wrong year on the last day of leap years from 2460 on
  (`Calendar.TimestampToDate`, `Calendar.FirstWrongDay`).
- The loops over members pass over empty names and empty values, and a scan that does not find a name
  runs on into the enclosing objects. So a member whose value is the empty string is lost
  (`JsonDocument.EmptyValueLost`) or mistaken for a later one (`JsonDocument.EmptyValueMistaken`), and a
  path that names nothing can find a later member (`JsonDocument.AbsentPathFound`). A lookup tells what the
  document has if and only if the value and the names of the path are not empty, or there is no such value
  and the path does not stray: the names missing from an object cannot be found among the members behind
  the steps taken so far (`JsonDocument.LookupFaithful`, `JsonDocument.PlainFaithful`). The list of keys is
  complete if and only if no name and no value is empty (`JsonDocument.KeysListed`).
- On a text that ends right behind the opening quote of a value the scanner's pointer leaves the text
  (`JsonScanner.CursorLeaves`, `JsonDocument.CursorLeavesExample`); there, and only there, the model differs
  from the code and ends the walk.

## Model

| member | source | states |
|---|---|---|
| GaloisField.MulAssoc | sdk_src/utils/utils_aes.c:341-342 | multiplication modulo the AES polynomial is associative for all bytes, the law the log tables rest on |
| GaloisField.ThreeOrder | sdk_src/utils/utils_aes.c:355-359 | no power of 3 below the 255th is 1, so the loop that multiplies by 3 meets every nonzero byte |
| GaloisField.InverseUnique | sdk_src/utils/utils_aes.c:375-376 | the 254th power is the only multiplicative inverse |
| AesTables.GenLogTables | sdk_src/utils/utils_aes.c:349-359 | the two tables are powers and logarithms to the base 3 that invert each other, although position 255 repeats position 0 |
| AesTables.MulByLogIsMul | sdk_src/utils/utils_aes.c:342-342 | the MUL macro, a table lookup modulo 255, is field multiplication, zero included |
| AesTables.RotationChainIsAffine | sdk_src/utils/utils_aes.c:378-386 | the chain of four rotations and 0x63 is the affine transformation of section 5.1.1 of FIPS 197 |
| AesTables.GenRcon | sdk_src/utils/utils_aes.c:364-367 | the ten round constants are the powers of x |
| AesTables.GenSBoxes | sdk_src/utils/utils_aes.c:372-390 | the generated boxes are SubBytes and InvSubBytes on all 256 bytes |
| AesTables.GenForwardTables | sdk_src/utils/utils_aes.c:395-406 | the four forward tables hold MixColumns of the substituted byte and its rotations |
| AesTables.GenReverseTables | sdk_src/utils/utils_aes.c:408-418 | the four reverse tables hold InvMixColumns of the inversely substituted byte and its rotations |
| AesTables.Tables.GenTables | sdk_src/utils/utils_aes.c:346-420 | after the generation all eleven tables are ready, in arrays of their own |
| FipsAes.InvSBoxSBox | sdk_src/utils/utils_aes.c:388-389 | the two boxes are inverse permutations of the bytes |
| FipsAes.InvMixMixColumns | sdk_src/utils/utils_aes.c:594-599 | InvMixColumns undoes MixColumns on every state |
| FipsAes.InvMixColumnsAdd | sdk_src/utils/utils_aes.c:594-599 | InvMixColumns distributes over AddRoundKey, the reason the middle round keys are transformed |
| FipsAes.InvCipherCipher | sdk_src/utils/utils_aes.c:567-744 | with an inverse schedule of any number of rounds the Equivalent Inverse Cipher undoes the Cipher |
| FipsAes.KeyColumn | sdk_src/utils/utils_aes.c:505-507 | the first words of the schedule are the bytes of the key in order, for every key size |
| AesContext.FirstRoundKey | sdk_src/utils/utils_aes.c:505-507 | the first round key is the state of the first sixteen key bytes |
| SBoxTable.SBoxAtPower | sdk_src/utils/utils_aes.c:375-388 | the substitution of the k-th power of 3 is the affine image of the power that completes it to the 255th |
| SBoxTable.Row0 | sdk_src/utils/utils_aes.c:372-390 | the first row of figure 7 of FIPS 197 in literal bytes; Row1 to RowF are the other fifteen |
| AesVectors.Expansion192 | sdk_src/utils/utils_aes.c:523-536 | the last word of the key expansion of appendix A.2 of FIPS 197 |
| AesVectors.Expansion256 | sdk_src/utils/utils_aes.c:538-556 | the last word of the key expansion of appendix A.3 of FIPS 197 |
| AesVectors.ExampleC1 | sdk_src/utils/utils_aes.c:474-689 | the cipher example of appendix C.1 of FIPS 197, from literal bytes to literal bytes |
| AesBlock.ForwardRoundState | sdk_src/utils/utils_aes.c:614-627 | a round of table lookups is SubBytes, ShiftRows, MixColumns and AddRoundKey |
| AesBlock.ReverseRoundState | sdk_src/utils/utils_aes.c:629-642 | an inverse round of table lookups is InvSubBytes, InvShiftRows, InvMixColumns and AddRoundKey |
| AesContext.ExpandKey | sdk_src/utils/utils_aes.c:509-557 | the three unrolled expansions produce the words of section 5.2 of FIPS 197 in order inside the 68-word buffer |
| AesContext.Context.SetKeyEnc | sdk_src/utils/utils_aes.c:474-560 | accepts exactly 128, 192 and 256 bits, leaves the context alone otherwise, and holds the expanded key of all rounds |
| AesContext.Context.SetKeyDec | sdk_src/utils/utils_aes.c:567-610 | same key sizes; holds the reversed schedule whose middle round keys went through InvMixColumns |
| AesContext.Context.InverseKeyLoop | sdk_src/utils/utils_aes.c:587-604 | the backward walk over the schedule yields an inverse schedule, with the first and last round keys untouched |
| AesContext.Context.EncryptQuad | sdk_src/utils/utils_aes.c:648-689 | the block function is the Cipher of FIPS 197 and consumes exactly 4 * (nr + 1) schedule words |
| AesContext.Context.DecryptQuad | sdk_src/utils/utils_aes.c:703-744 | the block function is the Equivalent Inverse Cipher and consumes exactly 4 * (nr + 1) schedule words |
| AesContext.CryptEcb | sdk_src/utils/utils_aes.c:757-767 | one block in place or between buffers, nothing else in the output changed |
| AesContext.ContextComputesCipher | sdk_src/utils/utils_aes.c:474-689 | a context keyed for encryption computes the cipher of that key, whatever lies behind the schedule in the buffer |
| AesContext.ContextComputesDecipher | sdk_src/utils/utils_aes.c:567-744 | a context keyed for decryption computes the inverse cipher of that key |
| AesContext.DecipherCipher | sdk_src/utils/utils_aes.c:474-744 | for every 128, 192 or 256-bit key and every block, decrypting undoes encrypting |
| Blocks.CbcRoundTrip | sdk_src/utils/utils_aes.c:774-814 | CBC decryption undoes CBC encryption for every whole number of blocks and any invertible block function |
| Blocks.CbcEncryptSplit | sdk_src/utils/utils_aes.c:797-811 | cutting an encryption at any block boundary and carrying the chaining value changes nothing |
| Blocks.CbcDecryptSplit | sdk_src/utils/utils_aes.c:783-796 | the same for decryption |
| Blocks.XorBlockBytes | sdk_src/utils/utils_aes.c:788-800 | byte i is added to byte i |
| Blocks.CbcEncryptBlock | sdk_src/utils/utils_aes.c:797-811 | block j of the ciphertext is the block function of plaintext block j plus the previous ciphertext block, byte by byte (section 6.2 of NIST SP 800-38A) |
| Blocks.CbcDecryptBlock | sdk_src/utils/utils_aes.c:783-796 | byte i of plaintext block j is byte i of the deciphered block plus byte i of the ciphertext block before it |
| Blocks.CbcOtherIv | sdk_src/utils/utils_aes.c:783-811 | decrypting from another chaining value changes the first block by the difference of the two and no other, so the data come back if and only if they are equal |
| Blocks.CbcEncryptInjective | sdk_src/utils/utils_aes.c:797-811 | two plaintexts never share a ciphertext under one key and chaining value |
| AesCbc.CryptCbc | sdk_src/utils/utils_aes.c:774-814 | refuses a broken length without touching anything; else the output is the chain over the data as it was before the call, in place or apart, and the chaining value left behind is the last ciphertext block |
| AesCbc.Wrapper | sdk_src/utils/utils_aes.c:818-866 | when it succeeds and when it fails, what it writes (CBC under the key over the bytes it really reads) and what it leaves in the IV buffer |
| AesCbc.InPlaceRoundTrip | sdk_src/utils/utils_aes.c:818-866 | in place, encrypting and decrypting returns any data followed by 1 to 16 zero bytes if and only if both calls start from the same IV |
| AesCbc.EncryptThenDecrypt | sdk_src/utils/utils_aes.c:818-866 | both calls on one buffer: with the IV restored the data come back padded; without, exactly when the last ciphertext block is the IV |
| AesCbc.IvBufferSpoiled | sdk_src/utils/utils_aes.c:818-866 | for every key and IV, of two different plaintexts of one length below 16 at least one leaves another block than the IV in its buffer |
| AesCbc.SeparateBuffersPad | sdk_src/utils/utils_aes.c:842-854 | between separate buffers the result is the padded one if and only if the input bytes behind the data are zero |
| AesCbc.SeparateBuffersExample | sdk_src/utils/utils_aes.c:842-854 | an input for which the two calls differ under every key |
| StreamModes.RunSplit | external_libs/mbedtls/library/aes.c:926-1035 | for each byte-wise mode, cutting the stream anywhere and carrying the state gives the same bytes and the same final state |
| StreamModes.Cfb128RoundTrip | external_libs/mbedtls/library/aes.c:926-965 | decryption undoes encryption from every register and offset, for any block function |
| StreamModes.Cfb128Standard | external_libs/mbedtls/library/aes.c:953-961 | from a block boundary, byte i is added to byte i mod 16 of the encrypted previous ciphertext block, and the register is as section 6.3 of NIST SP 800-38A has it |
| StreamModes.Cfb128Bytes | external_libs/mbedtls/library/aes.c:953-961 | the same on bytes: the first sixteen against the encrypted IV, the others against the encrypted ciphertext block before |
| StreamModes.CryptCfb128 | external_libs/mbedtls/library/aes.c:926-965 | the loop computes that machine, in place or apart, and leaves its register and offset |
| StreamModes.Cfb8RoundTrip | external_libs/mbedtls/library/aes.c:972-999 | decryption undoes encryption for every length and any block function |
| StreamModes.Cfb8Standard | external_libs/mbedtls/library/aes.c:982-995 | byte i is added to the first byte of the encryption of the 16 bytes before it in IV and ciphertext |
| StreamModes.CryptCfb8 | external_libs/mbedtls/library/aes.c:972-999 | the shift-register loop computes that machine |
| StreamModes.CtrTwice | external_libs/mbedtls/library/aes.c:1006-1035 | applying CTR twice from one state is the identity |
| StreamModes.CtrStandard | external_libs/mbedtls/library/aes.c:1019-1031 | byte i is added to the keystream of the counter block it falls into, from every offset, and the state left behind is that of the count |
| StreamModes.CtrFromStart | external_libs/mbedtls/library/aes.c:1017-1029 | from a fresh start, byte i is added to byte i mod 16 of the encrypted counter block i / 16 |
| StreamModes.CtrFromOffset | external_libs/mbedtls/library/aes.c:1017-1029 | in the middle of a block the rest of the kept stream block comes first |
| StreamModes.CounterSteps | external_libs/mbedtls/library/aes.c:1019-1024 | the first counter block is the counter and each next one is one more |
| StreamModes.IncrementBytewise | external_libs/mbedtls/library/aes.c:1022-1024 | the last byte that is not 0xFF grows by one and all behind it become zero |
| StreamModes.CounterWraps | external_libs/mbedtls/library/aes.c:1022-1024 | the k-th counter block is the start value plus k modulo 2^128 |
| StreamModes.BumpCounter | external_libs/mbedtls/library/aes.c:1022-1024 | the carry loop adds one to a 128-bit number |
| StreamModes.CryptCtr | external_libs/mbedtls/library/aes.c:1006-1035 | the loop computes that machine, counter, stream block and offset included |
| Sha1.WindowNext | sdk_src/utils/utils_sha1.c:111-112 | the 16-word circular window delivers the words of the 80-word schedule |
| Sha1.PIsTemp | sdk_src/utils/utils_sha1.c:114-118 | the step macro with renamed registers and reduced Boolean forms is the step of section 6.1 of RFC 3174 |
| Sha1.RootConstants | sdk_src/utils/utils_sha1.c:126-208 | the four constants are the integer parts of 2^30 times the square roots of 2, 3, 5 and 10, in their quarters |
| Sha1.Rotations | sdk_src/utils/utils_sha1.c:109-112 | the shift pairs are rotations by 1, 5 and 30 |
| Sha1.Process | sdk_src/utils/utils_sha1.c:88-239 | the compression equals the 80-word form for every state and block |
| Sha1Vectors.CompressAbc | sdk_src/utils/utils_sha1.c:88-239 | the registers of the example of section 7.3 of RFC 3174 |
| Md5.PIsOperation | sdk_src/utils/utils_md5.c:114-118 | the step macro with reduced Boolean forms is the operation of section 3.4 of RFC 1321 |
| Md5.Process | sdk_src/utils/utils_md5.c:91-213 | 64 unrolled steps with their literal words, shifts and constants equal the four rounds of section 3.4 of RFC 1321 |
| Md5.Rotations | sdk_src/utils/utils_md5.c:112-112 | the shift pairs are rotations by the sixteen amounts used |
| Md5Vectors.CompressAbc | sdk_src/utils/utils_md5.c:91-213 | the registers for the message "abc" of appendix A.5 of RFC 1321 |
| Digest.FoldSplit | sdk_src/utils/utils_sha1.c:271-275 | folding the compression over blocks may be cut at any block |
| Digest.Context.Starts | sdk_src/utils/utils_sha1.c:76-86 | the context of the empty message |
| Digest.Context.Count | sdk_src/utils/utils_sha1.c:256-261 | two 32-bit words with a carry count modulo 2^64 |
| Digest.BitCount | sdk_src/utils/utils_sha1.c:295-296 | the shifted words are the two halves of the bit count modulo 2^64 |
| Digest.CountOctets | sdk_src/utils/utils_sha1.c:295-299 | the octets of the count, least significant first in MD5 and most significant first in SHA-1 |
| Digest.Context.Update | sdk_src/utils/utils_md5.c:218-256 | the context stands for everything fed so far, however it is cut, and counts the length modulo 2^32 per call |
| Digest.PaddedRightly | sdk_src/utils/utils_sha1.c:295-306 | a message is padded as the standard asks if and only if its count is right modulo 2^61 |
| Digest.ChunksPadded | sdk_src/utils/utils_md5.c:230-235 | after any updates the message is padded rightly if and only if the multiples of 2^32 lost in counting add up to a multiple of 2^61 |
| Digest.NothingLost | sdk_src/utils/utils_md5.c:230-235 | updates below 2^32 bytes lose nothing |
| Digest.LongUpdate | sdk_src/utils/utils_md5.c:230-235 | one update of 2^32 bytes counts as none and is padded wrongly |
| Digest.Context.Close | sdk_src/utils/utils_sha1.c:289-306 | padding and count through two more updates leave the fold over the padded message |
| Digest.Finish | sdk_src/utils/utils_md5.c:263-285 | the output is the digest of all that was fed, in the byte order of the algorithm |
| DigestVectors.Sha1OfAbc | sdk_src/utils/utils_sha1.c:317-326 | the SHA-1 digest of "abc" in literal bytes |
| DigestVectors.Md5OfAbc | sdk_src/utils/utils_md5.c:290-299 | the MD5 digest of "abc" in literal bytes |
| Digest.DigestChunks | sdk_src/utils/utils_sha1.c:244-312 | for every sequence of chunks of any length, the digest is that of their concatenation under the count kept; so any two chunkings agree with the digest of the whole whenever the padding is right |
| Hmac.MacInto | sdk_src/utils/utils_hmac.c:43-66 | the digest of the outer pad with the digest of the inner pad with the text, the pads being the key and zeros added to 0x5C and 0x36; hashed in separate updates through one buffer |
| Hmac.MacOfPads | sdk_src/utils/utils_hmac.c:46-66 | H((K xor opad) with H((K xor ipad) with text)) of section 2 of RFC 2104, stated on the bytes of the pads |
| Hmac.MacHex | sdk_src/utils/utils_hmac.c:29-127 | the hexadecimal MAC for keys up to 64 bytes; longer keys leave the output alone |
| Hmac.MacRaw | sdk_src/utils/utils_hmac.c:129-176 | the raw MAC and its length, or zero for a longer key |
| Hmac.HexInjective | sdk_src/utils/utils_hmac.c:68-76 | two MACs with the same hexadecimal text are equal |
| Hmac.HexBytes | sdk_src/utils/utils_hmac.c:72-75 | byte i is printed as the digits of its high and low four bits |
| Base64.EncodeLength | sdk_src/utils/utils_base64.c:50-57 | the encoding has exactly 4 * ceil(n / 3) characters |
| Base64.AlphabetMaps | sdk_src/utils/utils_base64.c:25-36 | the two tables are the alphabet of table 1 of RFC 4648 and its inverse |
| Base64.OtherCharacters | sdk_src/utils/utils_base64.c:30-36 | every other character but the padding is refused |
| Base64.Vectors | sdk_src/utils/utils_base64.c:40-97 | the vectors of section 10 of RFC 4648, and texts of the last two characters of the alphabet |
| Base64.DecodedVectors | sdk_src/utils/utils_base64.c:99-174 | the same texts decoded |
| Base64.EncodeInto | sdk_src/utils/utils_base64.c:40-97 | all four outcomes: empty input, size overflow, buffer too small with the size needed, and the encoding with its NUL |
| Base64.Accepted | sdk_src/utils/utils_base64.c:106-138 | the checking pass accepts a text if and only if spaces stand only before line ends or the end and the rest is data followed by at most two padding characters; it then counts that rest |
| Base64.StrippedAccepted | sdk_src/utils/utils_base64.c:106-138 | an accepted text without its spaces and line ends is accepted with the same counts |
| Base64.CheckPass | sdk_src/utils/utils_base64.c:106-138 | the loop computes that verdict and stops at the end |
| Base64.WriteIsDecode | sdk_src/utils/utils_base64.c:153-169 | the character-wise writer with its wrapping accumulator decodes group by group, whatever the padding |
| Base64.WithinSize | sdk_src/utils/utils_base64.c:145-151 | the writing pass emits no more than the checking pass computed, and exactly that if and only if no alphabet character lies behind the last whole group |
| Base64.WritePass | sdk_src/utils/utils_base64.c:153-171 | the second loop writes the decoding of the stripped text and nothing behind it |
| Base64.DecodeInto | sdk_src/utils/utils_base64.c:99-174 | when the decoder succeeds, the size it reports otherwise, and that the result is the decoding of the stripped text |
| Base64.RoundTrip | sdk_src/utils/utils_base64.c:40-174 | decoding the encoding of any bytes returns them |
| Base64.EncodedAccepted | sdk_src/utils/utils_base64.c:106-151 | every encoding is accepted and sized exactly |
| Der.WriteLen | external_libs/mbedtls/library/asn1write.c:42-100 | the length octets end where the cursor stood, or an error and an unchanged buffer |
| Der.WriteTag | external_libs/mbedtls/library/asn1write.c:102-110 | one octet below the cursor, or an error and an unchanged buffer |
| Der.WriteRaw | external_libs/mbedtls/library/asn1write.c:112-125 | the bytes below the cursor, or an error and an unchanged buffer |
| Der.WriteOctetString | external_libs/mbedtls/library/asn1write.c:317-329 | the whole element below the cursor, or the exact condition of failure |
| Der.WriteSequence | external_libs/mbedtls/library/asn1write.c:42-125 | writing the items from the last to the first and wrapping them yields the sequence in order |
| Der.GetLen | external_libs/mbedtls/library/asn1parse.c:54-110 | every form of length and every error, never past the end |
| Der.GetTag | external_libs/mbedtls/library/asn1parse.c:112-125 | the length behind the wanted tag, or which error |
| Der.ReadWritten | external_libs/mbedtls/library/asn1parse.c:54-110 | reading the written length of any size returns it and consumes exactly its octets |
| Der.FewestOctets | external_libs/mbedtls/library/asn1write.c:42-100 | no accepted encoding of a length is shorter than the one written |
| Der.LengthExamples | external_libs/mbedtls/library/asn1write.c:42-100 | lengths of one to five octets in literal octets |
| Der.WrittenExample | external_libs/mbedtls/library/asn1write.c:317-329 | a sequence of two octet strings in literal octets |
| Der.LengthErrors | external_libs/mbedtls/library/asn1parse.c:54-110 | which lengths are refused, with the codes |
| Der.TagErrors | external_libs/mbedtls/library/asn1parse.c:112-125 | a missing and a wrong tag, with the codes |
| Der.GetSequenceOf | external_libs/mbedtls/library/asn1parse.c:241-289 | every error, and on success a linked list of distinct nodes in order that ends where the sequence ends |
| Der.ItemsDelivered | external_libs/mbedtls/library/asn1parse.c:254-280 | reading concatenated octet strings delivers exactly their contents in order |
| Der.SequenceRoundTrip | external_libs/mbedtls/library/asn1parse.c:241-289 | the header of a written sequence ends exactly at the end and its items come back |
| Der.WriteThenRead | external_libs/mbedtls/library/asn1parse.c:241-289 | writing any list of byte strings backwards and reading it forwards returns the list, if and only if it fits |
| JsonScanner.GetObject | sdk_src/utils/json_parser.c:36-49 | the opening mark if only spaces lie before it |
| JsonScanner.SeekValue | sdk_src/utils/json_parser.c:74-102 | the first place where a value of some type starts |
| JsonScanner.OpeningExactly | sdk_src/utils/json_parser.c:40-47 | only spaces are skipped before the mark |
| JsonScanner.KindExactly | sdk_src/utils/json_parser.c:75-100 | which characters start a value, and of which type |
| JsonScanner.ValueStartExactly | sdk_src/utils/json_parser.c:74-102 | the value starts at the first such character |
| JsonScanner.NumericExactly | sdk_src/utils/json_parser.c:127-132 | a number ends at the first character that is neither a digit nor a dot |
| JsonScanner.QuotedExactly | sdk_src/utils/json_parser.c:133-142 | a string without quotes and backslashes ends at the first quote, and has length zero without one |
| JsonScanner.MeasureValue | sdk_src/utils/json_parser.c:103-151 | the one loop for all types finds the length that the type's own rule gives, zero for a text that ends too early |
| JsonScanner.NextObject | sdk_src/utils/json_parser.c:51-166 | the next name, value pointer, length and type, for every text |
| JsonScanner.Next | sdk_src/utils/json_parser.c:51-166 | the value pointer lies strictly behind the cursor and its length inside the text, so every walk over members ends |
| JsonScanner.CursorLeaves | sdk_src/utils/json_parser.c:161-165 | the returned pointer lies outside the text if and only if the value behind the next name and its colon is an opening quote that ends the text |
| JsonDocument.CursorLeavesExample | sdk_src/utils/json_parser.c:161-165 | such a text, for every name |
| JsonScanner.ParseNameValue | sdk_src/utils/json_parser.c:168-199 | success if some member was seen, and the callback's record of the first member of the name |
| JsonScanner.NameValue.Visit | sdk_src/utils/json_parser.c:201-232 | the record is filled and the walk stopped exactly at the name |
| JsonScanner.GetValueByName | sdk_src/utils/json_parser.c:234-253 | the first member of the name or nothing; a null value is withheld from a caller that asks for the type |
| JsonScanner.ValueOf | sdk_src/utils/json_token.c:28-72 | the text of the entry that the path leads to |
| JsonScanner.KeyList.KeysOf | sdk_src/utils/json_token.c:74-120 | an empty prefix starts a list and ends it with one entry without key; a nested call appends; every recursion is on a strictly shorter text |
| JsonDocument.EvenValue | sdk_src/utils/json_parser.c:133-148 | every written value leaves the depth of braces and of brackets as it found it |
| JsonDocument.NextMember | sdk_src/utils/json_parser.c:51-166 | over a written member the scanner yields its exact name, value and type |
| JsonDocument.EntriesPrinted | sdk_src/internal_inc/json_parser.h:92-94 | the walk from an object yields its visible members, then those behind it in every enclosing object, each with its exact place in the text |
| JsonDocument.NameLookup | sdk_src/utils/json_parser.c:168-253 | lookup in a written document returns the exact span and type of the first member of the name with a value that is not empty, and nothing when there is none |
| JsonDocument.NameFaithful | sdk_src/utils/json_parser.c:184-192 | lookup by one name tells what the first member of the name has if and only if its name and value are not empty or there is none |
| JsonDocument.PathResolved | sdk_src/utils/json_token.c:28-72 | what a lookup finds in a written document for every path at all, present or not |
| JsonDocument.PathLookup | sdk_src/utils/json_token.c:28-72 | a path that names a visible value looks up to exactly that value as written |
| JsonDocument.OpenLookup | sdk_src/utils/json_token.c:28-72 | for every path, the lookup finds what the document has if each object entered is left open towards the members behind it |
| JsonDocument.LastNameLookup | sdk_src/utils/json_token.c:43-62 | for a path of any length to an object and one further name: found if and only if the object has a visible member of the name or some object on the way has one behind the step taken there |
| JsonDocument.LookupFaithful | sdk_src/utils/json_token.c:28-72 | for every document and path, the lookup tells what the document has under it if and only if that value and the names are not empty, or there is none, none visible either, and the path does not stray |
| JsonDocument.PlainFaithful | sdk_src/utils/json_token.c:28-72 | with names unique per object, an absent path is told as absent if and only if it does not stray |
| JsonDocument.EmptyValueLost | sdk_src/utils/json_parser.c:186-186 | a document whose only member is not found |
| JsonDocument.EmptyValueMistaken | sdk_src/utils/json_token.c:49-57 | a document and a present path that looks up to the value of another member |
| JsonDocument.TwoStepLookup | sdk_src/utils/json_token.c:43-60 | the case of two names, whatever the first one leads to |
| JsonDocument.AbsentPathFound | sdk_src/utils/json_token.c:49-57 | a document and a path that names nothing in it but is found |
| JsonDocument.KeysListed | sdk_src/utils/json_token.c:74-120 | if nested texts and paths fit 511 characters, the keys listed are the dotted paths of the visible members, each before those inside it; they are the paths of all members if and only if no name and no value is empty |
| JsonDocument.KeysLookUp | sdk_src/utils/json_token.c:28-120 | with names unique per object and free of dots, every listed key looks up to exactly the value written |
| LinkedList.List.New | sdk_src/utils/utils_list.c:28-41 | an empty list |
| LinkedList.List.RPush | sdk_src/utils/utils_list.c:67-85 | appends the node, keeps all links; a null node changes nothing |
| LinkedList.List.RPop | sdk_src/utils/utils_list.c:90-107 | takes the last node out, unlinked, and keeps the rest |
| LinkedList.List.LPop | sdk_src/utils/utils_list.c:112-129 | takes the first node out, unlinked, and keeps the rest |
| LinkedList.List.LPush | sdk_src/utils/utils_list.c:134-152 | prepends the node, keeps all links |
| LinkedList.Find | sdk_src/utils/utils_list.c:157-183 | the first node that matches, or null if and only if none does |
| LinkedList.ListAt | sdk_src/utils/utils_list.c:188-214 | the node of the index from the head, or from the tail for a negative index, or null |
| LinkedList.List.Remove | sdk_src/utils/utils_list.c:219-232 | the list without that node, all links kept |
| LinkedList.Iterator.Next | sdk_src/utils/utils_list.c:261-268 | yields a node after fetching its neighbour |
| LinkedList.Sweep | sdk_src/utils/utils_list.c:219-268 | iterating in either direction while removing any chosen nodes visits every original node once in order and leaves the others in order |
| LinkedList.KeptMembers | sdk_src/utils/utils_list.c:219-232 | exactly the nodes that were not chosen are kept |
| LinkedList.OrderedNodes | sdk_src/utils/utils_list.c:237-268 | the order of an iteration from the head and from the tail |
| RingBuffer.Ring.Init | sdk_src/utils/utils_ringbuff.c:21-31 | an empty ring over the caller's cleared buffer |
| RingBuffer.Ring.Flush | sdk_src/utils/utils_ringbuff.c:33-41 | empties and clears |
| RingBuffer.Ring.Push | sdk_src/utils/utils_ringbuff.c:43-66 | stores min(len, size - 1 - stored) bytes, with the code for each outcome in numbers, also for negative lengths and size 0 |
| RingBuffer.Ring.Pop | sdk_src/utils/utils_ringbuff.c:68-90 | for 0 <= len <= size returns the oldest min(len, stored) bytes and keeps the rest in order; -5 for longer and negative requests |
| RingBuffer.RunConserves | sdk_src/utils/utils_ringbuff.c:43-90 | over every run of pushes and pops, start plus accepted equals popped plus stored, and at most size - 1 bytes are stored |
| RingBuffer.PoppedIsPrefix | sdk_src/utils/utils_ringbuff.c:43-90 | from an empty ring the popped bytes are a prefix of the accepted ones and the rest is stored |
| RingBuffer.Drive | sdk_src/utils/utils_ringbuff.c:43-90 | the ring on the heap performs any run as those lemmas describe it |
| Generator.Schrage | sdk_src/utils/qcloud_iot_http.c:38-53 | for every int32 the split product stays inside int32 and its correction is 48271 * x modulo 2^31 - 1 |
| Generator.StepNumbers | sdk_src/utils/qcloud_iot_http.c:38-51 | the step in plain numbers, and the first three numbers from the seed 1 |
| Generator.Source.Rand | sdk_src/utils/qcloud_iot_http.c:46-57 | one step for every unsigned seed, with every intermediate an int32 |
| Generator.Source.Reseed | sdk_src/utils/qcloud_iot_http.c:64-67 | the next draw starts from the given seed |
| Generator.Source.Draw | sdk_src/utils/qcloud_iot_http.c:46-62 | the n-th number from a seed in [1, 2^31 - 2] is seed * 48271^n modulo 2^31 - 1 and stays in that range |
| Generator.PowerIsExp | sdk_src/utils/qcloud_iot_http.c:46-57 | n steps from 1 give 48271^n modulo 2^31 - 1 |
| Generator.StepInjective | sdk_src/utils/qcloud_iot_http.c:46-57 | different seeds lead to different numbers |
| Generator.DeadSeeds | sdk_src/utils/qcloud_iot_http.c:46-57 | exactly three of the 2^32 seeds lead to the fixed point zero |
| Calendar.MonthOf | sdk_src/utils/utils_timer.c:55-61 | the month loop inverts counting days in a common year and never leaves its table |
| Calendar.MonthStarts | sdk_src/utils/utils_timer.c:22-22 | the days before each month, in numbers |
| Calendar.DateOf | sdk_src/utils/utils_timer.c:36-63 | the date is the valid one of that day number if and only if the day is not negative and not the end of a leap year from number 179337 on |
| Calendar.TimestampToDate | sdk_src/utils/utils_timer.c:24-66 | date and clock are right to the second if and only if the local time is not before 1970, its day fits an int and the day is not such an end of a leap year |
| Calendar.FirstWrongDay | sdk_src/utils/utils_timer.c:38-41 | the end of 2460 comes out 366 days early |
| Calendar.DayNumberInjective | sdk_src/utils/utils_timer.c:24-66 | a day number names one valid date, so the date above is the only right one |
| Calendar.GregorianUntil2100 | sdk_src/utils/utils_timer.c:48-54 | the every-fourth-year count is the Gregorian one through 2100-02-28 and no further |

## Left out

- MQTT, CoAP, shadow, gateway, OTA and AT clients, samples and network code: protocol wiring around the functions modelled here.
- mbedtls `arc4.c` and its own base64 and AES block code: they repeat arguments made here for the SDK's own versions; its `padlock.c` and `aesni.c` are assembly.
- The rest of the ASN.1 files (integers, bit strings, algorithm identifiers, named data): easy members around the same header functions.
- Numeric `sscanf` helpers, hexadecimal conversion, option parsing, escape stripping, zeroizing and self tests.
- Null pointer arguments: the log-and-return branches for them are not modelled, except the null node, the null base64 buffer and failed searches.
- Allocation failure: every allocation succeeds in the model; releasing memory (`list_destroy`, the free callback, `LITE_json_keys_release`) is not modelled.
- AesCbc.CryptCbc: input and output are one buffer or two disjoint ones, not partly overlapping; the two loops over blocks are one loop with the mode test inside.
- AesCbc.Wrapper: `datalen + 16` does not wrap around 2^32; a mode that is neither encrypt nor decrypt is not modelled; encrypting between separate buffers needs an input that holds the up to 16 bytes behind the data that the code reads (sdk_src/utils/utils_aes.c:854).
- AesCbc.SeparateBuffersPad: an input of exactly `datalen` bytes is left out, since there the code reads bytes that are not part of it.
- AesContext.Context.SetKeyEnc: the tables are an argument that is ready, not a static flag tested on each call; the three unrolled key sizes are one loop over a group of words.
- Sha1.Process: the 80 unrolled macro calls are sixteen calls of five renamed steps.
- Digest.DigestChunks: that a wrong padding gives a wrong digest is not stated, as that would exclude a collision of the hash.
- Digest.Context.Update: the ghost count adds each length modulo 2^32, which is what the two 32-bit counters can hold.
- Hmac.MacHex: message lengths are C ints that are not negative, so below 2^31.
- Base64.DecodeInto: `n * 6` does not wrap, which on a 64-bit `size_t` no buffer reaches.
- Der.WriteOctetString: the buffer is at most INT_MAX long, since the functions return lengths as ints.
- Der.WriteThenRead: the buffer is at most INT_MAX long, for the same reason.
- Der.WriteSequence: the buffer is at most INT_MAX long, since the functions return lengths as ints; the caller's loop over the items is part of the model, not of the source.
- JsonScanner.NextObject: only members of objects are scanned, not entries of arrays; the walk ends on a text that ends right behind a value's opening quote, where the C code steps over the terminating NUL.
- JsonScanner.ParseNameValue: `iStrLen` is the text's own length, as in every caller, so the cut and restore of the last character do not happen; the callback is the one of the lookup.
- JsonDocument.EntriesPrinted: names and strings hold no braces or brackets, strings do not end in a backslash, and numbers have no exponent.
- LinkedList.List.RPush: `len` does not wrap around 2^32, and a node is in one list at a time.
- RingBuffer.Ring.Pop: the caller's buffer is not the ring's own.
- Generator.Source.Rand: int is 32 bits wide and the conversion of an unsigned to an int32 wraps.
- Calendar.DateOf: a day number within 366 of the largest int overflows in C and is excluded.
- Calendar.TimestampToDate: the same for a timestamp whose local day is such a number; `size_t` is taken as 64 bits wide, so on a 32-bit target, where a negative local time wraps modulo 2^32, its result is another wrong date.
