# A model of the SMB client

The client is vendored C (libsmb2) under a Swift adapter. This project models the parts where a claim spans several
functions, a loop or a whole run, and proves those claims. C code that changes a buffer, a counter or a structure is
imperative Dafny here, proved against a function; what the code is for is then proved about that function.

| files | model |
|---|---|
| Bytes, Sequences | octets, byte orders, code units, concatenation |
| Ndr, NdrEncode, NdrDecode, NdrEncoder, NdrDecoder | the coders of DCE/RPC (C706 chapter 14): as functions, and as the C code runs them |
| NdrRoundTrip, NdrSimulation, NdrTheorem, NdrOrder, NdrPlan, NdrMisplaced, NdrWire | what the coders promise: round trip, order, room, the strings that break it, and what is on the wire |
| Defragment | the in-place joining of response fragments |
| AesTables, Aes, AesReference, AesOctets, Ccm, CcmInPlace, CcmMasks | FIPS 197 and RFC 3610, in place |
| BlockHash, ShaContext, Sha256, Sha512, HashConstants, HashFunctions, MdBlocks, Md4Transform, Md4, Md5Transform, Md5, Hmac | streaming hashes as folds over blocks, and RFC 2104 |
| NtlmSpec, NtlmKeys, NtlmChallenge, NtlmTranscode, Ntlm | NTLMv2 messages, client and server (MS-NLMP) |
| Handshake, HandshakeEnd, HandshakeAnswer, HandshakePolicy, HandshakeAccepts, HandshakeKeys, HandshakeKeyNames, Connect, Preauth | the connection from socket to share (MS-SMB2): a state machine over every run, and the callbacks |
| Slist, Teardown, Commands | the list macros, and the account of commands and files |
| BerSpec, BerForms, Ber | X.690 as far as SPNEGO needs it |
| NameResolution, Resolve, Transport | the adapter's decisions |

`dafny verify dfyconfig.toml` checks the whole project.

## Model

| member | source | states |
|---|---|---|
| NdrTheorem.RoundTrip | Sources/CSMB/lib/dcerpc.c:535-1073 | For every coder, both transfer syntaxes, both byte orders and every start offset: if encoding a value in which no string with data follows an odd number of octets succeeds, then decoding any buffer that holds the encoder's octets succeeds, ends at the same offset, and following the decoded pointers gives the encoded tree. When encoding succeeds is `NdrPlan.EncodesIf`; the trees with other strings are `NdrMisplaced.LawIffPlaced` |
| NdrMisplaced.LawIffPlaced | Sources/CSMB/lib/dcerpc.c:1002-1012 | Little-endian, for every coder and value that can be encoded at all: the law of `RoundTrip` holds for every buffer if and only if no string with data follows an odd number of octets within its pointee |
| NdrMisplaced.MisplacedFails | Sources/CSMB/lib/dcerpc.c:1040-1073 | Little-endian: for every tree with such a string, a concrete buffer for which the law fails, because the encoder aligns every code unit and the decoder does not align a string |
| NdrMisplaced.EndsShort | Sources/CSMB/lib/dcerpc.c:1002-1073 | In either byte order: a pointee that ends with such a string, and defers nothing, is decoded one octet short of where the encoder ended |
| NdrMisplaced.OctetAndStringFails | Sources/CSMB/lib/dcerpc.c:1002-1073 | The smallest failing input: a reference to one octet and a terminated string of one unit, in NDR32, is encoded in 18 octets, and the decoder stops at 17 |
| NdrMisplaced.BigTextShort | Sources/CSMB/lib/dcerpc.c:1040-1057 | Big-endian: the units of such a string come out right, because the decoder aligns each of them, but it stops one octet short |
| NdrMisplaced.AlignmentRecovers | Sources/CSMB/lib/dcerpc.c:285-338 | From one octet short of an even offset, the next item of two octets or more is aligned to where the encoder put it |
| NdrMisplaced.EmptyStringHidden | Sources/CSMB/lib/dcerpc.c:1040-1062 | An empty terminated string at an odd offset still decodes as empty when the octet skipped by the encoder is zero |
| NdrTheorem.TextEndsTogether | Sources/CSMB/lib/dcerpc.c:1002-1062 | Encoder and decoder of one string stop at the same offset if and only if the string starts at an even offset or has no data |
| NdrPlan.EncodesIf | Sources/CSMB/lib/dcerpc.c:535-543 | Encoding succeeds if and only if the plan of the tree, computed without a buffer, exists (the limit of 1024 embedded pointers is kept) and its highest offset is within the buffer; the plan also gives the end offset and the queue |
| NdrOrder.BreadthFirst | Sources/CSMB/lib/dcerpc.c:535-581 | After a top-level pointee the deferred queue holds the embedded pointers of the tree level by level: referents are on the wire in breadth-first order |
| NdrOrder.DrainOrder | Sources/CSMB/lib/dcerpc.c:564-581 | Draining from any point extends the queue by everything below the waiting pointees, level by level |
| NdrSimulation.DrainRoundTrip | Sources/CSMB/lib/dcerpc.c:564-581 | For queues whose strings are evenly placed: draining both queues from the same point keeps encoder and decoder in step, and ends with every pointee decoded into its slot |
| NdrSimulation.DataRoundTrip | Sources/CSMB/lib/dcerpc.c:583-1073 | For evenly placed strings: one data visit writes what the other reads, with equal offsets and equal deferred queues on both sides |
| NdrRoundTrip.ConfRoundTrip | Sources/CSMB/lib/dcerpc.c:682-716 | The counts written in the first visit are read back by the decoder's first visit, which ends at the same offset |
| NdrRoundTrip.PutGet | Sources/CSMB/lib/dcerpc.c:273-414 | An integer of 1, 2, 4 or 8 octets, aligned and stored in either byte order, reads back, and both sides end at the same offset |
| NdrWire.TextCounts | Sources/CSMB/lib/dcerpc.c:963-1000 | What the first visit of a string leaves, read back as three numbers: the announced count, which for a terminated string counts the terminator and otherwise is the next even number; zero; and the number of units |
| NdrWire.TextData | Sources/CSMB/lib/dcerpc.c:1002-1012 | The last of those numbers is the number of units that the second visit writes, wherever it starts |
| NdrWire.PutOctets | Sources/CSMB/lib/dcerpc.c:285-338 | An integer goes to the next multiple of its size, the lowest octet first in a little-endian PDU and last in a big-endian one, and no other octet of the buffer changes |
| NdrWire.PointerWord | Sources/CSMB/lib/dcerpc.c:720-817 | An embedded pointer is one word, zero for a null pointer and else the referent of its kind, and the pointee goes to the end of the queue |
| NdrEncoder.EncodePdu.constructor | Sources/CSMB/lib/dcerpc.c:510-533 | A new PDU at top level, nothing written and nothing deferred |
| NdrEncoder.EncodePdu.SetUint | Sources/CSMB/lib/dcerpc.c:273-338 | Aligns, checks the room and stores in the byte order of the PDU: success exactly when there is room, nothing changed otherwise |
| NdrEncoder.EncodePdu.UintCoder | Sources/CSMB/lib/dcerpc.c:583-680 | The integer coders on every visit: the first only raises the alignment |
| NdrEncoder.EncodePdu.ConformanceCoder | Sources/CSMB/lib/dcerpc.c:682-716 | A count is written on the first visit, in the width of the syntax, and does not raise the alignment |
| NdrEncoder.EncodePdu.AddDeferredPointer | Sources/CSMB/lib/dcerpc.c:535-543 | The pointee goes to the end of the queue |
| NdrEncoder.EncodePdu.Utf16Coder | Sources/CSMB/lib/dcerpc.c:949-1012 | Three counts on the first visit; the code units, with or without a terminator, on the second |
| NdrEncoder.EncodePdu.ArrayCoder | Sources/CSMB/lib/dcerpc.c:896-933 | The count on the first visit, the elements on both |
| NdrEncoder.EncodePdu.PtrCoder | Sources/CSMB/lib/dcerpc.c:720-817 | An embedded pointer is a referent id and a queue entry; a top-level pointer is coded in place and the queue drained before it returns |
| NdrEncoder.EncodePdu.DoCoder | Sources/CSMB/lib/dcerpc.c:545-562 | One pointee in two visits, never re-entered, aligned in between to the largest alignment of its members |
| NdrEncoder.EncodePdu.ProcessDeferredPointers | Sources/CSMB/lib/dcerpc.c:564-581 | Drains the queue in order, with what it gains on the way, and ends with `cur_ptr == max_ptr` |
| NdrEncoder.EncodePdu.Code | Sources/CSMB/lib/dcerpc.c:583-1100 | The coder of any value on any visit equals the step function of the specification, failures included |
| NdrSwap.SwapUnits | Sources/CSMB/lib/dcerpc.c:1044-1057 | The in-place byte swap of a big-endian string: succeeds exactly when every aligned unit is inside the buffer, and leaves the units in host order |
| NdrSwap.RoomTestWraps | Sources/CSMB/lib/dcerpc.c:1040-1043 | The 32-bit test that a string lies inside the buffer lets one pass that does not, if and only if its end comes round to the buffer once or twice; a count of 2^31 passes at every offset |
| NdrDecoder.DecodePdu.TopCoder | Sources/CSMB/lib/dcerpc.c:545-1100 | Decoding at top level equals the decoding function of the specification, with the pointees in their slots; it fails where the code fails, and where the code would read a string past the buffer |
| NdrDecoder.DecodePdu.DoCoder | Sources/CSMB/lib/dcerpc.c:545-562 | One pointee read in two visits, never re-entered |
| NdrDecoder.DecodePdu.ProcessDeferredPointers | Sources/CSMB/lib/dcerpc.c:564-581 | Drains the decoder's queue in order, each pointee into the slot of its pointer, and ends with `cur_ptr == max_ptr` |
| NdrDecoder.DecodePdu.PtrCoder | Sources/CSMB/lib/dcerpc.c:823-894 | A referent id that is not zero defers the pointee, zero is a null pointer |
| Defragment.Reassembles | Sources/CSMB/lib/dcerpc.c:1455-1510 | However many fragments a response has and whatever their sizes: compaction leaves the first header followed by the stub data of all fragments in order, and reports that length |
| Defragment.PartsReassemble | Sources/CSMB/lib/dcerpc.c:1455-1510 | For what a server sends, written octet by octet as section 12.6 of C706 lays headers out, in either byte order: the header of the first part and all stub data in order are left |
| Defragment.HeaderReads | Sources/CSMB/lib/dcerpc.c:1103-1153 | The length, the flag of the last fragment and the type are read from where section 12.6 of C706 puts them |
| Defragment.Unfragment | Sources/CSMB/lib/dcerpc.c:1455-1510 | For every octet string: the outcome (complete, cut short, or leaving the buffer) and the exact octets left behind, nothing else changed |
| Defragment.MoveStep | Sources/CSMB/lib/dcerpc.c:1494-1498 | Moving one more stub down by an overlapping move gives the next compaction |
| Defragment.UnreadFrag | Sources/CSMB/lib/dcerpc.c:1480-1498 | The write position never passes the read position, so the header of the next fragment is read as it came |
| AesReference.EncryptionInverts | Sources/CSMB/lib/aes_reference.c:444-470 | For every key and block deciphering undoes ciphering and ciphering undoes deciphering |
| AesReference.Encrypt | Sources/CSMB/lib/aes_reference.c:444-456 | The in-place rounds over a block, input and output possibly the same array, compute Cipher of section 5.1 of FIPS 197 |
| AesReference.Decrypt | Sources/CSMB/lib/aes_reference.c:458-470 | The inverse rounds compute InvCipher of section 5.3 |
| AesReference.KeyExpansion | Sources/CSMB/lib/aes_reference.c:146-209 | The loop fills the schedule with the 44 words of section 5.2: every octet is that of the word four before plus that of the word before, which at each fourth word is turned by one octet, goes through the table, and gets a power of x (`Expanded`) |
| AesReference.CipherInPlace | Sources/CSMB/lib/aes_reference.c:375-400 | Ten rounds in place equal the fold of the round function |
| AesReference.InvCipherInPlace | Sources/CSMB/lib/aes_reference.c:402-425 | Ten inverse rounds in place equal the fold of the inverse round function |
| AesReference.MixColumn | Sources/CSMB/lib/aes_reference.c:276-289 | The doubling trick on one column multiplies by the polynomial of section 5.1.3 and leaves the other columns alone |
| AesReference.InvMixColumn | Sources/CSMB/lib/aes_reference.c:291-330 | The macro with repeated doubling multiplies by the inverse polynomial |
| AesReference.ShiftRows | Sources/CSMB/lib/aes_reference.c:242-268 | The cyclic moves through one temporary are the rotation of the rows |
| AesReference.InvShiftRows | Sources/CSMB/lib/aes_reference.c:347-373 | The same for the inverse |
| AesReference.RconTable | Sources/CSMB/lib/aes_reference.c:110-129 | The round constants used are the powers of x in GF(2^8) |
| AesSpec.MixInverts | Sources/CSMB/lib/aes_reference.c:276-330 | MixColumns and InvMixColumns undo each other in both orders, from linearity and the product of the two polynomials |
| AesSpec.RoundsUndone | Sources/CSMB/lib/aes_reference.c:375-425 | The n-th inverse round takes back the n-th round, under the same schedule |
| AesOctets.RowsShift | Sources/CSMB/lib/aes_reference.c:242-268 | Row r moves by r columns to the left, octet by octet |
| AesOctets.ColumnsMixed | Sources/CSMB/lib/aes_reference.c:276-289 | Every octet becomes 2, 3, 1 and 1 times the octets of its column, from its own row downwards |
| AesOctets.OctetsSubstituted | Sources/CSMB/lib/aes_reference.c:225-237 | Every octet goes through the table by itself |
| AesTables.SBoxIsStandard | Sources/CSMB/lib/aes_reference.c:72-90 | Every entry of the S-box is the affine transformation of the multiplicative inverse in GF(2^8) |
| AesTables.TablesInvert | Sources/CSMB/lib/aes_reference.c:72-110 | The two tables invert each other on all 256 octets, in both orders |
| CcmInPlace.EncryptDecrypt | Sources/CSMB/lib/aes128ccm.c:154-185 | In-place encryption and then decryption with the tag it made restores the payload and returns 0, for every nonce of 7 to 13 octets and every payload of at most 2^31 octets, whole blocks or not; for longer ones, and only for those, the index of a block overflows its int |
| CcmInPlace.CcmEncrypt | Sources/CSMB/lib/aes128ccm.c:154-167 | For payloads of at most 2^31 octets encryption equals section 2 of RFC 3610: the payload under the key stream, and the encrypted tag; beyond, the index overflows |
| CcmInPlace.CcmDecrypt | Sources/CSMB/lib/aes128ccm.c:169-185 | For payloads of at most 2^31 octets decryption restores the payload and returns 0 if and only if the tag is that of what was decrypted; beyond, the index overflows |
| CcmInPlace.GenerateT | Sources/CSMB/lib/aes128ccm.c:65-117 | The two loops over additional data and payload compute the CBC-MAC over the blocks of section 2.2 |
| CcmInPlace.CryptInPlace | Sources/CSMB/lib/aes128ccm.c:135-152 | Counter mode in place, with a partial last block; the int index stays in range if and only if the payload has at most 2^31 octets |
| CcmInPlace.GenerateB0 | Sources/CSMB/lib/aes128ccm.c:38-54 | Flags, nonce and length as in section 2.2, for the length modulo 2^32 |
| CcmInPlace.GenerateS | Sources/CSMB/lib/aes128ccm.c:119-133 | The key stream block of a counter, modulo 2^32 |
| CcmSpec.CryptTwice | Sources/CSMB/lib/aes128ccm.c:135-152 | Encrypting twice gives the payload back |
| CcmMasks.TagMasked | Sources/CSMB/lib/aes128ccm.c:154-167 | The tag is the authentication code under the block with the number zero |
| CcmMasks.PayloadMasked | Sources/CSMB/lib/aes128ccm.c:135-152 | Block j of the payload is masked by the block with the number j + 1 |
| CcmMasks.MasksDiffer | Sources/CSMB/lib/aes128ccm.c:119-133 | Numbers that fit their field give different blocks, and the first block of the authentication code is none of them: no block is used twice |
| CcmMasks.FirstBlockReads | Sources/CSMB/lib/aes128ccm.c:38-54 | Additional data, size of the tag, nonce and length are read back from the first block |
| ShaContext.HashPieces | Sources/CSMB/lib/sha224-256.c:227-345 | For every message shorter than the limit and every way to cut it into pieces: the digest is that of the fold over the padded message; for every longer message the final result is an error |
| ShaContext.Context.Input | Sources/CSMB/lib/sha384-512.c:447-485 | One octet at a time into the block buffer: the message grows by exactly the data, or the overflow of the length words is noted, at exactly 2^(2w) bits; a finished or failed context refuses |
| ShaContext.Context.AddLength | Sources/CSMB/lib/sha224-256.c:55-75 | The carry found by comparing: the two words denote the sum, or one is returned exactly when it needs a third word |
| ShaContext.Context.FinalBits | Sources/CSMB/lib/sha384-512.c:507-549 | The digest of a message that ends with 1 to 7 further bits, and the error codes for calls out of order |
| ShaContext.Context.Result | Sources/CSMB/lib/sha224-256.c:591-611 | The digest of everything taken in; asking again gives the same digest |
| ShaContext.Context.PadMessage | Sources/CSMB/lib/sha384-512.c:638-703 | The padding octet, zeros and the length close on a block boundary in one or two blocks, with the right length |
| ShaContext.LastOctetIs | Sources/CSMB/lib/sha224-256.c:284-321 | The tables of the final octet give the remaining bits, a one, and zeros |
| BlockHash.PadZerosLeast | Sources/CSMB/lib/sha224-256.c:402-437 | No smaller number of zeros would end on a block boundary: section 5.1 of FIPS 180-2 |
| BlockHash.PaddedIsWhole | Sources/CSMB/lib/sha384-512.c:638-703 | The padded message leaves no incomplete block |
| BlockHash.FoldPieces | Sources/CSMB/lib/sha224-256.c:227-262 | A message may be folded piece by piece, carrying the incomplete block over |
| Sha256.ProcessMessageBlock | Sources/CSMB/lib/sha224-256.c:458-528 | Schedule and 64 rounds on one block, in place on the eight words, compute the compression function of section 6.2.2 |
| Sha512.ProcessMessageBlock | Sources/CSMB/lib/sha384-512.c:726-945 | Schedule and 80 rounds on one block compute the compression function of section 6.3.2 |
| HashConstants.Sha256Rounds | Sources/CSMB/lib/sha224-256.c:462-477 | The round constants are the first 32 bits of the fractions of the cube roots of the first 64 primes, by bounds on whole numbers |
| HashConstants.Sha512Rounds | Sources/CSMB/lib/sha384-512.c:860-902 | The same for 64 bits and 80 primes |
| HashConstants.Sha256Start | Sources/CSMB/lib/sha224-256.c:77-80 | The first hash value is made of the fractions of the square roots of the first eight primes |
| HashFunctions.Sha256Sigmas | Sources/CSMB/lib/sha224-256.c:50-58 | Each of the four functions is the parity of three rotations, or of two and a shift, by the numbers of section 4.1.2 |
| HashFunctions.Sha256Choice | Sources/CSMB/lib/sha-private.h:12-24 | A choice by the bits of the first word, and the majority of three |
| Md4.DigestPieces | Sources/CSMB/lib/md4c.c:93-170 | However a message is cut into pieces of 32-bit lengths: the digest is that of section 3 of RFC 1320 on the whole, if and only if no piece together with the octets that wait in the buffer reaches 2^32 |
| Md4.Context.Update | Sources/CSMB/lib/md4c.c:109-142 | The next octets, in whole blocks from where they lie and the rest kept; the count of bits, with its carry, stays exact modulo 2^64. The 32-bit index of the loop stays inside the input if and only if input and waiting octets together are fewer than 2^32 |
| Md4.Context.Final | Sources/CSMB/lib/md4c.c:147-170 | The padding goes through Update like the message, and the digest is that of the padded message |
| Md4Transform.Transform | Sources/CSMB/lib/md4c.c:174-242 | 48 unrolled steps are the 48 steps of the three rounds of RFC 1320 |
| Md4.LengthOctets | Sources/CSMB/lib/md4c.c:245-257 | The two counters are the length in bits modulo 2^64, low word first |
| Md5.DigestPieces | Sources/CSMB/lib/md5.c:57-142 | However a message is cut into pieces of less than 2^32 octets, the digest is that of section 3 of RFC 1321 on the whole |
| Md5.Context.Update | Sources/CSMB/lib/md5.c:73-106 | Every block is copied to the buffer and processed there; the count of octets, with its carry, stays exact modulo 2^64 |
| Md5.Context.Final | Sources/CSMB/lib/md5.c:113-142 | The digest of everything taken in, for a last block with room for the length and without |
| Md5Transform.Transform | Sources/CSMB/lib/md5.c:166-247 | 64 unrolled steps, with the optimized forms of F and G, are the 64 steps of RFC 1321 |
| Md5.LengthOctets | Sources/CSMB/lib/md5.c:131-133 | The count of octets shifted by three across two words is the length in bits modulo 2^64 |
| Hmac.HmacContext.Reset | Sources/CSMB/lib/hmac.c:82-147 | Both pads from the key, hashed first if it is longer than a block; an error exactly for keys too long to hash |
| Hmac.HmacContext.Input | Sources/CSMB/lib/hmac.c:169-176 | The text grows by the data while the padded key and the text fit the length words of the hash; beyond that the hash is marked as failed |
| Hmac.HmacContext.Result | Sources/CSMB/lib/hmac.c:227-245 | The result is HMAC of section 2 of RFC 2104 over the key and the whole text, whatever pieces it came in |
| Hmac.HmacMd5 | Sources/CSMB/lib/hmac-md5.c:21-84 | The one-shot form equals HMAC-MD5 for keys shorter and longer than a block |
| Hmac.MacNests | Sources/CSMB/lib/hmac.c:82-147 | The inner hash takes the key under 0x36 and the text, the outer one the key under 0x5c and the inner hash, for a key of any length |
| NtlmSpec.Agreement | Sources/CSMB/lib/ntlmssp.c:604-840 | With the same user, domain and non-empty password on both sides, the AUTHENTICATE message made for the server's challenge is accepted, and both sides hold the same session key, if and only if the target information is longer than 4 octets; otherwise it is rejected whatever the password |
| NtlmChallenge.ExchangeAgrees | Sources/CSMB/lib/ntlmssp.c:319-452 | The whole exchange: when the rewritten challenge fits its allocation, the client that rewrites the server's challenge and answers with the right password is accepted, with the same session key on both sides |
| NtlmChallenge.ServerRoom | Sources/CSMB/lib/ntlmssp.c:338-423 | For the server's own challenge, which has no gaps: the rewrite stays inside the allocation if and only if the length of the target name in octets, modulo 2^16, is at most 396; for names below 4096 units this means a host of at most 193 units |
| NtlmChallenge.OverrunAt194 | Sources/CSMB/lib/ntlmssp.c:338-423 | A host name of 194 units leaves the allocation, one of 193 does not |
| NtlmChallenge.RewriteIsChallenge | Sources/CSMB/lib/ntlmssp.c:319-452 | For every challenge and server name: the rewritten message is a challenge again, with the list that came followed by the whole target name, if and only if that list is shorter than 2^16 octets; then it parses to that list and lengths and offsets are exact (section 2.2.2.1 of MS-NLMP). Flags and server challenge are kept in any case |
| NtlmChallenge.ListWraps | Sources/CSMB/lib/ntlmssp.c:411-447 | The input that fails: a challenge of 65456 octets and a host of 100 units; everything stays in the allocation, the 16-bit length of the list is written as 78, and 78 octets of the list do not parse |
| NtlmChallenge.ParseInverts | Sources/CSMB/lib/ntlmssp.c:375-423 | Parsing the octets of a list of pairs gives the list |
| NtlmTranscode.DecodeChallenge | Sources/CSMB/lib/ntlmssp.c:319-452 | In one pass over the message: it fits if and only if the rewritten message is no longer than the message and the extra room, and then the buffer holds exactly the rewritten message |
| NtlmTranscode.Transcode | Sources/CSMB/lib/ntlmssp.c:375-423 | The loop over the pairs copies them and inserts the target name before the end marker, with its length counted in 16 bits; the outcome is false exactly when that does not fit |
| NtlmSpec.MessageReads | Sources/CSMB/lib/ntlmssp.c:1141-1160 | What the server reads from the offset fields of a client's message is what the client put there |
| NtlmSpec.WrittenInPlace | Sources/CSMB/lib/ntlmssp.c:703-832 | Writing lengths first, and each offset when its part is appended, gives the message with all fields exact |
| Ntlm.AuthData.Encoder | Sources/CSMB/lib/ntlmssp.c:246-271 | Appends, in a larger buffer if this one is full, and keeps what is there |
| Ntlm.AuthData.EncodeTemp | Sources/CSMB/lib/ntlmssp.c:564-602 | Room for the proof, the server challenge, and the rest of the response, in order |
| Ntlm.AuthData.EncodeResponse | Sources/CSMB/lib/ntlmssp.c:646-701 | The proof, computed over challenge and temp, is stored over exactly the sixteen octets before temp |
| Ntlm.AuthData.EncodeAuth | Sources/CSMB/lib/ntlmssp.c:604-840 | The AUTHENTICATE message: anonymous without a password, refused when the challenge does not hold the target information it announces, else the message of `NtlmSpec` with the session key kept |
| Ntlm.AuthData.EncodeChallenge | Sources/CSMB/lib/ntlmssp.c:842-1001 | The CHALLENGE message with its name, its pairs and its fields; the server challenge is always 1, 2, ..., 8 |
| Ntlm.AuthData.GetUtf16Field | Sources/CSMB/lib/ntlmssp.c:1141-1160 | The string of a field, or a read past the message |
| Ntlm.AuthData.VerifyResponse | Sources/CSMB/lib/ntlmssp.c:1238-1292 | Recomputes the proof over the response and compares; the session key is kept on success |
| Ntlm.AuthData.AuthenticateBlob | Sources/CSMB/lib/ntlmssp.c:1162-1298 | The server's verdict on any message equals that of the specification: accepted with a session key, granted anonymously, rejected, or a read past the message |
| Ntlm.ResponseKeyOf | Sources/CSMB/lib/ntlmssp.c:501-558 | NTOWFv2: the HMAC-MD5, under the MD4 of the password, of the upper-case user and the domain |
| NtlmKeys.KeyMoves | Sources/CSMB/lib/ntlmssp.c:530-553 | User and domain are hashed one behind the other, the user first: capitals may move from the end of the one to the beginning of the other |
| NtlmKeys.KeyIgnoresCase | Sources/CSMB/lib/ntlmssp.c:530-540 | The case of the user name makes no difference to the response key |
| NtlmKeys.KeyWithoutDomain | Sources/CSMB/lib/ntlmssp.c:525-558 | Without a domain, or with an empty one, the key is HMAC-MD5 under the MD4 of the password of the user name in capitals |
| NtlmKeys.TempLayout | Sources/CSMB/lib/ntlmssp.c:564-602 | Every octet of the structure that is hashed: ones, time, client challenge and target information at their places, zeros elsewhere (section 2.2.2.7 of MS-NLMP) |
| NtlmKeys.ResponseProves | Sources/CSMB/lib/ntlmssp.c:646-701 | The response starts with the code of the server challenge and everything behind it, and that code under the same key is the session key |
| NtlmKeys.ProofMoves | Sources/CSMB/lib/ntlmssp.c:646-701 | The server challenge is hashed before the rest of the response |
| Handshake.HeldOnce | Sources/CSMB/lib/libsmb2.c:1030-1192 | After smb2_connect_share_async has returned 0, in every run in which no interim reply runs a callback of the handshake (outside passthrough mode every run), whatever else is queued and in whatever order replies and timeouts come: exactly one of the connect callback, the queued commands and the command being received holds the connect data, or they have been freed exactly once; the user's callback has run in the second case only, exactly once; and the context points to them in the first case only |
| Handshake.LinearIffCalm | Sources/CSMB/lib/socket.c:819-840 | For every run: the connect data have one holder, or are free, after each of its events, if and only if no interim reply runs a callback of the handshake |
| Handshake.InterimFreesHeld | Sources/CSMB/lib/socket.c:823-837 | The input that fails: in passthrough mode an interim reply to NEGOTIATE frees the connect data while the command that holds them stays queued |
| Handshake.CalmOtherwise | Sources/CSMB/lib/socket.c:819-840 | Outside passthrough mode every run is such a run |
| Handshake.DispatchTakes | Sources/CSMB/lib/socket.c:1030-1095 | Every other event moves commands between the queues or takes out exactly the one callback that runs: nothing else that holds connect data appears or disappears |
| Handshake.EnqueuedLinear | Sources/CSMB/lib/libsmb2.c:536-604 | A callback that queues the next command hands the connect data on; one that does not must free them |
| Handshake.FinishedStays | Sources/CSMB/lib/libsmb2.c:538-560 | Once the connect data are freed no event reaches a callback of the handshake any more |
| HandshakeEnd.DestroyCompletes | Sources/CSMB/lib/init.c:320-393 | smb2_destroy_context, at any point: after draining the out queue, the command being received, the wait queue and the connect callback nothing holds the connect data, they have been freed once in all, the user's callback has run once in all, and the last test finds nothing to free; the number is negative unless the socket was still connecting |
| HandshakeEnd.RunThenDestroy | Sources/CSMB/lib/init.c:320-393 | The same for every run followed by the destruction of the context |
| HandshakeAnswer.AnswerTells | Sources/CSMB/lib/libsmb2.c:562-600 | In every such run the number for the user is not negative in three cases only: the share is joined and the socket open, the server answered with STATUS_END_OF_FILE, or no socket was connected |
| HandshakeAnswer.PassingAndOpen | Sources/CSMB/lib/libsmb2.c:714-856 | In every such run that is answered: the share is joined if and only if the number is not negative and the socket is open |
| HandshakeAnswer.PassingWithoutSession | Sources/CSMB/lib/libsmb2.c:735-743 | A run that ends with a number that is not negative, no session and no socket |
| HandshakePolicy.RunProtected | Sources/CSMB/lib/libsmb2.c:942-970 | Signing or sealing, once configured, stays on after every event of every run, under every configuration |
| HandshakePolicy.RunPoliced | Sources/CSMB/lib/libsmb2.c:745-811 | With signing required: after every event of such a run the offer matches what was asked for, no session is guest or null, a signing session has a valid key, an encrypting session is sealed, and an accepted tree reply was sealed, or rightly signed and asked for no sealing, or named another command. Signing and sealing are both on only in a context that is broken or closed |
| HandshakePolicy.JoinedPolicy | Sources/CSMB/lib/libsmb2.c:578-599 | Every joined connection that requires signing: exactly one of sign and seal, a valid key if it signs, no guest or null session, no DFS tree, and a share that demands encryption is sealed with dialect 3.0 or later and a session key |
| HandshakePolicy.JoinedKey | Sources/CSMB/lib/libsmb2.c:755-809 | Every joined connection that requires signing holds the key of the reply that accepted the session. The key is valid if and only if the connection signs or that reply brought a valid one; and it is valid, whatever the server does, when neither the caller nor the session asks for sealing |
| HandshakePolicy.SealedWithoutKey | Sources/CSMB/lib/libsmb2.c:755-809 | The inputs that fail: whenever the caller or the session asks for sealing there is a run that joins the share, sealed, under a key of zeros, although signing is required |
| HandshakePolicy.DemandingTreeReply | Sources/CSMB/lib/socket.c:800-880 | A tree reply that demands encryption reaches tree_connect_cb if and only if it was itself sealed, or its header names NEGOTIATE or SESSION_SETUP, and a signature that is looked at is right; otherwise sealing is on, nobody is called, and the service fails |
| HandshakeAccepts.JoinedSignature | Sources/CSMB/lib/libsmb2.c:811-832 | In every joined run, under every configuration: when the connection signs or seals or speaks dialect 3.1.1, the reply that accepted the session was unsigned or rightly signed |
| HandshakeAccepts.AcceptedIff | Sources/CSMB/lib/libsmb2.c:745-856 | For every such run in which SESSION_SETUP is answered with success: the session is accepted if and only if the reply gets past the receive policy, is not guest or null where signing is required, brings a valid key where the connection signs, and is not wrongly signed where keys are derived; TREE_CONNECT is queued if and only if, besides, it can be made. A wrong signature alone ends with EINVAL |
| HandshakeAccepts.PolicyIs | Sources/CSMB/lib/socket.c:800-858 | What the receive policy lets through: for ordinary commands, if and only if the reply is sealed where sealing is on and, where signing is on, rightly signed, or sealed and unsigned |
| HandshakeAccepts.OpenedIff | Sources/CSMB/lib/libsmb2.c:906-1028 | The same for NEGOTIATE: SESSION_SETUP is queued if and only if the offer suits and the request can be made, and what signing, sealing and dialect are then |
| HandshakeAccepts.SharedIff | Sources/CSMB/lib/libsmb2.c:562-600 | The same for TREE_CONNECT: the share is joined if and only if it is no DFS share and asks for no encryption that cannot be had |
| HandshakeKeyNames.KeyDirections | Sources/CSMB/lib/libsmb2.c:656-712 | For every joined run with dialect 3.0 or later: the name and the context each of the three keys is derived for, octet by octet of the input of the derivation (section 3.1.4.2 of MS-SMB2) |
| HandshakeKeyNames.SigningKeyBefore | Sources/CSMB/lib/libsmb2.c:661-667 | With an older dialect the signing key is the session key, filled up with zeros |
| HandshakeKeys.HashIsTranscript | Sources/CSMB/lib/libsmb2.c:631-654 | In every such run, while NEGOTIATE or SESSION_SETUP is outstanding, the hash is the SHA-512 fold from zeros over all messages exchanged so far, in order |
| HandshakeKeys.KeysFromTranscript | Sources/CSMB/lib/libsmb2.c:656-712 | In every such run that joins: the hash covers NEGOTIATE and every SESSION_SETUP message but the final reply, and the keys are those of the dialect, from the session key and that hash |
| HandshakeKeys.WireIsExchange | Sources/CSMB/lib/libsmb2.c:906-1097 | The messages recorded are those the events exchanged, in order |
| Connect.Smb2Context.ConnectCb | Sources/CSMB/lib/libsmb2.c:1030-1097 | connect_cb: the new hash, the queued NEGOTIATE request, or the answer and the release |
| Connect.Smb2Context.OnNegotiateReply | Sources/CSMB/lib/libsmb2.c:906-1028 | negotiate_cb: hash, offer, policy, next request, and every refusal |
| Connect.Smb2Context.SendSessionSetupRequest | Sources/CSMB/lib/libsmb2.c:858-904 | Queues the request and hashes it, or closes and leaves the answer to the caller |
| Connect.Smb2Context.OnSessionSetupReply | Sources/CSMB/lib/libsmb2.c:714-856 | session_setup_cb: a further round, a refusal, or keys and the request for the tree |
| Connect.Smb2Context.CreateSigningKey | Sources/CSMB/lib/libsmb2.c:656-712 | The keys of every dialect |
| Connect.Smb2Context.OnTreeReply | Sources/CSMB/lib/libsmb2.c:562-600 | tree_connect_cb: refusals, sealing for a share that demands it, and the answer |
| Connect.Smb2Context.FreeCData | Sources/CSMB/lib/libsmb2.c:537-560 | Counts the release and resets the pointer of the context |
| Connect.Smb2Context.SocketReady | Sources/CSMB/lib/socket.c:1030-1095 | connect_cb runs if it is set and is reset afterwards; the service fails with the socket, also when the error has no code |
| Connect.Smb2Context.ProcessTreeConnect | Sources/CSMB/lib/smb2-cmd-tree-connect.c:200-233 | Reading a tree reply turns sealing on when the share demands it, before any check of the reply |
| Connect.Smb2Context.Admit | Sources/CSMB/lib/socket.c:800-858 | The policy of what is received: sealed, signed, and the signature right, each where the code looks for it |
| Connect.Smb2Context.DeliverReply | Sources/CSMB/lib/socket.c:800-880 | The body is read, the policy is applied, and then the callback of the command being received runs once, or the service fails and none runs |
| Connect.Smb2Context.InterimReply | Sources/CSMB/lib/socket.c:819-840 | Refused if it should have been sealed; else dropped, except in passthrough mode: there the callback runs and the command stays |
| Connect.Smb2Context.TimeoutWait | Sources/CSMB/lib/pdu.c:1147-1157 | A waiting command that has expired is taken out and told STATUS_IO_TIMEOUT |
| Connect.Smb2Context.DestroyContext | Sources/CSMB/lib/init.c:320-393 | The loops over the two queues and the connect callback: the final state of the specification, with `answers == released == 1` |
| Connect.ConnectShareAsync | Sources/CSMB/lib/libsmb2.c:1099-1192 | Zero exactly when server, share, user and socket are there and every allocation succeeds; a nonzero return has freed the connect data, except when no user name is known |
| Preauth.UpdatePreauthHash | Sources/CSMB/lib/libsmb2.c:639-654 | The hash becomes the SHA-512 digest of the hash so far and the pieces of the message |
| Preauth.TranscriptHashesOn | Sources/CSMB/lib/libsmb2.c:631-654 | The hash of a transcript starts from zeros and takes in each message behind the value so far |
| Preauth.DeriveKey | Sources/CSMB/lib/libsmb2.c:602-629 | The streaming calls over counter, label, zero, context and length compute the key of section 5.1 of SP 800-108, counter mode with HMAC-SHA-256, cut to sixteen octets |
| Teardown.DestroyedConserves | Sources/CSMB/lib/init.c:320-401 | Destroying a connection: over its whole life every command ever queued has been called back once and freed once, and every file ever opened has been freed once |
| Teardown.InterimUnbalances | Sources/CSMB/lib/socket.c:823-837 | Any command that is called back while it stays queued has been called back once too often: the account does not balance |
| Teardown.ExpireOutConserves | Sources/CSMB/lib/pdu.c:1130-1146 | Timeouts of unsent commands keep the account |
| Teardown.ExpireWaitConserves | Sources/CSMB/lib/pdu.c:1147-1158 | Timeouts of waiting commands keep the account |
| Teardown.DeliveredConserves | Sources/CSMB/lib/libsmb2.c:1385-1401 | A delivered reply keeps the account: an open that failed and every close frees its file |
| Teardown.ReceivedConserves | Sources/CSMB/lib/socket.c:555-600 | A reply keeps the account in order and out of order, where the command stays queued |
| Commands.CommandQueues.DestroyContext | Sources/CSMB/lib/init.c:320-401 | The loops over the linked lists leave them empty, with every command called back and freed once and every file freed once |
| Commands.CommandQueues.OpenAsync | Sources/CSMB/lib/libsmb2.c:1229-1348 | A new file at the head of the list and its command at the end of the queue, or neither |
| Commands.CommandQueues.CommandAsync | Sources/CSMB/lib/libsmb2.c:1403-1433 | A command on an open file is queued, or nothing changes |
| Commands.CommandQueues.Sent | Sources/CSMB/lib/socket.c:305-330 | The first command moves to the end of the wait queue |
| Commands.CommandQueues.Received | Sources/CSMB/lib/socket.c:560-600 | The command of a reply becomes the current one and leaves the wait queue when the reply is in order |
| Commands.CommandQueues.Interim | Sources/CSMB/lib/socket.c:819-840 | Dropped, except in passthrough mode: there the command is called back, stays queued, and the account does not balance any more |
| Commands.CommandQueues.Delivered | Sources/CSMB/lib/libsmb2.c:1209-1227 | The callback runs, the command is freed |
| Commands.CommandQueues.TimeoutPdus | Sources/CSMB/lib/pdu.c:1130-1158 | The two walks over the lists call back and free exactly the expired commands |
| Commands.CommandQueues.FreePdu | Sources/CSMB/lib/pdu.c:343-367 | Both removals, one of which finds nothing |
| Commands.CommandQueues.FreeOpenHandles | Sources/CSMB/lib/libsmb2.c:1201-1207 | Every file that is still open is freed |
| Slist.SList.Add | Sources/CSMB/include/slist.h:21-25 | The item becomes the head |
| Slist.SList.AddEnd | Sources/CSMB/include/slist.h:27-37 | The item becomes the last one, and the list pointer, which walks, is put back |
| Slist.SList.Remove | Sources/CSMB/include/slist.h:39-50 | Removal is exact: the item is gone, all others are kept in order, and nothing happens when it is absent |
| Slist.WithoutIs | Sources/CSMB/include/slist.h:39-50 | What removal means: one occurrence less of an item that is there, the same sequence otherwise |
| BerSpec.LengthRoundTrip | Sources/CSMB/lib/asn1-ber.c:684-727 | Every 32-bit length decodes to itself, whatever follows |
| BerSpec.LengthShortest | Sources/CSMB/lib/asn1-ber.c:127-170 | No other length field the decoder accepts for the number is shorter: section 8.1.3 of X.690 |
| BerSpec.Uint32RoundTrip | Sources/CSMB/lib/asn1-ber.c:816-845 | Every 32-bit number decodes to itself; zero takes four octets instead of one |
| BerSpec.OctetStringRoundTrip | Sources/CSMB/lib/asn1-ber.c:1052-1072 | An octet string decodes to itself if and only if the receiver has room for it |
| BerSpec.OidRoundTrip | Sources/CSMB/lib/asn1-ber.c:979-1050 | An identifier of up to 31 arcs of 32 bits decodes to itself if and only if it is portable: at least two arcs, the second below 40, the first two in one octet below 128, and a body of at most 32 octets; the decoder refuses the others or returns other arcs |
| BerForms.LengthForm | Sources/CSMB/lib/asn1-ber.c:684-727 | A length below 128 is one octet; any other is the number of octets with the high bit and then the length, most significant octet first and none too many |
| BerForms.ArcForm | Sources/CSMB/lib/asn1-ber.c:928-977 | An arc is written in groups of seven bits, most significant first, all but the last with the high bit, and none too many |
| BerForms.SpnegoIdentifier | Sources/CSMB/lib/asn1-ber.c:979-1050 | The identifier of SPNEGO: its first two arcs share an octet |
| Ber.AnnotatedIsDirect | Sources/CSMB/lib/asn1-ber.c:95-125 | Reserve, write, annotate leaves the octets of writing the shortest length first, whenever the reservation suffices and the buffer is not full |
| Ber.AnnotatedOverruns | Sources/CSMB/lib/asn1-ber.c:95-125 | When the reservation is too small, the length runs over the first octets of the content and what lies behind becomes part of it |
| Ber.Asn1BerContext.LengthFromBer | Sources/CSMB/lib/asn1-ber.c:127-170 | Value, position and errors of the length decoder for every input |
| Ber.Asn1BerContext.Uint32FromBer | Sources/CSMB/lib/asn1-ber.c:337-401 | Value, position and errors for every input |
| Ber.Asn1BerContext.OidFromBer | Sources/CSMB/lib/asn1-ber.c:538-623 | Arcs, position and errors for every input |
| Ber.Asn1BerContext.BytesFromBer | Sources/CSMB/lib/asn1-ber.c:625-677 | The octets, closed by a zero if there is room, position and errors for every input |
| Ber.Asn1BerContext.BerFromLength | Sources/CSMB/lib/asn1-ber.c:684-727 | Writes the shortest length, or fills the buffer and fails |
| Ber.Asn1BerContext.ReserveLength | Sources/CSMB/lib/asn1-ber.c:729-742 | Zeros for a length written later |
| Ber.Asn1BerContext.AnnotateLength | Sources/CSMB/lib/asn1-ber.c:95-125 | The shortest length of what lies behind the reservation is stored, and the rest moved; nothing is done when the buffer is full |
| Ber.Asn1BerContext.BerFromUint32 | Sources/CSMB/lib/asn1-ber.c:816-845 | Type, length and the octets of the number |
| Ber.Asn1BerContext.BerFromSingleOid | Sources/CSMB/lib/asn1-ber.c:928-977 | The groups of seven bits of one arc, without leading zeros |
| Ber.Asn1BerContext.BerFromOid | Sources/CSMB/lib/asn1-ber.c:979-1050 | Type, a reserved length octet, the arcs, and then the length; more than 31 arcs are refused and nothing is written |
| Ber.Asn1BerContext.BerFromBytes | Sources/CSMB/lib/asn1-ber.c:1052-1072 | Type, length and the octets |
| NameResolution.DecidedInTime | Sources/NativeSMB/SMBNameResolution.swift:126-132 | For every sequence of events there is a decision from start + min(timeout, limit) on; and from the grace after the first address on the addresses known are the decision |
| NameResolution.WaitIsShort | Sources/NativeSMB/SMBNameResolution.swift:126-132 | Every wait ends strictly later than now and no later than the deadline |
| NameResolution.EndsFixed | Sources/NativeSMB/SMBNameResolution.swift:101-124 | Deadline and grace end do not move, the latter once it is set |
| NameResolution.WaitStays | Sources/NativeSMB/SMBNameResolution.swift:126-132 | Two waits of the same lookup while there are addresses end at the same time |
| NameResolution.ResolvedShape | Sources/NativeSMB/SMBNameResolution.swift:86-97 | A resolved lookup has 1 to 16 addresses: prefixes of the two lists, each without duplicates, turn about |
| NameResolution.ResolvedOrder | Sources/NativeSMB/SMBNameResolution.swift:86-97 | What a resolved lookup lists, place by place, for every sequence of events: the addresses of the family whose address came first and those of the other in turn, beginning with the former |
| NameResolution.WaitsIff | Sources/NativeSMB/SMBNameResolution.swift:126-132 | A lookup waits if and only if a family has not answered, the deadline is not reached, and there is no address or the grace after the first one is not over; otherwise it is resolved if and only if there is an address |
| NameResolution.ListKeepsOrder | Sources/NativeSMB/SMBNameResolution.swift:101-124 | A new host is listed last, a listed one stays where it is, and a withdrawn one is taken out from among the others |
| NameResolution.PrefixAlternates | Sources/NativeSMB/SMBNameResolution.swift:86-97 | Every prefix interleaves prefixes of the two lists whose lengths differ by at most one while both last: section 4 of RFC 8305 |
| NameResolution.ListedIsLastWord | Sources/NativeSMB/SMBNameResolution.swift:101-120 | A listed host was reported and not withdrawn since; and every such host is listed, unless more than 16 were reported for its family |
| Resolve.SMBNameResolution.Addresses | Sources/NativeSMB/SMBNameResolution.swift:86-97 | The loop over both lists by index computes the interleaving of which `PrefixAlternates` is proved, cut to 16 |
| Resolve.SMBNameResolution.Receive | Sources/NativeSMB/SMBNameResolution.swift:101-120 | Each answer changes the lists, the settled families and the first address as specified |
| Resolve.SMBNameResolution.Next | Sources/NativeSMB/SMBNameResolution.swift:126-132 | The step, resolved, failed or a wait, of which `DecidedInTime`, `WaitIsShort` and `ResolvedShape` are proved |
| Resolve.Resolve | Sources/NativeSMB/SMBNameResolution.swift:196-235 | The loop ends at the first turn that does not have to wait, with that turn's decision |
| Resolve.NoWaitAtDeadline | Sources/NativeSMB/SMBNameResolution.swift:211-213 | No turn waits at or after the deadline, whatever has been answered |
| Resolve.NoWaitAfterBroken | Sources/NativeSMB/SMBNameResolution.swift:216-222 | The turn after an unusable poll settles with what has arrived |
| Resolve.FoundShape | Sources/NativeSMB/SMBNameResolution.swift:196-235 | What a lookup returns, at whichever turn: the shape of `NameResolution.ResolvedShape` |
| Transport.Connect | Sources/NativeSMB/SMBTransport.swift:47-85 | The addresses tried are a prefix of the list: all but the last fell back, the last succeeded, stopped the search or was the last there is; at most one login is rejected, and a rejected login is the outcome |
| Transport.SearchGoesOn | Sources/NativeSMB/SMBTransport.swift:47-85 | The search goes on to the next address if and only if this one could not be reached; a server that refused the login, by any of the twelve statuses for that, ends it whatever number came with the status |
| Transport.GuardIsDialect | Sources/NativeSMB/SMBTransport.swift:72-76 | For a joined share without a guest login the check after the connect comes down to the dialect |
| Transport.Range | Sources/NativeSMB/SMBTransport.swift:193-218 | A range is exactly the file's octets there, however short the reads are; and it succeeds when every read brings something |
| Transport.Download | Sources/NativeSMB/SMBTransport.swift:170-191 | What is handed over is a prefix of the file, all of it on success; and it succeeds when every read brings something |
| Transport.Upload | Sources/NativeSMB/SMBTransport.swift:139-168 | A successful upload leaves exactly the octets supplied; a file that was there before is never changed; removal is attempted only after this run's own create succeeded |
| Transport.RemoveInterruptedUpload | Sources/NativeSMB/SMBTransport.swift:220-260 | No other file is touched, and the file is gone when the server lets it be removed |

## Findings

Where the code does not do what it is for, or not for every input. The code is modelled as it is.

| where | what |
|---|---|
| Strings at odd offsets (`dcerpc.c:1002-1012` and `1040-1062`) | The encoder aligns every code unit, the decoder does not align a string. A structure of an octet and a string does not survive the round trip: `NdrMisplaced.OctetAndStringFails` gives the input, `NdrMisplaced.LawIffPlaced` the exact condition, which a caller can check before the call |
| Misplaced strings, big-endian (`dcerpc.c:1048-1057`) | The decoder aligns each unit when it swaps, so the units are right and only the end is one octet short (`NdrMisplaced.BigTextShort`); an item of two octets or more behind it puts the decoder back in step (`NdrMisplaced.AlignmentRecovers`) |
| Object identifiers (`asn1-ber.c:979-1050`) | Arcs of first octet 128 or more, a second arc of 40 or more, a single arc, or a body over 32 octets do not survive: `BerSpec.OidRoundTrip` is an if and only if |
| Zero (`asn1-ber.c:816-845`) | The number 0 is encoded in four octets, not the one that section 8.3.2 of X.690 asks for; it decodes all the same (`BerSpec.Uint32RoundTrip`) |
| Annotated lengths (`asn1-ber.c:95-125`) | A reservation too small for the length is not refused: the length overwrites the content (`Ber.AnnotatedOverruns`) |
| STATUS_END_OF_FILE (`errors.c:1070-1072`) | Its errno is zero, so a server that ends the handshake with it makes the user's callback report success without a session: `HandshakeAnswer.PassingWithoutSession`; `PassingAndOpen` says how a caller can tell |
| STATUS_CANCELLED (`init.c:368-372`) | It is passed as a socket error and negated, so a context destroyed while its socket is connecting reports a positive number (`HandshakeEnd.DestroyCompletes`) |
| Interim replies in passthrough mode (`socket.c:823-837`) | They run the callback of a command that stays queued. A command is then called back more than once (`Teardown.InterimUnbalances`), and during the handshake that frees the connect data while they are still held: `Handshake.InterimFreesHeld` gives the run, `Handshake.LinearIffCalm` says that exactly such replies do it |
| Connect data (`libsmb2.c:1157-1160`) | They are not freed when no user name is known (`Connect.ConnectShareAsync`) |
| Sealing without a key (`libsmb2.c:755-809`) | A missing or zero session key ends a signing handshake but not a sealing one, and sealing turns signing off: the server that accepts the first SESSION_SETUP gets a sealed share under a key of zeros. `HandshakePolicy.SealedWithoutKey` gives the run for every such configuration, `HandshakePolicy.JoinedKey` the exact condition; when neither the caller nor the session asks for sealing the key is valid |
| Signing and sealing together (`smb2-cmd-tree-connect.c:230-231`) | A tree reply that demands encryption turns sealing on while it is read. In clear it then fails the check for encryption, and the context is left with both on and nobody called (`HandshakePolicy.DemandingTreeReply`, `HandshakePolicy.RunPoliced`) |
| The policy looks at the name (`socket.c:803-805`) | A reply in clear whose header names NEGOTIATE or SESSION_SETUP is not asked for sealing, whatever command it answers; `HandshakePolicy.DemandingTreeReply` is an if and only if |
| An error without a code (`socket.c:1031-1042`) | connect_cb is told 0 and queues NEGOTIATE, although no socket is connected; the service fails right after it (`Connect.Smb2Context.SocketReady`, with `usable` false) |
| Target information (`ntlmssp.c:1238-1292`) | A response over target information of at most four octets, the bare end marker, is rejected even with the right password (`NtlmSpec.Agreement`) |
| Room for the target name (`ntlmssp.c:338-423`) | The allocation has 400 octets to spare and the target name is written without looking: `NtlmChallenge.ServerRoom` and `NtlmChallenge.OverrunAt194` |
| The length of the target list (`ntlmssp.c:411-447`) | It is counted in 16 bits. A list that grows to 2^16 octets or more gets its length modulo 2^16: `NtlmChallenge.ListWraps` gives the input, `NtlmChallenge.RewriteIsChallenge` the exact condition |
| The length of a string (`dcerpc.c:1041`) | Offset and doubled count are added in 32 bits, so the test for room lets counts around 2^31 pass (`NdrSwap.RoomTestWraps`) |
| Large payloads (`aes128ccm.c:146`) | The index `j * 16` is an int; it overflows for payloads of more than 2^31 octets, and only for those (`CcmInPlace.CryptInPlace`) |
| Large pieces for MD4 (`md4c.c:128`) | `i + 63` wraps around when the octets that wait in the buffer and the piece together reach 2^32, and the loop then leaves the input (`Md4.Context.Update`) |
| Over-long messages (`sha224-256.c:227-262`) | Input reports success for the octet that overflows the length; only the next call and the result fail (`ShaContext.Context.Input`, `ShaContext.HashPieces`) |

## Left out

- NdrTheorem.RoundTrip: promises nothing for trees with a string behind an odd number of octets; little-endian that is exact (`NdrMisplaced.LawIffPlaced`), big-endian only the sufficient half is proved: such a tree may still survive, when a later aligned item hides the octet that was skipped, and whether one does depends on the start offset modulo 8, on what the skipped octet holds, and on whether an octet behind the string equals the last octet of the string.
- NdrSimulation.DrainRoundTrip: for evenly placed strings only, as the theorem it serves.
- NdrSimulation.DataRoundTrip: for evenly placed strings only, as the theorem it serves.
- NDR: PTR_FULL, the 64-bit coder, context handles, the PDU headers and BIND; strings and arrays that are not behind a pointer, which the coders do not support at top level; the loss of the high half of 64-bit counts is kept, memory allocation failures are not.
- NDR: the queue has room for 1024 pointees and the code does not look; the model ends there with a failure.
- NDR: the decoder is modelled in three methods for its visits, because its values do not exist before it has read them.
- Defragment.Unfragment: the header is read in the fields that matter; the rewriting of the first header on every round, which the code does not use, is left out; a fragment that claims more than the buffer holds is the outcome of leaving it.
- AES: CBC mode, and the hardware paths. The round constants are those that AES-128 uses.
- CcmInPlace.CcmEncrypt: for additional data shorter than 0xFF00 octets it is RFC 3610; the code has no other length format, so for longer data it computes what is stated, which is not RFC 3610. RFC 3610 also asks for a payload whose length fits the field that the nonce leaves for it, which is two octets for a nonce of 13; the code does not look, and what is stated then is for the length as it is cut.
- NdrDecoder.DecodePdu.TopCoder: a string count whose end wraps around in 32 bits is a failure here; the code would read past the buffer.
- ShaContext: one context class serves both C files, which repeat each other; SHA-1, SHA-224 and SHA-384 are left out.
- Hmac: over SHA-256, which key derivation uses, and over MD5; the other hashes of the dispatcher usha.c are left out.
- Md4.Context.Update: once the loop has left the input nothing is said about the context.
- NTLM: strings are sequences of UTF-16 units, and the conversions from UTF-8 are left out; so are SPNEGO wrapping, NTLMv1, fields of the AUTHENTICATE message of 65536 octets or more, and the truncation of the message length to 16 bits.
- Ntlm.ResponseKeyOf: the password that is "ntlm:" and the 32 digits of a hash is left out; every password is hashed.
- Handshake: Kerberos, SPNEGO, credits and the sizes of reads and writes are left out; replies, keys, signatures and the outcome of allocations are inputs; messages are shorter than 2^64 octets; of the table of errors only which statuses become zero is kept. The user's callback does not destroy the context it is called from.
- Connect.Smb2Context: the queues are sequences of commands, where `Commands` has the linked lists; the two classes are two views of one C structure.
- Teardown.DestroyedConserves: for contexts whose account balances; an interim reply in passthrough mode is what unbalances it.
- Commands: compound requests, message ids, credits, the tree-id stack, header encoding and the padding of replies; the user's callbacks do not change the queues; at most one command at a time uses a file.
- Handshake: after the service has failed, the context is only destroyed, as its header asks (`libsmb2.h:240-244`); what a caller would get who goes on serving it is left out.
- Commands.CommandQueues.Received: a reply out of order leaves the context with a command that is current and queued; what the network code does after that is left out.
- BER: the signed and the 64-bit integers; identifiers whose body has 128 octets or more outgrow the one octet reserved; null destinations.
- Resolve.Resolve: literal addresses, a cancellation before the first query, and queries that cannot be started; the clock, the answers and the polls are a script.
- Transport: guardAncestors, directory listings, progress reports, the command loop and its timeouts; one client at the server.
- Sockets, DNS, clocks, unicode.c, spnego-wrapper.c, the command encoders, signing and sealing of messages after the handshake.
