# The entropy coders of the bundled libjpeg, and AES-256-CBC

This project models the entropy-coding layer of the JPEG library in `3rdparty/libjpeg`, the state
machines around it that decide what the coders see, and the AES-256-CBC cipher in
`3rdparty/aes256cbc`, and proves what they are there for: that what is encoded is decoded again.
`dafny verify dfyconfig.toml` checks everything.

The models keep the form of the C code. Encoders, decoders and controllers are classes with the
fields of the C structures, and their methods branch and loop as the C routines do. Each method is
proved against a specification function, and the laws of the code are lemmas about these functions,
and driver methods that run both sides.

- `Radix`, `Bits`, `ByteStream`, `Blocks`, `DcBits`: numbers as digits and bits, byte stuffing and
  markers, coefficients and point transforms.
- `arith/`: the adaptive binary arithmetic coder. `ArithModel` is the coder in exact arithmetic, a
  nest of integer intervals; `ArithEncoder` and `ArithDecoder` are the two register machines, each
  proved to take exactly one step of the model for each decision. Above them are sequential scans
  (`ArithScan`) and progressive ones (`ArithRefine`, `ArithProgression`). `ArithStandard` holds the
  definitions against the tables, figures and test data of ITU-T T.81.
- `huff/`: the Huffman coder. Code words and the two ways to decode them (`HuffCode`, `HuffDecode`,
  `HuffTables`), bits and bytes (`BitIo`, `HuffReader`), sequential scans (`HuffScan`), first and
  refinement AC scans with end-of-band runs (`EobRuns`, `AcFirst`, `AcRefine*`, `Progression`), DC
  refinement scans (`DcRefine`), and optimized tables (`HuffmanTree`, `HuffmanOptimal`,
  `LongestCode`, `PseudoSymbol`, `CodeSpace`, `LimitedCode`, `LengthLimit`, `SymbolList`,
  `OptimalTable`, `SymbolUse`, `TwoPass`, `OptimizedBand`). `HuffStandard` does for them what
  `ArithStandard` does.
- `scan/`: scan scripts, what makes one acceptable as a whole (`ScriptHistory`), what the decoder
  checks of them, and the pass machine.
- `mcu/`: how blocks become MCUs and are put back, under suspension, the round trip of whole
  sequential images through everything above (`ImageRoundTrip`), and that of progressive images
  over all scans of a script (`PartialImage`, `ProgressiveScan`, `ScriptRoundTrip`). `McuLayout` is
  the order of section A.2 of ITU-T T.81.
- `rows/`: the buffers that show row groups with context rows.
- `aes/`: tables, key schedules, the cipher with its two inverses, the CBC contexts, and the vectors
  of FIPS 197 and NIST SP 800-38A (`AesVectors`).

A source that may suspend is a byte sequence that may end before the data does; a destination that
may suspend is a number of MCUs it has room for. The permutation `natural_order` is any permutation.
ERREXIT is a false result.

Some errors of the code are proved unreachable: the missing shorter code in length limiting
(`3rdparty/libjpeg/jchuff.c:1418-1419`, `LengthLimit.ShorterExists`), the run of more than 15 bits
(`3rdparty/libjpeg/jchuff.c:472-474`, `EobRuns.RunEncoder.EmitEobrun`), and, with optimized tables,
the missing code (`HuffScan.CountedSuffices`).

## Model

| member | source | states |
|---|---|---|
| ArithRoundTrip.RoundTrip | 3rdparty/libjpeg/jcarith.c:132-313 | For every probability table of the right shape, every starting state of the bins and every sequence of decisions, the bytes that the encoder object writes up to the end of the pass, followed by any marker, make the decoder object return exactly the coded bits, and every statistics bin ends equal on both sides. |
| ArithEncoder.Encoder.Encode | 3rdparty/libjpeg/jcarith.c:219-313 | One call moves the exact interval that the registers, the buffered byte, the stacked 0xFF bytes, the pending zeros and the written bytes stand for by exactly one step of the interval model, and the bin to the state that Table D.3 of ITU-T T.81 gives (ArithStandard.NextStates); its invariant bounds the register by 0x9000000, keeps the buffered byte below 0xFF and leaves no room for a carry when no byte is buffered. |
| ArithEncoder.Encoder.OutputByte | 3rdparty/libjpeg/jcarith.c:261-305 | Whether a digit is written, stacked, counted as a pending zero or brings a carry, the number that all bytes so far denote becomes 256 times the old one plus the digit. |
| ArithEncoder.Encoder.NoCarryIntoNothing | 3rdparty/libjpeg/jcarith.c:262-282 | While no byte is buffered, everything that has left the register is 0xFF and the number it denotes is the largest of its length, so a carry that stays below 1 cannot arrive then. |
| ArithEncoder.Encoder.Renormalize | 3rdparty/libjpeg/jcarith.c:253-312 | Shifting and output together double the exact interval until its width is at least 0x8000, and lose nothing of it. |
| ArithEncoder.Encoder.Finish | 3rdparty/libjpeg/jcarith.c:133-193 | The data written lies in the final interval, does not end in a zero byte, and no shorter byte string has its value in the interval; what is sent is that data with a zero stuffed after every 0xFF. |
| ArithTermination.Termination | 3rdparty/libjpeg/jcarith.c:140-147 | The value that is picked at the end lies in [c, c + a) and no value of that range ends in more zero bits; the same is true of the whole number with the bytes before it in front. |
| ArithTermination.Shortest | 3rdparty/libjpeg/jcarith.c:147-192 | Data that denotes the value with the most zero bits, without its zero bytes at the end, is at most as long as any data that denotes a value of the interval. |
| ArithDecoder.Decoder.Decode | 3rdparty/libjpeg/jdarith.c:105-182 | One call returns the bit whose part of the current interval holds the code value of the whole input, and moves interval and bin exactly as the model and hence the encoder does, the bin to the state of Table D.3 (ArithStandard.NextStates); it can only fail when the source has no byte to give. |
| ArithDecoder.Decoder.NextData | 3rdparty/libjpeg/jdarith.c:115-137 | The data byte returned is the next digit of the unstuffed data in front of the marker, and zero once the marker has been found. |
| ArithDecoder.Decoder.Refill | 3rdparty/libjpeg/jdarith.c:113-145 | Renormalization, with the first two bytes at the start of a scan, leaves the interval that the registers stand for as it was renormalized, and needs no byte beyond a marker. |
| ArithTable.Unpack | 3rdparty/libjpeg/jaricom.c:20-29 | The shifts and masks of both coders take the Qe value, the two successors and the switch bit back out of the packed form. |
| ArithStandard.NextStates | 3rdparty/libjpeg/jcarith.c:244-261 | After a less probable symbol the bin has the next index of its row, and the sense of the more probable symbol is exchanged exactly where the row says so; after a more probable symbol the sense stays and the index is the other next index. |
| ArithStandard.FirstSwitch | 3rdparty/libjpeg/jaricom.c:35-35 | In state 0, a symbol that is not the more probable one leads to index 1 with the sense exchanged, 0x81. |
| ArithStandard.Rows0Are | 3rdparty/libjpeg/jaricom.c:35-44 | What the first ten rows of Table D.3 add up to, each times its place, with all their fields; Rows10Are to Rows110Are are the same for the others. |
| ArithStandard.Monotone | 3rdparty/libjpeg/jaricom.c:31-148 | In every row but the one for fixed odds, a less probable symbol leads to a larger estimate exactly where it does not exchange the sense, and a more probable symbol to a smaller one in every row but 13. |
| ArithStandard.K4Data | 3rdparty/libjpeg/jcarith.c:219-313 | The first 32 decisions of the test sequence in section K.4.1 of ITU-T T.81 lead to an interval that has the data given there, which starts with the bytes 65 5B 51 44 F7. |
| ArithScan.ScanRoundTrip | 3rdparty/libjpeg/jcarith.c:694-835 | For any segment of MCUs with any coefficients, decoding returns every coefficient of the scan at its precision and ends with the same statistics bins, exactly if all DC differences have magnitudes of at most 0x8000; otherwise it is the bad-code warning, never a missing byte. |
| ArithScan.TooSteep | 3rdparty/libjpeg/jdarith.c:556-566 | Two MCUs whose DC values are 0x7FFF and -0x8000 have coefficients in range and a DC difference that does not fit. |
| ArithScan.Steepest | 3rdparty/libjpeg/jdarith.c:556-566 | After a DC value of 0x7FFF in the first MCU, the second MCU fits exactly if its DC value is at least -1, so a difference of 0x8000 is the last one that does. |
| ArithMcuEncoder.EncodeMcu | 3rdparty/libjpeg/jcarith.c:694-835 | One MCU codes exactly the decisions that the binarization of sections F.1.4.1 to F.1.4.3 prescribes for its blocks, and DC predictions and contexts move on as prescribed; all bins stay inside their areas. |
| ArithStandard.DcClasses | 3rdparty/libjpeg/jcarith.c:728-768 | The bins for the next difference are those for zero if the difference is zero or its magnitude at most half of 2^L, for small ones if it is at most 2^U, and for large ones beyond, each by sign, as section F.1.4.4.1.2 has it. |
| ArithStandard.Conditioning | 3rdparty/libjpeg/jcarith.c:724-777 | In a new segment the first block of a component is coded as a difference to 0 with the bins for zero, and the next block of the same component as the difference to it with the bins that the first difference selects. |
| ArithStandard.DcTrees | 3rdparty/libjpeg/jcarith.c:728-777 | The decisions and bins for the differences 0, 1, -1, 2 and -6: S0, SS, SP or SN in a row, the categories from bin 20 on, and the magnitude bits 14 bins behind the last of them. |
| ArithStandard.AcTrees | 3rdparty/libjpeg/jcarith.c:787-827 | The decisions and bins for the values 1, -2, 6 and 3 at positions up to Kx and behind it: three bins for each position, an even sign, the categories from bin 189 or 217 on, and the magnitude bits 14 bins further. |
| ArithStandard.BandTree | 3rdparty/libjpeg/jcarith.c:779-835 | The decisions for a band with values at positions 1 and 3: no end of block in front of each run, one decision for the zero, and an end of block behind the last value. |
| ArithMcuDecoder.DecodeMcu | 3rdparty/libjpeg/jdarith.c:511-636 | If the input goes on with the decisions of an MCU, the decoder consumes just these, rebuilds each block and keeps the same predictions and contexts as the encoder, exactly if all its DC differences fit. |
| ArithMcuDecoder.DecodeDc | 3rdparty/libjpeg/jdarith.c:548-586 | A DC difference comes back exactly if its magnitude is at most 0x8000, and the bad-code branch is taken exactly if it is larger. |
| ArithMcuDecoder.DecodeCategory | 3rdparty/libjpeg/jdarith.c:556-566 | The doubling loop finds the same magnitude category as the encoder and reports a bad code exactly for values of 0x8000 and more. |
| ArithMcuDecoder.DecodeAc | 3rdparty/libjpeg/jdarith.c:591-632 | A band coded by the encoder is read back decision by decision and puts every coefficient of the band at its precision, leaving the rest of the block alone. |
| ArithScan.RebuiltExactly | 3rdparty/libjpeg/jdarith.c:511-636 | Without a point transform, a rebuilt block is the source block over the whole band. |
| ArithRefine.EncodeAcRefine | 3rdparty/libjpeg/jcarith.c:595-686 | The decisions coded for a refinement scan of a band are those of section G.1.3.3, with an end decision wherever the decoder will look for one. |
| ArithStandard.RefineTree | 3rdparty/libjpeg/jcarith.c:622-686 | The decisions for a band with an old value, a zero and a new value: a correction bit without an end decision in front of it, and then end decision, zero, new value with its sign, and end of band, each in its bin. |
| ArithRefine.DecodeAcRefine | 3rdparty/libjpeg/jdarith.c:436-504 | From a band known to one bit less, and the decisions of the encoder, every coefficient of the band gets the precision of the scan and nothing else changes. |
| ArithRefine.SameLast | 3rdparty/libjpeg/jdarith.c:465-469 | The index of the last nonzero coefficient that the decoder finds in its own block is the one the encoder finds in the coarser source, as far as the band goes. |
| ArithProgression.PassRoundTrip | 3rdparty/libjpeg/jcarith.c:453-686 | Encoding one progressive scan (first AC, refined AC or refined DC) and decoding it again brings every block to the precision of the scan and ends with equal statistics bins. |
| ArithProgression.BandRoundTrip | 3rdparty/libjpeg/jdarith.c:320-504 | A first AC scan with any number of low bits missing, followed by one refinement scan for each of them, gives exactly the source coefficients of the band for all blocks. |
| ArithProgression.DcRoundTrip | 3rdparty/libjpeg/jdarith.c:402-428 | Starting from DC values without their low bits, one refinement scan for each bit gives all DC values back exactly. |
| ArithProgression.DcFirstPrepares | 3rdparty/libjpeg/jdarith.c:241-311 | A first DC scan leaves in the decoder exactly the value that the DC refinement scans start from. |
| HuffDecode.FastIsSlow | 3rdparty/libjpeg/jdhuff.c:168-188 | For every derived table and every bit string, decoding through the lookahead table gives the same symbol and uses up the same number of bits as decoding bit by bit. |
| HuffDecode.SymbolRoundTrip | 3rdparty/libjpeg/jdhuff.c:590-626 | The code word of any symbol, followed by anything, is decoded as that symbol and nothing behind it is used up. |
| HuffDecode.PrefixFree | 3rdparty/libjpeg/jchuff.c:202-222 | In an accepted table no code word is the beginning of another. |
| HuffDecode.NoOnes | 3rdparty/libjpeg/jchuff.c:202-222 | In an accepted table no code word consists of ones only, so the padding of the last byte completes no code. |
| HuffTables.MakeCDerived | 3rdparty/libjpeg/jchuff.c:160-245 | The encoder accepts a table exactly if its codes fit with the all-ones code left free and its symbols are in range and distinct; the derived table then holds the canonical code and its length for every symbol, and length 0 for all others. |
| HuffTables.MakeDDerived | 3rdparty/libjpeg/jdhuff.c:322-439 | The decoder accepts a table exactly if its codes fit with the all-ones code left free and, for DC, its symbols are at most 15; the limits, offsets and lookahead entries are then those of the canonical code. |
| HuffStandard.NextCode | 3rdparty/libjpeg/jchuff.c:202-222 | Figure C.2: the first code is 0, and each next code is one more than the one before, with as many zeros behind it as it is longer. |
| HuffStandard.LengthCounts | 3rdparty/libjpeg/jchuff.c:183-198 | Figure C.1: the lengths are ascending, and there are as many codes of every length as the table says. |
| HuffReader.Decode | 3rdparty/libjpeg/jdhuff.c:168-188 | When the source does not suspend, the symbol and the bits used up are those of the bit-serial decoder on the rest of the stream, with 0 for garbage; when it suspends, no marker has been reached. |
| HuffReader.DecodeSlow | 3rdparty/libjpeg/jdhuff.c:590-626 | Started at any length no code is shorter than, the bit-serial loop stops at the length of the code that comes next and returns its symbol, or returns 0 after 17 bits. |
| BitIo.BitWriter.EmitBits | 3rdparty/libjpeg/jchuff.c:305-343 | Everything written or still buffered grows by exactly the low bits of the code, at most 7 bits stay in the buffer between calls, and a size of 0 is refused. The destination has room for every byte. |
| BitIo.BitWriter.Flush | 3rdparty/libjpeg/jchuff.c:389-397 | The bits of the bytes written are all the bits sent, and then ones up to the next byte boundary. |
| BitIo.BitReader.FillBitBuffer | 3rdparty/libjpeg/jdhuff.c:463-561 | Filling the buffer does not change the bits ahead; zeros are made up only if fewer bits are left than were asked for; and on suspension the reader is as before. |
| ByteStream.StuffedFF | 3rdparty/libjpeg/jchuff.c:328-335 | In stuffed data every 0xFF is followed by a zero, so no marker appears in it. |
| HuffStandard.Stuffed | 3rdparty/libjpeg/jchuff.c:328-335 | Stuffing makes data longer by the number of its 0xFF bytes, and leaves data without them as it is. |
| HuffStandard.BitOfByte | 3rdparty/libjpeg/jchuff.c:305-343 | Bit j of byte i is bit 8i + j of the stream, from the most significant bit down. |
| HuffStandard.FillBytes | 3rdparty/libjpeg/jdhuff.c:490-519 | Behind any number of 0xFF bytes, a zero makes one data byte 0xFF and any other byte a marker. |
| HuffBlock.ExtendLow | 3rdparty/libjpeg/jdhuff.c:577-583 | The size category and the low bits that are sent determine the value. |
| HuffStandard.Category | 3rdparty/libjpeg/jchuff.c:929-942 | A value is in category n exactly if its magnitude has n bits, and only 0 is in category 0. |
| HuffStandard.AdditionalBits | 3rdparty/libjpeg/jchuff.c:949-954 | A positive value is followed by its own bits, a negative one by those of the value plus 2^n - 1. |
| HuffBlock.InLimits | 3rdparty/libjpeg/jchuff.c:28-38 | The checks let through exactly the AC values from -1023 to 1023 and the DC differences from -2047 to 2047. |
| HuffStandard.LeastRefused | 3rdparty/libjpeg/jchuff.c:28-38 | Of the values from -1024 to 1023, which the comment calls legal and says to fit in 10 bits, the encoder refuses exactly -1024, which has 11. |
| HuffStandard.LongRun | 3rdparty/libjpeg/jchuff.c:956-1004 | The tokens of a band with -3, sixteen zeros, 1 and zeros to the end: 0x02 and the bits 00, 0xF0, 0x01 and the bit 1, 0x00. |
| HuffStandard.ShortRun | 3rdparty/libjpeg/jchuff.c:956-1004 | Fifteen zeros are part of the code of the value behind them, longer runs are cut into sixteens, and no end of block follows when the last coefficient is not zero. |
| HuffStandard.DcPrediction | 3rdparty/libjpeg/jchuff.c:1035-1061 | In a new segment the first block of a component is sent as a difference to 0, the next block of the same component as the difference to it, and another component has a prediction of its own. |
| HuffStandard.PointTransform | 3rdparty/libjpeg/jchuff.c:568-577 | The point transform rounds DC values down and AC values towards 0. |
| HuffStandard.RestartMarkers | 3rdparty/libjpeg/jchuff.c:494-512 | Behind the segments come RST0 to RST7 in turn, and the given marker behind the last one. |
| HuffScan.SequentialRoundTrip | 3rdparty/libjpeg/jchuff.c:1011-1100 | For all blocks and all accepted tables, coding a sequential scan or a first DC scan into stuffed, padded bytes and decoding it returns every block as far as it is asked for, with no zeros made up and every 0xFF followed by 0; it fails exactly if an AC value exceeds 1023 in magnitude, a DC difference exceeds 2047, or a symbol has no code. |
| HuffScan.Exact | 3rdparty/libjpeg/jdhuff.c:1203-1320 | After a sequential scan all 64 coefficients of a block are those of the source. |
| HuffScan.DcKept | 3rdparty/libjpeg/jdhuff.c:706-768 | After a first DC scan the DC value is the source value with its low bits cleared. |
| HuffMcuEncoder.EncodeMcu | 3rdparty/libjpeg/jchuff.c:1011-1061 | One MCU sends exactly the symbols and bits that section F.1.2 prescribes and moves the DC predictions on; it fails exactly if an AC value exceeds 1023 in magnitude, a DC difference exceeds 2047, or a symbol has no code. |
| HuffMcuDecoder.DecodeMcu | 3rdparty/libjpeg/jdhuff.c:1203-1320 | If the input goes on with what the encoder sends for an MCU, exactly that is consumed, every wanted coefficient is stored, unwanted ones are read over, and the predictions that matter agree with those of the encoder; on suspension the reader and the saved predictions are untouched and the blocks hold nothing but coefficients that belong there; after data has been made up it does nothing. |
| HuffMcuDecoder.DecodeInChunks | 3rdparty/libjpeg/jdhuff.c:1203-1320 | However the data of an MCU arrives in chunks and however often the MCU is tried again, blocks, predictions and position end up as after one undisturbed call; and when the chunks reach a marker it succeeds. |
| HuffGather.EncodeMcuGather | 3rdparty/libjpeg/jchuff.c:1117-1221 | Trial encoding an MCU raises the count of every symbol by the number of times the output pass sends it, and fails for the same AC values over 1023 and DC differences over 2047. |
| HuffScan.GatherScan | 3rdparty/libjpeg/jchuff.c:1192-1221 | Over all restart intervals of a scan, each starting with predictions of 0, one set of counts ends up as the number of times each symbol is sent. |
| HuffScan.GatherFirst | 3rdparty/libjpeg/jchuff.c:544-619 | In a progressive file the first DC scan counts exactly the symbols that its output pass sends, over all restart intervals. |
| HuffScan.CountedSuffices | 3rdparty/libjpeg/jchuff.c:414-436 | Tables that have a code for every counted symbol make the missing-code error impossible in the output pass. |
| TwoPass.OptimizedRoundTrip | 3rdparty/libjpeg/jchuff.c:1464-1509 | One set of optimized tables, made from counts over all restart intervals, serves every interval, and each gives back what the decoder asks for, exactly if no coefficient is out of range and the code that the counts of each needed table lead to has no length over 32; the missing-code error never comes. |
| TwoPass.FewSuffice | 3rdparty/libjpeg/jchuff.c:1396-1397 | With fewer than 9227464 symbols for each needed table, none of the codes gets too long. |
| SymbolUse.ScanModerate | 3rdparty/libjpeg/jchuff.c:1482-1508 | The counts for a table that a scan needs have at least one used symbol and at least two unused ones, so the table generator never runs out of its arrays and no count of code lengths exceeds eight bits. |
| SymbolUse.SegmentSuits | 3rdparty/libjpeg/jchuff.c:911-1004 | All symbols sent for coefficients in range belong to tables that the scan needs, and those of a DC table are size categories. |
| AcRefineScan.RefineRoundTrip | 3rdparty/libjpeg/jchuff.c:781-906 | From blocks known to one bit less, a refinement scan of a band, with zero run codes, end-of-band runs over many blocks and deferred correction bits, brings every block to the precision of the scan; it fails exactly if a symbol has no code. |
| AcRefine.ScannedIsHead | 3rdparty/libjpeg/jchuff.c:823-880 | Counting zeros past sixteen and sending the zero run codes late produces the same tokens as the code by code form in which the decoder takes a band apart. |
| HuffStandard.Refinement | 3rdparty/libjpeg/jchuff.c:823-906 | The tokens of a band with 3, 0, a new negative value, 0 and 2: run 1 with size 1, the sign 0, the correction bit of the 3, and then an end of band with the correction bit of the 2. |
| HuffStandard.LongRefinement | 3rdparty/libjpeg/jchuff.c:840-880 | The code for sixteen zeros is followed by the correction bits of the old values before it, and those of values behind it follow the sign of the next new value. |
| AcRefineEncoder.EncodeMcuAcRefine | 3rdparty/libjpeg/jchuff.c:781-906 | One block sends its share of the token stream, keeps the rest pending, and never holds more correction bits than the buffer has room for. |
| AcRefineDecoder.RefineDecoder.DecodeMcu | 3rdparty/libjpeg/jdhuff.c:915-1066 | A call either completes with the block, the end-of-band run and the bits consumed that Figure G.7 gives, or suspends with run and reader as before and with no change to the block but correction bits that the full call makes too; after data has been made up it does nothing. |
| AcRefineDecoder.BandAgain | 3rdparty/libjpeg/jdhuff.c:1001-1012 | A block in which some correction bits have already been added decodes to the same block, run and position as without them. |
| AcRefineDecoder.DecodeInChunks | 3rdparty/libjpeg/jdhuff.c:955-1065 | However the data arrives in chunks and however often the MCU is tried again, the final block, end-of-band run and position are those of one undisturbed call; and when the chunks reach a marker it succeeds. |
| AcRefineDecoder.Undo | 3rdparty/libjpeg/jdhuff.c:1057-1065 | Taking the listed new coefficients back to zero leaves a block that differs from the first one only in correction bits that belong there. |
| AcRefineRoundTrip.BlockDecodes | 3rdparty/libjpeg/jdhuff.c:946-1053 | For a block outside of a run or at the start of one, decoding what the encoder sends gives the finer block and leaves the run that the encoder announced. |
| EobRuns.SentIsStream | 3rdparty/libjpeg/jchuff.c:462-486 | Holding end-of-band runs and their correction bits back until the run is over sends the same stream as announcing each run with its final length at its start. |
| HuffStandard.EobCategory | 3rdparty/libjpeg/jchuff.c:462-486 | Table G.1: a run of 2^n to 2^(n+1) - 1 blocks is the symbol 16n, followed by the run minus 2^n in n bits. |
| HuffStandard.RunLimits | 3rdparty/libjpeg/jchuff.c:885-889 | A run is sent when it covers 32767 blocks or more than 937 correction bits wait, and until then those of one more block fit into the buffer of 1000. |
| EobRuns.RunEncoder.EmitEobrun | 3rdparty/libjpeg/jchuff.c:462-486 | The pending run and its correction bits are sent and nothing stays pending; the only error is a symbol without a code, since no run needs more than 14 extra bits. |
| AcFirst.FirstRoundTrip | 3rdparty/libjpeg/jchuff.c:627-731 | A first AC scan gives every coefficient of the band back at the precision of the scan, exactly if none exceeds 1023 in magnitude and every symbol has a code. |
| AcFirst.FirstDecoder.DecodeMcu | 3rdparty/libjpeg/jdhuff.c:778-858 | A call completes with the band, the end-of-band run and the bits consumed that the encoder announced, or suspends with run and reader as before and with no change to the block but coefficients that belong there. |
| AcFirst.HalfAgain | 3rdparty/libjpeg/jdhuff.c:690-699 | After suspended attempts at a first AC scan, an attempt that ends well comes to the same block as without them. |
| DcRefine.DcRefineRoundTrip | 3rdparty/libjpeg/jdhuff.c:866-909 | A DC refinement scan, one raw bit for each block in stuffed and padded bytes, gives every block, whatever its DC value was, the bit of the source in the bit position of the scan. |
| Progression.BandRoundTrip | 3rdparty/libjpeg/jdhuff.c:778-1066 | A first AC scan and one refinement scan for each missing bit, each with tables of its own, give exactly the source coefficients of the band, and all scans can be sent exactly if every symbol they need has a code and no coefficient is out of range. |
| OptimizedBand.OptimizedScan | 3rdparty/libjpeg/jchuff.c:1464-1509 | A first or refinement AC scan with tables made from its own counts over all restart intervals brings all blocks to its precision, exactly if no coefficient is out of range and no code gets longer than 32 bits. |
| OptimizedBand.OptimizedBandRoundTrip | 3rdparty/libjpeg/jchuff.c:1464-1509 | All scans of a band with optimized tables of their own give exactly the source coefficients; they can be coded if and only if no coefficient is out of range and no code of any of the scans gets longer than 32 bits. |
| OptimizedBand.BandModerate | 3rdparty/libjpeg/jchuff.c:1482-1508 | The counts of any AC scan of a progressive file have a used symbol and at least two unused ones. |
| HuffmanTree.CodeSizes | 3rdparty/libjpeg/jchuff.c:1336-1401 | The merging loop computes the code lengths that repeated merging of the two least counts gives, for exactly the counted symbols; they fill the code space; no prefix code takes fewer bits for these counts; and a code of n bits needs a total count of at least the n-th Fibonacci number. |
| LongestCode.SkewedIsLong | 3rdparty/libjpeg/jchuff.c:1396-1397 | For the 33 counts 1, 1, 2, 3, 5 and so on, of which the last may be larger, the merging loop gives symbol 256 a code of 33 bits. |
| LongestCode.LimitIsExact | 3rdparty/libjpeg/jchuff.c:1390-1399 | For every n: all counts of total n lead to codes of at most 32 bits if and only if n is less than 9227464. |
| HuffmanTree.MergeStep | 3rdparty/libjpeg/jchuff.c:1366-1387 | Merging two branches makes the codes of both one bit longer by walking their chains, links the chains without a cycle, and leaves every live branch a full code of its own. |
| HuffmanTree.FindSmallest | 3rdparty/libjpeg/jchuff.c:1343-1364 | The symbol found has the least nonzero count apart from the excluded one, and the largest number among equals. |
| HuffmanOptimal.MergeBound | 3rdparty/libjpeg/jchuff.c:1338-1371 | A lower bound on the cost of every code for the merged counts, plus the two least counts, is a lower bound for every code for the counts before the merge. |
| LengthLimit.LimitLengths | 3rdparty/libjpeg/jchuff.c:1414-1430 | Length limiting always finds a place for the displaced codes, ends with no code over 16 bits, keeps the number of codes and the full code space, all in eight-bit counts, and its result is the only one with these and the following properties: the codes of at most L bits take up less space than before only if one more of them would not leave 16 bits for each of the others (LimitedCode.OnlyOne). |
| LimitedCode.Kept | 3rdparty/libjpeg/jchuff.c:1403-1430 | For every L up to 16: as long as the codes longer than L fit behind the others with 16 bits each, no count of codes of at most L bits changes, so only the longest codes that must give way are split. |
| LimitedCode.OnlyOne | 3rdparty/libjpeg/jchuff.c:1403-1430 | No two results satisfy what LimitLengths promises about the same counts. |
| LimitedCode.SeventeenLimited | 3rdparty/libjpeg/jchuff.c:1414-1430 | One code of each length from 1 to 16 and two of 17 become one of each length from 1 to 14 and four of 16. |
| LengthLimit.LongestEven | 3rdparty/libjpeg/jchuff.c:1414-1430 | The longest codes of a complete code come in pairs. |
| LengthLimit.ShorterExists | 3rdparty/libjpeg/jchuff.c:1416-1421 | While codes of more than 16 bits are left, there is a shorter code at least two bits below, so the error branch for length 0 is unreachable. |
| LengthLimit.FinalTable | 3rdparty/libjpeg/jchuff.c:1432-1438 | After symbol 256 is dropped, the code space is full but for one code of the greatest length used, and the lengths are acceptable to the derived-table routines. |
| PseudoSymbol.LongestIsPseudo | 3rdparty/libjpeg/jchuff.c:1262-1268 | For all counts, symbol 256 gets one of the longest codes, as the comment promises; this depends on its count of 1 and on ties going to the larger symbol number. |
| OptimalTable.RealLengths | 3rdparty/libjpeg/jchuff.c:1432-1438 | If the longest code has at most 16 bits, the table has exactly as many codes of every length as the merging gives to the symbols below 256: what is dropped is the code of symbol 256. |
| SymbolList.SortList | 3rdparty/libjpeg/jchuff.c:1303-1333 | The chain of used symbols is emptied into huffval in order of falling counts, symbols with the same count by number, each used symbol exactly once. |
| OptimalTable.GenOptimalTable | 3rdparty/libjpeg/jchuff.c:1251-1457 | Generation fails exactly if a code gets longer than 32 bits; otherwise the table has codes for exactly the counted symbols, the more frequent ones first, with the all-ones code free, both derived-table routines accept it, and its lengths are those of the merging, limited and without one of the greatest length. |
| OptimalTable.OnlyTable | 3rdparty/libjpeg/jchuff.c:1251-1457 | These properties leave no choice: any two such tables for the same counts have the same counts of lengths and the same symbols in the same order. |
| ScanScript.ValidateScript | 3rdparty/libjpeg/jcmaster.c:177-305 | A script is accepted exactly if all its scans have valid components and parameters and follow each other as the progressive rules, or the sequential ones, allow. |
| ScriptHistory.AcceptedScripts | 3rdparty/libjpeg/jcmaster.c:225-296 | A progressive script is accepted exactly if every scan by itself is legal, with bit positions up to 10 for 8-bit samples and up to 13 above, the scans of every coefficient are a first one without earlier bits and then refinements by one bit each, and every component has a DC scan, in front of all its AC scans. |
| ScanChecks.ReduceScript | 3rdparty/libjpeg/jcmaster.c:308-338 | Compaction in place leaves exactly the scans that have coefficients within the smaller block, cut to it, in order. |
| ScanChecks.StartPass | 3rdparty/libjpeg/jdhuff.c:1334-1378 | The decoder refuses a scan exactly if its parameters are bad, warns exactly if the scan does not continue what it has seen, and records the bit position of every coefficient of the band. |
| ScanChecks.Refused | 3rdparty/libjpeg/jdhuff.c:1334-1357 | In numbers: AC beside DC coefficients, a band up to 64 or of two components, a refinement by other than one bit and 14 missing bits are refused, and 13 missing bits are not. |
| ScanChecks.ValidScriptIsSmooth | 3rdparty/libjpeg/jcmaster.c:177-338 | Every accepted progressive script, adapted to any block size, gives the decoder neither an error nor a warning. |
| ScanChecks.StartAll | 3rdparty/libjpeg/jdhuff.c:1334-1378 | Running the decoder over all scans of such a script raises no error and no warning. |
| SimpleProgression.JpegSimpleProgression | 3rdparty/libjpeg/jcparam.c:513-589 | For 1 to 10 components the generated script is, scan by scan, the one for luminance and chrominance if there are three components of that kind (DC of all to bit 1, luminance 1 to 5 to bit 2, each chrominance 1 to 63 to bit 1, luminance 6 to 63 to bit 2, refinements) and otherwise the all-purpose one; it is accepted and leaves no bit of any coefficient unsent. |
| PassMachine.Compress | 3rdparty/libjpeg/jcmaster.c:478-613 | The passes end, output every scan exactly once and in order, with statistics gathered first for each scan that needs tables. |
| PassMachine.Master.PrepareForPass | 3rdparty/libjpeg/jcmaster.c:478-553 | The last-pass flag is true exactly in the output pass of the last scan, and with optimization every scan but a DC refinement has had its statistics gathered before its output. |
| PassMachine.Master.FinishPass | 3rdparty/libjpeg/jcmaster.c:580-613 | A pass adds its scan either to the gathered or to the written ones, and when the last one ends all scans have been written in order. |
| PassMachine.CompressScript | 3rdparty/libjpeg/jcmaster.c:620-675 | Any script is either refused or, adapted to the block size, output scan by scan in order; with optimized coding every scan but the DC refinements is gathered first. |
| PassMachine.FirstScan | 3rdparty/libjpeg/jcmaster.c:508-527 | An accepted script, also when adapted to a small block, never starts with a DC refinement scan, so the first pass has tables to make. |
| McuController.RunPass | 3rdparty/libjpeg/jccoefct.c:143-400 | In pass-through, save-and-pass, crank-destination and transcoding mode, and however often the entropy encoder suspends, it is sent the same MCUs, dummies included, none skipped and none repeated; and the pass ends if there are enough calls that make progress. |
| McuController.Controller.CompressData | 3rdparty/libjpeg/jccoefct.c:143-219 | A call sends at most as many MCUs as there is room for, and exactly that many if it suspends, and goes on where the last call stopped. |
| McuController.DctMcu | 3rdparty/libjpeg/jccoefct.c:163-206 | The single-pass assembler builds the MCU of the specification: real blocks, and dummies with the DC value of the block before. |
| McuController.StoredMcu | 3rdparty/libjpeg/jccoefct.c:361-384 | The assembler that reads the stored image builds the same MCU. |
| McuController.TransMcu | 3rdparty/libjpeg/jctrans.c:292-371 | The transcoding assembler, which makes dummies on the fly in a shared buffer, builds the same MCU. |
| McuEncoder.FirstPassComp | 3rdparty/libjpeg/jccoefct.c:245-330 | The first pass stores the real blocks of an iMCU row and the dummies at the right and at the bottom that the later passes expect. |
| McuDecoder.RunPass | 3rdparty/libjpeg/jdcoefct.c:150-308 | However often the entropy decoder suspends, a completed scan has put every real block of the wanted components at its own place, in one-pass as in multi-scan mode; and it completes if there are enough calls that make progress. |
| McuDecoder.OwnMcu | 3rdparty/libjpeg/jdcoefct.c:150-308 | The traversal comes to each block in one MCU only. |
| McuDecoder.OwnSpot | 3rdparty/libjpeg/jdcoefct.c:150-308 | The traversal comes to every real block. |
| McuDecoder.InputController.ConsumeData | 3rdparty/libjpeg/jdcoefct.c:246-308 | A call takes at most as many MCUs as there is room for, stops in mid-row without losing its place, and reports the end of the scan exactly after the last row, when all blocks are in place. |
| McuGeometry.BlocksFill | 3rdparty/libjpeg/jdinput.c:387-459 | Rounding up to MCUs and rounding up to blocks agree: the blocks of a component fill all MCUs but the last and reach into the last one. |
| McuGeometry.RealBlocks | 3rdparty/libjpeg/jcmaster.c:388-459 | The test with the last column width and the last row height tells real blocks from dummies exactly as the size of the component does. |
| McuLayout.RasterOrder | 3rdparty/libjpeg/jccoefct.c:163-219 | In the sequence of all MCUs, an MCU has as many before it as there are in the rows above and to its left, and the sequence has all rows of the scan. |
| McuLayout.OneComponent | 3rdparty/libjpeg/jccoefct.c:163-219 | A component alone in its scan is sent block by block, row by row, and without dummies. |
| McuLayout.SmallSizes | 3rdparty/libjpeg/jcmaster.c:388-459 | For 33 by 17 samples with subsampled chrominance, 5 by 3 and 3 by 2 blocks make 3 by 2 MCUs of six blocks, within the limit of 10. |
| McuLayout.SmallMcus | 3rdparty/libjpeg/jccoefct.c:163-206 | For 33 by 17 samples with subsampled chrominance: the six blocks of an inner MCU, of one at the right edge and of one at the bottom, with the DC values of the dummies. |
| ImageRoundTrip.HuffmanImage | 3rdparty/libjpeg/jccoefct.c:143-219 | An image sent through MCU assembly, optimized Huffman coding with or without restarts, decoding and placement comes back exactly; with enough productive calls on both sides this happens if and only if no coefficient is out of range and no code gets longer than 32 bits. |
| ImageRoundTrip.ArithmeticImage | 3rdparty/libjpeg/jccoefct.c:143-219 | The same through arithmetic coding: with enough productive calls on both sides the image comes back if and only if all DC differences of all restart intervals fit. |
| RestartIntervals.CutIntervals | 3rdparty/libjpeg/jcarith.c:705-713 | Counting restarts_to_go down cuts the MCUs into intervals of the given length. |
| RestartIntervals.IntervalSizes | 3rdparty/libjpeg/jcarith.c:705-713 | All restart intervals but the last have exactly the given number of MCUs, and the last one has at most as many and is not empty. |
| RestartIntervals.JoinedIntervals | 3rdparty/libjpeg/jdarith.c:522-526 | The restart intervals joined again are all MCUs of the scan. |
| McuReader.ReadMcus | 3rdparty/libjpeg/jdcoefct.c:271-296 | What the entropy decoder finds in the full-image arrays at the start of a later scan: every MCU, with the real blocks as they are known so far. |
| ProgressiveScan.ShowsNext | 3rdparty/libjpeg/jdcoefct.c:247-308 | If the arrays held all bits that the scans before a scan have sent, the decoded MCUs show every real block with the bits of the scan added, and nothing else changed. |
| ProgressiveArith.CodeScan | 3rdparty/libjpeg/jdarith.c:241-504 | Any scan of a progressive file through arithmetic coding, first or refinement, DC or AC, over all restart intervals: every block moves on by the bits of the scan, exactly if no DC difference of a first DC scan is too large. |
| ProgressiveHuff.CodeScan | 3rdparty/libjpeg/jdhuff.c:706-1066 | The same through Huffman coding with tables made from its own counts, exactly if no coefficient of the scan is out of range and no code gets longer than 32 bits. |
| ScriptRoundTrip.RunScan | 3rdparty/libjpeg/jdcoefct.c:247-308 | One scan between the arrays that hold what is known before it and the arrays that hold what is known after it; components that are not in the scan are left alone. |
| ScriptRoundTrip.DcLeadsNext | 3rdparty/libjpeg/jcmaster.c:254-272 | While a script is accepted, nothing of a component is known before its DC coefficients are. |
| ScriptRoundTrip.RunScript | 3rdparty/libjpeg/jcmaster.c:177-305 | For every accepted progressive script, also one that splits a band differently in later scans, with either coder, any restart intervals and any suspension on both sides: with enough productive calls the image is coded and decoded if and only if every scan can be coded; every coefficient then has exactly the bits that the script has sent, and if no bit stays unsent the arrays hold the image exactly. |
| MainContext.RunPass | 3rdparty/libjpeg/jdmainct.c:382-444 | However the output is split over calls, the postprocessor sees every row group of the image once and in order, through the two row lists, with the rows above and below it; and it gets them all if there are enough calls that are not idle. |
| MainContext.TrueNeighbours | 3rdparty/libjpeg/jdmainct.c:382-444 | The rows of a row group and the sample rows directly above and below it are the true ones, with the first and the last row of the image duplicated at the edges. |
| MainContext.SevenRows | 3rdparty/libjpeg/jdmainct.c:382-444 | Row by row, what is shown for the four row groups of an image of seven rows, two to a row group. |
| MainContext.WhenContextFull | 3rdparty/libjpeg/jdmainct.c:273-308 | All context rows of all row groups are rows of the image exactly if the image has one iMCU row only or the last iMCU row has at least one full row group of real rows. |
| MainContext.ContextBeyondImage | 3rdparty/libjpeg/jdmainct.c:273-308 | For an image of 17 rows, numbered from 0, the context is not full: below row group 7 the decoded row with number 17, beyond the bottom of the image, is shown in the place of the duplicated last row. |
| MainContext.ShapeOf | 3rdparty/libjpeg/jdmainct.c:293-299 | All components of a frame have the same number of row groups in an iMCU row, of iMCU rows, and of row groups left in the last iMCU row, as the code takes for granted. |
| MainContext.MainController.ProcessData | 3rdparty/libjpeg/jdmainct.c:382-444 | A call keeps the lists, the workspace and the state in step, shows only whole row groups, and shows at least one if input and output are ready. |
| FunnyPointers.MakeFunnyPointers | 3rdparty/libjpeg/jdmainct.c:197-239 | Both lists lead to the workspace rows as intended, the first with its first row duplicated above and the second with the last four row groups exchanged. |
| FunnyPointers.SetWraparoundPointers | 3rdparty/libjpeg/jdmainct.c:242-269 | After the first iMCU row the entries in front of each list repeat its row group M + 1, and those behind it its first one, as the normal state wants; everything else stays. |
| FunnyPointers.SetBottomPointers | 3rdparty/libjpeg/jdmainct.c:272-308 | The last real row is duplicated for two row groups, and the number of row groups left is that of the real rows, rounded up. |
| PrepContext.RunPass | 3rdparty/libjpeg/jcprepct.c:198-263 | However input rows and output row groups are split over calls, the downsampler sees the row groups in order with the true rows above and below, the edge rows duplicated, and every call with a row to offer and room for a row group makes progress. |
| PrepContext.FiveRows | 3rdparty/libjpeg/jcprepct.c:198-263 | Row by row, what the downsampler sees for the three row groups of an image of five rows, two to a row group. |
| PrepContext.CreateContextBuffer | 3rdparty/libjpeg/jcprepct.c:270-309 | The five groups of pointers lead round a ring of three row groups. |
| PrepContext.RingDistinct | 3rdparty/libjpeg/jcprepct.c:270-309 | Pointers less than three row groups apart lead to different rows, so no row that is still needed is overwritten. |
| PrepContext.PrepController.PreProcessContext | 3rdparty/libjpeg/jcprepct.c:198-263 | A call stops only when the output is full or the input is used up above the bottom of the image, and all it has shown are the row groups in order. |
| AesContext.RoundTrip | 3rdparty/aes256cbc/AES_256_CBC.h:797-980 | For every key, IV and message of any number of blocks, a decrypting context gets every block back from an encrypting one, and what is sent is the CBC encryption of the message under the key schedule of FIPS 197 (AesVectors.Schedule, AesVectors.CbcF25). |
| AesContext.Exchange | 3rdparty/aes256cbc/AES_256_CBC.h:797-980 | One block through both contexts comes back, and iv fields that were equal are equal again. |
| AesContext.CbcUndone | 3rdparty/aes256cbc/AES_256_CBC.h:797-980 | For every schedule with its inverted schedule, every chaining value and every message, decrypting undoes encrypting. |
| AesContext.CbcChain | 3rdparty/aes256cbc/AES_256_CBC.h:797-886 | In a message of any length, every block sent is the cipher of the block combined with the one sent before it, and the first of it with the initialization vector. |
| AesVectors.CbcF25 | 3rdparty/aes256cbc/AES_256_CBC.h:711-886 | For the key, the initialization vector and the first block of section F.2.5 of NIST SP 800-38A, in bytes, what is sent is the block f58c4c04 d6e5f1ba 779eabfb 5f7bfbd6 given there. |
| AesContext.AesCtx.Encrypt | 3rdparty/aes256cbc/AES_256_CBC.h:797-886 | The table rounds compute the cipher of FIPS 197 on the block combined with the iv, which becomes the new iv, also when input and output are the same array. |
| AesContext.AesCtx.Decrypt | 3rdparty/aes256cbc/AES_256_CBC.h:888-980 | The table rounds compute the equivalent inverse cipher, combined with the old iv, and the iv becomes the input block, also when input and output are the same array. |
| AesContext.AesCtx.DecryptInit | 3rdparty/aes256cbc/AES_256_CBC.h:748-795 | The schedule is that of the equivalent inverse cipher for the expanded key of FIPS 197: its round keys in reverse order, the inner ones through InvMixColumns. |
| AesState.SameInverse | 3rdparty/aes256cbc/AES_256_CBC.h:888-980 | With an inverted schedule, the equivalent inverse cipher equals the inverse cipher on every state. |
| AesState.CipherUndone | 3rdparty/aes256cbc/AES_256_CBC.h:797-886 | The inverse cipher undoes the cipher for every schedule and every state. |
| AesColumns.MixInverse | 3rdparty/aes256cbc/AES_256_CBC.h:748-795 | InvMixColumn undoes MixColumn. |
| AesColumns.InvMixLinear | 3rdparty/aes256cbc/AES_256_CBC.h:748-795 | InvMixColumn of a sum is the sum of its values, which is what lets it be applied to the round keys. |
| AesSbox.SboxInverse | 3rdparty/aes256cbc/AES_256_CBC.h:629-695 | The inverse S-box undoes the S-box for every byte. |
| AesEncryptTables.Te0Is | 3rdparty/aes256cbc/AES_256_CBC.h:17-83 | Every entry of the table Te0 is the packed column that SubBytes and MixColumns make of its index. |
| AesDecryptTables.Td0Is | 3rdparty/aes256cbc/AES_256_CBC.h:357-423 | Every entry of the table Td0 is the packed column that InvSubBytes and InvMixColumns make of its index. |
| AesKeys.InvertKeys | 3rdparty/aes256cbc/AES_256_CBC.h:751-795 | Reversing the round keys in place and transforming the inner ones turns any schedule into its inverted schedule. |
| AesVectors.RconIs | 3rdparty/aes256cbc/AES_256_CBC.h:697-701 | The round constants are the powers of 2 in the field of FIPS 197, beginning with 1. |
| AesVectors.Schedule | 3rdparty/aes256cbc/AES_256_CBC.h:708-746 | The key of section A.3 of FIPS 197 leads to the fifteen round keys given there. |

## Findings

Properties that do not hold on all inputs, each with its exact condition.

- Context rows at the bottom of the image (`3rdparty/libjpeg/jdmainct.c:273-308`,
  `3rdparty/libjpeg/jdmainct.c:435-441`). The last row of an iMCU row is shown late, through the
  other row list, in which the rows below the image are not duplicated. Its context rows are all
  in the image if and only if the image has one iMCU row or its last iMCU row has at least a full
  row group of real rows (`MainContext.WhenContextFull`); `MainContext.ContextBeyondImage` gives an
  image of 17 rows where it fails, and the row that is shown instead. The sample rows directly
  above and below are right in all cases (`MainContext.TrueNeighbours`).
- DC differences in arithmetic coding (`3rdparty/libjpeg/jcarith.c:724-770`,
  `3rdparty/libjpeg/jdarith.c:556-566`). The encoder codes any difference, but the decoder gives up
  on magnitudes over 0x8000 with a bad-code warning. A scan comes back if and only if no difference
  is larger (`ArithScan.ScanRoundTrip`, `ArithMcuDecoder.DecodeDc`); `ArithScan.TooSteep` gives two
  DC values in range for which it is.
- Optimal tables (`3rdparty/libjpeg/jchuff.c:1254-1255`, `3rdparty/libjpeg/jchuff.c:1396-1397`). A
  code of more than 32 bits is an error, which the comment there takes to be impossible. Generation
  fails if and only if repeated merging makes such a code (`OptimalTable.GenOptimalTable`). It does
  for the Fibonacci-like counts of `LongestCode.SkewedIsLong`, and so a total count n is safe,
  whatever the single counts are, if and only if n < 9227464 (`LongestCode.LimitIsExact`). The
  eight-bit counts of code lengths hold up to 254 symbols, and without any symbol the routine would
  look for a code that is not there; no scan leads to either case (`SymbolUse.ScanModerate`,
  `OptimizedBand.BandModerate`).
- Range of coefficients (`3rdparty/libjpeg/jchuff.c:28-38`, `3rdparty/libjpeg/jchuff.c:696-697`). The
  comment calls -1024 to 1023 the legal range for 8-bit data and concludes that magnitudes fit in
  10 bits. Of these values the encoder refuses -1024 and no other (`HuffStandard.LeastRefused`); an
  AC value is coded if and only if it lies between -1023 and 1023 (`HuffBlock.InLimits`).

## Left out

- OptimizedRoundTrip: assumes fewer than 10^9 symbols for each table, as the search for the least count does, and that every component of the scan has a block in the MCU.
- OptimizedBandRoundTrip: assumes fewer than 10^9 symbols in each scan, for the same reason.
- GenOptimalTable: assumes 1 to 254 used symbols, which every scan provides, and a total count below 10^9.
- HuffmanImage: is about one sequential scan of all or some components with optimized tables, for fewer than 10^9 symbols for each table.
- ArithmeticImage: is about one sequential scan of all or some components.
- RunScript: runs the two sides in step, scan by scan, and one traversal for each scan; a pass that gathers statistics sees the same MCUs as the output pass (RunPass) and is not run separately. Either side may suspend, although in the code only the decoder with Huffman coding can, in a progressive file. With Huffman coding the tables are optimized, as the code does for every progressive file, for fewer than 10^9 symbols for each table. Scans of sequential files that send components one by one are covered singly by HuffmanImage and ArithmeticImage.
- EmitBits: the destination never runs out of room while a byte is dumped; in the code the sequential encoder then puts the whole MCU off, and the progressive one stops with an error.
- RunPass: in the controllers of `mcu/`, suspension falls between MCUs; the encoder's suspension for lack of output space inside an MCU, which puts the whole MCU off, is not modelled further.
- MainContext.RunPass: models one component; the code treats all alike and takes the number of row groups from the first.
- Restart markers as bytes of the stream: a restart ends a segment, with any marker behind it, and the next one starts fresh. Reading and checking the markers and resynchronization after errors are not part of this model.
- Twelve-bit samples: the range checks are those of eight-bit samples.
- Corrupt data, except that fast and slow Huffman decoding agree on it; overflow of 32-bit coefficients, which only corrupt data causes.
- Virtual arrays are arrays that hold the whole image; swapping strips of them in and out is not part of this model. The transcoder's source arrays are given.
- DCT and inverse DCT, colour conversion, downsampling and upsampling, quantization, block smoothing: coefficients and sample rows are given.
- Marker reading and writing, default parameters, colour space guessing, memory management, files, progress monitoring, command-line programs.
- The build variants DONT_USE_FANCY_HUFF_OPT, AVOID_TABLES, SLOW_SHIFT_32 and RIGHT_SHIFT_IS_UNSIGNED.
- AES words are modelled as four bytes and blocks as 16 bytes; clearing of the context and the padding of messages by callers are not part of this model.
