# NeutrinoRDP codecs and protocols in Dafny

A model of the hardest parts of NeutrinoRDP: the RemoteFX tile codec with its SSE2 form and its message framing, the
MPPC bulk decompressor, fast-path and virtual-channel fragmentation, the concurrent channel manager, the MCS join
sequence, and NSCodec colour recovery. `dafny verify dfyconfig.toml` verifies the whole project.

Code that works in place is a method on an `array` or on the fields of a class, proved against a function; the
theorems are lemmas about those functions. Protocols with several threads or parties are state machines whose runs
are sequences of atomic steps. Machine widths are written out: `sint16` stores wrap (`Bits.Wrap16`), 32-bit words are
numbers below 2^32, and bit strings are sequences of booleans, most significant bit first. Shifts are defined by
repeated doubling (`Bits.Shl`, `Bits.Shr`), so that proofs about them stay linear.

Where both sides of a format are modelled, a round trip alone would allow both to err alike. The modules named `…Laws`,
`…Layout`, `…History` and `MppcStreams` therefore state what one side does by itself, in plain numbers: the bits and
bytes on the wire, the state after each symbol, and what a run's actions alone say about its states.

The main results:

* **RLGR** (section 3.1.8.1.7.3 of [MS-RDPRFX]): decoding an encoded sequence restores it if and only if every RLGR3
  pair fits 16 bits and the sequence does not end in a zero coded in run-length mode; both failing families are
  described exactly (`RlgrRoundTrip.RoundTrip`). The decoder accepts any bytes (`Rlgr.DecodeStream`).
* **Tile component**: encoder and decoder pipelines as methods, and one bound for the whole way from samples to bytes
  and back (`Component.ComponentRoundTrip`, and on the arrays `Component.EncodeAndDecode`), for every sample the codec
  can meet, built from the lossless half (`TileLossless.LosslessTile`), exact conditions for quantisation
  (`Quantization.DequantisedQuantised`) and one error per band carried through three wavelet levels
  (`DwtTile.TileDecodeNear`). That no level overflows rests on the gain of two cascaded low-pass passes
  (`DwtTile.SamplesLevelsWithin`). The bound holds for whole images through the message framing
  (`RfxCodec.ImageDecodes`).
* **SSE2 wavelet**: the vector code leaves the same buffer as the scalar code (`Sse2.EncodeBlock`,
  `Sse2.DecodeBlock`), with patched lanes, junk behind the row ends and even samples stored in place, on every tile the
  codec can meet (`DwtTile.EncodeSumsFitTile`, `DwtTile.DecodeSumsFitTile`).
* **MPPC** (section 4 of RFC 2118, section 3.1.8 of [MS-RDPBCGR]): the reservoir code refines a token specification,
  inverts the code tables, and every run of packets with any flags produces one LZ77 stream over the bytes sent before
  (`MppcStreams.RunIsStream`); the reported length is right if and only if a flush is at the front.
* **Fragmentation**: every update and every channel message arrives whole, once and in order, for whole sessions and
  any interleaving of channels.
* **Channel manager**: what writers are called with is sent, once and in order, in any interleaving of any number of
  threads, and the state of every writer can be read off the run's actions (`ChannelHistory.RunReads`); after a
  disconnect the queue can grow exactly when a writer has passed its second connection test. The event mailbox holds
  exactly one token, and an event in it is always noticed.
* **Join sequence** (ITU-T T.125): every run goes through the same stages, never fails with up to sixteen channels,
  and ends after 2n + 10 steps with everything joined on both sides.

## Model

| member | source | states |
|---|---|---|
| BitStreams.BitStream.Attach | neutrinordp/libfreerdp-codec/rfx_bitstream.h:34-38 | a stream over a buffer starts at bit 0 |
| BitStreams.BitStream.GetBits | neutrinordp/libfreerdp-codec/rfx_bitstream.h:40-60 | returns the number denoted by the next n bits (fewer at the end), kept in 16 bits, and consumes exactly those |
| BitStreams.BitStream.PutBits | neutrinordp/libfreerdp-codec/rfx_bitstream.h:62-80 | replaces the next n bits of the buffer by the low n bits of the value, drops what is past the end, changes no other bit |
| BitStreams.BitStream.ProcessedBytes | neutrinordp/libfreerdp-codec/rfx_bitstream.h:84-84 | number of bytes touched, a partly used one included |
| BitStreams.SetFieldBits | neutrinordp/libfreerdp-codec/rfx_bitstream.h:71-72 | clearing and or-ing a field of a byte replaces those bits and keeps the others |
| Rlgr.Output.WriteValue | neutrinordp/libfreerdp-codec/rfx_rlgr.c:45-50 | appends a value while there is room, and always counts it |
| Rlgr.Output.WriteZeroes | neutrinordp/libfreerdp-codec/rfx_rlgr.c:53-64 | appends zeros while there is room, and always counts them |
| Rlgr.GetGrCode | neutrinordp/libfreerdp-codec/rfx_rlgr.c:96-116 | reads one Golomb-Rice code and adapts krp, keeping kr = krp >> 3 |
| Rlgr.GetEscapes | neutrinordp/libfreerdp-codec/rfx_rlgr.c:149-158 | the zeros and the kp that the escape bits of a run stand for |
| Rlgr.DecodeRunSymbol | neutrinordp/libfreerdp-codec/rfx_rlgr.c:149-172 | one run-length symbol, against the symbol specification |
| Rlgr.DecodeOneSymbol | neutrinordp/libfreerdp-codec/rfx_rlgr.c:181-197 | one RLGR1 symbol |
| Rlgr.DecodePairSymbol | neutrinordp/libfreerdp-codec/rfx_rlgr.c:198-227 | one RLGR3 pair, 32-bit difference included |
| Rlgr.GetMinBits | neutrinordp/libfreerdp-codec/rfx_rlgr.c:67-76 | the least number of bits that hold a value |
| Rlgr.DecodeStream | neutrinordp/libfreerdp-codec/rfx_rlgr.c:118-234 | on any bytes: terminates, reads only the data, writes the decoded values cut at the room, leaves the rest of the buffer, returns the number written; kp and krp stay in 0..80 by their type |
| Rlgr.OutputBit | neutrinordp/libfreerdp-codec/rfx_rlgr.c:254-260 | emits a bit count times |
| Rlgr.CodeGr | neutrinordp/libfreerdp-codec/rfx_rlgr.c:268-293 | emits the Golomb-Rice code of a value and adapts krp |
| Rlgr.CodeRun | neutrinordp/libfreerdp-codec/rfx_rlgr.c:334-348 | emits the code of a run of zeros and adapts kp |
| Rlgr.EncodeRunSymbol | neutrinordp/libfreerdp-codec/rfx_rlgr.c:316-361 | one run-length symbol |
| Rlgr.EncodeOneSymbol | neutrinordp/libfreerdp-codec/rfx_rlgr.c:366-388 | one RLGR1 symbol |
| Rlgr.EncodePairSymbol | neutrinordp/libfreerdp-codec/rfx_rlgr.c:389-423 | one RLGR3 pair |
| Rlgr.EncodeStream | neutrinordp/libfreerdp-codec/rfx_rlgr.c:295-431 | the buffer holds the code, cut at its capacity, over its earlier bits; returns the bytes touched |
| RlgrRoundTrip.TwoMsInverse | neutrinordp/libfreerdp-codec/rfx_rlgr.c:79-79 | the decoder's conversion undoes 2·mag − sign on every 16-bit value |
| RlgrRoundTrip.ReadGrCode | neutrinordp/libfreerdp-codec/rfx_rlgr.c:96-116 | reading a Golomb-Rice code gives the value modulo 65536 and the same vk, with any bits behind |
| RlgrRoundTrip.ReadRunCode | neutrinordp/libfreerdp-codec/rfx_rlgr.c:149-162 | reading a run code gives the run length and leaves both sides with the same kp |
| RlgrRoundTrip.SymbolRoundTrip | neutrinordp/libfreerdp-codec/rfx_rlgr.c:312-425 | one decoder turn undoes one encoder turn and keeps kp and krp in lockstep |
| RlgrRoundTrip.PairOverflow | neutrinordp/libfreerdp-codec/rfx_rlgr.c:182-183 | a pair whose sum exceeds 65535 loses its first value |
| RlgrRoundTrip.RoundTrip | neutrinordp/libfreerdp-codec/rfx_rlgr.c:118-431 | decode of encode is the identity iff all pairs fit and there is no final run-length zero; such a zero comes back as 1; a pair that does not fit leaves a wrong value |
| RlgrRoundTrip.SmallPairsFit | neutrinordp/libfreerdp-codec/rfx_rlgr.c:401-411 | RLGR1 always, and RLGR3 on −16384..16383, meet the pair condition |
| RlgrRoundTrip.LargePairOverflows | neutrinordp/libfreerdp-codec/rfx_rlgr.c:389-411 | 1, 32767, 32767 is a sequence from the start state whose pair does not fit |
| RlgrRoundTrip.FinalZeroRaised | neutrinordp/libfreerdp-codec/rfx_rlgr.c:316-361 | a single zero comes back as 1 in both modes |
| RlgrRoundTrip.CutRoundTrip | neutrinordp/libfreerdp-codec/rfx_encode.c:263-275 | a code cut at the end of its buffer restores every value whose symbol lies wholly inside |
| RlgrLaws.EscapesLaw | neutrinordp/libfreerdp-codec/rfx_rlgr.c:149-158 | from the start, 2j zero bits, a one and r in j+1 bits stand for 2·(2^(j+1)−2)+r zeros and leave kp at 8+8j |
| RlgrLaws.RunEscapeLaw | neutrinordp/libfreerdp-codec/rfx_rlgr.c:149-158 | from any kp, a zero bit puts 2^k zeros before the symbol and raises kp by 4, up to 80 |
| RlgrLaws.RunEndLaw | neutrinordp/libfreerdp-codec/rfx_rlgr.c:159-172 | a one bit ends a run: remainder, sign and magnitude give the zeros and the value, kp falls by 6, krp by 2 or rises by vk |
| RlgrLaws.RunLaw | neutrinordp/libfreerdp-codec/rfx_rlgr.c:149-172 | a whole run-length symbol from kp = 8, in plain numbers |
| RlgrLaws.OneLaw | neutrinordp/libfreerdp-codec/rfx_rlgr.c:181-197 | an RLGR1 symbol: its value, and kp raised by 3 after zero or lowered by 3 |
| RlgrLaws.PairLaw | neutrinordp/libfreerdp-codec/rfx_rlgr.c:198-227 | an RLGR3 pair: both values, and kp raised by 6, lowered by 6 or kept |
| RlgrLaws.PairSurplusLaw | neutrinordp/libfreerdp-codec/rfx_rlgr.c:198-227 | the second value when the first exceeds the sum, through the unsigned 32-bit difference |
| RlgrLaws.FirstSymbolLaw | neutrinordp/libfreerdp-codec/rfx_rlgr.c:118-147 | the first symbol of any byte string: both parameters start at 8 |
| Differential.Decode | neutrinordp/libfreerdp-codec/rfx_differential.c:25-34 | the stretch becomes its 16-bit running sums, the rest is unchanged |
| Differential.Encode | neutrinordp/libfreerdp-codec/rfx_differential.c:36-47 | the stretch becomes its 16-bit differences, the rest is unchanged |
| Differential.SumsOfDifferences | neutrinordp/libfreerdp-codec/rfx_differential.c:25-47 | summing undoes differencing, wrap-around included |
| Differential.DifferencesOfSums | neutrinordp/libfreerdp-codec/rfx_differential.c:25-47 | differencing undoes summing |
| TileLossless.LosslessTile | neutrinordp/libfreerdp-codec/rfx_encode.c:233-239 | differential and RLGR coding restore a quantised tile iff its pairs fit and its last difference is not a run-length zero; then only the last LL3 value is one larger |
| TileLossless.PreparedAt | neutrinordp/libfreerdp-codec/rfx_differential.c:36-47 | only the 63 last coefficients change, each to its difference from the one before modulo 2^16 |
| TileLossless.ShortDecode | neutrinordp/libfreerdp-codec/rfx_decode.c:151-153 | where the code holds too few values the buffer keeps what it held |
| Quantization.DecodeBlock | neutrinordp/libfreerdp-codec/rfx_quantization.c:22-33 | every value of a stretch is scaled, with wrap, and nothing else changes |
| Quantization.EncodeBlock | neutrinordp/libfreerdp-codec/rfx_quantization.c:52-65 | every value of a stretch is rounded, and nothing else changes |
| Quantization.Decode | neutrinordp/libfreerdp-codec/rfx_quantization.c:35-50 | the tile is dequantised, each coefficient with the value of its own band |
| Quantization.Encode | neutrinordp/libfreerdp-codec/rfx_quantization.c:67-82 | the tile is quantised, each coefficient with the value of its own band |
| Quantization.QuantisedDequantised | neutrinordp/libfreerdp-codec/rfx_quantization.c:22-65 | quantise after dequantise is the identity iff the dequantised value fits sint16 |
| Quantization.DequantisedQuantised | neutrinordp/libfreerdp-codec/rfx_quantization.c:22-65 | dequantise after quantise errs by at most 33·2^(q−7) iff 2v + 33·2^(q−6) < 65536 (32 in place of 33·2^(q−6) when q = 6) |
| Quantization.LargeValueLost | neutrinordp/libfreerdp-codec/rfx_quantization.c:22-33 | with the finest step 1024 is dequantised to −32768 and comes back as −1024 |
| Quantization.LargeCoefficientLost | neutrinordp/libfreerdp-codec/rfx_quantization.c:52-65 | with the finest step 32767 is quantised to 1024 and comes back as −32768 |
| Quantization.TileQuantisedDequantised | neutrinordp/libfreerdp-codec/rfx_quantization.c:35-82 | the same identity for all ten bands of a tile |
| Quantization.TileDequantisedQuantised | neutrinordp/libfreerdp-codec/rfx_quantization.c:35-82 | the same bound for every coefficient, with its band's value |
| DwtLine.DecodeError | neutrinordp/libfreerdp-codec/rfx_dwt.c:50-80 | one inverse pass on low-pass values off by la..lb and high-pass values off by ha..hb: even samples err by la−hb−1..lb−ha, odd ones by la+(3ha−hb−5)/2..lb+(3hb−ha+1)/2, which is −1..0 and −2..0 without error; nothing wraps |
| DwtLine.ReencodeLine | neutrinordp/libfreerdp-codec/rfx_dwt.c:155-186 | encoding a decoded line restores every high-pass value exactly and every low-pass value up to −1..0 |
| DwtLaws.HighLaw | neutrinordp/libfreerdp-codec/rfx_dwt.c:128-140 | a high-pass value is a quarter of twice the odd sample less its even neighbours, up to rounding; the last sample is mirrored |
| DwtLaws.LowLaw | neutrinordp/libfreerdp-codec/rfx_dwt.c:128-140 | a low-pass value is an eighth of the taps −1, 2, 6, 2, −1, up to rounding; both ends are mirrored |
| DwtLaws.LowWraps | neutrinordp/libfreerdp-codec/rfx_dwt.c:128-140 | out of range a low-pass value is kept modulo 2^16 |
| DwtLaws.InverseWraps | neutrinordp/libfreerdp-codec/rfx_dwt.c:85-103 | so are even and odd samples, from any coefficients |
| DwtBlock.EncodeNeverWraps | neutrinordp/libfreerdp-codec/rfx_dwt.c:114-187 | samples within ±14000: no 16-bit store of the forward block wraps |
| DwtBlock.DecodeNeverWraps | neutrinordp/libfreerdp-codec/rfx_dwt.c:26-105 | nor does any store of the inverse block, even from sub-bands slightly off |
| DwtBlock.DecodeNear | neutrinordp/libfreerdp-codec/rfx_dwt.c:26-105 | sub-bands off by la..lb in LL and by hl, lh and hh in the others give samples within la−2hl−2lh−4hh−7..lb+2hl+2lh+4hh+2 |
| DwtBlock.BlockRoundTrip | neutrinordp/libfreerdp-codec/rfx_dwt.c:26-187 | encode then decode of samples within ±14000 never wraps and errs by −7..+2 |
| DwtBlock.ReencodeBlock | neutrinordp/libfreerdp-codec/rfx_dwt.c:26-187 | decode then encode without overflow: HH exact, LH and HL within −1..0, LL within −3..0 |
| DwtLaws.FlatRowsBands | neutrinordp/libfreerdp-codec/rfx_dwt.c:114-187 | a block that only changes from row to row: nothing in HL and HH, its line transform in LH and LL |
| DwtLaws.FlatColumnsBands | neutrinordp/libfreerdp-codec/rfx_dwt.c:114-187 | a block that only changes from column to column: nothing in LH and HH, its line transform in HL and LL |
| Dwt.ForwardLine | neutrinordp/libfreerdp-codec/rfx_dwt.c:128-140 | one forward line, read and written at a stride, against the line transform |
| Dwt.InverseLine | neutrinordp/libfreerdp-codec/rfx_dwt.c:85-103 | one inverse line, even samples first, against the line transform |
| Dwt.VertEncode | neutrinordp/libfreerdp-codec/rfx_dwt.c:125-141 | forward pass over columns into the scratch buffer |
| Dwt.HorizEncode | neutrinordp/libfreerdp-codec/rfx_dwt.c:143-186 | forward pass over rows into the four sub-bands |
| Dwt.HorizDecode | neutrinordp/libfreerdp-codec/rfx_dwt.c:37-80 | inverse pass over rows into the scratch buffer |
| Dwt.VertDecode | neutrinordp/libfreerdp-codec/rfx_dwt.c:82-104 | inverse pass over columns back into the block |
| Dwt.EncodeBlock | neutrinordp/libfreerdp-codec/rfx_dwt.c:114-187 | the block at the offset is transformed in place, the rest of the buffer is unchanged |
| Dwt.DecodeBlock | neutrinordp/libfreerdp-codec/rfx_dwt.c:26-105 | the block at the offset is inversely transformed in place, the rest is unchanged |
| Sse2Lanes.HighLane | neutrinordp/libfreerdp-codec/rfx_sse2.c:530-535 | the 16-bit lane formula equals the scalar high-pass value when the halved sums fit a lane |
| Sse2Lanes.EvenLane | neutrinordp/libfreerdp-codec/rfx_sse2.c:336-340 | the lane formula of an even sample, in both orders of addition |
| Sse2Lanes.OddLane | neutrinordp/libfreerdp-codec/rfx_sse2.c:355-370 | the lane formula of an odd sample |
| Sse2Store.StoreOct | neutrinordp/libfreerdp-codec/rfx_sse2.c:342-342 | a vector store puts eight cells of one row in place and changes no other cell |
| Sse2Vert.VertEncode | neutrinordp/libfreerdp-codec/rfx_sse2.c:504-558 | the row-order vector pass gives the same scratch block as the column-order scalar pass |
| Sse2Vert.VertDecode | neutrinordp/libfreerdp-codec/rfx_sse2.c:385-464 | likewise for the inverse pass: all even rows, then all odd rows |
| Sse2Horiz.LoadBack | neutrinordp/libfreerdp-codec/rfx_sse2.c:329-334 | the unaligned load one place back, its first lane patched at the row start, holds the previous coefficients whatever lies before the row |
| Sse2Horiz.LoadAhead | neutrinordp/libfreerdp-codec/rfx_sse2.c:360-365 | the unaligned load one place on, its last lane patched at the row end |
| Sse2Horiz.HorizEncode | neutrinordp/libfreerdp-codec/rfx_sse2.c:560-612 | the vector pass over rows gives the same sub-bands |
| Sse2Horiz.HorizDecode | neutrinordp/libfreerdp-codec/rfx_sse2.c:301-383 | the vector pass over rows gives the same scratch block although even samples overwrite LL and LH |
| Sse2.EncodeBlock | neutrinordp/libfreerdp-codec/rfx_sse2.c:614-641 | final buffer as from the scalar block, whenever every halved sum fits 16 bits |
| Sse2.DecodeBlock | neutrinordp/libfreerdp-codec/rfx_sse2.c:466-493 | final buffer as from the scalar block, whenever every halved sum fits 16 bits |
| Sse2.EncodeSumsFitWithin | neutrinordp/libfreerdp-codec/rfx_sse2.c:614-641 | samples within ±10921 meet that condition when encoding |
| Sse2.DecodeSumsFitWithin | neutrinordp/libfreerdp-codec/rfx_sse2.c:466-493 | and the sub-bands of such samples meet it when decoding, even when they are off by errors that leave room |
| DwtLevels.Encode | neutrinordp/libfreerdp-codec/rfx_dwt.c:189-194 | three-level forward transform of a tile |
| DwtLevels.Decode | neutrinordp/libfreerdp-codec/rfx_dwt.c:107-112 | three-level inverse transform of a tile |
| DwtLevels.EncodeSse2 | neutrinordp/libfreerdp-codec/rfx_sse2.c:643-650 | the SSE2 driver gives the same tile whenever the halved sums of its three levels fit |
| DwtLevels.DecodeSse2 | neutrinordp/libfreerdp-codec/rfx_sse2.c:495-502 | the SSE2 driver gives the same tile whenever the halved sums of its three levels fit |
| DwtGain.LowLowKnown | neutrinordp/libfreerdp-codec/rfx_dwt.c:114-187 | the LL band of a level is, up to a stated rounding error, the taps −1, 2, 6, 2, −1 over eight applied down and across |
| DwtGain.TwoTaps | neutrinordp/libfreerdp-codec/rfx_dwt.c:128-140 | two low-pass passes in a row grow a line by 13/8 at most, mirrored ends included |
| DwtGain.TwoLevels | neutrinordp/libfreerdp-codec/rfx_dwt.c:189-194 | over two levels of interleaved vertical and horizontal passes that is (13/8)² at most |
| DwtTile.SamplesLevelsWithin | neutrinordp/libfreerdp-codec/rfx_encode.c:214-216 | samples clamped to ±4096 start the second level within ±9218 and the third within ±10822, so no level leaves its range |
| DwtTile.TileDecodeNear | neutrinordp/libfreerdp-codec/rfx_dwt.c:107-112 | coefficients off by at most one error per band decode over three levels to samples within −T−21..T+6, where T counts LL3 once, HL and LH twice and HH four times |
| DwtTile.TileRoundTrip | neutrinordp/libfreerdp-codec/rfx_dwt.c:107-194 | three levels forward and back return every sample of a clamped tile within −21..+6 |
| DwtTile.EncodeSumsFitTile | neutrinordp/libfreerdp-codec/rfx_sse2.c:643-650 | every tile of clamped samples meets the condition of the SSE2 forward driver |
| DwtTile.DecodeSumsFitTile | neutrinordp/libfreerdp-codec/rfx_sse2.c:495-502 | the coefficients of every such tile meet that of the inverse driver, even when each band is off by its own error |
| DwtLaws.FlatTile | neutrinordp/libfreerdp-codec/rfx_quantization.c:35-82 | over three levels such tiles have coefficients only in LL3 and the bands that the quantisation table calls LH, or HL |
| DwtLaws.BandLevels | neutrinordp/libfreerdp-codec/rfx_quantization.c:35-82 | which coefficients the table's three groups of values belong to |
| Component.EncodeComponent | neutrinordp/libfreerdp-codec/rfx_encode.c:220-242 | wavelet, quantisation, differential and entropy coding in order; what the data array and the byte buffer then hold |
| Component.DecodeComponent | neutrinordp/libfreerdp-codec/rfx_decode.c:146-168 | the stages undone in reverse order; what the buffer then holds |
| Component.CodeBytes | neutrinordp/libfreerdp-codec/rfx_encode.c:237-239 | the counted bytes of the buffer hold the whole code |
| Component.CoefficientsPairsFit | neutrinordp/libfreerdp-codec/rfx_encode.c:229-239 | quantised coefficients are within ±1024, so every RLGR3 pair of a quantised tile fits 16 bits |
| Component.CoefficientsNear | neutrinordp/libfreerdp-codec/rfx_decode.c:155-161 | every dequantised coefficient errs by at most 33·2^f/2 with its own band's step 2^f, or 97·2^f/2 in LL3 when the last one was raised by one |
| Component.ComponentRoundTrip | neutrinordp/libfreerdp-codec/rfx_encode.c:220-242 | samples to bytes and back, either entropy coder, any clamped samples: within −T−21..T+6, where T adds up the errors of the ten bands |
| Component.DefaultTable | neutrinordp/libfreerdp-codec/rfx.c:60-63 | with the default table T is at most 1364, raised or not, and the SSE2 inverse transform gives the scalar samples |
| Component.EncodeAndDecode | neutrinordp/libfreerdp-codec/rfx_encode.c:220-242 | a component through the encoder's and the decoder's arrays, with room for its code, meets the same bound |
| MppcReservoir.Reservoir.constructor | neutrinordp/libfreerdp-core/mppc.c:710-732 | the reservoir starts with all bits of the packet unread |
| MppcReservoir.Reservoir.TakeField | neutrinordp/libfreerdp-core/mppc.c:775-778 | shifting the word takes bits off the front of the unread bits |
| MppcReservoir.Reservoir.GetHead | neutrinordp/libfreerdp-core/mppc.c:756-809 | decodes a literal or a copy offset and takes exactly its code |
| MppcReservoir.Reservoir.GetLength | neutrinordp/libfreerdp-core/mppc.c:896-1000 | decodes a length of match and takes exactly its code |
| MppcReservoir.Reservoir.Refill | neutrinordp/libfreerdp-core/mppc.c:815-865 | d32, cur_byte and the rest of cbuf together stay the unread bit suffix, and the word is full or the packet exhausted |
| MppcReservoir.Reservoir.View | neutrinordp/libfreerdp-core/mppc.c:749-752 | a full word shows the next 32 unread bits, padded with zeros |
| MppcSpec.ParseOffsets | neutrinordp/libfreerdp-core/mppc.c:754-809 | every copy of a parsed packet reaches back between 1 and 65535 bytes |
| MppcInversion.TokenBack | neutrinordp/libfreerdp-core/mppc.c:738-1000 | one parsing turn takes one token's code off the front, for both code tables |
| MppcInversion.ParseCode | neutrinordp/libfreerdp-core/mppc.c:738-1088 | parsing the code of a token sequence, with fewer than eight padding bits, gives that sequence |
| MppcInversion.UnpackedPack | neutrinordp/libfreerdp-core/mppc.c:710-1095 | a packed token sequence stands for exactly its LZ77 expansion over the history window |
| MppcLaws.CopyLaw | neutrinordp/libfreerdp-core/mppc.c:754-1000 | every row of the two offset tables and every length class, as prefix, bits and base |
| MppcLaws.CopyThreeLaw | neutrinordp/libfreerdp-core/mppc.c:896-905 | the length three is a single zero |
| MppcLaws.LiteralLaw | neutrinordp/libfreerdp-core/mppc.c:754-778 | the two forms of a literal |
| MppcLaws.ZeroOffsetLaw | neutrinordp/libfreerdp-core/mppc.c:779-895 | an offset of zero, or of 65536 in 16 bits, is skipped |
| MppcLaws.NoLengthLaw | neutrinordp/libfreerdp-core/mppc.c:896-1000 | more ones than any length has copy nothing and are read again |
| MppcLaws.CopyBytesLaw | neutrinordp/libfreerdp-core/mppc.c:1002-1030 | a copy repeats the last offset bytes over and over |
| Mppc.SourcePast | neutrinordp/libfreerdp-core/mppc.c:1004-1030 | the byte a copy reads, modulo 65536, is the one that many places before the write position |
| Mppc.Decompressor.constructor | neutrinordp/libfreerdp-core/mppc.c:1238-1264 | the write position starts at the front |
| Mppc.Decompressor.CopyMatch | neutrinordp/libfreerdp-core/mppc.c:1002-1030 | both copy branches append the LZ77 copy, overlaps included |
| Mppc.Decompressor.Turn | neutrinordp/libfreerdp-core/mppc.c:738-1088 | one turn of the loop consumes one token and appends its bytes |
| Mppc.Decompressor.Decompress | neutrinordp/libfreerdp-core/mppc.c:646-1095 | one packet, in the 8K (lines 216-631) or the 64K form: its bytes at roff, the write position just behind them, rlen the 32-bit difference, the rest of the history kept (or cleared by a flush) |
| Mppc.Decompressor.StoreAll | neutrinordp/libfreerdp-core/mppc.c:700-708 | an uncompressed packet is stored as it is |
| MppcRuns.ReportedLengthExact | neutrinordp/libfreerdp-core/mppc.c:1090-1092 | rlen counts the produced bytes iff the packet does not flush, or is at the front, or the write position is |
| MppcRuns.FlushAloneMisreports | neutrinordp/libfreerdp-core/mppc.c:692-698 | a flush alone can report 2^32 − 1 for no byte |
| MppcRuns.RunDelivers | neutrinordp/libfreerdp-core/mppc.c:677-1094 | in every run that fits, roff and rlen name exactly the bytes each packet produced |
| MppcRuns.Receive | neutrinordp/libfreerdp-core/mppc.c:646-1095 | a run of packets through the decompressor delivers what the specification says |
| MppcRuns.PacketsAreOneStream | neutrinordp/libfreerdp-core/mppc.c:1004-1030 | packets that do not restart decompress as one LZ77 stream over the history they share |
| MppcStreams.RunIsStream | neutrinordp/libfreerdp-core/mppc.c:677-1094 | every run of packets with any flags: each expands over the bytes sent before, at the front over the 65536 last ones in buffer order, after a flush over zeros |
| FastPath.WriteFragment | neutrinordp/libfreerdp-core/fastpath.c:671-693 | turns the data behind a position into a PDU in place and changes nothing outside that PDU |
| FastPath.NextFragment | neutrinordp/libfreerdp-core/fastpath.c:662-703 | makes the next PDU of what is left and leaves all data still to be sent as it was, so its header covers only sent bytes |
| FastPath.SendUpdate | neutrinordp/libfreerdp-core/fastpath.c:635-709 | sends exactly the PDUs of the update, up to the first one the transport refuses |
| FastPath.Receiver.RecvFragment | neutrinordp/libfreerdp-core/fastpath.c:295-316 | SINGLE, FIRST, NEXT and LAST against the gathering specification |
| FastPath.Receiver.RecvUpdates | neutrinordp/libfreerdp-core/fastpath.c:326-340 | all updates of one PDU |
| FastPath.Receiver.RecvPdu | neutrinordp/libfreerdp-core/rdp.c:812-839 | header length, decryption and updates of one PDU |
| FastPathSpec.RecvFragment | neutrinordp/libfreerdp-core/fastpath.c:94-141 | the receiver reads back the header, size and data of any PDU the sender makes |
| FastPathSpec.PduSizes | neutrinordp/libfreerdp-core/fastpath.c:655-664 | no PDU exceeds 0x3FFF bytes |
| FastPathSpec.Reassembly | neutrinordp/libfreerdp-core/fastpath.c:249-324 | from any receiver state, the PDUs of a non-empty update deliver exactly that update with its total size |
| FastPathSpec.SessionDelivers | neutrinordp/libfreerdp-core/fastpath.c:249-340 | any sequence of updates arrives whole, in order and with nothing added |
| FastPathLaws.PduLaw | neutrinordp/libfreerdp-core/fastpath.c:635-709 | PDU i of an update, byte by byte: flag, length, mark 0, 2, 3 or 1, size and its part of the data |
| FastPathLaws.PduCount | neutrinordp/libfreerdp-core/fastpath.c:655-703 | as many PDUs as the data takes |
| FastPathLaws.GatherLaw | neutrinordp/libfreerdp-core/fastpath.c:249-324 | what each mark does to what was gathered and delivered |
| FastPathLaws.RecvNext | neutrinordp/libfreerdp-core/fastpath.c:326-340 | the first fragment of a PDU is handled, and then the rest of it |
| FastPathLaws.RecvFlagged | neutrinordp/libfreerdp-core/fastpath.c:249-270 | a flags byte without compression changes nothing |
| FastPathLaws.RecvMany | neutrinordp/libfreerdp-core/fastpath.c:326-340 | any number of fragments in one PDU are handled in order |
| FastPathLaws.SinglesArrive | neutrinordp/libfreerdp-core/fastpath.c:326-340 | whole updates in one PDU arrive one by one |
| FastPathLaws.RecvPduLaw | neutrinordp/libfreerdp-core/fastpath.c:114-141 | both forms of the length, and the flag of protected contents |
| Chunks.Send | neutrinordp/libfreerdp-core/channel.c:32-88 | a message on the first channel of that number is sent as its chunks; an unknown number sends nothing and fails |
| Chunks.RecvChunkBytes | neutrinordp/libfreerdp-core/channel.c:104-116 | reading a chunk's header gives back its total and flags |
| Chunks.PeerChannel.ProcessChannelData | neutrinordp/libfreerdp-channels/wtsvc.c:42-79 | one chunk against the gathering specification: restart, append, queue |
| Chunks.ReceiveChannelData | neutrinordp/libfreerdp-channels/wtsvc.c:81-103 | the first channel of that number gets the chunk if it is open; no other channel changes |
| Chunks.StreamDelivers | neutrinordp/libfreerdp-channels/wtsvc.c:42-79 | a channel's stream leaves exactly its non-empty messages, in order, each of the announced length |
| Chunks.ChannelsApart | neutrinordp/libfreerdp-channels/wtsvc.c:81-103 | a channel's state depends on its own chunks only |
| Chunks.InterleavingDelivers | neutrinordp/libfreerdp-channels/wtsvc.c:42-103 | any interleaving of any number of channels fills each queue with exactly its own non-empty messages |
| Chunks.PrefixDelivers | neutrinordp/libfreerdp-channels/wtsvc.c:42-103 | at every moment each queue holds a prefix of them |
| ChunkLaws.ChunkLaw | neutrinordp/libfreerdp-core/channel.c:32-88 | chunk i of a message, byte by byte: total length, flags 1, 2 and 16, and its part of the data |
| ChunkLaws.ChunkCount | neutrinordp/libfreerdp-core/channel.c:32-88 | as many chunks as the message takes |
| ChunkLaws.ReceiveLaw | neutrinordp/libfreerdp-channels/wtsvc.c:42-79 | what each pair of flags does, right length or not |
| ChannelWrites.MutexKept | neutrinordp/libfreerdp-channels/libchannels.c:507-522 | the mutex has at most one holder, which is inside its critical section |
| ChannelWrites.NoticedKept | neutrinordp/libfreerdp-channels/libchannels.c:521-525 | every step keeps: a non-empty queue means the signal is set, a writer is about to set it, or the drain loop runs |
| ChannelWrites.ConservedKept | neutrinordp/libfreerdp-channels/libchannels.c:903-930 | every step keeps: all items ever queued are completed, taken or queued, in that order |
| ChannelWrites.NoLostWrite | neutrinordp/libfreerdp-channels/libchannels.c:466-954 | in every run of any number of writers: items are sent once each in queue order (less channels missing from the settings), non-empty queues are noticed, the dequeue never finds an empty list |
| ChannelHistory.RunReads | neutrinordp/libfreerdp-channels/libchannels.c:466-526 | in every run the connection, the open channels, the signal, the queue log and every writer are as the actions alone say: each enqueue stores the item its thread was called with, after three tests judged by the actions before them |
| ChannelHistory.WrittenIsSent | neutrinordp/libfreerdp-channels/libchannels.c:466-954 | what the writers were called with is completed, taken or still queued, in the order of their enqueues |
| ChannelWrites.Drains | neutrinordp/libfreerdp-channels/libchannels.c:903-954 | from every reachable state with no writer inside a call the main thread alone empties the queue and sends everything sendable |
| ChannelWrites.LateEnqueueIff | neutrinordp/libfreerdp-channels/libchannels.c:509-521 | after the connection closes, some run grows the queue iff a writer has passed the second connection test |
| ChannelWrites.LeftBehind | neutrinordp/libfreerdp-channels/libchannels.c:971-978 | a run in which a successful write stays in the queue after the closing check |
| EventMailbox.StepKeepsTokens | neutrinordp/libfreerdp-channels/libchannels.c:530-578 | semaphore, full slot, pushers inside and popper inside always add up to one |
| EventMailbox.EveryEventOnce | neutrinordp/libfreerdp-channels/libchannels.c:530-969 | in every run: one token, events stored only into an empty slot, popped once each in order, and an event in the slot is signalled, about to be, or about to be popped |
| EventMailbox.NoticedKept | neutrinordp/libfreerdp-channels/libchannels.c:573-575 | every step keeps: a full slot means the signal is set, a pusher is about to set it, or the main thread is about to pop |
| EventMailbox.Pops | neutrinordp/libfreerdp-channels/libchannels.c:945-969 | from every reachable state with a full slot and no pusher about to signal, the main thread alone pops the event within four steps |
| EventHistory.RunReads | neutrinordp/libfreerdp-channels/libchannels.c:530-578 | in every run the state of every pusher, the signal and the stored events are as the actions alone say |
| EventHistory.PushedIsPopped | neutrinordp/libfreerdp-channels/libchannels.c:530-969 | the events that pushers were called with are popped or in the slot, in the order of their stores |
| JoinHandlers.Rdp.ClientJoinConfirm | neutrinordp/libfreerdp-core/connection.c:371-435 | the client's handler: accepts only the expected channel, asks for the next, moves on after the last |
| JoinHandlers.Rdp.ServerJoinRequest | neutrinordp/libfreerdp-core/connection.c:644-674 | the server's handler: refuses another user, confirms and marks the channel, notices completion |
| JoinHandshake.EarlyStep | neutrinordp/libfreerdp-core/connection.c:341-369 | connect response, erect domain, attach user: numbers assigned by the server reach the client |
| JoinHandshake.ServerJoins | neutrinordp/libfreerdp-core/connection.c:656-671 | a request joins that target and no other |
| JoinHandshake.ClientJoins | neutrinordp/libfreerdp-core/connection.c:380-432 | a confirm joins that target and leads to the next request or to the client info |
| JoinHandshake.OneStep | neutrinordp/libfreerdp-core/connection.c:341-435 | at every stage exactly one side can act, and its step leads to the next stage |
| JoinHandshake.Handshake | neutrinordp/libfreerdp-core/connection.c:341-674 | with at most sixteen channels every run is safe (no failure, one join outstanding, joined prefixes, client within server, licence phase only when all is joined on both sides), never longer than 2n + 10 steps, never stuck before that, complete at that length |
| JoinHandshake.Transcript | neutrinordp/libfreerdp-core/connection.c:341-674 | in every run message k is the k-th of the sequence, with user 1002, global channel 1003 and static channels from 1004 on |
| JoinHandshake.WrongConfirm | neutrinordp/libfreerdp-core/connection.c:371-435 | the client takes no confirm but that of the channel it asked for |
| JoinHandshake.StrangeJoin | neutrinordp/libfreerdp-core/connection.c:644-674 | the server takes no join of another user and joins nothing for an unknown channel |
| JoinHandshake.OutOfTurn | neutrinordp/libfreerdp-core/rdp.c:876-892 | in each phase each side takes one kind of message only |
| JoinHandshake.TooManyChannels | neutrinordp/libfreerdp-core/gcc.c:982-986 | with more channels the server's first step breaks the connection |
| Nsc.ReadBack | neutrinordp/libfreerdp-codec/nsc.c:167-170 | byte and ninth bit give the signed nine-bit value of byte·2^level, for levels 1..7 |
| Nsc.ClExpand | neutrinordp/libfreerdp-codec/nsc.c:28-48 | every byte shifted, its ninth bit or-ed into its place in the bit area, nothing else changed |
| Nsc.ConvertRange | neutrinordp/libfreerdp-codec/nsc.c:173-188 | the high-byte test is clamping to 0..255 for every pixel |
| Nsc.ConvertMeans | neutrinordp/libfreerdp-codec/nsc.c:173-175 | red less blue is twice the halved orange chroma, twice green less both is four times the halved green chroma, and luma is green less the latter |
| Nsc.ChromaMeans | neutrinordp/libfreerdp-codec/nsc.c:28-48 | a recovered chroma value is the one signed nine-bit number that agrees with the shifted byte modulo 512 |
| Nsc.ClampNearest | neutrinordp/libfreerdp-codec/nsc.c:177-188 | no byte is nearer to a value than its clamped form |
| Nsc.YcocgRgb | neutrinordp/libfreerdp-codec/nsc.c:149-196 | every pixel is the clamped conversion of its luma and chroma, read with their ninth bits |
| Nsc.Recover | neutrinordp/libfreerdp-codec/nsc.c:198-206 | both together: from clear bit areas to pixels, in terms of the original bytes |
| RfxMessage.ReadRects | neutrinordp/libfreerdp-codec/rfx.c:363-373 | reads as many rectangles as announced |
| RfxRoundTrip.ParseBlock | neutrinordp/libfreerdp-codec/rfx.c:517-581 | a block's handler gets its body, and parsing goes on behind it |
| RfxRoundTrip.HeaderBack | neutrinordp/libfreerdp-codec/rfx.c:625-691 | a header tells the parser size, flags and entropy coder; the codec version arrives without its high byte |
| RfxRoundTrip.QuantsBack | neutrinordp/libfreerdp-codec/rfx.c:454-472 | quantisation nibbles are recovered |
| RfxRoundTrip.TileBack | neutrinordp/libfreerdp-codec/rfx.c:376-405 | the tile decoder gets exactly the three byte ranges the tile wrote |
| RfxRoundTrip.MessageRoundTrip | neutrinordp/libfreerdp-codec/rfx.c:505-587 | a composed message with header, parsed in any earlier state, gives back size, mode, flags, rectangles, tables and tiles |
| RfxRoundTrip.LaterMessageRoundTrip | neutrinordp/libfreerdp-codec/rfx.c:876-893 | a message without header gives back its frame and changes nothing else |
| RfxLayout.SyncBytes | neutrinordp/libfreerdp-codec/rfx.c:625-631 | the sync block byte by byte |
| RfxLayout.ContextBytes | neutrinordp/libfreerdp-codec/rfx.c:652-679 | the context block, with its property bits |
| RfxLayout.VersionsBytes | neutrinordp/libfreerdp-codec/rfx.c:633-640 | the codec versions block |
| RfxLayout.ChannelsBytes | neutrinordp/libfreerdp-codec/rfx.c:642-650 | the channels block |
| RfxLayout.FrameBeginBytes | neutrinordp/libfreerdp-codec/rfx.c:693-705 | the frame begin block, with the frame number |
| RfxLayout.FrameEndBytes | neutrinordp/libfreerdp-codec/rfx.c:866-874 | the frame end block |
| RfxLayout.RegionBytes | neutrinordp/libfreerdp-codec/rfx.c:707-733 | the region block |
| RfxLayout.RectBytesAt | neutrinordp/libfreerdp-codec/rfx.c:707-733 | where each rectangle lies in it |
| RfxLayout.TilesetBytes | neutrinordp/libfreerdp-codec/rfx.c:777-864 | the tile set block |
| RfxLayout.QuantBytesAt | neutrinordp/libfreerdp-codec/rfx.c:777-864 | two quantisation values a byte, the first in the low half |
| RfxLayout.TileBlockBytes | neutrinordp/libfreerdp-codec/rfx.c:735-775 | the tile block, field by field |
| RfxLayout.MessageKinds | neutrinordp/libfreerdp-codec/rfx.c:681-893 | the blocks of a first and of a later message, in order |
| RfxLayout.Refusals | neutrinordp/libfreerdp-codec/rfx.c:219-288 | a wrong magic number, number of codecs, number of channels or extension changes nothing |
| RfxLayout.ContextLaw | neutrinordp/libfreerdp-codec/rfx.c:290-326 | what the parser takes from the context properties; other entropy coders keep the mode |
| RfxLayout.EmptyTilesets | neutrinordp/libfreerdp-codec/rfx.c:407-503 | tile sets without tables or without tiles |
| RfxLayout.ParseStops | neutrinordp/libfreerdp-codec/rfx.c:505-587 | where parsing stops |
| RfxCompose.ComposeTile | neutrinordp/libfreerdp-codec/rfx.c:735-775 | appends the tile block, its lengths patched in afterwards |
| RfxCompose.ComposeTileset | neutrinordp/libfreerdp-codec/rfx.c:777-864 | appends the tile set of the image, row by row, both lengths patched in afterwards |
| RfxCompose.ComposeRegion | neutrinordp/libfreerdp-codec/rfx.c:707-733 | appends the region block with all rectangles |
| RfxCompose.Composer.Compose | neutrinordp/libfreerdp-codec/rfx.c:885-893 | appends header (first frame only) and frame, and advances the frame number |
| RfxCompose.GridCovers | neutrinordp/libfreerdp-codec/rfx.c:813-853 | every pixel lies in exactly one tile, and every tile is non-empty and inside the image |
| RfxParse.Context.ProcessRegion | neutrinordp/libfreerdp-codec/rfx.c:344-374 | the region handler, rectangle loop included |
| RfxParse.Context.ProcessTileset | neutrinordp/libfreerdp-codec/rfx.c:407-503 | the tile-set handler, with its early returns |
| RfxParse.Context.ProcessMessage | neutrinordp/libfreerdp-codec/rfx.c:505-587 | the block loop, on any bytes, against the parsing specification |
| RfxImage.ImageRoundTrip | neutrinordp/libfreerdp-codec/rfx.c:505-893 | any image up to 65536 pixels a side and 65535 tiles: the parser recovers the whole grid with every tile's own bytes |
| RfxCodec.ImageDecodes | neutrinordp/libfreerdp-codec/rfx.c:376-405 | compose an image, parse it, decode the three ranges of every tile with the tables and entropy coder of the message: every tile is at its place and every sample within −T−21..T+6 |

## Left out

- Quantization.Decode: quantisation values below 6, for which the C code shifts by a wrapped-around 32-bit count.
- Quantization.Encode: the same.
- Component.ComponentRoundTrip: quantisation tables for which T exceeds 8192, the width of the sample range; colour conversion before and after the component.
- Component.EncodeAndDecode: a code longer than the buffer (the encoder makes sure of 4096 bytes only); what the entropy coder restores then is stated by itself.
- DwtTile.DecodeSumsFitTile: takes errors of at most 149 for LL3 with HL3 and for LH3 with HH3, and 2500 altogether; coefficients that no encoder made are not covered.
- Sse2.EncodeBlock: what the lanes hold when a sum does overflow; and the SSE2 quantisation, colour conversion and prefetching.
- Mppc.Decompressor.Decompress: packets whose output runs past the 64K history, which the C code writes behind its buffer; the chain of length tests is one loop over the same table in the same order; a left shift of an empty remainder by the full word counts as 0.
- FastPath.Receiver.RecvUpdates: compressed updates and updates cut short by the end of a PDU are reported as unhandled; the handlers of delivered updates only decide how much of the buffer they read.
- FastPath.SendUpdate: encryption and signature are one sealing function per PDU, of 8 bytes more, with an inverse; FIPS, where the two sides protect fast-path data differently.
- Chunks.ReceiveChannelData: the receive event and the queue's mutex.
- Nsc.ClExpand: colour-loss level 0 and empty planes, where the C code shifts by −1 or touches one byte of an empty plane.
- Nsc.Recover: the same.
- RfxCompose.ComposeTile: the planes are coded before the tile is composed, not into its stream.
- RfxParse.Context.ProcessTileset: at a block that is not a tile the C code keeps the announced number of tiles, with stale ones behind; here the list ends.
- RfxParse.Context.ProcessMessage: bytes behind the end of the data, which the C code reads, count as zero.
- RfxImage.ImageRoundTrip: lengths, counts and table indices that do not fit their fields; the bound on the whole message is 2^32 − 2000 bytes.
- ChannelWrites.NoLostWrite: handle lookup, registration and the find-by-name search are a fixed set of sendable channels; write-complete callbacks are the completion log.
- JoinHandshake.Handshake: BER and PER encodings, key exchange and licensing; messages are values on FIFO links.
- decompress_rdp_6, decompress_rdp_61 and their hash tables.
- The interleaved RLE bitmap decoders, colour conversion, the NEON routines, NSCodec RLE and chroma supersampling.
- JPEG, TLS, OpenSSL wrappers, certificates, licensing and CredSSP.
- Bitmap, glyph, brush, pointer and palette caches, capability sets, input events and error info.
- Plug-in loading, listeners, sockets, profilers, debug logging and allocation failure.
