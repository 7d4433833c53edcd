# Verified models of the FFmpeg code in TinyMediaPlayer

Five parts of the vendored FFmpeg code, each modelled as the code does it and proved against what
it is for. `dafny verify dfyconfig.toml` checks everything. Paths below are relative to the root of
the repository.

**AC-3 encoder.** `Ac3Config` settles a stream (channels, rates, frame size code); `Ac3Rate` sizes
each frame; `Ac3Exponents` shapes, codes and shares exponents, and `Ac3Shifts` says when one lies
below a shift; `Ac3Bands` and `Ac3Tables` turn exponents into baps; `Ac3BitAlloc` searches the finest
quantisation that fits; `Ac3Mantissa` quantises and groups; `Ac3Header`, `Ac3Block` and `Ac3Frame`
write a frame and read it back by ATSC A/52; `Gf2` and `Ac3Crc` place its two checksums;
`Ac3Encoder.EncodeFrame` puts them together, from encoded exponents and coefficients to a finished
frame, and `Ac3Coefficients.EncodeCoefficients` from the transform's output on. `Ac3Decoder` reads a
frame from its bits alone and gives the encoder's input back: `Ac3Info` the rest of the bit stream
information, `Ac3BlockReader` every flag, strategy, bandwidth and code of a block, and `Ac3Parameters`
computes curves and floor from the codes read. `Bits`, `Sums` and `Wrappers` are shared.

**Frame parser.** `FrameParser` is the byte-driven assembler, `Ac3Sync` and `AacSync` its two
instances. However a stream is cut into calls, what comes out is what one scan of it finds, but for a
frame that is just a header at the very end. A stream of encoder frames comes out as those frames, and
so does what `AdtsMux`, the ADTS muxer, writes for AAC packets.

**ADPCM.** `Adpcm` holds the three codecs, `AdpcmBlocks` greedy encoding and block decoding in
lockstep, `AdpcmTrellis` the trellis search with its recycled nodes and path slots,
`AdpcmTrellisBlocks` the blocks made of what it finds, decoded in lockstep too. What the greedy
encoder chooses is nearest, and the search leaves out no nibble that could be nearer.

**4XM.** `FourXmHuffman` builds the code of intra frames in place, `FourXmBlocks` splits and paints
the blocks of motion compensated frames, `FourXmMotion` adds pixels two to a word.

**ffplay.** `PacketQueue` is the linked-list queue, `SeekBarrier` all interleavings of the reading
thread with three decoders, `SeekDelivery` what they are given in all, `SubpictureRing` all
interleavings of the two sides of the ring.

## What does not hold

- Frame size control compares 32-bit products (`TinyMediaPlayer/ffmpeg/libavcodec/ac3enc.c:1249`).
  Of all accepted configurations just one is wrong in 32 bits: 256 kbit/s at 44100 Hz gets a word too
  many in its 1792nd frame and each 3675th after it, and one too few two frames later
  (`Ac3Rate.WrapIsHarmlessIff`, `Ac3Rate.OddRateMissteps`, `Ac3Rate.OddRateHolds`).
- With all 256 byte values in use next to the end symbol, the merging stops with two trees and two of
  the codes clash (`FourXmHuffman.PrefixFreeIff`). The overflow that a comment asks about cannot happen.
- `ac3_sync` breaks the parser's demand for frames no shorter than their header exactly on enhanced
  headers that announce three words or fewer (`Ac3Sync.SyncContractIff`; seven such bytes,
  `Ac3Sync.TooShortHeader`), `aac_sync` exactly on headers that announce one to six bytes
  (`AacSync.SyncContractIff`).
- What the parser gives is not all that a scan finds if and only if the last byte of the stream
  completes a header that is a whole frame; that frame waits for another byte
  (`FrameParser.ParseAll`). With AAC it happens (`AacSync.BareHeaderWaits`, `AacSync.BareStream`), with
  AC-3 never (`Ac3Sync.SyncSizes`).
- Where a seek finds no memory for its mark, a decoder can get packets of both sides with nothing
  between (`SeekBarrier.LostMarkBreaks`). It does if and only if the decoder got a packet last when the
  mark was lost, and then gets another before a mark (`SeekBarrier.DecoderBrokenIff`).
- `ff_ac3_bit_alloc_calc_bap` takes one band more than it needs; for ranges that end beyond bin 229,
  and for no others, it reads a fifty-first mask (`Ac3Bands.SurplusBand`, `Ac3Bands.SurplusAt230`).
  The encoder's channels end at bins 223 and 7.
- Without the search, stereo Yamaha blocks are packed two samples of a channel to a byte, where the
  decoder splits each byte between the channels. What is decoded is what the encoder reconstructed if
  every left nibble in second place equals the right one in first place, and, where one channel does
  not saturate, only then (`AdpcmBlocks.YamahaStereoGreedy`; an input where it is not,
  `AdpcmBlocks.YamahaStereoFails`). With the search they are packed as the decoder reads them
  (`AdpcmTrellisBlocks.YamahaStereo`).
- Stereo IMA blocks send `samples[2]`, the next sample of the left channel, as the right channel's
  first value (`TinyMediaPlayer/ffmpeg/libavcodec/adpcm.c:455-458`). The header is right if and only if
  that equals `samples[1]` (`AdpcmBlocks.RightHeaderIff`, `AdpcmBlocks.RightHeaderFails`). The lockstep
  holds of the value sent.
- The quantisers can shift by a negative count: an exponent that a quiet block shares with a louder
  one can lie below the quiet block's shift (`Ac3Coefficients.LoudThenQuiet`). Before anything is
  encoded it is known whether one will (`Ac3Coefficients.ShiftsFitIff`, `Ac3Shifts.BlockFitsIff`).

- A comment says that blocks are sent without dither (`TinyMediaPlayer/ffmpeg/libavcodec/ac3enc.c:804`);
  the flag written is 1, which by section 5.4.3.2 of ATSC A/52 turns it on. The model writes 1.
- Where 4XM adds a constant to a block at least two pixels wide, it adds to two pixels in one 32-bit
  word: a first one that overflows makes the second one more than its sum
  (`FourXmMotion.AddsPixelIff`).

## Conditions

- A frame is claimed to fit only when the search finds room; the encoder does not look at the result
  (`TinyMediaPlayer/ffmpeg/libavcodec/ac3enc.c:1253`).
- Where an encoded exponent will lie below its block's shift, `Ac3Coefficients.EncodeCoefficients` stops
  with -2; the encoder does not check it. A shift that is not positive is always allowed
  (`Ac3Shifts.NoShiftUpAllowed`). That shifted coefficients stay below 2^24 is proved
  (`Ac3Coefficients.WithinRange`).
- Headers that the frame parser meets announce no frame shorter than themselves or longer than its
  buffer (`FrameParser.MetOk`).
- Coefficients are not so large that an exponent would be negative (`NotTooLarge`).
- Total mantissa size is not monotone in the offset, because of grouping; what is monotone is each
  bin's bap, and what the search ends at is local.

## Model

| member | source | states |
|---|---|---|
| Ac3Coefficients.EncodeCoefficients | TinyMediaPlayer/ffmpeg/libavcodec/ac3enc.c:1201-1262 | from the coefficients and their exponents to the frame: strategies, encoded exponents, rate control, bit allocation and output together; it comes to a negative shift if and only if the exponents and shifts given do not allow these shifts; and decoding the finished frame's bits gives back strategies, exponents, offsets, baps and mantissas, and in every bin, by the tables of section 7.3.3 of ATSC A/52, the coefficient to within half a step of its quantiser, or a whole one for the highest code of those from bap 6 on |
| Ac3Coefficients.ComputeExponents | TinyMediaPlayer/ffmpeg/libavcodec/ac3enc.c:1202-1217 | each coefficient gets the exponent of its leading bit and the block's shift; those too small for any become zero and get 24 |
| Ac3Coefficients.WithinRange | TinyMediaPlayer/ffmpeg/libavcodec/ac3enc.c:747-781 | an encoded exponent that is at least the shift and at most the coefficient's own keeps the shifted coefficient below 2^24, as the quantisers assume |
| Ac3Coefficients.EncodeExponents | TinyMediaPlayer/ffmpeg/libavcodec/ac3enc.c:1220-1242 | for all channels: strategies chosen by how the exponents change, exponents sent for each run, and in all as many bits as the channels' sizes |
| Ac3Coefficients.InputFromExponents | TinyMediaPlayer/ffmpeg/libavcodec/ac3enc.c:1220-1262 | what the exponents' encoding leaves meets all that quantisation and output ask for, if no encoded exponent lies below its block's shift |
| Ac3Coefficients.ShiftsNeeded | TinyMediaPlayer/ffmpeg/libavcodec/ac3enc.c:747-781 | and only if: the quantisers' demand fails where one does |
| Ac3Coefficients.ShiftsFitIff | TinyMediaPlayer/ffmpeg/libavcodec/ac3enc.c:1220-1242 | the encoding leaves no exponent below its block's shift if and only if, in each run of blocks with the same exponents, every shift is at most 15 and at most every exponent of the run's blocks |
| Ac3Coefficients.LoudThenQuiet | TinyMediaPlayer/ffmpeg/libavcodec/ac3enc.c:1202-1242 | a frame of one loud block and five quiet ones shifted up by five, whose measured exponents lead to a negative shift |
| Ac3Shifts.BlockFitsIff | TinyMediaPlayer/ffmpeg/libavcodec/ac3enc.c:304-383 | for one channel's block, out of its run: neither too much nor too little is allowed, bins that only fill the last code counting with two a group between |
| Ac3Shifts.NoShiftUpAllowed | TinyMediaPlayer/ffmpeg/libavcodec/ac3enc.c:1164-1199 | a block that was not shifted up never comes to a negative shift |
| Ac3Decoder.DecodeFrameIsInverse | TinyMediaPlayer/ffmpeg/libavcodec/ac3enc.c:1253-1262 | a decoder that is given nothing but the bits of a finished frame, reads every flag and code there, and works out places, exponents, masking curves and baps from what it has read, gives back the encoder's input |
| Ac3Decoder.FrameIsNear | TinyMediaPlayer/ffmpeg/libavcodec/ac3enc.c:925-1014 | what is decoded from exponent, bap and mantissa is, in each bin of each channel and block, near the coefficient given to the encoder, its block's shift taken into account; bins without bits are nothing |
| Ac3Info.InfoIsRead | TinyMediaPlayer/ffmpeg/libavcodec/ac3enc.c:734-743 | read by the whole syntax of section 5.3.2 of ATSC A/52, the header says dialogue level 31, an original and nothing optional, and ends where the blocks begin |
| Ac3Parameters.CodesGiveCurve | TinyMediaPlayer/ffmpeg/libavcodec/ac3enc.c:511-529 | the parameter codes that blocks send, looked up in the tables of section 7.2.2.3, give the decays, gains, knee and floor that the encoder allocates by |
| Ac3BlockReader.SameRow | TinyMediaPlayer/ffmpeg/libavcodec/ac3enc.c:436-494 | whatever curve follows from a channel's exponents, its baps are those a decoder computes from the exponents |
| Ac3BlockReader.BlockIsRead | TinyMediaPlayer/ffmpeg/libavcodec/ac3enc.c:785-1056 | by the syntax of section 5.3.3 one block is read from the place before it and what was known: every flag, strategies, bandwidths, exponents or those reused, codes, offsets and gains or those kept, baps, mantissas, and where the next begins |
| Ac3Encoder.EncodeFrame | TinyMediaPlayer/ffmpeg/libavcodec/ac3enc.c:1150-1262 | from encoded exponents on, one frame: the rate control sets its length; what is searched is the problem these exponents, strategies and this length make and no other; -1 exactly when no coarse offset the search tries leaves room, and then the offsets stay; otherwise the offsets kept fit and no next single step of either does, both checksums hold, the header parses, every block reads back where the blocks before put it, and the frame announces its own length to the frame parser |
| Ac3Encoder.Allocate | TinyMediaPlayer/ffmpeg/libavcodec/ac3enc.c:499-626 | compute_bit_allocation: tables, floor, masking curves, length and predicted bits of the problem are those that follow from the exponents, strategies and configuration given; the baps returned are its allocation for the offsets returned, which the allocator keeps for all channels |
| Ac3Encoder.WriteFrame | TinyMediaPlayer/ffmpeg/libavcodec/ac3enc.c:1253-1262 | an allocation that fits gives a finished frame of the predicted length; each block stands where its predecessors end and its strategies, exponents, offsets and mantissa bits read back as the values given |
| Ac3Frame.PredictFrameBits | TinyMediaPlayer/ffmpeg/libavcodec/ac3enc.c:530-565 | the count of bits before any mantissa is exponents, header, side information and 18 for the end of the frame |
| Ac3Frame.SizeIsPredicted | TinyMediaPlayer/ffmpeg/libavcodec/ac3enc.c:530-565 | header and six blocks have exactly the predicted bits less 18, and if the prediction fits the frame they end two bytes before it |
| Ac3Frame.RowsAndColumns | TinyMediaPlayer/ffmpeg/libavcodec/ac3enc.c:1150-1242 | exponent sizes added up channel by channel, as the encoder does, are those added up block by block, as they are written |
| Ac3Frame.FlushPutBits | TinyMediaPlayer/ffmpeg/libavcodec/ac3enc.c:1124-1130 | the bits written, padded with zeros to whole bytes, are what stands in the buffer |
| Ac3Frame.SealedBits | TinyMediaPlayer/ffmpeg/libavcodec/ac3enc.c:1130-1148 | sealing the frame changes the checksum field of the header and the filling and no other bit |
| Ac3Frame.FrameRoundTrip | TinyMediaPlayer/ffmpeg/libavcodec/ac3enc.c:785-1056 | whatever the checksum and the filling, every block of the frame reads back: strategies, exponents, offsets, mantissas |
| Ac3Frame.PlacesOfBlocks | TinyMediaPlayer/ffmpeg/libavcodec/ac3enc.c:785-1056 | where a block begins is known to a decoder from the strategies and mantissa sizes of the blocks before; finished frames are read back from these places |
| Ac3Frame.OutputFrame | TinyMediaPlayer/ffmpeg/libavcodec/ac3enc.c:1253-1262 | for an allocation that fits, assert(n >= 0) of output_frame_end holds, the length is twice the frame size, both checksums hold, and every block reads back from the place that follows from the blocks before, its mantissa bits as many as its baps ask for |
| Ac3Block.OutputAudioBlock | TinyMediaPlayer/ffmpeg/libavcodec/ac3enc.c:785-1056 | what is written for a block is the syntax of section 5.3.3 of ATSC A/52: flags, strategies, bandwidths, exponents, parameters, mantissas |
| Ac3Block.BlockSize | TinyMediaPlayer/ffmpeg/libavcodec/ac3enc.c:535-562 | a block is as long as the bits counted for its side information, exponents and mantissas |
| Ac3Block.BlockRoundTrip | TinyMediaPlayer/ffmpeg/libavcodec/ac3enc.c:785-1056 | read from places a decoder can compute, a block says all its flags, strategies, bandwidths, exponents with their gain range, parameter codes, offsets and gain code for every channel, and mantissas |
| Ac3Crc.MulPoly | TinyMediaPlayer/ffmpeg/libavcodec/ac3enc.c:1060-1074 | the loop computes the residue of the product of two polynomials over GF(2) |
| Ac3Crc.PowPoly | TinyMediaPlayer/ffmpeg/libavcodec/ac3enc.c:1076-1088 | square and multiply computes the residue of a power |
| Ac3Crc.HalfModulusInvertsX | TinyMediaPlayer/ffmpeg/libavcodec/ac3enc.c:1138-1139 | the modulus shifted right is the inverse of x |
| Ac3Crc.Crc1Cancels | TinyMediaPlayer/ffmpeg/libavcodec/ac3enc.c:1136-1141 | a word before the data makes the whole divisible by the modulus if and only if it is the one the encoder stores |
| Ac3Crc.Crc2Cancels | TinyMediaPlayer/ffmpeg/libavcodec/ac3enc.c:1143-1144 | a checksum behind its data makes the whole divisible |
| Ac3Crc.OutputFrameEnd | TinyMediaPlayer/ffmpeg/libavcodec/ac3enc.c:1119-1148 | after the sync word, the first five eighths and the whole frame are divisible by the modulus (section 7.10.1); bytes not its own are left as they were |
| Gf2.RemIsUnique | TinyMediaPlayer/ffmpeg/libavcodec/ac3enc.c:1058-1148 | a polynomial has one remainder, so being divisible does not depend on how it is computed |
| Ac3BitAlloc.BitAlloc | TinyMediaPlayer/ffmpeg/libavcodec/ac3enc.c:465-494 | bits to spare for a pair of offsets, and the allocation they give |
| Ac3BitAlloc.BitAllocMasking | TinyMediaPlayer/ffmpeg/libavcodec/ac3enc.c:436-463 | copying a curve where exponents are reused gives the curve that would follow from them |
| Ac3BitAlloc.BitAllocator.Search | TinyMediaPlayer/ffmpeg/libavcodec/ac3enc.c:570-609 | -1 if and only if none of start, start - 4, ... leaves room; 0 with offsets that fit, the allocation for just these, and neither next step fitting |
| Ac3BitAlloc.BitAllocator.GoDown | TinyMediaPlayer/ffmpeg/libavcodec/ac3enc.c:573-580 | the first coarse offset on the way down by four that leaves room |
| Ac3BitAlloc.AllocationMonotone | TinyMediaPlayer/ffmpeg/libavcodec/ac3enc.c:465-494 | for any exponents 0 to 24 a higher offset never gives any bin of any block fewer bits |
| Ac3BitAlloc.OffsetsInOrder | TinyMediaPlayer/ffmpeg/libavcodec/ac3enc.c:478 | pairs of coarse and fine offset are ordered as their offsets are, fine ones coming second |
| Ac3BitAlloc.LaterPairMonotone | TinyMediaPlayer/ffmpeg/libavcodec/ac3enc.c:465-494 | so a later pair never gives any bin of any block fewer bits |
| Ac3Bands.CommonInit | TinyMediaPlayer/ffmpeg/libavcodec/ac3.c:226-239 | bndtab is where each band starts and masktab looks up a bin's band |
| Ac3Bands.BandOfIff | TinyMediaPlayer/ffmpeg/libavcodec/ac3.c:226-239 | a bin is in the band looked up for it and in no other |
| Ac3Bands.BandsPartition | TinyMediaPlayer/ffmpeg/libavcodec/ac3.c:64-81 | the parts of bands that the loop takes hold each bin of the range once, in its own band |
| Ac3Bands.CalcPsd | TinyMediaPlayer/ffmpeg/libavcodec/ac3.c:55-81 | power from each exponent, and each band integrated from its own bins, for any range |
| Ac3Bands.IntegratedRange | TinyMediaPlayer/ffmpeg/libavcodec/ac3.c:66-79 | a band is at least as strong as its strongest bin and at most 64 stronger for each other bin |
| Ac3Bands.LogAddIs | TinyMediaPlayer/ffmpeg/libavcodec/ac3.c:71-77 | adding two powers does not depend on their order, makes 64 more of equal ones, and changes nothing where one is 420 weaker |
| Ac3Bands.IntegratedRises | TinyMediaPlayer/ffmpeg/libavcodec/ac3.c:64-81 | a louder bin never makes its band quieter |
| Ac3Bands.CalcMask | TinyMediaPlayer/ffmpeg/libavcodec/ac3.c:83-150 | the masking curve of sections 7.2.2.4 and 7.2.2.5 of ATSC A/52 for a channel from bin 0 |
| Ac3Bands.LowcompSince | TinyMediaPlayer/ffmpeg/libavcodec/ac3.c:34-53 | compensation after a band is what the last rise by 256 set, 384 below band 7 and 320 from there, less 64 for each fall since and 128 for each band from 20 on, never below zero |
| Ac3Bands.NoLowcomp | TinyMediaPlayer/ffmpeg/libavcodec/ac3.c:34-53 | without such a rise there is none |
| Ac3Bands.LeakFromIff | TinyMediaPlayer/ffmpeg/libavcodec/ac3.c:105-117 | leaks begin at the first of bands 2 to 6 from which power does not fall to the next, the low frequency channel's last not counting |
| Ac3Bands.MaskingIff | TinyMediaPlayer/ffmpeg/libavcodec/ac3.c:94-153 | the curve is the lowest that keeps above the hearing threshold and, with the knee, above what each lower band leaves by the fast decay less compensation and by the slow one |
| Ac3Bands.LeakIsMaximum | TinyMediaPlayer/ffmpeg/libavcodec/ac3.c:109-143 | a leak is the strongest masking by any lower band, faded by a step per band between |
| Ac3Bands.MaskingLocal | TinyMediaPlayer/ffmpeg/libavcodec/ac3.c:94-137 | bands that a channel does not have, whose power is never set, do not reach its curve |
| Ac3Bands.MaskingRange | TinyMediaPlayer/ffmpeg/libavcodec/ac3.c:145-153 | a curve lies between 752 and a bound from the strongest band |
| Ac3Bands.CalcBap | TinyMediaPlayer/ffmpeg/libavcodec/ac3.c:175-198 | for any range of bins, each has the bap of its own band's mask and its own power; offset -960 gives none; the masks read are those up to the loop's last turn, which writes nothing |
| Ac3Bands.SurplusBand | TinyMediaPlayer/ffmpeg/libavcodec/ac3.c:186-196 | the last band whose mask the loop reads is the one after that of the last bin, and it is a fifty-first if and only if the range ends beyond bin 229 |
| Ac3Bands.SurplusAt230 | TinyMediaPlayer/ffmpeg/libavcodec/ac3.c:186-196 | with 50 masks, an end at 230 reads one that is not there and an end at 229 does not |
| Ac3Bands.CoarseRoundsDown | TinyMediaPlayer/ffmpeg/libavcodec/ac3.c:189 | the bit mask 0x1FE0 is rounding down to a multiple of 32 if and only if the value is below 8192 |
| Ac3Bands.EncoderBapsMonotone | TinyMediaPlayer/ffmpeg/libavcodec/ac3.c:175-198 | for powers from exponents 0 to 24 masks stay below that limit, and raising the offset never lowers a bap |
| Ac3Bands.NotMonotoneBeyond | TinyMediaPlayer/ffmpeg/libavcodec/ac3.c:189-195 | at a mask of 8192 raising the offset by one does take bits away |
| Ac3Tables.StandardIsSound | TinyMediaPlayer/ffmpeg/libavcodec/ac3tab.c:129-219 | log-add increments are 0 to 64, hearing thresholds 752 to 2112, baps rise with the address from 0 to 15 |
| Ac3Tables.LatabStep | TinyMediaPlayer/ffmpeg/libavcodec/ac3tab.c:129-155 | from each log-add increment to the next it falls by one or stays |
| Ac3Mantissa.SymQuantIsNearest | TinyMediaPlayer/ffmpeg/libavcodec/ac3enc.c:747-762 | the code is in range and no other code's value is nearer |
| Ac3Mantissa.AsymQuantIsNearest | TinyMediaPlayer/ffmpeg/libavcodec/ac3enc.c:765-781 | the assert holds, the code fits its bits, and no other code's value is nearer |
| Ac3Mantissa.QuantisedIsNearest | TinyMediaPlayer/ffmpeg/libavcodec/ac3enc.c:925-1014 | for each bap the code written is nearest of all its codes to the coefficient, and within half a step, or a whole one for the highest code from bap 6 on |
| Ac3Mantissa.ValuesFillWords | TinyMediaPlayer/ffmpeg/libavcodec/ac3enc.c:386-433 | each word holds its mantissas and would not hold those of a quantiser with two more values; a higher bap has more values |
| Ac3Mantissa.FirstPass | TinyMediaPlayer/ffmpeg/libavcodec/ac3enc.c:925-1014 | after the first pass each group's code stands at its first bin, possibly in an earlier channel, with every member in it, and later members are marked |
| Ac3Mantissa.GroupNumber | TinyMediaPlayer/ffmpeg/libavcodec/ac3enc.c:939-1000 | a group code, full or not, is below its bound and so never 128, and gives back each member |
| Ac3Mantissa.SecondPass | TinyMediaPlayer/ffmpeg/libavcodec/ac3enc.c:1016-1055 | the words are written in bin order, one for each group and each single mantissa |
| Ac3Mantissa.MantissasRoundTrip | TinyMediaPlayer/ffmpeg/libavcodec/ac3enc.c:925-1055 | ungrouping by section 7.3.5 of ATSC A/52 gives back every value of the block, whatever surrounds it |
| Ac3Mantissa.EmitsPredictedSize | TinyMediaPlayer/ffmpeg/libavcodec/ac3enc.c:386-433 | the second pass writes as many bits as compute_mantissa_size counts |
| Ac3Mantissa.OutputMantissas | TinyMediaPlayer/ffmpeg/libavcodec/ac3enc.c:925-1055 | both passes together: decodable and of the predicted length |
| Ac3Mantissa.MantissaCounters.ComputeMantissaSize | TinyMediaPlayer/ffmpeg/libavcodec/ac3enc.c:386-433 | the counters carried over channels give each channel's share of the block's size |
| Ac3Exponents.EncodeExp | TinyMediaPlayer/ffmpeg/libavcodec/ac3enc.c:317-383 | the encoded exponents are the envelope of the group minima, spread over the bins, none above its true exponent; the size returned |
| Ac3Exponents.Sweep | TinyMediaPlayer/ffmpeg/libavcodec/ac3enc.c:357-362 | the two sweeps give the least over all groups of minimum plus twice the distance |
| Ac3Exponents.EnvelopeIsGreatest | TinyMediaPlayer/ffmpeg/libavcodec/ac3enc.c:357-362 | nothing the delta code can express lies under the minima and above the envelope |
| Ac3Exponents.EnvelopeIsGentle | TinyMediaPlayer/ffmpeg/libavcodec/ac3enc.c:357-362 | neighbours of the envelope differ by at most two |
| Ac3Exponents.NeverAbove | TinyMediaPlayer/ffmpeg/libavcodec/ac3enc.c:317-383 | no coded bin gets an exponent above its own |
| Ac3Exponents.CoverageIff | TinyMediaPlayer/ffmpeg/libavcodec/ac3enc.c:325-337 | every coefficient gets an exponent in all three strategies if and only if their number is 1 modulo 3 |
| Ac3Exponents.DeltaCodeFits | TinyMediaPlayer/ffmpeg/libavcodec/ac3enc.c:877-894 | three deltas make a code below 125 that gives them back |
| Ac3Exponents.OutputExponents | TinyMediaPlayer/ffmpeg/libavcodec/ac3enc.c:853-894 | the first exponent and then codes of three deltas, taken at group starts |
| Ac3Exponents.ExponentsRoundTrip | TinyMediaPlayer/ffmpeg/libavcodec/ac3enc.c:853-899 | decoding by section 7.1.3 of ATSC A/52 restores the encoder's exponent in every coded bin |
| Ac3Exponents.EncodeChannel | TinyMediaPlayer/ffmpeg/libavcodec/ac3enc.c:1220-1242 | over a channel's six blocks: each run sends the envelope of the caps set by the least exponents of its blocks, every block of it is served without exceeding any of its own, reused exponents are the ones sent, and sizes add up |
| Ac3Exponents.ComputeExpStrategy | TinyMediaPlayer/ffmpeg/libavcodec/ac3enc.c:258-302 | new exponents exactly where they changed by more than 1000; runs graded by their length |
| Ac3Exponents.VariationIsDistance | TinyMediaPlayer/ffmpeg/libavcodec/ac3enc.c:248-256 | the change measured is zero exactly between equal rows, the same both ways, and no longer directly than by way of a third |
| Ac3Exponents.VariationOfOne | TinyMediaPlayer/ffmpeg/libavcodec/ac3enc.c:248-256 | one exponent that changes counts by as much as it changes |
| Ac3Exponents.ChosenIs | TinyMediaPlayer/ffmpeg/libavcodec/ac3enc.c:258-302 | the strategies follow from the exponents alone: no other choice meets the rules |
| Ac3Header.OutputFrameHeader | TinyMediaPlayer/ffmpeg/libavcodec/ac3enc.c:717-744 | the header is the fields of sections 5.3.1 and 5.3.2 of ATSC A/52 |
| Ac3Header.HeaderWidth | TinyMediaPlayer/ffmpeg/libavcodec/ac3enc.c:530-533 | the header has 65 bits and those frame_bits_inc lists for the mode |
| Ac3Header.ParseHeader | TinyMediaPlayer/ffmpeg/libavcodec/ac3_parser.c:37-85 | which of four errors, and otherwise each coded element from its place and what follows from it |
| Ac3Header.HeaderRoundTrip | TinyMediaPlayer/ffmpeg/libavcodec/ac3_parser.c:37-85 | for every accepted configuration and either frame size, the parser gives back the coded fields, sampling rate, bit rate, channels and byte count |
| Ac3Config.EncodeInit | TinyMediaPlayer/ffmpeg/libavcodec/ac3enc.c:629-690 | accepted if and only if channels are 1 to 6 and both rates are in the tables for one halving; the settings are then those of the tables |
| Ac3Config.FrameWordsIsQuotient | TinyMediaPlayer/ffmpeg/libavcodec/ac3tab.c:33-72 | a table entry is the whole words of 1536 samples, exact but for 44100 Hz, and odd codes have one more there |
| Ac3Rate.FrameSizer.NextFrame | TinyMediaPlayer/ffmpeg/libavcodec/ac3enc.c:1244-1251 | a frame is one of two lengths, the longer never outside the 44100 Hz family, and the bits so far are less than 16 from their due at every rate but one, where they are less than 20 ahead |
| Ac3Rate.FrameSizer.Renormalise | TinyMediaPlayer/ffmpeg/libavcodec/ac3enc.c:1245-1248 | the loop takes whole seconds off both counters |
| Ac3Rate.RenormalisedKeeps | TinyMediaPlayer/ffmpeg/libavcodec/ac3enc.c:1245-1248 | renormalising keeps the lead of bits over samples |
| Ac3Rate.RateHolds | TinyMediaPlayer/ffmpeg/libavcodec/ac3enc.c:1244-1251 | over integers, after any number of frames, the bits written are less than 16 away from their due |
| Ac3Rate.ExactRun | TinyMediaPlayer/ffmpeg/libavcodec/ac3enc.c:1244-1251 | where frames are whole words the lead stays zero and no word is added, in integers and in 32 bits |
| Ac3Rate.FittingProductsAgree | TinyMediaPlayer/ffmpeg/libavcodec/ac3enc.c:1249 | products of rates up to 2^32 compare alike in 32 bits and in integers |
| Ac3Rate.WrapIsHarmlessIff | TinyMediaPlayer/ffmpeg/libavcodec/ac3enc.c:1244-1251 | for every accepted configuration 32-bit products give the run that integers give, if and only if it is not 256 kbit/s at 44100 Hz |
| Ac3Rate.OddRateMissteps | TinyMediaPlayer/ffmpeg/libavcodec/ac3enc.c:1249 | at 256 kbit/s and 44100 Hz frame 1791, and each 3675th after it, gets a word that integers would not give, and the stream is then 19 bits ahead |
| Ac3Rate.OddRateHolds | TinyMediaPlayer/ffmpeg/libavcodec/ac3enc.c:1244-1251 | over a whole run at that rate the counters differ from those in integers exactly after frames 1791 and 1792 of each 3675; the bits written are never 20 ahead of their due nor 16 behind |
| Ac3Rate.StraddlesIff | TinyMediaPlayer/ffmpeg/libavcodec/ac3enc.c:1244-1251 | the one state whose products compare differently in 32 bits comes back exactly once in 3675 frames |
| Ac3Rate.FamilyAgrees | TinyMediaPlayer/ffmpeg/libavcodec/ac3enc.c:1249 | in every other state of every rate of the 44100 Hz family the products compare alike |
| Ac3Rate.CountersFit | TinyMediaPlayer/ffmpeg/libavcodec/ac3enc.c:1244-1251 | on time, the counters themselves stay far below 2^32 |
| FrameParser.Parser.Parse | TinyMediaPlayer/ffmpeg/libavcodec/aac_ac3_parser.c:27-92 | each call takes bytes up to the end of a frame or all of them, gives at most one frame, and stays in step with a scan of all bytes taken |
| FrameParser.ParseAll | TinyMediaPlayer/ffmpeg/libavcodec/aac_ac3_parser.c:27-92 | however a stream is cut into calls, the frames given and the one that waits are those a one-shot scan finds; they are all of them if and only if the last byte does not complete a header that is a whole frame; every byte is in a frame, skipped or held |
| FrameParser.CutFrames | TinyMediaPlayer/ffmpeg/libavcodec/aac_ac3_parser.c:27-92 | for any header syntax, a stream of frames that announce their length and are longer than their headers comes out as those frames, whatever other headers would say and whatever bytes stand before the first, unless a header be among them |
| FrameParser.JunkIsSkipped | TinyMediaPlayer/ffmpeg/libavcodec/aac_ac3_parser.c:51-59 | bytes at none of which a header stands are passed over one by one and hide no frame behind them |
| FrameParser.AllButOneByte | TinyMediaPlayer/ffmpeg/libavcodec/aac_ac3_parser.c:74-89 | one byte short, a stream of frames ends in its last frame |
| FrameParser.HeaderAlone | TinyMediaPlayer/ffmpeg/libavcodec/aac_ac3_parser.c:49-82 | of a stream that is one header and a whole frame, the scan has the frame and the parser waits |
| FrameParser.MetOnTheWay | TinyMediaPlayer/ffmpeg/libavcodec/aac_ac3_parser.c:27-92 | the sizes met in a part of a stream from its start are among those met in all of it |
| FrameParser.ScanGoesOn | TinyMediaPlayer/ffmpeg/libavcodec/aac_ac3_parser.c:27-92 | more bytes change nothing that was found |
| FrameParser.ScanAccounts | TinyMediaPlayer/ffmpeg/libavcodec/aac_ac3_parser.c:27-92 | bytes scanned are those in frames and those skipped |
| FrameParser.HeaderGrows | TinyMediaPlayer/ffmpeg/libavcodec/aac_ac3_parser.c:43-73 | completing a header starts a frame, or drops one byte, just as the scan does |
| FrameParser.FrameGrows | TinyMediaPlayer/ffmpeg/libavcodec/aac_ac3_parser.c:74-89 | completing a frame gives it |
| FrameParser.ScanFindsFrames | TinyMediaPlayer/ffmpeg/libavcodec/aac_ac3_parser.c:27-92 | a stream of frames that announce their length is cut into just these |
| Ac3Sync.SyncSizes | TinyMediaPlayer/ffmpeg/libavcodec/ac3_parser.c:87-144 | sizes are even and at most 4096, so no frame is as long as a header |
| Ac3Sync.SyncContractIff | TinyMediaPlayer/ffmpeg/libavcodec/ac3_parser.c:87-144 | ac3_sync keeps the parser's demand if and only if the bytes are not an enhanced header for three words or fewer |
| Ac3Sync.TooShortHeader | TinyMediaPlayer/ffmpeg/libavcodec/ac3_parser.c:107-141 | seven bytes that announce a frame of two |
| Ac3Sync.HeaderInSevenBytes | TinyMediaPlayer/ffmpeg/libavcodec/ac3_parser.c:37-104 | seven bytes say all that a header says |
| Ac3Sync.FrameIsAnnounced | TinyMediaPlayer/ffmpeg/libavcodec/ac3enc.c:717-744 | a frame with the encoder's header announces its own length |
| Ac3Sync.CutStream | TinyMediaPlayer/ffmpeg/libavcodec/aac_ac3_parser.c:27-92 | with ac3_sync as it is, a stream of encoder frames, in whatever pieces, comes out as those frames, whatever bytes without a header stand before them |
| AacSync.SyncContractIff | TinyMediaPlayer/ffmpeg/libavcodec/aac_parser.c:41-79 | aac_sync keeps the parser's demand if and only if the bytes are not an accepted header for one to six bytes |
| AacSync.BareHeader | TinyMediaPlayer/ffmpeg/libavcodec/aac_parser.c:41-79 | seven bytes that announce a frame of seven |
| AacSync.BareHeaderWaits | TinyMediaPlayer/ffmpeg/libavcodec/aac_ac3_parser.c:49-82 | handed over as a whole stream they are a frame that a scan finds and that waits |
| AacSync.BareStream | TinyMediaPlayer/ffmpeg/libavcodec/aac_ac3_parser.c:27-92 | the parser gives nothing for them |
| AdtsMux.WriteFrameHeader | TinyMediaPlayer/ffmpeg/libavformat/adtsenc.c:61-92 | seven bytes with the fields of an ADTS header for a packet, where each value fits its field as put_bits asserts |
| AdtsMux.HeaderIsReadIff | TinyMediaPlayer/ffmpeg/libavcodec/aac_parser.c:41-79 | aac_sync takes such a header if and only if rate and channels are in its tables, and then says the length of header and packet, the rate, the channels and 1024 samples |
| AdtsMux.WritePackets | TinyMediaPlayer/ffmpeg/libavformat/adtsenc.c:99-112 | the stream is header and packet for each packet that is not empty, in order |
| AdtsMux.CutPackets | TinyMediaPlayer/ffmpeg/libavcodec/aac_ac3_parser.c:27-92 | however that stream is cut up, the parser gives back header and packet of each |
| Adpcm.ImaFormulasAgree | TinyMediaPlayer/ffmpeg/libavcodec/adpcm.c:207-215 | encoder and decoder of IMA compute the same next sample by different formulas |
| AdpcmBlocks.ImaErrorBound | TinyMediaPlayer/ffmpeg/libavcodec/adpcm.c:207-215 | an unsaturated IMA sample is reconstructed within an eighth of the step and one |
| AdpcmBlocks.ScaledIsNearest | TinyMediaPlayer/ffmpeg/libavcodec/adpcm.c:207-261 | no other nibble of IMA and Yamaha is nearer to the difference by more than one, and one within reach is met within an eighth of the step and one |
| AdpcmBlocks.YamahaErrorBound | TinyMediaPlayer/ffmpeg/libavcodec/adpcm.c:242-261 | the same of the reconstructed Yamaha sample, saturation and all |
| AdpcmBlocks.MsNibbleIsNearest | TinyMediaPlayer/ffmpeg/libavcodec/adpcm.c:223-230 | no other nibble of MS is nearer to the difference, and it is met within half a step if and only if the difference is within half a step of what nibbles can say |
| AdpcmBlocks.MsErrorBound | TinyMediaPlayer/ffmpeg/libavcodec/adpcm.c:217-240 | so a sample within reach is reconstructed within half a step, saturation and all |
| AdpcmBlocks.MsDeltaBounded | TinyMediaPlayer/ffmpeg/libavcodec/adpcm.c:217-240 | with the greedy encoder's predictor the MS step stays within 16 and 26214, so its header field is lossless |
| AdpcmBlocks.ImaCompressSample | TinyMediaPlayer/ffmpeg/libavcodec/adpcm.c:207-215 | the nibble chosen and the state after it |
| AdpcmBlocks.ImaExpandNibble | TinyMediaPlayer/ffmpeg/libavcodec/adpcm.c:651-677 | the sample and state a nibble gives |
| AdpcmBlocks.MsCompressSample | TinyMediaPlayer/ffmpeg/libavcodec/adpcm.c:217-240 | the nibble chosen and the state after it |
| AdpcmBlocks.MsExpandNibble | TinyMediaPlayer/ffmpeg/libavcodec/adpcm.c:679-693 | the sample and state a nibble gives |
| AdpcmBlocks.YamahaCompressSample | TinyMediaPlayer/ffmpeg/libavcodec/adpcm.c:242-261 | the nibble chosen and the state after it |
| AdpcmBlocks.YamahaExpandNibble | TinyMediaPlayer/ffmpeg/libavcodec/adpcm.c:754-766 | the sample and state a nibble gives |
| AdpcmBlocks.YamahaLockstep | TinyMediaPlayer/ffmpeg/libavcodec/adpcm.c:589-613 | mono: decoding a greedy block gives the encoder's own reconstructions and leaves both in one state |
| AdpcmBlocks.EncodeYamahaStereo | TinyMediaPlayer/ffmpeg/libavcodec/adpcm.c:589-613 | stereo: each byte holds two samples of one channel |
| AdpcmBlocks.YamahaStereoIff | TinyMediaPlayer/ffmpeg/libavcodec/adpcm.c:1326-1343 | reading what the encoder packed, a decoder that splits each byte between the channels gets a channel's own nibbles if and only if every left nibble in second place equals the right one in first place |
| AdpcmBlocks.YamahaStereoGreedy | TinyMediaPlayer/ffmpeg/libavcodec/adpcm.c:603-613 | decoding a greedy stereo block gives the encoder's reconstructions if those nibbles are equal, and, where the reconstructions of one channel lie inside the 16-bit range, only if |
| AdpcmBlocks.YamahaStereoFails | TinyMediaPlayer/ffmpeg/libavcodec/adpcm.c:589-613 | silence on the right and a step on the left do not come out as the encoder reconstructs them |
| AdpcmBlocks.MsMonoLockstep | TinyMediaPlayer/ffmpeg/libavcodec/adpcm.c:542-587 | two samples verbatim, then the encoder's reconstructions; the step stays within its 16-bit field |
| AdpcmBlocks.MsStereoLockstep | TinyMediaPlayer/ffmpeg/libavcodec/adpcm.c:998-1037 | the same for two channels in turn |
| AdpcmBlocks.ImaMonoLockstep | TinyMediaPlayer/ffmpeg/libavcodec/adpcm.c:450-512 | decoding a block gives the encoder's reconstructions of all but the sample in the header |
| AdpcmBlocks.ImaStereoLockstep | TinyMediaPlayer/ffmpeg/libavcodec/adpcm.c:940-966 | the same for four bytes of each channel in turn |
| AdpcmBlocks.EncodeImaStereo | TinyMediaPlayer/ffmpeg/libavcodec/adpcm.c:450-512 | a stereo block is both headers and groups of four bytes; the left header says the first sample, the right one samples[2], which is its own first sample if and only if the two are equal |
| AdpcmBlocks.RightHeaderIff | TinyMediaPlayer/ffmpeg/libavcodec/adpcm.c:455-458 | what a decoder reads from the two headers |
| AdpcmBlocks.RightHeaderFails | TinyMediaPlayer/ffmpeg/libavcodec/adpcm.c:455-458 | 18 samples whose right header is not the right channel's first sample |
| AdpcmTrellis.CompressTrellis | TinyMediaPlayer/ffmpeg/libavcodec/adpcm.c:276-432 | the nibbles written are ones the search tries for their samples, and decoded from the state the channel was in they lead exactly to the state it is left in; the search's way to them is a ladder with a step for each sample, no nibble after the best node of one step giving less error than the best of the next, and it ends in the squared error of what is written |
| AdpcmTrellis.FillNext | TinyMediaPlayer/ffmpeg/libavcodec/adpcm.c:315-391 | the next frontier is sorted by error, its samples and path slots are distinct, each node comes from one of the last by one nibble, and each nibble to be tried from each of the last is there with its sample and no more error, or the frontier is full of nodes no heavier |
| AdpcmTrellis.Frontier.Offer | TinyMediaPlayer/ffmpeg/libavcodec/adpcm.c:333-369 | a candidate is dropped, or takes its place in order with a path slot of its own |
| AdpcmTrellis.OfferCovers | TinyMediaPlayer/ffmpeg/libavcodec/adpcm.c:333-369 | after it is offered a candidate is covered, by its sample with no more error or by a full frontier of nodes no heavier, and what was covered stays so |
| AdpcmTrellis.NearestIsDue | TinyMediaPlayer/ffmpeg/libavcodec/adpcm.c:319-391 | for each of the sixteen nibbles one of those to be tried decodes at least as near to the sample |
| AdpcmTrellis.BestIsNoWorse | TinyMediaPlayer/ffmpeg/libavcodec/adpcm.c:315-391 | the best of the next frontier is no worse than any of the sixteen nibbles after the best node before |
| AdpcmTrellis.SingleIsNearest | TinyMediaPlayer/ffmpeg/libavcodec/adpcm.c:276-432 | of a single sample no nibble is nearer than the one written |
| AdpcmTrellis.RepeatIsNoBetter | TinyMediaPlayer/ffmpeg/libavcodec/adpcm.c:341-349 | the source's assert: a candidate that repeats a sample is never lighter |
| AdpcmTrellis.StepKeepsSound | TinyMediaPlayer/ffmpeg/libavcodec/adpcm.c:315-402 | each live node's path, replayed from the frozen state, gives its sample, step and error up to a common offset, and each of its nibbles was tried for its sample |
| AdpcmTrellis.PreventOverflow | TinyMediaPlayer/ffmpeg/libavcodec/adpcm.c:397-402 | lowering all errors by the least keeps their order and is the common offset |
| AdpcmTrellis.TraceBack | TinyMediaPlayer/ffmpeg/libavcodec/adpcm.c:405-410 | the nibbles on a path, written backwards into their places |
| AdpcmTrellis.FreezeAt | TinyMediaPlayer/ffmpeg/libavcodec/adpcm.c:404-417 | at a freeze the best path becomes output and its end the new start |
| AdpcmTrellis.RoomForPaths | TinyMediaPlayer/ffmpeg/libavcodec/adpcm.c:353-357 | between freezes path slots never run out |
| AdpcmTrellisBlocks.GreedyIsDue | TinyMediaPlayer/ffmpeg/libavcodec/adpcm.c:319-391 | what the greedy encoder chooses is among the nibbles to be tried |
| AdpcmTrellisBlocks.ImaMono | TinyMediaPlayer/ffmpeg/libavcodec/adpcm.c:450-491 | a searched mono block decodes to the reconstructions of its nibbles, each around the exact quotient for its sample, and leaves the decoder where the encoder is |
| AdpcmTrellisBlocks.ImaStereoBlock | TinyMediaPlayer/ffmpeg/libavcodec/adpcm.c:450-491 | the same for four bytes of each channel in turn |
| AdpcmTrellisBlocks.MsMono | TinyMediaPlayer/ffmpeg/libavcodec/adpcm.c:542-579 | two samples verbatim, then the reconstructions of the searched nibbles; the step stays within its 16-bit field |
| AdpcmTrellisBlocks.MsStereo | TinyMediaPlayer/ffmpeg/libavcodec/adpcm.c:542-579 | the same for two channels |
| AdpcmTrellisBlocks.YamahaMono | TinyMediaPlayer/ffmpeg/libavcodec/adpcm.c:589-597 | a searched mono block decodes in step, from block to block |
| AdpcmTrellisBlocks.YamahaStereo | TinyMediaPlayer/ffmpeg/libavcodec/adpcm.c:589-602 | a searched stereo block, packed a nibble of each channel to a byte, decodes in step |
| AdpcmTrellisBlocks.TriedStaysBounded | TinyMediaPlayer/ffmpeg/libavcodec/adpcm.c:315-371 | whatever tried nibbles a path has, the MS step stays at most 28086 |
| AdpcmTrellisBlocks.SameFromHeader | TinyMediaPlayer/ffmpeg/libavcodec/adpcm.c:276-303 | the second sample that the search carries for IMA and Yamaha reaches neither the decoded samples nor what is tried |
| FourXmHuffman.ReadHuffmanTables | TinyMediaPlayer/ffmpeg/libavcodec/4xm.c:474-549 | from the bytes: the codes are those of the trees for the listed frequencies; none is over 22 bits; they are a prefix code if and only if some byte value is unused, with Kraft sum one or two; the rest begins at the next word |
| FourXmHuffman.CodeLengthAtMost22 | TinyMediaPlayer/ffmpeg/libavcodec/4xm.c:529-542 | no frequency table gives a code over 22 bits: the source's question has the answer no |
| FourXmHuffman.BuildConservesWeight | TinyMediaPlayer/ffmpeg/libavcodec/4xm.c:504-527 | merging keeps the total frequency |
| FourXmHuffman.BuildKeepsFibHeavy | TinyMediaPlayer/ffmpeg/libavcodec/4xm.c:504-527 | a node of a height weighs at least a Fibonacci number |
| FourXmHuffman.MergeLoop | TinyMediaPlayer/ffmpeg/libavcodec/4xm.c:504-527 | the loop on frequencies, flags and parents builds the tree of two-least merges |
| FourXmHuffman.FindTwoLeast | TinyMediaPlayer/ffmpeg/libavcodec/4xm.c:505-519 | the two least live frequencies, or that there are not two |
| FourXmHuffman.TreesLeft | TinyMediaPlayer/ffmpeg/libavcodec/4xm.c:504-527 | one tree is left if at most 256 of the 257 symbols are live, two if all are |
| FourXmHuffman.PrefixFreeIff | TinyMediaPlayer/ffmpeg/libavcodec/4xm.c:529-542 | the codes are prefix-free if and only if some byte is unused |
| FourXmHuffman.TwoTreesClash | TinyMediaPlayer/ffmpeg/libavcodec/4xm.c:504-542 | with all symbols live two trees remain and some two codes clash |
| FourXmHuffman.KraftSum | TinyMediaPlayer/ffmpeg/libavcodec/4xm.c:529-548 | the Kraft sum of the live codes |
| FourXmHuffman.ReadFrequencies | TinyMediaPlayer/ffmpeg/libavcodec/4xm.c:486-502 | each symbol has the value listed for it last in the ranges that the bytes hold, and the end symbol 1; it fails exactly when the data end before the ranges do; the place after is four bytes aligned |
| FourXmHuffman.RangesRoundTrip | TinyMediaPlayer/ffmpeg/libavcodec/4xm.c:487-499 | ranges written as bytes and a zero are read back as those ranges, whatever follows |
| FourXmBlocks.TablesAreComplete | TinyMediaPlayer/ffmpeg/libavcodec/4xm.c:39-49 | the words of each block type table have Kraft sum one |
| FourXmBlocks.OneSymbolMatches | TinyMediaPlayer/ffmpeg/libavcodec/4xm.c:39-49 | whatever the bits, just one symbol's word is next |
| FourXmBlocks.SplitSizes | TinyMediaPlayer/ffmpeg/libavcodec/4xm.c:39-56 | a split leads only to sizes with a table, never to a single pixel, and two plain words come only where there are two pixels |
| FourXmBlocks.ReadTreeOk | TinyMediaPlayer/ffmpeg/libavcodec/4xm.c:283-315 | whatever the bits, the tree of splits is sound |
| FourXmBlocks.LeavesPartition | TinyMediaPlayer/ffmpeg/libavcodec/4xm.c:283-315 | each pixel of a block is in one leaf and no pixel outside is in any |
| FourXmBlocks.Context.DecodePBlock | TinyMediaPlayer/ffmpeg/libavcodec/4xm.c:283-315 | each pixel is made by its leaf from the operands after those of the leaves before, code 3 leaves it, and the cursors advance by what the codes take |
| FourXmBlocks.Context.DecodePFrame | TinyMediaPlayer/ffmpeg/libavcodec/4xm.c:351-357 | the loops decode blocks that hold each pixel once, each block's operands following those of the last |
| FourXmMotion.PackedAdd | TinyMediaPlayer/ffmpeg/libavcodec/4xm.c:239-275 | adding a pixel to both halves of a word adds it to two pixels, carrying from the first into the second |
| FourXmMotion.ShiftMoves | TinyMediaPlayer/ffmpeg/libavcodec/4xm.c:231-237 | an entry of the motion table moves a pixel by its vector's columns and rows |
| FourXmMotion.AddsPixelIff | TinyMediaPlayer/ffmpeg/libavcodec/4xm.c:239-275 | pixels are added modulo 2^16, exactly unless the first of two overflows into the second |
| FourXmBlocks.Context.Compensate | TinyMediaPlayer/ffmpeg/libavcodec/4xm.c:239-275 | single pixels or pairs, row by row: each pixel of the rectangle and no other |
| FourXmBlocks.LeafMeans | TinyMediaPlayer/ffmpeg/libavcodec/4xm.c:290-314 | code 0 copies the displaced pixel, 3 leaves the pixel, 4 adds a word to the displaced one but for the carry, 5 fills whatever the motion, 6 sets two pixels in turn |
| FourXmBlocks.OperandsIff | TinyMediaPlayer/ffmpeg/libavcodec/4xm.c:283-315 | two frames make the same of a block over every last picture if and only if the words it takes are equal and the bytes it takes pick the same shifts |
| FourXmBlocks.FramePartition | TinyMediaPlayer/ffmpeg/libavcodec/4xm.c:351-357 | each pixel of a frame is in as many leaves as blocks: one |
| FourXmBlocks.MadeByItsBlock | TinyMediaPlayer/ffmpeg/libavcodec/4xm.c:351-357 | the block a pixel is in makes it; no other changes it |
| PacketQueue.Queue.Put | TinyMediaPlayer/ffmpeg/ffplay.c:264-294 | the list gains the packet at its end and the counts agree; without memory nothing changes |
| PacketQueue.Queue.Get | TinyMediaPlayer/ffmpeg/ffplay.c:308-341 | aborted, nothing there, or the first packet off the list with the counts agreeing |
| PacketQueue.Queue.Flush | TinyMediaPlayer/ffmpeg/ffplay.c:240-255 | the list is empty and the counts are zero |
| PacketQueue.Queue.Abort | TinyMediaPlayer/ffmpeg/ffplay.c:296-305 | the request is set, the list as it was |
| SeekBarrier.SeekBarrierHolds | TinyMediaPlayer/ffmpeg/ffplay.c:2015-2046 | in every interleaving each decoder gets packets in the order read, none twice, and between any from before a successful seek and any from after it the flush mark, unless a mark was lost |
| SeekDelivery.DeliveryComplete | TinyMediaPlayer/ffmpeg/ffplay.c:2030-2077 | in every run and at every moment, what the decoder of an open queue got since the queue's last flush, followed by what is in the queue, is all that was read for it and put with memory since then, in order |
| SeekDelivery.ReaderFollows | TinyMediaPlayer/ffmpeg/ffplay.c:2030-2077 | the packet in hand and the seek's next operation are what the events before say |
| SeekDelivery.ClosedStaysEmpty | TinyMediaPlayer/ffmpeg/ffplay.c:2065-2075 | a queue whose stream is not open is never put anything |
| SeekDelivery.PutRead | TinyMediaPlayer/ffmpeg/ffplay.c:264-294 | on the linked list: what putting the packet in hand leaves in the queue |
| SeekBarrier.StepKeeps | TinyMediaPlayer/ffmpeg/ffplay.c:1985-2090 | every step of the reading thread, a decoder or an abort keeps the invariant |
| SeekBarrier.LostMarkBreaks | TinyMediaPlayer/ffmpeg/ffplay.c:264-274 | a run in which the mark finds no memory and a decoder gets packets of both sides with nothing between |
| SeekBarrier.BreaksIff | TinyMediaPlayer/ffmpeg/ffplay.c:2015-2090 | of all steps only a packet put in an open queue breaks the order of what goes through it, and exactly when a packet from before the last seek has no mark after it |
| SeekBarrier.DecoderBrokenIff | TinyMediaPlayer/ffmpeg/ffplay.c:2015-2046 | in every run a decoder has packets of both sides of a seek with no mark between if and only if at some step the mark for its open queue found no memory, the decoder having got a packet last, and at a later step it got a packet, no mark having been got between |
| SeekBarrier.OpenIsExposed | TinyMediaPlayer/ffmpeg/ffplay.c:264-274 | a queue in which a packet from before the last seek has no mark after it has lost one, and its decoder has got none since |
| SeekBarrier.LossBreaks | TinyMediaPlayer/ffmpeg/ffplay.c:264-274 | after a lost mark the next packet got breaks the order |
| SeekBarrier.SeekQueue | TinyMediaPlayer/ffmpeg/ffplay.c:2031-2043 | on the linked list: what the two operations of a seek leave in the queue |
| SeekBarrier.DecodeNext | TinyMediaPlayer/ffmpeg/ffplay.c:1358-1368 | a decoder gets the first packet and knows the mark |
| SubpictureRing.RingIsSafe | TinyMediaPlayer/ffmpeg/ffplay.c:1069-1108 | in every interleaving the slot being filled is none the refresh side may read or free, subpictures leave in order and unaltered, and the indices and size agree when neither side is mid-update |
| SubpictureRing.StepKeeps | TinyMediaPlayer/ffmpeg/ffplay.c:1423-1467 | every step of either thread keeps the invariant |
| SubpictureRing.VideoState.AdvanceWriteIndex | TinyMediaPlayer/ffmpeg/ffplay.c:1461-1466 | publishing a subpicture moves the write index, not yet the size |
| SubpictureRing.VideoState.PeekOldest | TinyMediaPlayer/ffmpeg/ffplay.c:1086-1087 | the first look at the size: the slot at the read index holds the oldest subpicture, if there is one |
| SubpictureRing.VideoState.PeekSecond | TinyMediaPlayer/ffmpeg/ffplay.c:1089-1092 | the second look, the writer having gone on perhaps: the next slot holds the next subpicture, if the size now says so |
| SubpictureRing.VideoState.Drain | TinyMediaPlayer/ffmpeg/ffplay.c:1069-1084 | after a change of stream all counted subpictures leave in order |

## Left out

- Ac3Encoder.EncodeFrame: stops when the search finds no room, where the source goes on to write a frame too long for its size and relies on an assert.
- Ac3Rate.FrameSizer.NextFrame: products are taken modulo 2^32 and the counters themselves are not; `Ac3Rate.CountersFit` shows that they stay small in every run on time.
- Ac3Bands.CalcMask: starts at bin 0; the coupling channel's start and delta bit allocation, which the encoder does not use, are not modelled.
- Ac3Block.OutputAudioBlock: rows of coefficients, exponents and baps are read as values; qmant is an array and is patched through pointers.
- Ac3BitAlloc.BitAlloc: the bap arrays that the source copies whole from one to the other are values.
- AdpcmTrellis.CompressTrellis: errors are unbounded integers; a sum that wraps in 32 bits between two lowerings is not modelled.
- AdpcmTrellis.FillNext: nodes are slots of two buffers, pointers are indices.
- FrameParser.ParseAll: sizes that break its demand, where the source copies a negative number of bytes or more than its buffer holds.
- AacSync.SyncInfo: the bit rate's product is not taken modulo 2^32; nothing here uses the bit rate.
- FourXmHuffman.ReadFrequencies: gives up at the end of the data, where the source reads on.
- FourXmBlocks.Context.DecodePBlock: pixels of the last picture are whatever is at their address, also outside the picture, and so are operands after the end of the streams; vectors are a parameter; pairs are those of a little-endian machine.
- FourXmBlocks.Context.DecodePFrame: the checks of the three stream lengths before the loops.
- SeekBarrier.SeekBarrierHolds: streams are not closed and opened again during a run; waiting on the condition variable is the absence of a step.
- SubpictureRing.RingIsSafe: pictures are numbers; decoding into a slot is any number of writes.
- Ac3Coefficients.EncodeCoefficients: stops with -2 where the source goes on to shift by a negative count, which C leaves undefined; exponents and coefficients are rows of values; `Ac3Coefficients.ComputeExponents` works on one block's arrays.
- Ac3Decoder.DecodeFrame: gives nothing for what the encoder never sends (dual mono, coupling, dynamic range, delta bit allocation, bytes to skip), and mantissas as codes.
- AdtsMux.WritePackets: for a stream with extradata; without it packets are written as they are.
- AdpcmTrellisBlocks.YamahaStereo: blocks of no samples at all, which the encoder never makes, are left out for all stereo codecs.
- Library calls are contracts: put_bits and get_bits as bit strings, av_crc as a polynomial remainder, get_vlc2 as the symbol whose word is next, memory as a condition.
- Windowing, the transform and the exponents computed from it in the AC-3 encoder, and `idct` of 4XM: numerical approximation.
- The SWF, EA, THP, XA, CT, SBPRO and other ADPCM variants: decode only, or not matched to their encoder.
- `adx.c`, `8bps.c`, `aasc.c`: bounds facts at most.
- ffplay's clocks, overlays, audio resynchronisation and window handling; `TinyMediaPlayer/main.c`, a copy of ffplay without the locks.
- `ffserver.c`, `ffmpeg.c`, `cmdutils.c`, the tools, drivers and examples: sockets, files, options and hardware.
