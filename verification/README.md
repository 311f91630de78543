# Models and proofs for the MP3 encoder, the tokenizer, constrained decoding and the model store

This project states, in Dafny, what the bit-exact parts of the program promise, and proves it. It has four parts.

**MP3 encoder** (`mp3/`, and the parallel driver in `src/audio-io.h`). Everything from quantized integers to bytes is
concrete: the bit writer, the literal Huffman tables, region splits and table selection, the gain search, the
scalefactor loop, header and side information, the bit reservoir with its delayed output, padding, PCM buffering and
the joining of independently encoded ranges. Filterbank, psychoacoustics and the float quantizer are arbitrary
functions. The partner of all of it is a ghost decoder: `Decoder.DecodeStream` reads a byte stream from its first
header on, and the main results say that it recovers what was encoded.

- `Bits`, `PrefixCode`, `HuffTables`, `HuffTrees`, `Huff`: bit writer and Huffman coding. Every table the encoder can
  select, the four with 256 entries included, is proved to be a complete prefix code from its literal entries.
- `Spectrum`, `Count`, `CountChoice`, `Granules`, `Quant`, `QuantChoice`, `QuantRuns`: one granule, from counting bits to
  writing them, and why the layout and the state chosen are the best.
- `Frames`, `Budget`, `Reservoir`, `Decoder`, `Encoder`: one frame and whole runs of frames.
- `Pcm`, `Parallel`: from samples to frames, and many encoders side by side.

**Tokenizer and constrained decoder** (`src/bpe.h`, `src/metadata-fsm.h`, `src/genre-vocab.h`): `Utf8`, `Chunks`,
`ChunkForms`, `ByteEncoder`, `Bpe` prove tokenization lossless and the chunks those of the documented pattern; `Genre`,
`GenreTokens` prove the sorted and first-byte indexes equal to brute force; `Fsm`, `Runs`, `Captions`, `Grammar`,
`Listings` prove that the runs of the masking state machine are exactly the sentences of a grammar.

**Model store** (`src/model-store.cpp` and the pipelines that use it): `ModelStore`, `Pipelines`.

**Companions**: `Philox` (the generator is a permutation), `Adapter` (functional DoRA against merged weights), `Lokr` (the
Kronecker product by reshapes), `Strings`, `Yaml`, `YamlRoundTrip` (the metadata printer and parser).

## What is assumed

- `Encoder.Accepts`: the flat quantizer at gain 255 fits a fifth of an unpadded frame's main-data area. Without it the
  gain search falls back to gain 210 with no guarantee (`mp3/mp3enc-quant.h:357`).
- `Encoder.Supported`: one or two channels, one of the three MPEG-1 rates, a bitrate of the standard table. Any other
  bitrate is written as index 0, free format, which the decoder here does not read
  (`mp3/mp3enc-bits.h:59-69`).
- `Reservoir.Snug`, for decoding the stream only: no frame meets a pending tail longer than 511 bytes and puts anything
  but zeros into it. See below.
- `Bpe.Tokenizable`: the pre-tokenizer terminates and no code point is cut off by the end; valid UTF-8 has this.
- `Bpe.Lossless`: the vocabulary holds every byte's character, is closed under merges and is inverted by the id table.

## Where the code differs from what it promises

- **Long tails.** Main data that goes into the pending frame is written right behind what is there
  (`mp3/mp3enc.h:483`), but `main_data_begin` is cut at 511 (`mp3/mp3enc.h:252-256`). When the tail is longer, the decoder
  reads from the wrong place. `Reservoir.LongTailLosesData` is a concrete run at 192 kbit/s; `Reservoir.RunFound` gives
  the exact condition for every frame of every run. Areas of at most 511 bytes are always safe.
- **Scalefactors above 7 in the high half.** The width tables offer at most three bits there, so
  `mp3enc_best_scalefac_compress` finds nothing and returns 0: no scalefactors are sent and the spectrum is quantized
  flat (`Granules.BestCompress` for the condition, `QuantRuns.HighScalefactorReached` for a run that gets there).
- **Preflag without scalefactors.** In that case the preflag may still be set, and a decoder applies it although the
  encoder did not (`Quant.DecoderAgrees` for the condition, `QuantRuns.PreflagReached` for a run that gets there).
- **Overlong UTF-8.** At an overlong newline or digit the pre-tokenizer's inner loops, which look at bytes, do not
  advance while the outer test, which looks at code points, keeps choosing them (`Chunks.EndlessNewline`).
  `Chunks.TerminatesExactly` says on which texts it terminates. Valid UTF-8 has no overlong forms.
- **Captions that never end.** A caption line that starts with a word and a colon, such as "Note: ...", is taken for a
  field name; if it is none, no later token can end the caption (`Captions.NoteIsLost`, `Captions.LostForever`, and
  `Captions.OtherNameTyped` for the exact condition).
- **Captions without an end in the text.** The parser ends a caption only at a duration or a keyscale. A block with a
  caption and a language, but neither of those, reads the language line into the caption (`YamlRoundTrip.CaptionRead`).
- **Repeated tokens.** The id table has one slot per different token, so with repeated tokens some ids have no text
  (`Bpe.Load`).

## Model

| member | source | states |
|---|---|---|
| `Bits.Bitstream.Put` | mp3/mp3enc-bits.h:26-35 | after writing the low n bits of a value the stream holds exactly the old bits followed by those n bits, most significant first |
| `Bits.Bitstream.PutBit` | mp3/mp3enc-bits.h:26-35 | one bit appended, all bits beyond it still zero |
| `PrefixCode.EveryWordDecodes` | mp3/gen_huff_enc.c:21-56 | a table whose code words agree with a complete tree: walking the tree over any word followed by any bits finds that word's cell and stops right behind it |
| `HuffTrees.Tree13` | mp3/mp3enc-tables.h:338-372 | the 256 literal words of table 13 are the leaves of one complete decoding tree, none missing, none twice |
| `HuffTrees.Tree15` | mp3/mp3enc-tables.h:374-408 | the same for table 15 |
| `HuffTrees.Tree16` | mp3/mp3enc-tables.h:410-444 | the same for table 16, shared by tables 16 to 23 |
| `HuffTrees.Tree24` | mp3/mp3enc-tables.h:446-480 | the same for table 24, shared by tables 24 to 31 |
| `HuffTrees.Tree7` | mp3/mp3enc-tables.h:230-244 | the same for the 36 words of table 7 |
| `HuffTrees.Tree32` | mp3/mp3enc-tables.h:482-483 | the same for the sixteen words of count1 table A |
| `HuffTrees.Tree33` | mp3/mp3enc-tables.h:484-485 | the same for the sixteen words of count1 table B |
| `Huff.WordDecodes` | mp3/gen_huff_enc.c:58-90 | every word of every usable table, fed to that table's tree, gives back its pair whatever follows |
| `Huff.PairRoundTrip` | mp3/mp3enc-huff.h:142-245 | a pair with escapes and signs is read back from its bits, and the reader stops exactly behind them, for every pair the table can code |
| `Huff.PairSize` | mp3/mp3enc-huff.h:39-140 | the size counted without writing is the length of what the writer emits |
| `Huff.WritePair` | mp3/mp3enc-huff.h:142-245 | the writer appends exactly the specified bits of a pair |
| `Spectrum.QuadsRoundTrip` | mp3/mp3enc-huff.h:248-275 | the count1 quads are read back until the bits end, signs included |
| `Spectrum.SpectrumSize` | mp3/mp3enc-quant.h:222-256 | the counted size of a described spectrum is the length of its code |
| `Spectrum.SpectrumRoundTrip` | mp3/mp3enc.h:428-469 | for every 576-line spectrum a layout describes, a reader that knows only big_values, region counts, table selects, the count1 table and the number of bits gets the spectrum back, linbits, signs, count1 quads and trailing zeros included |
| `Count.RegionTableBest` | mp3/mp3enc-huff.h:278-357 | the chosen table can code every value of the region, and no table the search considers does it in fewer bits |
| `Count.BestSplitIsLeast` | mp3/mp3enc-quant.h:148-221 | no region split within the searched bounds is cheaper than the one chosen |
| `Count.CountDescribes` | mp3/mp3enc-quant.h:124-256 | the layout computed for any spectrum with magnitudes up to 8191 is right for it: every value is codable where it is coded and nothing is left out |
| `Count.CountBits` | mp3/mp3enc-quant.h:124-256 | the counting loops compute that layout, and the count is the exact size of the spectrum's code under it |
| `CountChoice.CandidatesAre` | mp3/mp3enc-huff.h:278-357 | which tables compete for a region: those without linbits that code its largest value and have the least reach; all tables with linbits where the value exceeds 15 |
| `CountChoice.RegionsMaximal` | mp3/mp3enc-quant.h:124-147 | no trailing zero pair is coded, and no quad of small values at the end is left to the big values |
| `CountChoice.Count1Cheaper` | mp3/mp3enc-quant.h:222-256 | the quads use whichever of the two count1 tables takes fewer bits |
| `CountChoice.LayoutLeast` | mp3/mp3enc-quant.h:124-256 | no layout with the same regions of big values, a split among those searched, tables among those competing and either count1 table codes the spectrum in fewer bits |
| `Granules.BestCompress` | mp3/mp3enc-quant.h:282-320 | the compress value found covers the largest scalefactor of each half at the least cost, and a covering one exists exactly when the maxima are at most 15 and 7 |
| `Granules.CostIsLength` | mp3/mp3enc-quant.h:262-320 | the cost that is compared is what the scalefactors of granule 0 take |
| `Granules.BestIsRepresentable` | mp3/mp3enc-quant.h:282-320 | whenever scalefactors are sent, they fit the widths of the compress value |
| `Granules.ScalefacRoundTrip` | mp3/mp3enc-bits.h:192-220 | the scalefactor groups are read back; those of width zero as zeros, those shared by scfsi from the previous granule |
| `Granules.ScalefacOrder` | mp3/mp3enc-bits.h:192-220 | granule 0 sends bands 0 to 10 and then 11 to 20, each half in its width; granule 1 leaves out bands 0-5, 6-10, 11-15 or 16-20 where their flag shares them (section 2.4.2.7 of ISO 11172-3) |
| `Granules.GranuleRoundTrip` | mp3/mp3enc.h:428-469 | scalefactors and spectrum of a granule are read back from exactly part2_3_length bits, whatever follows |
| `Granules.WriteGranule` | mp3/mp3enc.h:428-469 | the main-data writer emits exactly the bits the size was computed for, region ends recomputed from the side information |
| `Quant.Bisect` | mp3/mp3enc-quant.h:387-418 | any search result fits, its lower neighbour does not, and failure means that gain 255 does not fit; no monotonicity assumed |
| `Quant.InnerLoop` | mp3/mp3enc-quant.h:334-431 | on every search path the result fits whenever gain 255 does, and the gain below it was rejected unless it is 0 or ten below the hint; layout and size belong to the returned spectrum; otherwise the gain is 210 |
| `Quant.LeastAcceptable` | mp3/mp3enc-quant.h:334-431 | where fitting is monotone in the gain, a result that did not stop ten below the hint is the least fitting gain |
| `Quant.FitsMeans` | mp3/mp3enc-quant.h:344-356 | a gain is acceptable if and only if every level stays below 8191 and the code that would be written fits the bits |
| `Quant.Amplify` | mp3/mp3enc-quant.h:566-616 | the in-place steps of one outer iteration compute the specified next scalefactors |
| `Quant.AmplifyKeepsBoost` | mp3/mp3enc-quant.h:566-616 | moving scalefactors into the preflag or the doubled step never loses amplification; only the clamp at 15 can |
| `QuantChoice.AmplifiedBands` | mp3/mp3enc-quant.h:566-616 | band by band: each band over its threshold goes up one step, the preflag comes in when at least three high bands it would help have come to 2, the step doubles when a band exceeds 15, and what is left over 15 is cut |
| `Quant.OuterLoop` | mp3/mp3enc-quant.h:453-650 | gain, scalefactors, layout, size and spectrum of the restored best snapshot belong together, its part2_3_length stays within the budget whenever the flat quantizer fits at gain 255, and it is the state kept of a run that starts flat, advances by iterations and ends only when clean, refused or after 25 |
| `Quant.Iterate` | mp3/mp3enc-quant.h:566-641 | an iteration either gives a sound state within the budget, made from all noisy bands amplified, the cheapest compress value and a searched gain, or is refused because its scalefactors or its bits exceed the budget |
| `Quant.KeptIsBest` | mp3/mp3enc-quant.h:519-560 | no state judged after the kept one is better than it, and the kept one is clean when any judged state is |
| `QuantChoice.MildestKept` | mp3/mp3enc-quant.h:519-560 | said of the noise alone: among states none of which is clean, one whose worst excess is more than 0.5 dB below all others' is the one kept |
| `QuantChoice.NoneMilderLater` | mp3/mp3enc-quant.h:519-560 | no state judged after the kept one has a worst excess more than 0.5 dB below its |
| `QuantChoice.CloseCall` | mp3/mp3enc-quant.h:534-552 | at worst excesses within 0.5 dB the average excess decides with a slack of 0.3 dB, then the number of bands over their threshold |
| `QuantChoice.MildestReturned` | mp3/mp3enc-quant.h:453-650 | a run that never gets clean returns that mildest state |
| `QuantChoice.CleanReturned` | mp3/mp3enc-quant.h:562-565 | a run that judges a clean state returns it |
| `Quant.DecoderAgrees` | mp3/mp3enc-quant.h:420-427 | where the preflag makes a difference, what a decoder dequantizes with is what the encoder quantized with if and only if scalefactors are sent or the preflag is clear |
| `QuantRuns.PreflagReached` | mp3/mp3enc-quant.h:578-595 | the scalefactor loop can return a granule on the wrong side of that condition: five stubborn bands get their two steps absorbed by the preflag |
| `QuantRuns.HighScalefactorReached` | mp3/mp3enc-quant.h:282-320 | the scalefactor loop can return a granule in which a high band needs a scalefactor of 8; no compress value holds it, nothing is sent and the spectrum is quantized flat |
| `Frames.HeaderRoundTrip` | mp3/mp3enc-bits.h:58-102 | 32 bits from which every field of a header with table bitrate and rate is read back, protection included: a reader that honours it expects no CRC |
| `Frames.HeaderWord` | mp3/mp3enc-bits.h:88-102 | the 32 bits as a number: sync word, MPEG-1, layer III, no CRC, the variable fields in their places, not private, no copyright, original, no emphasis |
| `Frames.SideInfoRoundTrip` | mp3/mp3enc-bits.h:136-187 | 17 or 32 bytes from which every in-range field of every granule is read back |
| `Frames.RegionEdges` | mp3/mp3enc.h:428-469 | the regions of big values end at the edges of table B.8 of ISO 11172-3 that region0_count and region1_count name, or with the big values |
| `Frames.MainRoundTrip` | mp3/mp3enc.h:428-469 | all granules of a frame are read back from its main data, whatever bits follow |
| `Frames.WriteMain` | mp3/mp3enc.h:424-470 | the writer emits exactly that main data |
| `Reservoir.AcceptPlaces` | mp3/mp3enc.h:472-518 | however long the pending tail, one frame changes only the joined areas behind the used bytes: what fits goes there, the rest to the start of its own area, zeros behind either |
| `Reservoir.FoundExactly` | mp3/mp3enc.h:243-259 | the back pointer finds a frame's main data if and only if the pending tail is at most 511 bytes or the data that went into it are all zero |
| `Reservoir.LongTailLosesData` | mp3/mp3enc.h:252-256 | a run at 192 kbit/s, an empty frame and then one with a byte, in which the back pointer of the second finds a zero instead |
| `Reservoir.RunFound` | mp3/mp3enc.h:470-518 | in every run, and whatever the other frames are, the bytes found main_data_begin back from frame k's area are exactly its main data if and only if the tail it met was at most 511 bytes or got only zeros |
| `Reservoir.RunFoundExactly` | mp3/mp3enc.h:243-259 | a decoder finds every frame of a run if and only if that holds for each of them; no other demand on the frames |
| `Reservoir.RunKept` | mp3/mp3enc.h:470-518 | the bytes of the joined areas that the first frames use never change again |
| `Reservoir.NarrowSnug` | mp3/mp3enc.h:231-256 | main-data areas of at most 511 bytes keep all data within reach |
| `Reservoir.RunDisjoint` | mp3/mp3enc.h:470-518 | in every run, the ranges the back pointers announce for successive frames never overlap |
| `Reservoir.RunFrame` | mp3/mp3enc.h:477-518 | every output frame is its own head followed by its own area |
| `Decoder.StreamRoundTrip` | mp3/mp3enc.h:213-591 | decoding the flushed output of a run whose data are within reach gives back every frame's header, stereo mode, side information, received scalefactors and spectra; the decoder skips a CRC where a header announces one |
| `Decoder.RunThenStream` | mp3/mp3enc.h:243-259 | a flushed run decodes the same in the middle of any stream |
| `Decoder.WalkRun` | mp3/mp3enc.h:477-518 | walking from header to header over the output of any run, reach or not, shows its frames with their headers and back pointers, in order |
| `Budget.SplitBudget` | mp3/mp3enc.h:356-381 | for any perceptual entropies the two granule budgets add up to the frame's bits, the first being its weighted part held between a fifth and four fifths, so that clamping and respreading never move it |
| `Budget.NearestShare` | mp3/mp3enc.h:356-381 | the first granule's bits are half the frame's, or the number between a fifth and four fifths nearest to its share by entropy |
| `Budget.CarriedOver` | mp3/mp3enc.h:385-411 | the second granule may use every bit of the frame the first did not, up to 4095 per channel |
| `Budget.QuantizeFrame` | mp3/mp3enc.h:383-415 | every granule gets a spectrum its quantizer produced at the gain written, fits 12 bits and is what the outer loop yields within its bits, those the first granule left unused included; the frame uses at most its area plus what it borrows |
| `Budget.PadStep` | mp3/mp3enc.h:200-208 | the remainder stays in range and each frame accounts for its exact share of the bitrate |
| `Budget.CbrExact` | mp3/mp3enc.h:200-208 | after n frames the total is the bitrate's share rounded up, for every n |
| `Encoder.FrameEncoder.GetPadding` | mp3/mp3enc.h:200-208 | the padding bit and the new remainder |
| `Encoder.FrameEncoder.Splice` | mp3/mp3enc.h:472-518 | the buffers move as the reservoir specification says: overflow into the pending tail, output, zero-padded current frame kept pending |
| `Encoder.FrameEncoder.EncodeFrame` | mp3/mp3enc.h:213-522 | every encoded frame extends the run by a part that spells contents quantized as the frame's plan says within this frame's area and what it borrows, heard in mid/side exactly when the plan calls for it and there are two channels; the buffers stay equal to the specified reservoir state and the padding account exact |
| `Encoder.FrameEncoder.FlushPending` | mp3/mp3enc.h:579-588 | what was sent plus what flushing adds is the whole run, and the next run starts with nothing pending |
| `Encoder.FrameEncoder.BuildFrame` | mp3/mp3enc.h:417-470 | the bytes left in the two buffers spell, bit by bit, a header, side information and main data whose back pointer is the backlog and whose granules are what the plan yields within this frame's bits; the main data fit the area and what is borrowed |
| `Pcm.PcmEncoder.Encode` | mp3/mp3enc.h:528-559 | one call on planar input of any length encodes exactly the blocks it completes and holds back the rest |
| `Pcm.PcmEncoder.Flush` | mp3/mp3enc.h:562-591 | the held samples are completed with silence, encoded, and the pending frame output |
| `Pcm.ChunkingInvariant` | mp3/mp3enc.h:528-559 | however the input is split into calls, state, held samples and joined output are those of one call |
| `Pcm.WholeRun` | mp3/mp3enc.h:528-591 | encoding then flushing is encoding the frames of the padded input, the k-th from samples 1152k up to 1152(k+1) |
| `Parallel.ThreadCount` | src/audio-io.h:613-626 | the largest number of threads the machine has that leaves each two seconds of frames, and one if there is none |
| `Parallel.Ranges` | src/audio-io.h:637-654 | the ranges tile the samples exactly and all but the end of the last are frame boundaries |
| `Parallel.Worker` | src/audio-io.h:656-735 | a worker's output is a run of its own whose frames encode exactly the blocks of its range, after priming with the up to three frames just before it, whose output is dropped |
| `Parallel.EncodeMp3` | src/audio-io.h:613-776 | for any number of threads and any bitrate the joined output is the runs in order, as many as threads have two seconds of work, their frames divided evenly; they encode exactly the blocks of the padded input, each primed with the last three blocks before its own or what there is; walking over the output shows exactly ceil(T/1152) frames, and every run starts with main_data_begin 0 and never points before itself; with areas within 511 bytes the stream decodes to what was encoded |
| `Parallel.WithinRun` | src/audio-io.h:628-635 | for any bitrate, the first frame of a run borrows nothing and no back pointer crosses into an earlier run |
| `Parallel.RunsWalk` | src/audio-io.h:761-776 | walking over the joined outputs shows every frame of every run |
| `Parallel.RunsDecode` | src/audio-io.h:761-776 | the joined runs decode one after another, whatever stream came before |
| `Utf8.ValidWhole` | src/bpe.h:76-96 | valid UTF-8 (section 4 of RFC 3629) has no code point cut off and no overlong ASCII, which is all the tokenizer needs |
| `ByteEncoder.CodeInjective` | src/bpe.h:20-52 | no two bytes share a stand-in character |
| `ByteEncoder.CodeValues` | src/bpe.h:20-52 | each byte's stand-in: itself where it is printable, 256 and up in order for control bytes and space, DEL to 160, and 173 |
| `ByteEncoder.BuildByteEncoder` | src/bpe.h:20-73 | the loops fill the table with each byte's character |
| `ByteEncoder.DecodeSpelled` | src/metadata-fsm.h:151-168 | decoding a string of byte characters gives the bytes back |
| `ByteEncoder.DecodeToken` | src/metadata-fsm.h:151-168 | the decoding loop computes the specified text |
| `Chunks.PreTokenize` | src/bpe.h:149-370 | on every text on which it terminates, the chunks are those the rules give in their order, and they join to the text, also where a multi-byte space is split |
| `Chunks.StuckExactly` | src/bpe.h:250-273 | a pass of the outer loop leaves the cursor where it is if and only if it starts at a newline or ASCII digit written in more than one byte |
| `Chunks.TerminatesExactly` | src/bpe.h:149-370 | the pre-tokenizer terminates if and only if no pass starts at such a code point |
| `Chunks.EndlessNewline` | src/bpe.h:265-273 | on the bytes C0 8A the cursor stays at 0 for ever |
| `Chunks.WholeUnstuck` | src/bpe.h:149-370 | texts without cut-off code points or overlong ASCII terminate |
| `Chunks.ChunksJoin` | src/bpe.h:149-370 | the chunks from any pass on join to the rest of the text |
| `ChunkForms.PassChosen` | src/bpe.h:149-370 | in such a text every pass makes the chunk that the documented pattern calls for: the first form that fits, at its longest, where a multi-byte space starts no word or symbols |
| `ChunkForms.ChunkUnique` | src/bpe.h:145-148 | the forms decide where a chunk ends |
| `ChunkForms.ContractionMeans` | src/bpe.h:159-206 | a contraction is an apostrophe, one of seven endings in either case, and no letter behind |
| `ChunkForms.WordTaken` | src/bpe.h:208-249 | where no contraction fits, letters with at most one other character before them are one chunk, the leading space included |
| `ChunkForms.SymbolsTaken` | src/bpe.h:286-340 | where no letters fit either, all symbols and the newlines behind them are one chunk, the leading space included |
| `ChunkForms.ChunksFit` | src/bpe.h:149-370 | the chunks of such a text are, one after another, the ones the forms call for, digits one at a time |
| `Bpe.BpeMerge` | src/bpe.h:441-472 | the merge loop computes the merge relation: always the leftmost pair of lowest rank, until none is left |
| `Bpe.MergesUnique` | src/bpe.h:441-472 | that relation determines the result |
| `Bpe.MergesDone` | src/bpe.h:441-472 | merging stops only when no adjacent pair has a rule |
| `Bpe.ThreeSymbols` | src/bpe.h:450-470 | of two overlapping pairs the one whose rule is listed first is joined first, the left one where the rule is the same |
| `Bpe.MergesFlat` | src/bpe.h:441-472 | merging moves no byte |
| `Bpe.EncodeChunk` | src/bpe.h:474-510 | the ids appended are those of the fully merged byte characters, with the byte fallback for pieces that are no token |
| `Bpe.ChunkLossless` | src/bpe.h:474-510 | with a vocabulary closed under merges the ids of a chunk decode to it |
| `Bpe.Fallback` | src/bpe.h:492-508 | a piece that is no token gives the ids of its bytes in order, without those of bytes that are no tokens |
| `Bpe.BpeEncode` | src/bpe.h:514-543 | for every text on which the pre-tokenizer terminates: markers become the end-of-text id, the texts between them are tokenized, and decoding the ids gives the text back |
| `Bpe.TextIdsUnique` | src/bpe.h:514-543 | the ids are a function of the text |
| `Bpe.TextLossless` | src/bpe.h:514-543 | every id sequence of that form decodes to the text |
| `Bpe.Load` | src/bpe.h:383-424 | the id table holds a token at its id where it is listed last and nothing elsewhere, has one slot per different token, and so inverts the vocabulary if and only if no token is listed twice |
| `Bpe.LastListed` | src/bpe.h:404-412 | a token's id, and a rule's rank, is the last place where it is listed |
| `Genre.LowerBound` | src/genre-vocab.h:57-59 | everything before the result is less, nothing from it on is |
| `Genre.HasPrefix` | src/genre-vocab.h:61-64 | true exactly when some entry starts with the text |
| `Genre.Contains` | src/genre-vocab.h:66-69 | true exactly for entries |
| `Genre.NextBytes` | src/genre-vocab.h:73-94 | exactly the ascending bytes that a scan of all entries finds after the prefix, and whether the prefix is an entry |
| `GenreTokens.BuildIndex` | src/metadata-fsm.h:192-216 | each token is filed, in lower case, under its first byte and its first visible byte, and nowhere else |
| `GenreTokens.IndexComplete` | src/metadata-fsm.h:371-419 | a visible token that continues the value is filed under a byte that can follow |
| `GenreTokens.ContinuesMeans` | src/metadata-fsm.h:192-216 | a token with visible text goes on with the value exactly if an entry does so with the token up to its last visible byte; at the start of a value, spaces before it do not count |
| `GenreTokens.LookedBetween` | src/metadata-fsm.h:371-380 | a value is looked up as what stands between the spaces and tabs at its ends, its capital letters made small and every other byte kept |
| `GenreTokens.AllowedGenreTokens` | src/metadata-fsm.h:371-419 | for the lowercased and trimmed value, exactly the tokens that a search over the whole vocabulary would allow, plus the newline for a complete entry |
| `Fsm.AddValue` | src/metadata-fsm.h:25-34 | the tree then offers after every prefix exactly the tokens that some added value has there |
| `Fsm.MetadataFsm.ApplyMask` | src/metadata-fsm.h:449-585 | every logit is kept or masked as the specification says, and a forced value is queued |
| `Fsm.MetadataFsm.Update` | src/metadata-fsm.h:587-737 | the machine moves as specified, on every branch |
| `Fsm.MetadataFsm.ForceField` | src/metadata-fsm.h:292-322 | the forced value is the only one its tree offers; other fields keep theirs |
| `Runs.NeverBack` | src/metadata-fsm.h:587-737 | whatever tokens are fed, masked or not, captions and genres on or off, the machine never returns to an earlier field |
| `Runs.NextIs` | src/metadata-fsm.h:421-447 | behind a value comes the next field in order that is switched on, or the end of thinking |
| `Captions.NameTyped` | src/metadata-fsm.h:605-662 | at the start of a caption line, tokens that spell the name of a later field, however cut and with spaces before the colon or not, put the machine into the value of exactly that field, with nothing accumulated and the caption over |
| `Captions.OtherNameTyped` | src/metadata-fsm.h:605-662 | a caption line that brings a colon leaves the machine in the caption for ever if and only if the text before it is no later field's name |
| `Captions.LostForever` | src/metadata-fsm.h:641-662 | from then on no token, masked or not, ends the caption |
| `Captions.NoteIsLost` | src/metadata-fsm.h:605-662 | a caption line that starts with "Note:" gets there |
| `Grammar.RunsAreSentences` | src/metadata-fsm.h:421-760 | captions and genres on or off, the runs of unmasked tokens that reach the audio codes are exactly the sentences: name and value of each field switched on, in order, where a caption is lines and continuation lines without audio codes up to a typed field name, whose value follows and whose predecessors are left out, then the end of thinking |
| `Listings.ListedValues` | src/metadata-fsm.h:345-360 | for a field that is not forced, the values of those sentences are exactly the listed ones, when each ends in its only newline |
| `Grammar.NeverStuck` | src/metadata-fsm.h:449-585 | a run that has not finished always has an unmasked token in the vocabulary |
| `Listings.Terminates` | src/metadata-fsm.h:587-737 | without a caption every run reaches the audio codes within a fixed number of tokens, genres on or off |
| `ModelStore.SameIsNorm` | src/model-store.cpp:53-68 | keys compare equal exactly when their normal forms are the same |
| `ModelStore.Store.EvictAllExcept` | src/model-store.cpp:115-133 | all other modules go, and it aborts exactly when one of them is in use |
| `ModelStore.Store.Require` | src/model-store.cpp:284-301 | a resident module with an equal key is shared under its handle, a missing one installed under a new handle; STRICT aborts exactly when another module is resident; tables stay inverse and counts equal outstanding handles |
| `ModelStore.Store.Release` | src/model-store.cpp:432-457 | the count drops by one and STRICT unloads at zero; unknown handles change nothing |
| `ModelStore.Store.ModuleCount` | src/model-store.cpp:614-620 | under STRICT at most one module is ever resident |
| `ModelStore.ModelHandle.Close` | src/model-store.h:138-159 | the destructor releases its handle once; a moved-from handle releases nothing |
| `Pipelines.PinnedEncode` | src/pipeline-synth.cpp:252-286 | the pin is taken first and released last, around the encodes that share it, exactly when some input is audio; it succeeds exactly when the pin loads or is resident and a source that needs encoding is encoded; the store is restored on every path |
| `Pipelines.EncodeText` | src/pipeline-synth-ops.cpp:429-575 | the text encoder is taken and given back before the condition encoder is taken; when both load, it succeeds exactly when each computation does; the store is restored on every path |
| `Pipelines.RunDit` | src/pipeline-synth.cpp:622-675 | every task returns the store as it found it and never aborts; when every module loads it finishes exactly if the task is known, its source present, its region in order and every computation it needs succeeds; a finished one took and gave back exactly the modules its task calls for, in order, the FSQ round trip only for covers |
| `Pipelines.Synthesize` | src/pipeline-synth.cpp:622-688 | the same for a whole synthesis, whose decoder comes last |
| `Pipelines.Understand` | src/pipeline-understand.cpp:96-433 | the same for understanding: encoder only for audio without latents, then tokenizer, then language model, each given back before the next is taken; with a language model it succeeds exactly if the answer ends within its limit before it is cancelled |
| `Pipelines.Serve` | src/model-store.h:1-20 | after any number of calls, each with its own models, on a fresh store nothing was aborted, nothing is still acquired, and a STRICT store is empty |
| `Philox.MulInverse` | src/philox.h:30-34 | the low word of a product by an odd multiplier gives the factor back |
| `Philox.RoundBits` | src/philox.h:30-47 | a round by the generator's definition: the low words of the products with 0xD2511F53 and 0xCD9E8D57, and bit by bit the high words crossed over and mixed with the other words and the keys |
| `Philox.RoundInverse` | src/philox.h:37-47 | every round is undone by an explicit inverse, and the other way round |
| `Philox.Permutation` | src/philox.h:50-82 | for every key the ten rounds are one to one and onto |
| `Philox.Philox10` | src/philox.h:50-82 | the unrolled code is the ten rounds with the stepped keys |
| `Philox.NextRound` | src/philox.h:50-82 | round n uses the keys plus n times 0x9E3779B9 and 0xBB67AE85, wrapped around |
| `Philox.DrawnFrom` | src/philox.h:95-104 | the counter is offset and subsequence, the key the seed, each as two words, the low one first |
| `Philox.DrawsDiffer` | src/philox.h:95-104 | under one seed no two subsequence and offset pairs see the same words |
| `Philox.Randn` | src/philox.h:130-136 | element k is drawn from subsequence k alone |
| `Adapter.UpdateApplied` | src/adapter-functional.h:245-246 | B(Ax) equals (BA)x |
| `Adapter.NormExpands` | src/adapter-functional.h:161-169 | the squared row norm of W + cBA is the sum of the norm, cross and Gram terms |
| `Adapter.DoraAgrees` | src/adapter-functional.h:161-246 | functional DoRA equals the merged row for every input, given an unclamped positive row norm |
| `Adapter.NormalizedAgrees` | src/adapter-functional.h:165-177 | in normalized mode the output is that of the row with the scaled update, renormalized to its magnitude |
| `Adapter.LoraAgrees` | src/adapter-merge.h:433-436 | plain LoRA equals the merged row for every input and strength |
| `Adapter.LoadNormSq` | src/adapter-functional.h:81-90 | the accumulated row norm |
| `Lokr.Kronecker` | src/adapter-merge.h:1095-1105 | row aa*c+cc, column bb*d+dd of the delta is scaling * W1[aa,bb] * W2[cc,dd], for all positive sizes |
| `Lokr.FactorsMultiply` | src/adapter-merge.h:1084-1089 | the factorized W2 is the matrix product of its factors |
| `Yaml.Wrap` | src/prompt.h:226-250 | the wrapping loop prints the words after single spaces or, past column 80, on indented lines |
| `Yaml.WrappedBroken` | src/prompt.h:226-250 | a line of the printed caption is broken only past column 80, and words stand on one line only up to there |
| `Yaml.BuildYaml` | src/prompt.h:223-271 | the printer prints the fields present, in order |
| `YamlRoundTrip.AllPrinted` | src/prompt.h:223-271 | a prompt with every field is printed as tempo, wrapped caption, whole seconds of duration, key, language and time signature, a line each |
| `Yaml.Parse` | src/prompt.h:36-174 | the parser overwrites a prompt with the fields and lyrics it finds and keeps the others |
| `YamlRoundTrip.CleanedWrapped` | src/prompt.h:118-142 | collapsing white space erases the wrapping of a normal caption |
| `YamlRoundTrip.CleanedWords` | src/prompt.h:118-142 | whatever spaces, line ends and carriage returns stand before, between and behind words, cleaning leaves single spaces between them |
| `YamlRoundTrip.FieldRead` | src/prompt.h:53-74 | a printed single-line value is read back |
| `YamlRoundTrip.QuotedRead` | src/prompt.h:53-74 | spaces and quotes before a value, and spaces, quotes and carriage returns behind it, are taken off, with or without a newline at the end |
| `YamlRoundTrip.CaptionRead` | src/prompt.h:106-146 | a caption is read back if and only if a duration or a keyscale follows it, or nothing does |
| `YamlRoundTrip.BlockRoundTrip` | src/prompt.h:36-271 | printing and reading a metadata block gives every field back under exactly that condition |
| `YamlRoundTrip.BlockOver` | src/prompt.h:76-146 | over what a prompt held before, the printed fields are put in and the others stay |
| `YamlRoundTrip.LyricsRead` | src/prompt.h:148-170 | lyrics are read without the white space around them, unless a lyric header stands in their first 64 characters |
| `YamlRoundTrip.HeaderTaken` | src/prompt.h:157-162 | lyrics behind a lyric header within the first 64 characters are read without the header and what stands before it |
| `YamlRoundTrip.LateHeaderStays` | src/prompt.h:157-162 | a header from character 64 on is part of the lyrics |
| `YamlRoundTrip.PromptRoundTrip` | src/prompt.h:36-174 | the same for a block between think tags, before the closing tag or without tags, with lyrics after it, plain or behind a lyric header, or none |

## Left out

- Filterbank, MDCT, psychoacoustic model (the noise of a band and its excess in dB), MS transform, lowpass and the float quantizer: functions of the `Plan`, `Quantizer` and `Judge` datatypes, so that the results hold for any of them; dither, adaptive formulas and perceptual quality are not modelled.
- PrefixCode.EveryWordDecodes: the decoder walks a plain binary tree per table, one bit at a time; the packed codebooks of `mp3/tabs_data.h`, which `walk_tree` steps through several bits at a time, are not modelled.
- Huff.WordDecodes: for the same reason `build_pair_table`, which enumerates codes against those codebooks, is not modelled; the tables it printed are taken as literals.
- Encoder.FrameEncoder.EncodeFrame: nothing is promised for a frame whose flat quantizer does not fit at gain 255, because the gain search then gives up on the budget and the 12-bit length field may overflow.
- Budget.QuantizeFrame: the same.
- Short and mixed blocks (`mp3/mp3enc-bits.h:163-174`): the encoder always writes long blocks, so the window-switching branch of the side information is not modelled; scfsi is always zero as in the encoder, but its effect on scalefactors is modelled.
- Integer widths of the MP3 encoder and of sample counts: sizes stay far below 32 bits for the modelled inputs, except that `T + 1151` would wrap for recordings near 2^31 samples.
- Growth of the output buffer by realloc: the buffer is a sequence.
- Quantize: `Quantizer` returns spectra with magnitudes up to 8191, the clamp of the source's quantizer.
- Pcm.PcmEncoder.Encode: the frame encoder behind the PCM buffer is any function of its state and a block; `Encoder.FrameEncoder` is proved separately and is what `Parallel` feeds block by block.
- Parallel.Worker: cancellation, failed allocations and real threads are not modelled; the workers share nothing, so they are run one after another.
- Parallel.EncodeMp3: resampling of unsupported rates happens before it.
- GGUF and file input, special tokens other than the end-of-text marker, and `vocab` lookups by hashing: maps.
- Genre.LowerBound: loading, sorting and removing duplicates of the vocabulary file happen before it; entries are taken as sorted.
- GenreTokens.AllowedGenreTokens: the claim that a finished value is always a vocabulary entry is not made, because trimming does not maintain it.
- Grammar.RunsAreSentences: the tokens allowed after a genre value so far are a parameter of the grammar; `GenreTokens.AllowedGenreTokens` says which they are.
- Listings.Terminates: with a caption there is no bound, because a caption may go on for ever.
- Fsm.MetadataFsm.ApplyMask: the tokens of field names and values, and the tokens allowed for a genre, are parameters; tokenizing them and building the trees for the listed values at start-up is not repeated.
- Fsm.MetadataFsm.ForceField: takes the forced value as tokens.
- ModelStore.SameIsNorm: the adapter scale is a real number, so a NaN scale, which equals no key, is not covered.
- ModelStore.Store.Require: hashing, byte counts, locking and the CPU-side caches are not modelled.
- ModelStore.Store.Release: releasing a known handle more often than it was required is outside its precondition, as the source asserts.
- Pipelines.RunDit: whether a module loads, and whether each computation succeeds, is a parameter; loaders that exit the process on failure are covered as failures.
- Philox.Randn: Box-Muller and the rounding to bfloat16 are parameters.
- Adapter.DoraAgrees: real arithmetic, no clamp at 1e-20; quantized weights, bfloat16 rounding of LoKr deltas and the LyCORIS variant with its epsilon are not modelled.
- Lokr.Kronecker: Tucker and convolutional variants are not in the source either; backends, uploads and the scaled add to the base weight are left out.
- Yaml.Parse: `atof` is a parameter that reads printed whole numbers.
- YamlRoundTrip.PromptRoundTrip: printed prompts have no genres; the metadata come first, then the lyrics.
- The KV cache and batched decoding, graph building, diffusion, VAE, resampling, normalization, request parsing, servers and tools: foreign calls or plumbing.
