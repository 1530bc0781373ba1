# kss2vgm transcoder core in Dafny

kss2vgm plays an MSX KSS music file in an emulator and records every write
to a sound chip into a VGM 1.70 log. This project models the part of
`src/kss2vgm.c` that turns those register writes into VGM bytes. That part
has five pieces:

- **Byte buffer.** The append-only buffer (`data_array_write`) and its
  wrappers `vgm_putc`, `vgm_write` and `ini_write`.
- **Scheduler.** `write_command` flushes the samples elapsed since the last
  command as `61 nn nn` waits of at most 65535 samples each, then appends the
  command. `write_eos_command` appends `66` the same way.
- **I/O-port translator.** `iowrite_handler` handles the select/data latch
  pairs of the YM2413, Y8950 and AY8910, direct SN76489 writes and the Game
  Gear stereo port.
- **SCC decomposers.** `scc_handler` and `scc_plus_handler` split a
  memory-mapped SCC or SCC+ address into a `(port, offset)` pair.
  `memwrite_handler` routes the two windows to them. A shared flag makes the
  enable pulse `D2 03 00 1F` precede the first such command exactly once.
- **Header and file.** `create_vgm_header` builds the 256-byte header. The
  Y8950 ADPCM data-block preamble is added when needed, and the end of `main`
  lays the file out as header, preamble and stream.

The C file-scope statics are one immutable `Session.State`. Each handler is a
pure function from state to state. The emulator loop becomes a sequence of
events (`Converter.Event`): a rendered sample, a port write or a memory
write.

Most properties are stated against independent readings of the output:

- a VGM command decoder (`VgmCommands.Decode`), its wait total
  (`WaitSum`) and its first K051649 command (`FirstScc`);
- a header reader (`Header.ReadHeader`);
- reference counts of a run's events (`Converter.Ticks`,
  `Converter.UsedChips`, `Converter.ReachesScc`).

Modules follow the program: `Bytes`, `DataArray`/`Session`, `VgmCommands`,
`Scheduler`, `IoPorts`, `Scc`, `Header`, `Converter`.

The address tests are modelled as written:

- In `scc_handler`, the mirror tests `a == 0x90 && a <= 0x99` and
  `a == 0x9A && a <= 0x9E` accept one address each. Addresses 0x91–0x99 and
  0x9B–0x9E are therefore dropped, not treated as a mirror range.
- In `scc_plus_handler`, the same tests send 0xB1–0xB9 and 0xBB–0xBE to
  port 5 with a negative offset, stored truncated to a byte. Port 4 keeps
  the unrebased address (0x80–0x9F) as its offset. So offsets are not
  confined to 0..31.
- `DataArray` grows in fixed `DATA_ALLOC_UNIT` (1 MiB) steps; growth is
  not modelled.

## Model

| member | source | states |
|---|---|---|
| Bytes.Word | src/kss2vgm.c:56-59 | a WORD field is two bytes that read back little-endian as the value modulo 2^16 |
| Bytes.Dword | src/kss2vgm.c:61-66 | a DWORD field is four bytes that read back little-endian as the value modulo 2^32 |
| Bytes.LeRoundTrip | src/kss2vgm.c:56-66 | reading back an n-byte little-endian store yields the stored value modulo 256^n |
| Bytes.PutWord | src/kss2vgm.c:56-59 | the WORD store puts the low and second byte at off and off+1, reads back as the value modulo 2^16, and leaves every other byte unchanged |
| DataArray.WriteAppends | src/kss2vgm.c:27-34 | the logical size grows by the written length, earlier contents stay in place and the new bytes follow them |
| DataArray.WriteInPieces | src/kss2vgm.c:27-34 | two successive writes leave the same buffer as one write of their concatenation |
| Session.WrappersAppend | src/kss2vgm.c:44-48 | three vgm_putc calls equal one vgm_write of the three bytes; vgm_write and ini_write keep the old contents as a prefix and append the buffer |
| VgmCommands.DecodeEncode | src/kss2vgm.c:190-285 | every well-formed command the handlers lay out in cmd_buf decodes back to itself |
| VgmCommands.DecodeEncodeAll | src/kss2vgm.c:170-186 | a stream built from well-formed commands decodes to exactly those commands |
| VgmCommands.DecodeAppend | src/kss2vgm.c:185 | appending bytes to a decodable stream decodes to the old commands followed by the new ones |
| VgmCommands.EncodeAllAppend | src/kss2vgm.c:185 | encoding a concatenation is concatenating the encodings |
| VgmCommands.WaitSumAppend | src/kss2vgm.c:172-183 | the wait total of a concatenation is the sum of the wait totals |
| VgmCommands.FirstSccAppend | src/kss2vgm.c:271-284 | the first K051649 command of a concatenation is the first part's if it has one, else the second part's |
| Scheduler.WaitCommands | src/kss2vgm.c:172-183 | the waits for a gap add up to the gap, each lies in 1..65535, and every wait but the last is full |
| Scheduler.WaitChunkingUnique | src/kss2vgm.c:173-183 | any list of waits of at most 65535 that covers the gap, with all but the last full, is the greedy split |
| Scheduler.WaitCount | src/kss2vgm.c:173-183 | the split of a gap d has ceil(d / 65535) waits |
| Scheduler.WaitBytesExample | src/kss2vgm.c:172-183 | a gap of 140000 becomes 61 FF FF 61 FF FF 61 E2 22 |
| Scheduler.FlushWaits | src/kss2vgm.c:173-183 | the byte-by-byte vgm_putc loop appends exactly the encoding of the greedy split |
| Scheduler.GapExact | src/kss2vgm.c:172 | the uint32 difference total_samples - last_write_clock does not wrap while the clocks are in order |
| Scheduler.WriteCommand | src/kss2vgm.c:170-186 | the buffer becomes the old buffer, the wait bytes, then the command bytes; last_write_clock catches up with total_samples; nothing else changes |
| Scheduler.WriteEos | src/kss2vgm.c:190-193 | closing appends the pending waits and 0x66, so the last byte is 0x66 and nothing else changes |
| Scheduler.WriteCommandEmits | src/kss2vgm.c:170-186 | through the decoder, write_command appends the gap's waits followed by the command |
| Scheduler.EmittedLevel | src/kss2vgm.c:172-185 | with no sample pending, write_command appends the command alone |
| Scheduler.EmittedThen | src/kss2vgm.c:271-284 | two emissions with no sample between them flush one gap, followed by both command lists |
| Scheduler.InitValid | src/kss2vgm.c:36-42 | the initial statics satisfy the scheduler invariant: an empty stream, wait total 0, no K051649 command |
| Scheduler.EmittedDecodes | src/kss2vgm.c:170-186 | after an emission the stream still decodes, and its wait total equals the sample clock |
| Scheduler.EmittedFirstScc | src/kss2vgm.c:271-284 | once the enable pulse has been sent it stays the stream's first K051649 command; before that, the first K051649 command is the first one this emission appends |
| Scheduler.WriteEosValid | src/kss2vgm.c:190-193 | the end marker keeps the invariant and closes the stream: it decodes, ends with 0x66 and the end command, and its waits add up to total_samples |
| IoPorts.IoWrite | src/kss2vgm.c:195-234 | select ports only latch and set the chip flag; data ports emit the latched index with the data; 0x7E/0x7F emit 50 dd and mark the SN76489; 0x06 emits 4F dd and marks nothing; any other port changes nothing |
| IoPorts.Ym2413Port | src/kss2vgm.c:197-204 | 0x7C/0xF0 latch the YM2413 index and set its flag; 0x7D/0xF1 emit 51 aa dd |
| IoPorts.Y8950Port | src/kss2vgm.c:205-215 | 0xC0 latches the Y8950 index, sets its flag, and sets the ADPCM flag for index 0x0F; 0xC1 emits 5C aa dd |
| IoPorts.Ay8910Port | src/kss2vgm.c:216-223 | 0xA0 latches the AY8910 index and sets its flag; 0xA1 emits A0 aa dd |
| IoPorts.Sn76489Port | src/kss2vgm.c:224-228 | 0x7E/0x7F set the SN76489 flag and emit 50 dd |
| IoPorts.GgStereoPort | src/kss2vgm.c:229-232 | 0x06 emits 4F dd and sets no flag |
| IoPorts.IoWriteValid | src/kss2vgm.c:195-234 | the translator keeps the scheduler invariant |
| IoPorts.LatchPersists | src/kss2vgm.c:216-223 | two successive data writes right after a select both pair the latched AY8910 index with their data: the first data write does not disturb the latch |
| IoPorts.AdpcmFlag | src/kss2vgm.c:205-210 | the ADPCM flag is set exactly by a 0xC0 write of 0x0F |
| Scc.SccMap | src/kss2vgm.c:238-269 | on the low address byte, the decomposer accepts exactly 0x00–0x90, 0x9A, 0x9F and 0xE0–0xFF; every target is an SCC register; each address is the register's own address, or 0x10 above it for 0x90, 0x9A and 0x9F |
| Scc.SccMapInverse | src/kss2vgm.c:238-269 | every SCC register is reached from its own address |
| Scc.SccWindowInverse | src/kss2vgm.c:236-269 | any address, such as one in the 0x9800–0x98FF window, whose low byte is an SCC register's own address reaches that register |
| Scc.SccMirrorsAsWritten | src/kss2vgm.c:253-262 | 0x90, 0x9A and 0x9F alias 0x80, 0x8A and 0x8F, while 0x91–0x99 and 0x9B–0x9E are dropped |
| Scc.SccPlusMap | src/kss2vgm.c:289-323 | on the low address byte, the SCC+ decomposer accepts exactly the bytes below 0xE0; 0xB1–0xB9 and 0xBB–0xBE go to port 5 with offset a - 0xC0; every other accepted byte reaches an SCC+ register whose address is the byte itself, or 0x10 below it for 0xB0, 0xBA and 0xBF |
| Scc.SccPlusMapInverse | src/kss2vgm.c:289-323 | every SCC+ register is reached from its own address, the fifth wave bank included |
| Scc.SccPlusWindowInverse | src/kss2vgm.c:288-323 | any address, such as one in the 0xB800–0xB8FF window, whose low byte is an SCC+ register's own address reaches that register |
| Scc.SccPlusMirrorsAsWritten | src/kss2vgm.c:307-336 | 0xB0, 0xBA and 0xBF alias 0xA0, 0xAA and 0xAF, while 0xB1–0xB9 and 0xBB–0xBE reach port 5 with offset a - 0xC0, logged as the byte a + 0x40 |
| Scc.EmitScc | src/kss2vgm.c:271-285 | an accepted write appends the enable pulse if it is not yet sent, then D2 pp aa dd with no wait between them, and sets the pulse flag |
| Scc.SccHandler | src/kss2vgm.c:236-286 | a rejected address changes nothing; an accepted one emits as above and sets the K051649 flag exactly on a non-zero frequency write |
| Scc.SccPlusHandler | src/kss2vgm.c:288-340 | the same for the SCC+, setting the K052539 flag |
| Scc.MemWrite | src/kss2vgm.c:342-348 | writes outside 0x9800–0x98FF and 0xB800–0xB8FF change nothing; inside, the window's handler acts |
| Scc.MemWriteValid | src/kss2vgm.c:271-339 | the decomposers keep the scheduler invariant; in particular the pulse stays the first K051649 command |
| Scc.FrequencyFlag | src/kss2vgm.c:243-256 | a frequency write marks the K051649 exactly when its data is non-zero |
| Scc.PulseOnce | src/kss2vgm.c:271-284 | after one accepted write, a second accepted write in the same sample appends only its own command |
| Header.ReadSerialize | src/kss2vgm.c:74-94 | reading the header fields back from their offsets gives the values stored there |
| Header.SerializeFrame | src/kss2vgm.c:71-72 | the header starts with "Vgm " and is zero outside the written fields |
| Header.CreateHeaderReads | src/kss2vgm.c:68-95 | create_vgm_header's bytes start with the magic and read back as the run's field values |
| Header.CreateHeaderZeros | src/kss2vgm.c:71 | every byte no field covers is zero |
| Header.SnParameterStores | src/kss2vgm.c:84-86 | the overlapping WORD stores leave 09 00 10 00 00 at 0x28–0x2C, because the store at 0x2B overwrites the high byte of the one at 0x2A |
| Header.SnParameterLayout | src/kss2vgm.c:84-86 | the serialized header has that same layout at 0x28–0x2C |
| Header.HeaderChips | src/kss2vgm.c:76-94 | each clock field is non-zero exactly when its chip was used; the K051649 field has bit 31 exactly for the K052539, over a 1789773 Hz clock |
| Header.HeaderFields | src/kss2vgm.c:74-94 | for a file of the given length, the end-of-file offset is the length less 4 modulo 2^32, the sample count is the run's, the data offset points just past the header, each clock is non-zero exactly when its chip was used, and the K051649 field is non-zero exactly when the SCC or SCC+ was used, and then holds 1789773 Hz with bit 31 set exactly for the SCC+ |
| Header.HeaderOffsets | src/kss2vgm.c:74-88 | while the file length fits in 32 bits, the end-of-file offset plus 4 is the file length, the data offset plus 0x34 is 0x100, and the version is 0x170 |
| Header.VolumeByte | src/kss2vgm.c:69-93 | the volume byte read as a signed byte gives back any volume option in -128..127 |
| Header.AdpcmInitBlock | src/kss2vgm.c:350-356 | the 15-byte preamble is one VGM data block of type 0x88 declaring a 32 KiB image with data at offset 0 |
| Converter.StepFacts | src/kss2vgm.c:195-348 | one event keeps the invariant, advances the clock exactly on a tick, adds exactly the chips the event reveals, and leaves the preamble alone |
| Converter.RunFacts | src/kss2vgm.c:420-431 | the same for a whole run: the clock counts the ticks, the flags are the revealed chips, and the pulse flag is set exactly when some memory write reached an SCC register |
| Converter.AdpcmSeen | src/kss2vgm.c:205-210 | the ADPCM preamble is due exactly when some event writes 0x0F to port 0xC0 |
| Converter.FinishIsRunThenEos | src/kss2vgm.c:420-435 | the loop followed by write_eos_command is the run, then the end marker |
| Converter.FinishFacts | src/kss2vgm.c:420-435 | the final state has the tick count as clock and the used chips as flags; its stream decodes, ends with the end command, waits the tick count in total, and leads its K051649 commands with the pulse exactly when SCC was reached |
| Converter.Preamble | src/kss2vgm.c:443-445 | when the ADPCM flag is set, the preamble keeps its earlier contents and then holds one data block that reads back as a type-0x88 Y8950 ROM/RAM block declaring a 32 KiB image at offset 0; otherwise it is left as it was |
| Converter.FileLayout | src/kss2vgm.c:450-456 | the written file is header, preamble and stream, each found at its offset |
| Converter.FileHeader | src/kss2vgm.c:449-450 | the header read back from the file's first 256 bytes is the header part's |
| Converter.OutputHeader | src/kss2vgm.c:449 | the header is sized for the preamble plus the stream and reads back as the final totals |
| Converter.ConvertReadBack | src/kss2vgm.c:443-456 | the file starts with the magic, is longer than header plus preamble, and its header reads back as the run's ticks, chips and remaining length |
| Converter.OutputParts | src/kss2vgm.c:443-456 | after the header come the 15 ADPCM bytes exactly when the unit was used, and then the whole stream |
| Converter.ConvertPreamble | src/kss2vgm.c:443-456 | for a run, the bytes after the header are the ADPCM block exactly when the run selected the ADPCM unit |
| Converter.ConvertStream | src/kss2vgm.c:435-456 | the stream part of the file decodes, ends with 0x66, waits the run's tick count in total, and starts its K051649 commands with the pulse exactly when SCC was reached |
| Converter.ConvertHeader | src/kss2vgm.c:74-94 | the header in the file describes it: end-of-file offset, sample count, data offset, a non-zero clock exactly for each used chip, and the K051649 field non-zero exactly when the SCC or SCC+ was used, then 1789773 Hz with bit 31 set exactly for the SCC+ |
| Converter.AyLatchPersists | src/kss2vgm.c:216-223 | across any events without a select on port 0xA0 (ticks, other ports, memory writes, data writes) the AY8910 index latch keeps its value |
| Converter.AyDataAfterSelect | src/kss2vgm.c:216-223 | a data write on 0xA1 pairs the index last selected on 0xA0 with its data, whatever events without a select came in between |
| Converter.RunAppend | src/kss2vgm.c:420-431 | running two event sequences one after the other is running their concatenation |
| Converter.OneTick | src/kss2vgm.c:423 | a tick advances the sample clock by one and writes nothing |
| Converter.ThreeTicks | src/kss2vgm.c:423 | three ticks advance the clock by three and write nothing |
| Converter.WriteLevel | src/kss2vgm.c:219-223 | an AY8910 data write with no sample pending appends A0 aa dd alone |
| Converter.WriteAfterThree | src/kss2vgm.c:172-223 | three samples after the last write, the data write is preceded by 61 03 00 |
| Converter.SmallRunLatch | src/kss2vgm.c:216-223 | selecting register 5 and then writing 0x3F appends A0 05 3F |
| Converter.SmallRun | src/kss2vgm.c:170-223 | select 5, write 0x3F, three ticks, write 0x10 and close append A0 05 3F 61 03 00 A0 05 10 66 |

## Left out

- Command-line parsing (`parse_options`, `HLPMSG`), the `print_info` report and `src/main.c` are not modelled. They do option handling and console output only.
- The KSSPLAY/KSS calls in `main` (loading, rendering, stop flag and loop count) are foreign emulator code. The model takes the run as the event sequence they produce. Each rendered sample is a `Tick`. The play-time bound and the two `break`s, which leave only the inner per-second loop, shape that sequence and are not modelled separately.
- Opening and writing the output file are left out. The file is the byte sequence `Converter.Convert` that the three `fwrite` calls would write. I/O failures are not modelled.
- The `realloc` growth of `DataArray`, `init_data_array` and allocation failure are left out. A buffer is just its contents.
- The header is modelled as the layout its stores leave (`Header.ByteAt`), not as a sequence of stores on a zeroed array. `Header.SnParameterStores` shows the only overlapping stores.
- `cmd_buf` is not modelled. Each handler's command is a `VgmCommands.Command` value that the encoder lays out.
- Converter.RunFacts: stated only while the run has fewer than 2^32 ticks. `Step` wraps the uint32 sample clock, but a wrapped clock breaks the relation between waits and ticks.
- Converter.FinishFacts: the same bound on the tick count.
- Converter.ConvertReadBack: the same bound on the tick count.
- Converter.ConvertPreamble: the same bound on the tick count.
- Converter.ConvertStream: the same bound on the tick count.
- Converter.ConvertHeader: the same bound on the tick count.
- Header.HeaderOffsets: the exact "plus 4" relation holds only while the file length fits in 32 bits. `Header.HeaderFields` states the modulo-2^32 value that the uint32 sum produces otherwise.
- Header.VolumeByte: the volume option is an `int` that is narrowed to `int8_t` on the call. The model stores it modulo 256, which is the two's-complement narrowing. Out-of-range options follow that narrowing rather than any compiler-specific behaviour.
