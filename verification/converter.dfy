/** The conversion run as a whole: the register writes the emulator reports
    and the sample ticks in between are a sequence of events fed to the
    handlers, and `main` then closes the stream and lays out the file as
    header, preamble and command stream. */
module Converter {
  import opened Bytes
  import opened Wrappers
  import opened VgmCommands
  import opened Session
  import opened Scheduler
  import opened IoPorts
  import opened Scc
  import opened Header

  /** What the emulator loop reports: one rendered sample, an I/O port write
      or a memory write. */
  datatype Event =
    | Tick
    | PortWrite(port: uint32, data: uint32)
    | MemoryWrite(addr: uint32, data: uint32)

  /** One event: a tick advances the uint32 sample clock (`total_samples++`),
      the writes go to iowrite_handler and memwrite_handler. */
  function Step(st: State, e: Event): State
  {
    match e
    case Tick => st.(totalSamples := (st.totalSamples + 1) % TwoTo32)
    case PortWrite(a, d) => IoWrite(st, a, d)
    case MemoryWrite(a, d) => MemWrite(st, a, d)
  }

  function Run(st: State, es: seq<Event>): State
    decreases |es|
  {
    if |es| == 0 then st else Run(Step(st, es[0]), es[1..])
  }

  // ------------------------------------------- reference readings of a run

  /** The number of samples a run renders. */
  function Ticks(es: seq<Event>): nat
  {
    if |es| == 0 then 0 else (if es[0].Tick? then 1 else 0) + Ticks(es[1..])
  }

  /** The chips a single event reveals. */
  function EventChips(e: Event): set<Chip>
  {
    match e
    case Tick => {}
    case PortWrite(a, d) => IoChips(a, d)
    case MemoryWrite(a, d) =>
      if MemTarget(a).Some? && MemTarget(a).value.0.port == 1 && d != 0 then {MemTarget(a).value.1} else {}
  }

  /** The chips a run reveals. */
  function UsedChips(es: seq<Event>): set<Chip>
  {
    if |es| == 0 then {} else EventChips(es[0]) + UsedChips(es[1..])
  }

  /** Whether some memory write of the run reaches an SCC or SCC+ register. */
  predicate ReachesScc(es: seq<Event>)
  {
    exists i :: 0 <= i < |es| && es[i].MemoryWrite? && MemTarget(es[i].addr).Some?
  }

  // ---------------------------------------------------------------- steps

  /** One event keeps the scheduler invariant, advances the clock by one
      exactly on a tick, adds the chips the event reveals, and leaves the
      preamble buffer alone. */
  lemma StepFacts(st: State, e: Event)
    requires Valid(st)
    requires e.Tick? ==> st.totalSamples + 1 < TwoTo32
    ensures var r := Step(st, e);
      && Valid(r)
      && r.totalSamples == st.totalSamples + (if e.Tick? then 1 else 0)
      && r.chips == st.chips + EventChips(e)
      && r.sccInitialized == (st.sccInitialized || (e.MemoryWrite? && MemTarget(e.addr).Some?))
      && r.ini == st.ini
  {
    match e
    case Tick =>
    case PortWrite(a, d) => PortWriteFacts(st, a, d);
    case MemoryWrite(a, d) => MemoryWriteFacts(st, a, d);
  }

  lemma PortWriteFacts(st: State, a: uint32, d: uint32)
    requires Valid(st)
    ensures var r := IoWrite(st, a, d);
      && Valid(r) && r.totalSamples == st.totalSamples && r.chips == st.chips + IoChips(a, d)
      && r.sccInitialized == st.sccInitialized && r.ini == st.ini
  {
    IoWriteValid(st, a, d);
  }

  lemma MemoryWriteFacts(st: State, a: uint32, d: uint32)
    requires Valid(st)
    ensures var r := MemWrite(st, a, d);
      && Valid(r) && r.totalSamples == st.totalSamples && r.chips == st.chips + EventChips(MemoryWrite(a, d))
      && r.sccInitialized == (st.sccInitialized || MemTarget(a).Some?) && r.ini == st.ini
  {
    MemWriteValid(st, a, d);
  }

  /** The same for a whole run, as long as the clock does not wrap. */
  lemma {:induction false} RunFacts(st: State, es: seq<Event>)
    requires Valid(st)
    requires st.totalSamples + Ticks(es) < TwoTo32
    ensures var r := Run(st, es);
      && Valid(r)
      && r.totalSamples == st.totalSamples + Ticks(es)
      && r.chips == st.chips + UsedChips(es)
      && r.sccInitialized == (st.sccInitialized || ReachesScc(es))
      && r.ini == st.ini
    decreases |es|
  {
    if |es| > 0 {
      var e := es[0];
      var rest := es[1..];
      StepFacts(st, e);
      RunFacts(Step(st, e), rest);
      ReachesSccCons(es);
    }
  }

  /** A run reaches an SCC register when its first event does or the rest of
      the run does. */
  lemma ReachesSccCons(es: seq<Event>)
    requires |es| > 0
    ensures ReachesScc(es) <==> (es[0].MemoryWrite? && MemTarget(es[0].addr).Some?) || ReachesScc(es[1..])
  {
    var rest := es[1..];
    if ReachesScc(rest) {
      var i :| 0 <= i < |rest| && rest[i].MemoryWrite? && MemTarget(rest[i].addr).Some?;
      assert es[i + 1] == rest[i];
    }
    if ReachesScc(es) && !(es[0].MemoryWrite? && MemTarget(es[0].addr).Some?) {
      var i :| 0 <= i < |es| && es[i].MemoryWrite? && MemTarget(es[i].addr).Some?;
      assert rest[i - 1] == es[i];
    }
  }

  /** The ADPCM preamble is due exactly when some write selects Y8950
      register 0x0F. */
  lemma {:induction false} AdpcmSeen(es: seq<Event>)
    ensures Y8950Adpcm in UsedChips(es) <==> exists i :: 0 <= i < |es| && es[i] == PortWrite(0xC0, 0x0F)
    decreases |es|
  {
    if |es| > 0 {
      AdpcmSeen(es[1..]);
      if exists i :: 0 <= i < |es[1..]| && es[1..][i] == PortWrite(0xC0, 0x0F) {
        var i :| 0 <= i < |es[1..]| && es[1..][i] == PortWrite(0xC0, 0x0F);
        assert es[i + 1] == es[1..][i];
      }
      if exists i :: 0 <= i < |es| && es[i] == PortWrite(0xC0, 0x0F) {
        var i :| 0 <= i < |es| && es[i] == PortWrite(0xC0, 0x0F);
        if i > 0 { assert es[1..][i - 1] == es[i]; }
      }
    }
  }

  // ------------------------------------------------------------- assembly

  /** The emulator loop over the events, then write_eos_command. */
  function Finish(st: State, es: seq<Event>): State
    decreases |es|
  {
    if |es| == 0 then WriteEos(st) else Finish(Step(st, es[0]), es[1..])
  }

  lemma {:induction false} FinishIsRunThenEos(st: State, es: seq<Event>)
    ensures Finish(st, es) == WriteEos(Run(st, es))
    decreases |es|
  {
    if |es| > 0 {
      FinishIsRunThenEos(Step(st, es[0]), es[1..]);
    }
  }

  /** The state main assembles the file from: the clock counts the ticks,
      the flags are the revealed chips, the preamble buffer is still empty,
      and the stream decodes to commands whose waits add up to the ticks,
      which end with the end marker, and whose first K051649 command is the
      enable pulse exactly when some memory write reached an SCC or SCC+
      register. */
  lemma FinishFacts(es: seq<Event>)
    requires Ticks(es) < TwoTo32
    ensures var fin := Finish(Init, es);
      && fin.totalSamples == Ticks(es)
      && fin.chips == UsedChips(es)
      && fin.ini == []
      && |fin.vgm| > 0
      && Closed(fin.vgm, Ticks(es), if ReachesScc(es) then Some(SccInitPulse) else None)
  {
    InitValid();
    RunFacts(Init, es);
    WriteEosValid(Run(Init, es));
    FinishIsRunThenEos(Init, es);
  }

  /** The preamble buffer once main has written it: when the ADPCM unit was
      selected, its earlier contents followed by one data block that reads
      back as a Y8950 ROM/RAM block for a 32 KiB image starting at 0;
      otherwise its earlier contents alone. */
  function Preamble(st: State): (ini: seq<byte>)
    ensures Y8950Adpcm in st.chips ==>
      && |ini| == |st.ini| + 15
      && ini[..|st.ini|] == st.ini
      && ReadDataBlock(ini[|st.ini|..]) == Some((Y8950RomBlockType, 0x8000, 0))
    ensures Y8950Adpcm in st.chips ==> ini == st.ini + Y8950AdpcmInit
    ensures Y8950Adpcm !in st.chips ==> ini == st.ini
  {
    if Y8950Adpcm in st.chips then
      var ini := IniWrite(st.ini, Y8950AdpcmInit);
      WrappersAppend(st.ini, 0, 0, 0, Y8950AdpcmInit);
      AdpcmInitBlock();
      ini
    else st.ini
  }

  /** The file main writes, as its three parts. */
  datatype VgmFile = VgmFile(header: seq<byte>, ini: seq<byte>, vgm: seq<byte>)

  /** The three fwrite calls that end main: header, preamble, stream. */
  function FileBytes(f: VgmFile): seq<byte>
  {
    f.header + f.ini + f.vgm
  }

  /** Each part is found again at its offset in the written bytes. */
  lemma FileLayout(f: VgmFile)
    requires |f.header| == HeaderSize
    ensures var out := FileBytes(f);
      && |out| == HeaderSize + |f.ini| + |f.vgm|
      && out[..HeaderSize] == f.header
      && out[HeaderSize..HeaderSize + |f.ini|] == f.ini
      && out[HeaderSize + |f.ini|..] == f.vgm
  {
    var out := FileBytes(f);
    assert out == f.header + (f.ini + f.vgm);
    assert out[HeaderSize..] == f.ini + f.vgm;
  }

  /** The end of main: the preamble completed, and the header sized for the
      preamble plus the stream (ini_data.size + vgm_data.size). */
  function Output(fin: State, volume: int): (f: VgmFile)
    ensures |f.header| == HeaderSize
  {
    var ini := Preamble(fin);
    VgmFile(CreateHeader(|ini + fin.vgm|, fin.totalSamples, volume, fin.chips), ini, fin.vgm)
  }

  /** The file main writes for a run's events at the given volume option. */
  function Convert(es: seq<Event>, volume: int): seq<byte>
  {
    FileBytes(Output(Finish(Init, es), volume))
  }

  /** The length of the preamble for the given discovery flags. */
  function PreambleLength(chips: set<Chip>): nat
  {
    if Y8950Adpcm in chips then |Y8950AdpcmInit| else 0
  }

  /** The header read back from the written bytes is the header part's. */
  lemma FileHeader(f: VgmFile)
    requires |f.header| == HeaderSize
    ensures |FileBytes(f)| >= HeaderSize
    ensures FileBytes(f)[..4] == f.header[..4]
    ensures ReadHeader(FileBytes(f)[..HeaderSize]) == ReadHeader(f.header)
    ensures |FileBytes(f)[HeaderSize..]| == |f.ini + f.vgm|
  {
    FileLayout(f);
  }

  /** Assembling a final state: the header part starts with the magic and
      reads back as the header for the state's clock and flags and for the
      length of the other parts. */
  lemma OutputHeader(fin: State, volume: int)
    ensures var f := Output(fin, volume);
      && f.header[..4] == Magic
      && ReadHeader(f.header) == HeaderFor(|f.ini + f.vgm|, fin.totalSamples, volume, fin.chips)
  {
    CreateHeaderReads(|Preamble(fin) + fin.vgm|, fin.totalSamples, volume, fin.chips);
  }

  /** Assembling a final state with an empty preamble buffer and a
      non-empty stream: the file starts with the magic and the preamble and
      stream follow the header. */
  lemma OutputMagic(fin: State, volume: int)
    requires fin.ini == [] && |fin.vgm| > 0
    ensures var out := FileBytes(Output(fin, volume));
      && HeaderSize + PreambleLength(fin.chips) < |out|
      && out[..4] == Magic
  {
    var f := Output(fin, volume);
    OutputParts(fin, volume);
    OutputHeader(fin, volume);
    FileHeader(f);
  }

  /** The header of such a file reads back as the header for the state's
      clock and flags and for the length of what follows the header. */
  lemma OutputReadBack(fin: State, volume: int, t: uint32, chips: set<Chip>)
    requires fin.totalSamples == t && fin.chips == chips
    ensures var out := FileBytes(Output(fin, volume));
      && |out| >= HeaderSize
      && ReadHeader(out[..HeaderSize]) == HeaderFor(|out[HeaderSize..]|, t, volume, chips)
  {
    OutputHeader(fin, volume);
    FileHeader(Output(fin, volume));
  }

  /** The file starts with the magic, and its header reads back as the
      header for the run: the number of ticks, the revealed chips and the
      length of what follows the header. */
  lemma ConvertReadBack(es: seq<Event>, volume: int)
    requires Ticks(es) < TwoTo32
    ensures var out := Convert(es, volume);
      && HeaderSize + PreambleLength(UsedChips(es)) < |out|
      && out[..4] == Magic
      && ReadHeader(out[..HeaderSize]) == HeaderFor(|out[HeaderSize..]|, Ticks(es), volume, UsedChips(es))
  {
    FinishFacts(es);
    OutputMagic(Finish(Init, es), volume);
    OutputReadBack(Finish(Init, es), volume, Ticks(es), UsedChips(es));
  }

  /** Assembling such a state: the preamble after the header is the ADPCM
      block exactly when the ADPCM unit was revealed, and the stream follows
      it unchanged. */
  lemma OutputParts(fin: State, volume: int)
    requires fin.ini == [] && |fin.vgm| > 0
    ensures var out := FileBytes(Output(fin, volume));
      var n := PreambleLength(fin.chips);
      && HeaderSize + n < |out|
      && out[HeaderSize..HeaderSize + n] == (if n == 0 then [] else Y8950AdpcmInit)
      && out[HeaderSize + n..] == fin.vgm
  {
    FileLayout(Output(fin, volume));
  }

  /** After the header the file holds the ADPCM block exactly when the ADPCM
      unit was selected. */
  lemma ConvertPreamble(es: seq<Event>, volume: int)
    requires Ticks(es) < TwoTo32
    ensures var out := Convert(es, volume);
      var n := PreambleLength(UsedChips(es));
      && HeaderSize + n < |out|
      && out[HeaderSize..HeaderSize + n] == (if n == 0 then [] else Y8950AdpcmInit)
  {
    FinishFacts(es);
    OutputParts(Finish(Init, es), volume);
  }

  /** Then comes the stream, up to the end of the file: it decodes to
      commands whose waits add up to the ticks and which end with the end
      marker (so the file's last byte is 0x66), and whose first K051649
      command is the enable pulse exactly when some memory write reached an
      SCC or SCC+ register. */
  lemma ConvertStream(es: seq<Event>, volume: int)
    requires Ticks(es) < TwoTo32
    ensures var out := Convert(es, volume);
      var n := PreambleLength(UsedChips(es));
      && HeaderSize + n < |out|
      && Closed(out[HeaderSize + n..], Ticks(es), if ReachesScc(es) then Some(SccInitPulse) else None)
  {
    FinishFacts(es);
    OutputParts(Finish(Init, es), volume);
  }

  /** The header's offsets and clocks for a run: the end-of-file offset is
      the file length less 4 (modulo 2^32), the sample count is the number
      of ticks, the data offset points just past the header, and each clock
      is set exactly when its chip was revealed. */
  lemma ConvertHeader(es: seq<Event>, volume: int)
    requires Ticks(es) < TwoTo32
    ensures var out := Convert(es, volume);
      |out| >= HeaderSize && Describes(ReadHeader(out[..HeaderSize]), |out|, Ticks(es), UsedChips(es))
  {
    ConvertReadBack(es, volume);
    var out := Convert(es, volume);
    HeaderFields(|out|, |out[HeaderSize..]|, Ticks(es), volume, UsedChips(es));
  }

  /** The AY8910 index latch is touched only by the select port: ticks,
      other ports and memory writes leave it as it was. */
  lemma {:induction false} AyLatchPersists(st: State, es: seq<Event>)
    requires forall i :: 0 <= i < |es| ==> !(es[i].PortWrite? && es[i].port == 0xa0)
    ensures Run(st, es).psgAdr == st.psgAdr
    decreases |es|
  {
    if |es| > 0 {
      AyLatchPersists(Step(st, es[0]), es[1..]);
    }
  }

  /** A data write on 0xA1 pairs the index last selected on 0xA0 with its
      data, whatever events came between the select and the write. */
  lemma AyDataAfterSelect(st: State, d1: uint32, es: seq<Event>, d2: uint32)
    requires forall i :: 0 <= i < |es| ==> !(es[i].PortWrite? && es[i].port == 0xa0)
    ensures IoCommand(Run(IoWrite(st, 0xa0, d1), es), 0xa1, d2) == Some(Ay8910Write(d1 % 0x100, d2 % 0x100))
  {
    AyLatchPersists(IoWrite(st, 0xa0, d1), es);
  }

  /** Running two event sequences one after the other is running their
      concatenation. */
  lemma {:induction false} RunAppend(st: State, a: seq<Event>, b: seq<Event>)
    ensures Run(st, a + b) == Run(Run(st, a), b)
    decreases |a|
  {
    if |a| == 0 {
      assert a + b == b;
    } else {
      var ab := a + b;
      assert ab[0] == a[0];
      assert ab[1..] == a[1..] + b;
      RunAppend(Step(st, a[0]), a[1..], b);
      assert Run(st, ab) == Run(Step(st, a[0]), a[1..] + b);
    }
  }

  /** Select AY8910 register 5, then write 0x3F to it: with no samples
      pending, the data write pairs the latched index with the data and
      needs no wait. */
  lemma SmallRunLatch(st: State)
    requires st.lastWriteClock == st.totalSamples
    ensures Run(st, [PortWrite(0xa0, 5), PortWrite(0xa1, 0x3F)])
      == st.(psgAdr := 5, chips := st.chips + {Ay8910}, vgm := st.vgm + [0xA0, 0x05, 0x3F])
  {
    var e1, e2 := PortWrite(0xa0, 5), PortWrite(0xa1, 0x3F);
    var s1 := st.(psgAdr := 5, chips := st.chips + {Ay8910});
    var s2 := st.(psgAdr := 5, chips := st.chips + {Ay8910}, vgm := st.vgm + [0xA0, 0x05, 0x3F]);
    SelectFive(st);
    assert Step(st, e1) == s1;
    WriteLevel(s1, 0x3F);
    assert Step(s1, e2) == s2;
    RunTwo(st, e1, e2);
  }

  lemma RunOne(st: State, e: Event)
    ensures Run(st, [e]) == Step(st, e)
  {
    assert [e][1..] == [];
  }

  lemma RunTwo(st: State, e1: Event, e2: Event)
    ensures Run(st, [e1, e2]) == Step(Step(st, e1), e2)
  {
    assert [e1, e2][1..] == [e2];
    RunOne(Step(st, e1), e2);
  }

  lemma SelectFive(st: State)
    ensures Step(st, PortWrite(0xa0, 5)) == st.(psgAdr := 5, chips := st.chips + {Ay8910})
  {
  }

  /** An AY8910 data write with no samples pending appends A0 aa dd alone. */
  lemma WriteLevel(st: State, d: byte)
    requires st.lastWriteClock == st.totalSamples && st.psgAdr < 0x100
    ensures Step(st, PortWrite(0xa1, d)) == st.(vgm := st.vgm + [0xA0, st.psgAdr, d])
  {
    var c := Ay8910Write(st.psgAdr, d);
    var r := Step(st, PortWrite(0xa1, d));
    assert r == IoWrite(st, 0xa1, d);
    assert st.psgAdr % 0x100 == st.psgAdr && d % 0x100 == d;
    assert IoCommand(st, 0xa1, d) == Some(c);
    EmittedLevel(st, r, [c]);
    assert EncodeAll([c]) == [0xA0, st.psgAdr, d];
  }

  /** One tick advances the sample clock by one and writes nothing. */
  lemma OneTick(st: State)
    requires st.totalSamples + 1 < TwoTo32
    ensures Run(st, [Tick]) == st.(totalSamples := st.totalSamples + 1)
  {
    RunOne(st, Tick);
    assert (st.totalSamples + 1) % TwoTo32 == st.totalSamples + 1;
  }

  /** Three ticks advance the sample clock by three and write nothing. */
  lemma ThreeTicks(st: State)
    requires st.totalSamples + 3 < TwoTo32
    ensures Run(st, [Tick, Tick, Tick]) == st.(totalSamples := st.totalSamples + 3)
  {
    var s1 := st.(totalSamples := st.totalSamples + 1);
    var s2 := st.(totalSamples := st.totalSamples + 2);
    assert Run(st, [Tick, Tick]) == s2 by {
      assert [Tick] + [Tick] == [Tick, Tick];
      RunAppend(st, [Tick], [Tick]);
      OneTick(st);
      OneTick(s1);
    }
    assert [Tick, Tick] + [Tick] == [Tick, Tick, Tick];
    RunAppend(st, [Tick, Tick], [Tick]);
    OneTick(s2);
  }

  /** Three samples after the last write, a data write is preceded by a
      three-sample wait (61 03 00). */
  lemma WriteAfterThree(st: State)
    requires st.totalSamples == st.lastWriteClock + 3 && st.psgAdr == 5
    ensures var r := Run(st, [PortWrite(0xa1, 0x10)]);
      r.vgm == st.vgm + [0x61, 0x03, 0x00, 0xA0, 0x05, 0x10] && r.lastWriteClock == r.totalSamples
  {
    assert Gap(st) == 3;
    WaitThree();
    RunOne(st, PortWrite(0xa1, 0x10));
  }

  lemma WaitThree()
    ensures EncodeAll(WaitCommands(3)) == [0x61, 0x03, 0x00]
  {
    assert WaitCommands(3) == [Wait(3)];
    WordBytes(3);
    assert Encode(Wait(3)) == [0x61, 0x03, 0x00];
  }

  /** With no samples pending, closing the stream appends the end marker
      alone. */
  lemma EosAfterWrite(st: State)
    requires st.lastWriteClock == st.totalSamples
    ensures WriteEos(st).vgm == st.vgm + [0x66]
  {
    assert Gap(st) == 0 && WaitCommands(0) == [];
    assert EncodeAll([EndOfStream]) == [0x66];
  }

  /** A small run from any state with no samples pending: select AY8910
      register 5, write 0x3F, let three samples pass, write 0x10, close the
      stream. The second write is preceded by a three-sample wait and the
      stream ends with the end marker. */
  lemma SmallRun(st: State)
    requires st.lastWriteClock == st.totalSamples && st.totalSamples + 3 < TwoTo32
    ensures var r := Run(st, [PortWrite(0xa0, 5), PortWrite(0xa1, 0x3F), Tick, Tick, Tick, PortWrite(0xa1, 0x10)]);
      WriteEos(r).vgm == st.vgm + [0xA0, 0x05, 0x3F, 0x61, 0x03, 0x00, 0xA0, 0x05, 0x10, 0x66]
  {
    var a := [PortWrite(0xa0, 5), PortWrite(0xa1, 0x3F)];
    var b: seq<Event> := [Tick, Tick, Tick];
    var c := [PortWrite(0xa1, 0x10)];
    assert a + b + c == [PortWrite(0xa0, 5), PortWrite(0xa1, 0x3F), Tick, Tick, Tick, PortWrite(0xa1, 0x10)];
    RunAppend(st, a + b, c);
    RunAppend(st, a, b);
    SmallRunLatch(st);
    var s2 := Run(st, a);
    ThreeTicks(s2);
    var s5 := Run(s2, b);
    WriteAfterThree(s5);
    var s6 := Run(s5, c);
    EosAfterWrite(s6);
    SmallRunBytes(st.vgm);
  }

  lemma SmallRunBytes(v: seq<byte>)
    ensures v + [0xA0, 0x05, 0x3F] + [0x61, 0x03, 0x00, 0xA0, 0x05, 0x10] + [0x66]
      == v + [0xA0, 0x05, 0x3F, 0x61, 0x03, 0x00, 0xA0, 0x05, 0x10, 0x66]
  {
  }
}
