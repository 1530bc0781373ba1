/** The I/O-port translator (`iowrite_handler`): register-select/data latch
    pairs for the YM2413, Y8950 and AY8910, direct SN76489 writes and the
    Game Gear stereo register. */
module IoPorts {
  import opened Bytes
  import opened Wrappers
  import opened VgmCommands
  import opened Session
  import opened Scheduler

  /** Ports that latch a register index on one chip. */
  predicate Ym2413Select(a: uint32) { a == 0x7c || a == 0xf0 }
  predicate Y8950Select(a: uint32) { a == 0xC0 }
  predicate Ay8910Select(a: uint32) { a == 0xa0 }

  /** The Y8950 register index that selects the ADPCM unit. */
  const Y8950AdpcmRegister: uint32 := 0x0f

  /** The ports iowrite_handler reacts to. */
  predicate Handled(a: uint32)
  {
    a in {0x7c, 0xf0, 0x7d, 0xf1, 0xC0, 0xC1, 0xa0, 0xa1, 0x7E, 0x7F, 0x06}
  }

  /** The chips a write to port a with data d marks as in use. */
  function IoChips(a: uint32, d: uint32): set<Chip>
  {
    (if Ym2413Select(a) then {Ym2413} else {})
    + (if Y8950Select(a) then {Y8950} else {})
    + (if Y8950Select(a) && d == Y8950AdpcmRegister then {Y8950Adpcm} else {})
    + (if Ay8910Select(a) then {Ay8910} else {})
    + (if a == 0x7E || a == 0x7F then {Sn76489} else {})
  }

  /** The VGM command a write stands for, given the latched register indices:
      a data port pairs the latched index with the data byte. */
  function IoCommand(st: State, a: uint32, d: uint32): Option<Command>
  {
    if a == 0x7d || a == 0xf1 then Some(Ym2413Write(st.opllAdr % 0x100, d % 0x100))
    else if a == 0xC1 then Some(Y8950Write(st.oplAdr % 0x100, d % 0x100))
    else if a == 0xa1 then Some(Ay8910Write(st.psgAdr % 0x100, d % 0x100))
    else if a == 0x7E || a == 0x7F then Some(Sn76489Write(d % 0x100))
    else if a == 0x06 then Some(GgStereoWrite(d % 0x100))
    else None
  }

  /** What a write to port a with data d does, stated port by port. */
  predicate IoEffect(st: State, a: uint32, d: uint32, r: State)
  {
    // select ports only latch; data ports leave the latches alone
    && r.opllAdr == (if Ym2413Select(a) then d else st.opllAdr)
    && r.oplAdr == (if Y8950Select(a) then d else st.oplAdr)
    && r.psgAdr == (if Ay8910Select(a) then d else st.psgAdr)
    && r.chips == st.chips + IoChips(a, d)
    // the data and direct ports emit their command through the scheduler
    && (IoCommand(st, a, d).None? ==> r.vgm == st.vgm && r.lastWriteClock == st.lastWriteClock)
    && (IoCommand(st, a, d).Some? ==> Emitted(st, r, [IoCommand(st, a, d).value]))
    // the sample clock, the enable-pulse flag and the preamble are untouched
    && r == st.(opllAdr := r.opllAdr, oplAdr := r.oplAdr, psgAdr := r.psgAdr, chips := r.chips,
                vgm := r.vgm, lastWriteClock := r.lastWriteClock)
  }

  /** iowrite_handler: the port pairs in the order the handler tests them. */
  function IoWrite(st: State, a: uint32, d: uint32): (r: State)
    ensures IoEffect(st, a, d, r)
    // any other port changes nothing
    ensures !Handled(a) ==> r == st
  {
    if a in {0x7c, 0xf0, 0x7d, 0xf1} then Ym2413Port(st, a, d)
    else if a in {0xC0, 0xC1} then Y8950Port(st, a, d)
    else if a in {0xa0, 0xa1} then Ay8910Port(st, a, d)
    else if a in {0x7E, 0x7F} then Sn76489Port(st, a, d)
    else if a == 0x06 then GgStereoPort(st, a, d)
    else st
  }

  /** YM2413 (MSX-MUSIC): address latch at 0x7C / 0xF0, data at 0x7D / 0xF1. */
  function Ym2413Port(st: State, a: uint32, d: uint32): (r: State)
    requires a in {0x7c, 0xf0, 0x7d, 0xf1}
    ensures IoEffect(st, a, d, r)
  {
    if a == 0x7c || a == 0xf0 then
      st.(chips := st.chips + {Ym2413}, opllAdr := d)
    else
      Emit(st, Ym2413Write(st.opllAdr % 0x100, d % 0x100))   // 51 aa dd
  }

  /** Y8950 (MSX-AUDIO): address latch at 0xC0, data at 0xC1. Selecting
      register 0x0F reveals use of the ADPCM unit. */
  function Y8950Port(st: State, a: uint32, d: uint32): (r: State)
    requires a in {0xC0, 0xC1}
    ensures IoEffect(st, a, d, r)
  {
    if a == 0xC0 then
      var st1 := st.(chips := st.chips + {Y8950}, oplAdr := d);
      if d == 0x0f then st1.(chips := st1.chips + {Y8950Adpcm}) else st1
    else
      Emit(st, Y8950Write(st.oplAdr % 0x100, d % 0x100))     // 5C aa dd
  }

  /** AY-3-8910 (PSG): address latch at 0xA0, data at 0xA1. */
  function Ay8910Port(st: State, a: uint32, d: uint32): (r: State)
    requires a in {0xa0, 0xa1}
    ensures IoEffect(st, a, d, r)
  {
    if a == 0xa0 then
      st.(chips := st.chips + {Ay8910}, psgAdr := d)
    else
      Emit(st, Ay8910Write(st.psgAdr % 0x100, d % 0x100))    // A0 aa dd
  }

  /** SN76489 (DCSG): a single data port at 0x7E / 0x7F. */
  function Sn76489Port(st: State, a: uint32, d: uint32): (r: State)
    requires a in {0x7E, 0x7F}
    ensures IoEffect(st, a, d, r)
  {
    // use_sng is set before write_command; the two touch disjoint fields
    Emit(st, Sn76489Write(d % 0x100)).(chips := st.chips + {Sn76489})   // 50 dd
  }

  /** Game Gear stereo register at port 0x06; it marks no chip. */
  function GgStereoPort(st: State, a: uint32, d: uint32): (r: State)
    requires a == 0x06
    ensures IoEffect(st, a, d, r)
  {
    Emit(st, GgStereoWrite(d % 0x100))   // 4F dd
  }

  /** The translator keeps the scheduler invariant. */
  lemma IoWriteValid(st: State, a: uint32, d: uint32)
    requires Valid(st)
    ensures Valid(IoWrite(st, a, d))
  {
    var r := IoWrite(st, a, d);
    match IoCommand(st, a, d)
    case None =>
    case Some(c) =>
      EmittedDecodes(st, r, [c]);
      EmittedFirstScc(st, r, [c]);
  }

  /** The register index selected on a select port persists: a later data
      write pairs it with the data, however many data writes came between. */
  lemma LatchPersists(st: State, d1: uint32, d2: uint32, d3: uint32)
    ensures var s1 := IoWrite(st, 0xa0, d1);
            IoCommand(s1, 0xa1, d2) == Some(Ay8910Write(d1 % 0x100, d2 % 0x100))
            && IoCommand(IoWrite(s1, 0xa1, d2), 0xa1, d3) == Some(Ay8910Write(d1 % 0x100, d3 % 0x100))
  {
  }

  /** The ADPCM flag is set exactly by a Y8950 select of register 0x0F. */
  lemma AdpcmFlag(st: State, a: uint32, d: uint32)
    requires Y8950Adpcm !in st.chips
    ensures Y8950Adpcm in IoWrite(st, a, d).chips <==> a == 0xC0 && d == 0x0f
  {
  }
}
