/** The memory-mapped K051649 (SCC) and K052539 (SCC+) address decomposers
    (`scc_handler`, `scc_plus_handler`) and the memory-write router
    (`memwrite_handler`). Both chips are logged with the VGM K051649 command
    D2 pp aa dd, whose port selects wave (0), frequency (1), volume (2),
    channel enable (3), the SCC+ fifth wave table (4) or the test register
    (5). The maps are modelled exactly as the handlers test them. */
module Scc {
  import opened Bytes
  import opened Wrappers
  import opened VgmCommands
  import opened Session
  import opened Scheduler

  /** A decomposed register address. The offset is an `int` because the
      SCC+ handler computes negative ones; it is stored as a byte. */
  datatype Target = Target(port: nat, offset: int)

  /** The K051649 command a decomposed write is logged as. */
  function SccCommand(t: Target, d: uint32): Command
  {
    SccWrite(t.port % 0x100, t.offset % 0x100, d % 0x100)
  }

  // ---------------------------------------------------------------- SCC

  /** The registers the SCC layout gives an address of its own. */
  predicate SccRegister(t: Target)
  {
    match t.port
    case 0 => 0 <= t.offset < 0x80
    case 1 => 0 <= t.offset < 10
    case 2 => 0 <= t.offset < 5
    case 3 => t.offset == 0
    case 5 => 0 <= t.offset < 0x20
    case _ => false
  }

  /** Where a register sits in the SCC window. */
  function SccAddress(t: Target): int
  {
    match t.port
    case 0 => t.offset
    case 1 => 0x80 + t.offset
    case 2 => 0x8A + t.offset
    case 3 => 0x8F
    case _ => 0xE0 + t.offset
  }

  /** The address cascade of scc_handler, on the low byte of the address.
      Its mirror tests `a == 0x90 && a <= 0x99` and `a == 0x9A && a <= 0x9E`
      accept one address each, so 0x91-0x99 and 0x9B-0x9E are dropped. */
  function SccMap(addr: uint32): (r: Option<Target>)
    ensures var a := addr % 0x100;
      r.Some? <==> a <= 0x90 || a == 0x9A || a == 0x9F || 0xE0 <= a
    ensures r.Some? ==> SccRegister(r.value)
    ensures var a := addr % 0x100;
      r.Some? ==> if a in {0x90, 0x9A, 0x9F} then SccAddress(r.value) == a - 0x10 else SccAddress(r.value) == a
  {
    var a := addr % 0x100;
    if a <= 0x7F then Some(Target(0, a))                        // wave
    else if a <= 0x89 then Some(Target(1, a - 0x80))            // frequency
    else if a <= 0x8E then Some(Target(2, a - 0x8A))            // volume
    else if a == 0x8F then Some(Target(3, 0))                   // enable
    else if a == 0x90 && a <= 0x99 then Some(Target(1, a - 0x90))
    else if a == 0x9A && a <= 0x9E then Some(Target(2, a - 0x9A))
    else if a == 0x9F then Some(Target(3, 0))
    else if a <= 0xDF then None
    else if a <= 0xFF then Some(Target(5, a - 0xE0))
    else None
  }

  /** Every SCC register is reached from its own address. */
  lemma SccMapInverse(t: Target)
    requires SccRegister(t)
    ensures 0 <= SccAddress(t) < 0x100
    ensures SccMap(SccAddress(t) as uint32) == Some(t)
  {
    assert 0 <= SccAddress(t) < 0x100;
    assert SccAddress(t) % 0x100 == SccAddress(t);
    match t.port
    case 0 =>
    case 1 =>
    case 2 =>
    case 3 =>
    case 5 =>
  }

  /** Only the low byte counts: every address of the 0x9800-0x98FF window
      whose low byte is a register's own address reaches that register. */
  lemma SccWindowInverse(t: Target, addr: uint32)
    requires SccRegister(t) && addr % 0x100 == SccAddress(t)
    ensures SccMap(addr) == Some(t)
  {
    SccMapInverse(t);
    assert SccMap(addr) == SccMap(SccAddress(t) as uint32);
  }

  /** The mirror range 0x90-0x9F as the handler treats it. */
  lemma SccMirrorsAsWritten()
    ensures SccMap(0x90) == SccMap(0x80) == Some(Target(1, 0))
    ensures SccMap(0x9A) == SccMap(0x8A) == Some(Target(2, 0))
    ensures SccMap(0x9F) == SccMap(0x8F) == Some(Target(3, 0))
    ensures forall a: uint32 :: 0x91 <= a <= 0x99 || 0x9B <= a <= 0x9E ==> SccMap(a) == None
    ensures SccMap(0x9895) == None
  {
  }

  // --------------------------------------------------------------- SCC+

  /** The registers the SCC+ layout gives an address of its own. */
  predicate SccPlusRegister(t: Target)
  {
    match t.port
    case 0 => 0 <= t.offset < 0x80
    case 4 => 0x80 <= t.offset < 0xA0
    case 1 => 0 <= t.offset < 10
    case 2 => 0 <= t.offset < 5
    case 3 => t.offset == 0
    case 5 => 0 <= t.offset < 0x20
    case _ => false
  }

  /** Where a register sits in the SCC+ window. */
  function SccPlusAddress(t: Target): int
  {
    match t.port
    case 0 => t.offset
    case 4 => t.offset
    case 1 => 0xA0 + t.offset
    case 2 => 0xAA + t.offset
    case 3 => 0xAF
    case _ => 0xC0 + t.offset
  }

  /** The address cascade of scc_plus_handler. Port 4 keeps the address
      itself as offset; 0xB1-0xB9 and 0xBB-0xBE miss the one-address mirror
      tests and reach port 5 with offset a - 0xC0, which is negative. */
  function SccPlusMap(addr: uint32): (r: Option<Target>)
    ensures var a := addr % 0x100;
      r.Some? <==> a < 0xE0
    ensures var a := addr % 0x100;
      r.Some? ==> if a in {0xB0, 0xBA, 0xBF} then SccPlusAddress(r.value) == a - 0x10 else SccPlusAddress(r.value) == a
    ensures var a := addr % 0x100;
      r.Some? && r.value.port == 5 ==> -0x10 < r.value.offset < 0x20
    ensures var a := addr % 0x100;
      r.Some? && !(0xB1 <= a <= 0xB9 || 0xBB <= a <= 0xBE) ==> SccPlusRegister(r.value)
    ensures var a := addr % 0x100;
      (0xB1 <= a <= 0xB9 || 0xBB <= a <= 0xBE) ==> r == Some(Target(5, a - 0xC0))
  {
    var a := addr % 0x100;
    if a <= 0x7F then Some(Target(0, a))                        // wave 0-3
    else if a <= 0x9F then Some(Target(4, a))                   // wave 4
    else if a <= 0xA9 then Some(Target(1, a - 0xA0))            // frequency
    else if 0xAA <= a && a <= 0xAE then Some(Target(2, a - 0xAA))  // volume
    else if a == 0xAF then Some(Target(3, 0))                   // enable
    else if a == 0xB0 && a <= 0xB9 then Some(Target(1, a - 0xB0))
    else if a == 0xBA && a <= 0xBE then Some(Target(2, a - 0xBA))
    else if a == 0xBF then Some(Target(3, 0))
    else if a <= 0xDF then Some(Target(5, a - 0xC0))
    else None
  }

  /** Every SCC+ register is reached from its own address. */
  lemma SccPlusMapInverse(t: Target)
    requires SccPlusRegister(t)
    ensures 0 <= SccPlusAddress(t) < 0x100
    ensures SccPlusMap(SccPlusAddress(t) as uint32) == Some(t)
  {
    assert 0 <= SccPlusAddress(t) < 0x100;
    assert SccPlusAddress(t) % 0x100 == SccPlusAddress(t);
    match t.port
    case 0 =>
    case 4 =>
    case 1 =>
    case 2 =>
    case 3 =>
    case 5 =>
  }

  /** Only the low byte counts: every address of the 0xB800-0xB8FF window
      whose low byte is a register's own address reaches that register. */
  lemma SccPlusWindowInverse(t: Target, addr: uint32)
    requires SccPlusRegister(t) && addr % 0x100 == SccPlusAddress(t)
    ensures SccPlusMap(addr) == Some(t)
  {
    SccPlusMapInverse(t);
    assert SccPlusMap(addr) == SccPlusMap(SccPlusAddress(t) as uint32);
  }

  /** The mirror range 0xB0-0xBF as the handler treats it: the addresses
      its one-address tests miss are logged on port 5 with the negative
      offset truncated to a byte. */
  lemma SccPlusMirrorsAsWritten()
    ensures SccPlusMap(0xB0) == SccPlusMap(0xA0) == Some(Target(1, 0))
    ensures SccPlusMap(0xBA) == SccPlusMap(0xAA) == Some(Target(2, 0))
    ensures SccPlusMap(0xBF) == SccPlusMap(0xAF) == Some(Target(3, 0))
    ensures forall a: uint32 :: 0xB1 <= a <= 0xB9 || 0xBB <= a <= 0xBE ==>
      SccPlusMap(a) == Some(Target(5, a - 0xC0)) && SccCommand(SccPlusMap(a).value, 0).offset == a + 0x40
    ensures SccCommand(SccPlusMap(0xB8B5).value, 0x12) == SccWrite(5, 0xF5, 0x12)
  {
  }

  // ------------------------------------------------------- post-processing

  /** The commands a decomposed write appends: the enable pulse if it has
      not been sent yet, then the register write itself. */
  function SccCommands(st: State, t: Target, d: uint32): seq<Command>
  {
    (if st.sccInitialized then [] else [SccInitPulse]) + [SccCommand(t, d)]
  }

  /** The step the two handlers share once an address is accepted: the
      one-time enable pulse, then D2 port offset data, with no wait between
      the two since the first already brought the clocks level. */
  function EmitScc(st: State, t: Target, d: uint32): (r: State)
    ensures r.sccInitialized
    ensures Emitted(st, r, SccCommands(st, t, d))
    ensures r == st.(vgm := r.vgm, lastWriteClock := r.lastWriteClock, sccInitialized := true)
  {
    if st.sccInitialized then
      assert SccCommands(st, t, d) == [SccCommand(t, d)];
      Emit(st, SccCommand(t, d))
    else
      var st1 := Emit(st, SccInitPulse).(sccInitialized := true);   // D2 03 00 1F
      var r := Emit(st1, SccCommand(t, d));                         // D2 pp aa dd
      EmittedThen(st, st1, r, [SccInitPulse], [SccCommand(t, d)]);
      assert [SccInitPulse] + [SccCommand(t, d)] == SccCommands(st, t, d);
      r
  }

  /** What an accepted write leaves behind: the chip flag when it is a
      non-zero frequency write, the pulse-then-write commands, and nothing
      else changed. */
  predicate SccEffect(st: State, t: Target, d: uint32, chip: Chip, r: State)
  {
    && r.chips == st.chips + (if t.port == 1 && d != 0 then {chip} else {})
    && r.sccInitialized
    && Emitted(st, r, SccCommands(st, t, d))
    && r == st.(chips := r.chips, vgm := r.vgm, lastWriteClock := r.lastWriteClock, sccInitialized := true)
  }

  /** scc_handler. */
  function SccHandler(st: State, a: uint32, d: uint32): (r: State)
    ensures SccMap(a).None? ==> r == st
    ensures SccMap(a).Some? ==> SccEffect(st, SccMap(a).value, d, K051649, r)
  {
    match SccMap(a)
    case None => st
    case Some(t) =>
      var st1 := if t.port == 1 && d != 0 then st.(chips := st.chips + {K051649}) else st;
      assert Gap(st1) == Gap(st);
      EmitScc(st1, t, d)
  }

  /** scc_plus_handler. */
  function SccPlusHandler(st: State, a: uint32, d: uint32): (r: State)
    ensures SccPlusMap(a).None? ==> r == st
    ensures SccPlusMap(a).Some? ==> SccEffect(st, SccPlusMap(a).value, d, K052539, r)
  {
    match SccPlusMap(a)
    case None => st
    case Some(t) =>
      var st1 := if t.port == 1 && d != 0 then st.(chips := st.chips + {K052539}) else st;
      assert Gap(st1) == Gap(st);
      EmitScc(st1, t, d)
  }

  predicate InSccWindow(a: uint32) { 0x9800 <= a <= 0x98FF }
  predicate InSccPlusWindow(a: uint32) { 0xB800 <= a <= 0xB8FF }

  /** The decomposed register a memory write reaches, and the chip it
      belongs to, if any. */
  function MemTarget(a: uint32): Option<(Target, Chip)>
  {
    if InSccWindow(a) && SccMap(a).Some? then Some((SccMap(a).value, K051649))
    else if InSccPlusWindow(a) && SccPlusMap(a).Some? then Some((SccPlusMap(a).value, K052539))
    else None
  }

  /** memwrite_handler. */
  function MemWrite(st: State, a: uint32, d: uint32): (r: State)
    ensures MemTarget(a).None? ==> r == st
    ensures MemTarget(a).Some? ==> SccEffect(st, MemTarget(a).value.0, d, MemTarget(a).value.1, r)
  {
    if 0x9800 <= a && a <= 0x98FF then SccHandler(st, a, d)
    else if 0xB800 <= a && a <= 0xB8FF then SccPlusHandler(st, a, d)
    else st
  }

  /** The decomposers keep the scheduler invariant; in particular the enable
      pulse stays the first K051649 command of the stream. */
  lemma MemWriteValid(st: State, a: uint32, d: uint32)
    requires Valid(st)
    ensures Valid(MemWrite(st, a, d))
  {
    var r := MemWrite(st, a, d);
    if MemTarget(a).Some? {
      var t := MemTarget(a).value.0;
      var cs := SccCommands(st, t, d);
      SccCommandsShape(st, t, d);
      EmittedDecodes(st, r, cs);
      EmittedFirstScc(st, r, cs);
    }
  }

  /** The appended commands are register writes, and the pulse leads them
      when it is due. */
  lemma SccCommandsShape(st: State, t: Target, d: uint32)
    ensures var cs := SccCommands(st, t, d);
      && (forall i :: 0 <= i < |cs| ==> WellFormed(cs[i]) && !cs[i].Wait?)
      && (!st.sccInitialized ==> FirstScc(cs) == Some(SccInitPulse))
  {
  }

  /** A zero written to a frequency register does not mark the chip in use;
      a non-zero one does. */
  lemma FrequencyFlag(st: State, a: uint32, d: uint32)
    requires K051649 !in st.chips
    requires InSccWindow(a) && SccMap(a).Some? && SccMap(a).value.port == 1
    ensures K051649 in MemWrite(st, a, d).chips <==> d != 0
  {
  }

  /** The enable pulse is sent once: a second accepted write appends only
      its own command, with no wait when no sample elapsed. */
  lemma PulseOnce(st: State, a1: uint32, d1: uint32, a2: uint32, d2: uint32)
    requires MemTarget(a1).Some? && MemTarget(a2).Some?
    ensures var s1 := MemWrite(st, a1, d1);
      s1.sccInitialized
      && MemWrite(s1, a2, d2).vgm == s1.vgm + Encode(SccCommand(MemTarget(a2).value.0, d2))
  {
    var s1 := MemWrite(st, a1, d1);
    var t2 := MemTarget(a2).value.0;
    var c := SccCommand(t2, d2);
    assert SccCommands(s1, t2, d2) == [c];
    EmittedLevel(s1, MemWrite(s1, a2, d2), [c]);
    assert EncodeAll([c]) == Encode(c) by { assert [c][1..] == []; }
  }
}
