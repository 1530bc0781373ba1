/** The delta-time scheduler: `write_command` flushes the samples elapsed
    since the previous command as wait commands of at most 65535 samples
    each, then appends the command itself. */
module Scheduler {
  import opened Bytes
  import opened Wrappers
  import opened VgmCommands
  import opened Session

  /** The greedy split of a gap of d samples into wait commands: full
      65535-sample waits while more than 65535 remain, then one wait for the
      rest if it is not zero. */
  function WaitCommands(d: nat): (r: seq<Command>)
    ensures WaitSum(r) == d
    ensures forall i :: 0 <= i < |r| ==> r[i].Wait? && 0 < r[i].samples <= MaxWait
    ensures forall i :: 0 <= i < |r| - 1 ==> r[i].samples == MaxWait
    decreases d
  {
    if MaxWait < d then [Wait(MaxWait)] + WaitCommands(d - MaxWait)
    else if 0 < d then [Wait(d)]
    else []
  }

  /** The greedy split is the only way to cover d samples with waits of at
      most 65535 in which every wait but the last is full. */
  lemma {:induction false} WaitChunkingUnique(cs: seq<Command>, d: nat)
    requires forall i :: 0 <= i < |cs| ==> cs[i].Wait? && 0 < cs[i].samples <= MaxWait
    requires forall i :: 0 <= i < |cs| - 1 ==> cs[i].samples == MaxWait
    requires WaitSum(cs) == d
    ensures cs == WaitCommands(d)
    decreases |cs|
  {
    if |cs| == 1 {
      assert WaitSum(cs[1..]) == 0;
    } else if |cs| > 1 {
      var rest := cs[1..];
      assert cs[0].samples == MaxWait;
      assert WaitSum(rest) > 0 by { assert rest[0].samples > 0; WaitSumPositive(rest); }
      WaitChunkingUnique(rest, d - MaxWait);
      assert cs == [cs[0]] + rest;
    }
  }

  /** The split has ceil(d / 65535) waits. */
  lemma {:induction false} WaitCount(d: nat)
    ensures |WaitCommands(d)| == (d + MaxWait - 1) / MaxWait
    decreases d
  {
    if MaxWait < d {
      WaitCount(d - MaxWait);
    }
  }

  lemma WaitSumPositive(cs: seq<Command>)
    requires |cs| > 0 && cs[0].Wait? && cs[0].samples > 0
    ensures WaitSum(cs) > 0
  {
  }

  /** A gap of 140000 samples becomes two full waits and a wait of 8930
      (0x22E2): 61 FF FF 61 FF FF 61 E2 22. */
  lemma WaitBytesExample()
    ensures WaitCommands(140000) == [Wait(65535), Wait(65535), Wait(8930)]
    ensures EncodeAll(WaitCommands(140000)) == [0x61, 0xFF, 0xFF, 0x61, 0xFF, 0xFF, 0x61, 0xE2, 0x22]
  {
    assert WaitCommands(8930) == [Wait(8930)];
    assert WaitCommands(74465) == [Wait(65535), Wait(8930)];
    assert Word(65535) == [0xFF, 0xFF];
    assert Word(8930) == [0xE2, 0x22];
  }

  /** Encoding of the greedy split, one full wait at a time. */
  lemma WaitEncodingFull(d: nat)
    requires MaxWait < d
    ensures EncodeAll(WaitCommands(d)) == [OpWait, 0xFF, 0xFF] + EncodeAll(WaitCommands(d - MaxWait))
  {
    var ws := WaitCommands(d);
    assert ws[1..] == WaitCommands(d - MaxWait);
    WordBytes(MaxWait);
  }

  lemma WaitEncodingLast(d: nat)
    requires 0 < d <= MaxWait
    ensures EncodeAll(WaitCommands(d)) == [OpWait, d % 0x100, (d / 0x100) % 0x100]
  {
    var ws := WaitCommands(d);
    assert ws == [Wait(d)];
    assert ws[1..] == [];
    WordBytes(d);
  }

  /** The `while (65535 < d)` loop and the trailing `if (0 < d)` of
      write_command, appending byte by byte to the command buffer: the
      encoding of the greedy split. */
  function FlushWaits(vgm: seq<byte>, d: nat): (r: seq<byte>)
    ensures r == vgm + EncodeAll(WaitCommands(d))
    decreases d
  {
    if MaxWait < d then
      var vgm1 := VgmPutc(VgmPutc(VgmPutc(vgm, OpWait), 0xFF), 0xFF);
      WrappersAppend(vgm, OpWait, 0xFF, 0xFF, []);
      var r := FlushWaits(vgm1, d - MaxWait);
      WaitEncodingFull(d);
      AppendAssoc(vgm, [OpWait, 0xFF, 0xFF], EncodeAll(WaitCommands(d - MaxWait)));
      r
    else if 0 < d then
      var r := VgmPutc(VgmPutc(VgmPutc(vgm, OpWait), d % 0x100), (d / 0x100) % 0x100);
      WrappersAppend(vgm, OpWait, d % 0x100, (d / 0x100) % 0x100, []);
      WaitEncodingLast(d);
      r
    else
      assert WaitCommands(d) == [];
      vgm
  }

  /** The uint32 difference `total_samples - last_write_clock`. */
  function Gap(st: State): uint32
  {
    (st.totalSamples - st.lastWriteClock) % TwoTo32
  }

  /** write_command: the elapsed gap as waits, then the command bytes.
      Everything written before is kept, and the clock of the last write
      catches up with the sample clock. */
  function WriteCommand(st: State, buf: seq<byte>): (r: State)
    ensures r.vgm == st.vgm + EncodeAll(WaitCommands(Gap(st))) + buf
    ensures r.lastWriteClock == r.totalSamples == st.totalSamples
    ensures r == st.(vgm := r.vgm, lastWriteClock := r.lastWriteClock)
  {
    var vgm1 := FlushWaits(st.vgm, Gap(st));
    st.(lastWriteClock := st.totalSamples, vgm := VgmWrite(vgm1, buf))
  }

  /** write_eos_command. */
  function WriteEos(st: State): (r: State)
    ensures r.vgm == st.vgm + EncodeAll(WaitCommands(Gap(st)) + [EndOfStream])
    ensures r.vgm[|r.vgm| - 1] == OpEndOfStream
    ensures r == st.(vgm := r.vgm, lastWriteClock := st.totalSamples)
  {
    var r := WriteCommand(st, [OpEndOfStream]);
    EncodeAllAppend(WaitCommands(Gap(st)), [EndOfStream]);
    assert EncodeAll([EndOfStream]) == [OpEndOfStream];
    r
  }

  /** r came from st by flushing the gap and appending the encodings of cs. */
  predicate Emitted(st: State, r: State, cs: seq<Command>)
  {
    && r.vgm == st.vgm + EncodeAll(WaitCommands(Gap(st)) + cs)
    && r.lastWriteClock == st.totalSamples
  }

  /** Two emissions with no sample in between read as one: the second
      flushes no wait, so the first's gap is followed by both command lists. */
  lemma EmittedThen(st: State, s1: State, r: State, cs1: seq<Command>, cs2: seq<Command>)
    requires Emitted(st, s1, cs1) && Emitted(s1, r, cs2)
    requires s1.totalSamples == st.totalSamples
    ensures Emitted(st, r, cs1 + cs2)
  {
    var w := WaitCommands(Gap(st));
    assert r.vgm == s1.vgm + EncodeAll(cs2) by {
      assert Gap(s1) == 0;
      assert WaitCommands(Gap(s1)) + cs2 == cs2 by { assert WaitCommands(0) == []; }
    }
    EncodeAllAssoc(st.vgm, w, cs1, cs2);
  }

  /** With no samples pending, an emission appends the commands alone. */
  lemma EmittedLevel(st: State, r: State, cs: seq<Command>)
    requires Emitted(st, r, cs)
    requires st.lastWriteClock == st.totalSamples
    ensures r.vgm == st.vgm + EncodeAll(cs)
  {
    assert Gap(st) == 0;
    assert WaitCommands(Gap(st)) + cs == cs by { assert WaitCommands(0) == []; }
  }

  lemma EncodeAllAssoc(v: seq<byte>, w: seq<Command>, cs1: seq<Command>, cs2: seq<Command>)
    ensures v + EncodeAll(w + cs1) + EncodeAll(cs2) == v + EncodeAll(w + (cs1 + cs2))
  {
    assert EncodeAll(w + (cs1 + cs2)) == EncodeAll(w + cs1) + EncodeAll(cs2) by {
      EncodeAllAppend(w + cs1, cs2);
      AppendAssoc(w, cs1, cs2);
    }
    AppendAssoc(v, EncodeAll(w + cs1), EncodeAll(cs2));
  }

  /** What write_command emits for a command, seen through the decoder. */
  lemma WriteCommandEmits(st: State, c: Command)
    ensures Emitted(st, WriteCommand(st, Encode(c)), [c])
  {
    EncodeAllSnoc(st.vgm, WaitCommands(Gap(st)), c);
  }

  lemma EncodeAllSnoc(v: seq<byte>, ws: seq<Command>, c: Command)
    ensures v + EncodeAll(ws) + Encode(c) == v + EncodeAll(ws + [c])
  {
    assert EncodeAll(ws + [c]) == EncodeAll(ws) + Encode(c) by {
      assert EncodeAll([c]) == Encode(c) by { assert [c][1..] == []; }
      EncodeAllAppend(ws, [c]);
    }
    AppendAssoc(v, EncodeAll(ws), Encode(c));
  }

  /** write_command on the bytes a handler lays out in cmd_buf, which are
      the encoding of c. */
  function Emit(st: State, c: Command): (r: State)
    ensures Emitted(st, r, [c])
    ensures r == st.(vgm := r.vgm, lastWriteClock := r.lastWriteClock)
  {
    WriteCommandEmits(st, c);
    WriteCommand(st, Encode(c))
  }

  /** The scheduler's invariant: the command buffer parses, its waits add up
      to the clock of the last write, which is not ahead of the sample clock,
      and the first K051649 command is the enable pulse exactly when the
      pulse has been sent. */
  predicate Valid(st: State)
  {
    && st.lastWriteClock <= st.totalSamples
    && Decode(st.vgm).Some?
    && WaitSum(Decode(st.vgm).value) == st.lastWriteClock
    && FirstScc(Decode(st.vgm).value) == (if st.sccInitialized then Some(SccInitPulse) else None)
  }

  /** A finished stream: it parses to commands that end with the end marker
      (its last byte is 0x66), whose waits add up to total and whose first
      K051649 command is first. */
  predicate Closed(vgm: seq<byte>, total: nat, first: Option<Command>)
  {
    && |vgm| > 0
    && vgm[|vgm| - 1] == OpEndOfStream
    && Decode(vgm).Some?
    && var cs := Decode(vgm).value;
    && |cs| > 0
    && cs[|cs| - 1] == EndOfStream
    && WaitSum(cs) == total
    && FirstScc(cs) == first
  }

  lemma InitValid()
    ensures Valid(Init)
  {
  }

  /** Flushing and appending keeps the stream decodable, and afterwards the
      waits add up to the sample clock. */
  lemma EmittedDecodes(st: State, r: State, cs: seq<Command>)
    requires Valid(st)
    requires Emitted(st, r, cs)
    requires forall i :: 0 <= i < |cs| ==> WellFormed(cs[i]) && !cs[i].Wait?
    ensures Decode(r.vgm) == Some(Decode(st.vgm).value + (WaitCommands(Gap(st)) + cs))
    ensures WaitSum(Decode(r.vgm).value) == st.totalSamples
  {
    var prior := Decode(st.vgm).value;
    var ws := WaitCommands(Gap(st));
    var added := ws + cs;
    AddedDecodes(ws, cs);
    DecodeAppend(st.vgm, EncodeAll(added), prior);
    WaitSumAppend(prior, added);
    GapExact(st);
  }

  /** After flushing and appending, the first K051649 command is the earlier
      one, or else the first one among the appended commands. */
  lemma EmittedFirstScc(st: State, r: State, cs: seq<Command>)
    requires Valid(st)
    requires Emitted(st, r, cs)
    requires forall i :: 0 <= i < |cs| ==> WellFormed(cs[i]) && !cs[i].Wait?
    ensures Decode(r.vgm).Some?
    ensures FirstScc(Decode(r.vgm).value) == (if st.sccInitialized then Some(SccInitPulse) else FirstScc(cs))
  {
    EmittedDecodes(st, r, cs);
    var prior := Decode(st.vgm).value;
    var added := WaitCommands(Gap(st)) + cs;
    AddedDecodes(WaitCommands(Gap(st)), cs);
    FirstSccAppend(prior, added);
  }

  /** With the clocks in order, the uint32 subtraction does not wrap. */
  lemma GapExact(st: State)
    requires st.lastWriteClock <= st.totalSamples
    ensures Gap(st) == st.totalSamples - st.lastWriteClock
  {
  }

  /** Waits followed by non-wait commands: the round trip, the wait total and
      the first K051649 command of the pair. */
  lemma AddedDecodes(ws: seq<Command>, cs: seq<Command>)
    requires forall i :: 0 <= i < |ws| ==> ws[i].Wait? && ws[i].samples <= MaxWait
    requires forall i :: 0 <= i < |cs| ==> WellFormed(cs[i]) && !cs[i].Wait?
    ensures Decode(EncodeAll(ws + cs)) == Some(ws + cs)
    ensures WaitSum(ws + cs) == WaitSum(ws)
    ensures FirstScc(ws + cs) == FirstScc(cs)
  {
    var added := ws + cs;
    forall i | 0 <= i < |added|
      ensures WellFormed(added[i])
    {
      if i < |ws| { assert added[i] == ws[i]; } else { assert added[i] == cs[i - |ws|]; }
    }
    DecodeEncodeAll(added);
    WaitSumAppend(ws, cs);
    NoWaits(cs);
    FirstSccAppend(ws, cs);
    NoScc(ws);
  }

  lemma {:induction false} NoWaits(cs: seq<Command>)
    requires forall i :: 0 <= i < |cs| ==> !cs[i].Wait?
    ensures WaitSum(cs) == 0
    decreases |cs|
  {
    if |cs| > 0 {
      NoWaits(cs[1..]);
    }
  }

  lemma {:induction false} NoScc(cs: seq<Command>)
    requires forall i :: 0 <= i < |cs| ==> cs[i].Wait?
    ensures FirstScc(cs) == None
    decreases |cs|
  {
    if |cs| > 0 {
      NoScc(cs[1..]);
    }
  }

  /** The end marker keeps the invariant and closes the stream: it still
      parses, now ends with the end-of-stream command, and its waits add up
      to the sample clock. */
  lemma WriteEosValid(st: State)
    requires Valid(st)
    ensures Valid(WriteEos(st))
    ensures Closed(WriteEos(st).vgm, st.totalSamples, if st.sccInitialized then Some(SccInitPulse) else None)
  {
    var r := WriteEos(st);
    EmittedDecodes(st, r, [EndOfStream]);
    EmittedFirstScc(st, r, [EndOfStream]);
  }
}
