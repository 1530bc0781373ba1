/** The append-only byte buffer (`DataArray` with `data_array_write`). Its
    storage growth by `realloc` is not modelled: the buffer is its contents. */
module DataArray {
  import opened Bytes

  /** data_array_write: copies buf to the end of the logical region. */
  function Write(arr: seq<byte>, buf: seq<byte>): (r: seq<byte>)
  {
    arr + buf
  }

  /** The earlier contents stay in place and buf follows them. */
  lemma WriteAppends(arr: seq<byte>, buf: seq<byte>)
    ensures |Write(arr, buf)| == |arr| + |buf|
    ensures Write(arr, buf)[..|arr|] == arr
    ensures Write(arr, buf)[|arr|..] == buf
  {
  }

  /** Writing in pieces is writing the pieces' concatenation: three vgm_putc
      calls leave the same buffer as one vgm_write of the three bytes. */
  lemma WriteInPieces(arr: seq<byte>, x: seq<byte>, y: seq<byte>)
    ensures Write(Write(arr, x), y) == Write(arr, x + y)
  {
  }
}

/** The converter's run state, which the C program keeps in file-scope
    statics, as one immutable record, and the buffer wrappers that act on it. */
module Session {
  import opened Bytes
  import DataArray

  /** The sound chips whose use is reported in the header. */
  datatype Chip =
    | Sn76489      // use_sng
    | Ym2413       // use_opll
    | Ay8910       // use_psg
    | K051649      // use_scc
    | K052539      // use_scc_plus
    | Y8950        // use_opl
    | Y8950Adpcm   // use_y8950_adpcm

  datatype State = State(
    opllAdr: uint32,           // last register index selected on the YM2413
    psgAdr: uint32,            // ... on the AY8910
    oplAdr: uint32,            // ... on the Y8950
    totalSamples: uint32,      // the sample clock
    lastWriteClock: uint32,    // sample clock at the most recent command
    sccInitialized: bool,      // the K051649 enable pulse has been emitted
    chips: set<Chip>,          // the discovery flags that are set
    ini: seq<byte>,            // preamble buffer (ini_data)
    vgm: seq<byte>             // command buffer (vgm_data)
  )

  /** Every static at its initial value and both buffers empty. */
  const Init: State := State(0, 0, 0, 0, 0, false, {}, [], [])

  /** vgm_putc: appends one byte to the command buffer. */
  function VgmPutc(vgm: seq<byte>, b: byte): seq<byte>
  {
    DataArray.Write(vgm, [b])
  }

  /** vgm_write: appends buf to the command buffer. */
  function VgmWrite(vgm: seq<byte>, buf: seq<byte>): seq<byte>
  {
    DataArray.Write(vgm, buf)
  }

  /** ini_write: appends buf to the preamble buffer. */
  function IniWrite(ini: seq<byte>, buf: seq<byte>): seq<byte>
  {
    DataArray.Write(ini, buf)
  }

  /** The wrappers append to their buffer: three single-byte vgm_putc calls
      leave the same buffer as one vgm_write of the three bytes, and
      everything written before stays in place. */
  lemma WrappersAppend(vgm: seq<byte>, b0: byte, b1: byte, b2: byte, buf: seq<byte>)
    ensures VgmPutc(VgmPutc(VgmPutc(vgm, b0), b1), b2) == VgmWrite(vgm, [b0, b1, b2])
    ensures VgmWrite(vgm, buf)[..|vgm|] == vgm && VgmWrite(vgm, buf)[|vgm|..] == buf
    ensures IniWrite(vgm, buf)[..|vgm|] == vgm && IniWrite(vgm, buf)[|vgm|..] == buf
  {
    DataArray.WriteInPieces(vgm, [b0], [b1]);
    DataArray.WriteInPieces(vgm, [b0, b1], [b2]);
    assert [b0] + [b1] + [b2] == [b0, b1, b2];
    DataArray.WriteAppends(vgm, buf);
  }
}
