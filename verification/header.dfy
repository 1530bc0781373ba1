/** The 256-byte VGM 1.70 header (`create_vgm_header`) and the Y8950 ADPCM
    data-block preamble (`y8950_adpcm_init`). */
module Header {
  import opened Bytes
  import opened Wrappers
  import opened Session

  const HeaderSize: nat := 0x100
  const Version: nat := 0x170
  /** The NTSC colour-burst clock (SN76489, YM2413, Y8950). */
  const ColorburstClock: nat := 3579545
  /** Half of it (AY8910, K051649). */
  const HalfClock: nat := 1789773
  /** Bit 31 of the K051649 clock selects the K052539 (SCC+) variant. */
  const SccPlusBit: nat := 0x8000_0000
  /** "Vgm " */
  const Magic: seq<byte> := [0x56, 0x67, 0x6D, 0x20]

  /** A chip's clock field: its clock when the chip was used, else 0. */
  function ClockIf(chips: set<Chip>, c: Chip, clock: nat): nat
  {
    if c in chips then clock else 0
  }

  /** The K051649 clock field; an SCC+ run also sets the variant bit. */
  function SccClock(chips: set<Chip>): nat
  {
    if K052539 in chips then SccPlusBit + HalfClock
    else if K051649 in chips then HalfClock
    else 0
  }

  /** The header fields the transcoder fills in. */
  datatype HeaderInfo = HeaderInfo(
    eofOffset: nat,          // 0x04: file length less 4
    version: nat,            // 0x08
    sn76489Clock: nat,       // 0x0C
    ym2413Clock: nat,        // 0x10
    gd3Offset: nat,          // 0x14
    totalSamples: nat,       // 0x18
    loopOffset: nat,         // 0x1C
    loopSamples: nat,        // 0x20
    rate: nat,               // 0x24
    snFeedback: nat,         // 0x28, 16 bits
    snShiftWidth: byte,      // 0x2A
    snFlags: byte,           // 0x2B
    dataOffset: nat,         // 0x34, relative to the field itself
    y8950Clock: nat,         // 0x58
    ay8910Clock: nat,        // 0x74
    ayType: byte,            // 0x78
    ayFlags: byte,           // 0x79
    volumeModifier: byte,    // 0x7C
    k051649Clock: nat        // 0x9C
  )

  /** Every field fits its width. */
  predicate Fits(info: HeaderInfo)
  {
    && info.eofOffset < TwoTo32 && info.version < TwoTo32
    && info.sn76489Clock < TwoTo32 && info.ym2413Clock < TwoTo32
    && info.gd3Offset < TwoTo32 && info.totalSamples < TwoTo32
    && info.loopOffset < TwoTo32 && info.loopSamples < TwoTo32
    && info.rate < TwoTo32 && info.snFeedback < 0x1_0000
    && info.dataOffset < TwoTo32 && info.y8950Clock < TwoTo32
    && info.ay8910Clock < TwoTo32 && info.k051649Clock < TwoTo32
  }

  /** Byte i of the header holding info: the magic, then each field little
      endian at its offset, and zero everywhere else. */
  function ByteAt(info: HeaderInfo, i: nat): byte
  {
    if i < 0x04 then Magic[i]
    else if i < 0x08 then Dword(info.eofOffset)[i - 0x04]
    else if i < 0x0C then Dword(info.version)[i - 0x08]
    else if i < 0x10 then Dword(info.sn76489Clock)[i - 0x0C]
    else if i < 0x14 then Dword(info.ym2413Clock)[i - 0x10]
    else if i < 0x18 then Dword(info.gd3Offset)[i - 0x14]
    else if i < 0x1C then Dword(info.totalSamples)[i - 0x18]
    else if i < 0x20 then Dword(info.loopOffset)[i - 0x1C]
    else if i < 0x24 then Dword(info.loopSamples)[i - 0x20]
    else if i < 0x28 then Dword(info.rate)[i - 0x24]
    else if i < 0x2A then Word(info.snFeedback)[i - 0x28]
    else if i == 0x2A then info.snShiftWidth
    else if i == 0x2B then info.snFlags
    else if i < 0x34 then 0
    else if i < 0x38 then Dword(info.dataOffset)[i - 0x34]
    else if i < 0x58 then 0
    else if i < 0x5C then Dword(info.y8950Clock)[i - 0x58]
    else if i < 0x74 then 0
    else if i < 0x78 then Dword(info.ay8910Clock)[i - 0x74]
    else if i == 0x78 then info.ayType
    else if i == 0x79 then info.ayFlags
    else if i == 0x7C then info.volumeModifier
    else if i < 0x9C then 0
    else if i < 0xA0 then Dword(info.k051649Clock)[i - 0x9C]
    else 0
  }

  /** The 256 header bytes holding info. */
  function Serialize(info: HeaderInfo): (h: seq<byte>)
    ensures |h| == HeaderSize
  {
    seq(HeaderSize, i requires 0 <= i => ByteAt(info, i))
  }

  /** Byte k of the serialized header is the layout's byte k. */
  lemma SerializeAt(info: HeaderInfo, k: nat)
    requires k < HeaderSize
    ensures Serialize(info)[k] == ByteAt(info, k)
  {
  }

  /** Reads the header fields of a VGM file at their offsets. */
  function ReadHeader(h: seq<byte>): HeaderInfo
    requires |h| >= HeaderSize
  {
    HeaderInfo(
      ReadDword(h, 0x04), ReadDword(h, 0x08), ReadDword(h, 0x0C), ReadDword(h, 0x10),
      ReadDword(h, 0x14), ReadDword(h, 0x18), ReadDword(h, 0x1C), ReadDword(h, 0x20),
      ReadDword(h, 0x24), ReadWord(h, 0x28), h[0x2A], h[0x2B], ReadDword(h, 0x34),
      ReadDword(h, 0x58), ReadDword(h, 0x74), h[0x78], h[0x79], h[0x7C], ReadDword(h, 0x9C))
  }

  /** The offsets holding a field or the magic. */
  predicate Written(i: int)
  {
    i < 0x2C || 0x34 <= i < 0x38 || 0x58 <= i < 0x5C || 0x74 <= i < 0x7A || i == 0x7C || 0x9C <= i < 0xA0
  }

  lemma SerializeAt4(info: HeaderInfo, off: nat)
    requires off + 4 <= HeaderSize
    ensures Serialize(info)[off] == ByteAt(info, off)
    ensures Serialize(info)[off + 1] == ByteAt(info, off + 1)
    ensures Serialize(info)[off + 2] == ByteAt(info, off + 2)
    ensures Serialize(info)[off + 3] == ByteAt(info, off + 3)
  {
    SerializeAt(info, off);
    SerializeAt(info, off + 1);
    SerializeAt(info, off + 2);
    SerializeAt(info, off + 3);
  }

  /** Four bytes that are a value's little-endian encoding read back as it. */
  lemma ReadDwordAt(h: seq<byte>, off: nat, v: nat)
    requires off + 4 <= |h| && v < TwoTo32
    requires h[off] == Dword(v)[0] && h[off + 1] == Dword(v)[1]
    requires h[off + 2] == Dword(v)[2] && h[off + 3] == Dword(v)[3]
    ensures ReadDword(h, off) == v
  {
    assert h[off..off + 4] == Dword(v);
  }

  /** Round trip, fields 0x04 to 0x10. */
  lemma ReadIdentity(info: HeaderInfo)
    requires Fits(info)
    ensures var h := Serialize(info);
            && ReadDword(h, 0x04) == info.eofOffset && ReadDword(h, 0x08) == info.version
            && ReadDword(h, 0x0C) == info.sn76489Clock && ReadDword(h, 0x10) == info.ym2413Clock
  {
    var h := Serialize(info);
    SerializeAt4(info, 0x04);
    ReadDwordAt(h, 0x04, info.eofOffset);
    SerializeAt4(info, 0x08);
    ReadDwordAt(h, 0x08, info.version);
    SerializeAt4(info, 0x0C);
    ReadDwordAt(h, 0x0C, info.sn76489Clock);
    SerializeAt4(info, 0x10);
    ReadDwordAt(h, 0x10, info.ym2413Clock);
  }

  /** Round trip, fields 0x14 to 0x20. */
  lemma ReadLengths(info: HeaderInfo)
    requires Fits(info)
    ensures var h := Serialize(info);
            && ReadDword(h, 0x14) == info.gd3Offset && ReadDword(h, 0x18) == info.totalSamples
            && ReadDword(h, 0x1C) == info.loopOffset && ReadDword(h, 0x20) == info.loopSamples
  {
    var h := Serialize(info);
    SerializeAt4(info, 0x14);
    ReadDwordAt(h, 0x14, info.gd3Offset);
    SerializeAt4(info, 0x18);
    ReadDwordAt(h, 0x18, info.totalSamples);
    SerializeAt4(info, 0x1C);
    ReadDwordAt(h, 0x1C, info.loopOffset);
    SerializeAt4(info, 0x20);
    ReadDwordAt(h, 0x20, info.loopSamples);
  }

  /** Round trip, fields 0x24 to 0x34. */
  lemma ReadSn76489Params(info: HeaderInfo)
    requires Fits(info)
    ensures var h := Serialize(info);
            && ReadDword(h, 0x24) == info.rate && ReadWord(h, 0x28) == info.snFeedback
            && h[0x2A] == info.snShiftWidth && h[0x2B] == info.snFlags
            && ReadDword(h, 0x34) == info.dataOffset
  {
    var h := Serialize(info);
    SerializeAt4(info, 0x24);
    ReadDwordAt(h, 0x24, info.rate);
    assert ReadWord(h, 0x28) == info.snFeedback by {
      SerializeAt(info, 0x28);
      SerializeAt(info, 0x29);
      assert h[0x28..0x2A] == Word(info.snFeedback);
    }
    SerializeAt(info, 0x2A);
    SerializeAt(info, 0x2B);
    SerializeAt4(info, 0x34);
    ReadDwordAt(h, 0x34, info.dataOffset);
  }

  /** Round trip, fields 0x58 to 0x9C. */
  lemma ReadExtraChips(info: HeaderInfo)
    requires Fits(info)
    ensures var h := Serialize(info);
            && ReadDword(h, 0x58) == info.y8950Clock && ReadDword(h, 0x74) == info.ay8910Clock
            && h[0x78] == info.ayType && h[0x79] == info.ayFlags && h[0x7C] == info.volumeModifier
            && ReadDword(h, 0x9C) == info.k051649Clock
  {
    var h := Serialize(info);
    SerializeAt4(info, 0x58);
    ReadDwordAt(h, 0x58, info.y8950Clock);
    SerializeAt4(info, 0x74);
    ReadDwordAt(h, 0x74, info.ay8910Clock);
    SerializeAt(info, 0x78);
    SerializeAt(info, 0x79);
    SerializeAt(info, 0x7C);
    SerializeAt4(info, 0x9C);
    ReadDwordAt(h, 0x9C, info.k051649Clock);
  }

  /** Round trip: reading a serialized header gives back its fields. */
  lemma ReadSerialize(info: HeaderInfo)
    requires Fits(info)
    ensures ReadHeader(Serialize(info)) == info
  {
    ReadIdentity(info);
    ReadLengths(info);
    ReadSn76489Params(info);
    ReadExtraChips(info);
  }

  /** A serialized header starts with the magic and is zero outside the
      fields. */
  lemma SerializeFrame(info: HeaderInfo)
    ensures Serialize(info)[..4] == Magic
    ensures forall i :: 0 <= i < HeaderSize && !Written(i) ==> Serialize(info)[i] == 0
  {
    var h := Serialize(info);
    forall i | 0 <= i < HeaderSize
      ensures h[i] == ByteAt(info, i)
    {
      SerializeAt(info, i);
    }
  }

  /** The field values create_vgm_header writes for a run: dataSize bytes
      follow the header, totalSamples is the sample clock, volume is the
      volume option (truncated to a signed byte on the call, stored as its
      two's-complement byte) and chips are the discovery flags. */
  function HeaderFor(dataSize: nat, totalSamples: uint32, volume: int, chips: set<Chip>): (info: HeaderInfo)
    ensures Fits(info)
  {
    HeaderInfo(
      eofOffset := (HeaderSize + dataSize - 4) % TwoTo32,
      version := Version,
      sn76489Clock := ClockIf(chips, Sn76489, ColorburstClock),
      ym2413Clock := ClockIf(chips, Ym2413, ColorburstClock),
      gd3Offset := 0,
      totalSamples := totalSamples,
      loopOffset := 0,
      loopSamples := 0,
      rate := 60,
      snFeedback := 0x0009,
      snShiftWidth := 16,
      snFlags := 0,
      dataOffset := HeaderSize - 0x34,
      y8950Clock := ClockIf(chips, Y8950, ColorburstClock),
      ay8910Clock := ClockIf(chips, Ay8910, HalfClock),
      ayType := 0,
      ayFlags := 0,
      volumeModifier := volume % 0x100,
      k051649Clock := SccClock(chips))
  }

  /** create_vgm_header: the 256-byte header for a run. It starts with the
      magic, and reading it back gives the run's field values. */
  function CreateHeader(dataSize: nat, totalSamples: uint32, volume: int, chips: set<Chip>): (h: seq<byte>)
    ensures |h| == HeaderSize
  {
    Serialize(HeaderFor(dataSize, totalSamples, volume, chips))
  }

  /** The header create_vgm_header writes starts with the magic and reads
      back as the header information of the run. */
  lemma CreateHeaderReads(dataSize: nat, totalSamples: uint32, volume: int, chips: set<Chip>)
    ensures var h := CreateHeader(dataSize, totalSamples, volume, chips);
      h[..4] == Magic && ReadHeader(h) == HeaderFor(dataSize, totalSamples, volume, chips)
  {
    var info := HeaderFor(dataSize, totalSamples, volume, chips);
    ReadSerialize(info);
    SerializeFrame(info);
  }

  lemma CreateHeaderZeros(dataSize: nat, totalSamples: uint32, volume: int, chips: set<Chip>)
    ensures forall i :: 0 <= i < HeaderSize && !Written(i) ==> CreateHeader(dataSize, totalSamples, volume, chips)[i] == 0
  {
    SerializeFrame(HeaderFor(dataSize, totalSamples, volume, chips));
  }

  /** The three SN76489 parameter stores overlap: the flags WORD at 0x2B
      overwrites the high byte of the shift-width WORD at 0x2A and clears
      0x2C. */
  lemma SnParameterStores(buf: seq<byte>)
    requires |buf| == HeaderSize
    ensures var b := PutWord(PutWord(PutWord(buf, 0x28, 0x0009), 0x2A, 16), 0x2B, 0);
            b[0x28..0x2D] == [0x09, 0x00, 16, 0x00, 0x00]
  {
    var b2 := PutWord(PutWord(buf, 0x28, 0x0009), 0x2A, 16);
    assert b2[0x28] == 0x09 && b2[0x29] == 0x00;
  }

  /** What those stores leave is the layout of the serialized header at
      0x28 to 0x2C. */
  lemma SnParameterLayout(info: HeaderInfo)
    requires info.snFeedback == 0x0009 && info.snShiftWidth == 16 && info.snFlags == 0
    ensures Serialize(info)[0x28..0x2D] == [0x09, 0x00, 16, 0x00, 0x00]
  {
    var h := Serialize(info);
    assert h[0x28] == 0x09 && h[0x29] == 0x00 by {
      FeedbackBytes(info);
      SerializeAt(info, 0x28);
      SerializeAt(info, 0x29);
    }
    assert h[0x2A] == 16 && h[0x2B] == 0x00 by {
      SerializeAt(info, 0x2A);
      SerializeAt(info, 0x2B);
    }
    assert h[0x2C] == 0x00 by {
      SerializeAt(info, 0x2C);
    }
    FiveBytes(h, 0x28, [0x09, 0x00, 16, 0x00, 0x00]);
  }

  lemma FiveBytes(h: seq<byte>, off: nat, bs: seq<byte>)
    requires off + 5 <= |h| && |bs| == 5
    requires h[off] == bs[0] && h[off + 1] == bs[1] && h[off + 2] == bs[2]
    requires h[off + 3] == bs[3] && h[off + 4] == bs[4]
    ensures h[off..off + 5] == bs
  {
  }

  lemma FeedbackBytes(info: HeaderInfo)
    ensures ByteAt(info, 0x28) == info.snFeedback % 0x100
    ensures ByteAt(info, 0x29) == (info.snFeedback / 0x100) % 0x100
  {
    WordBytes(info.snFeedback);
  }

  /** Each chip's clock field is nonzero exactly when the chip was used,
      and the K051649 field carries the SCC+ bit exactly when the K052539
      was used. */
  lemma HeaderChips(dataSize: nat, totalSamples: uint32, volume: int, chips: set<Chip>)
    ensures var info := HeaderFor(dataSize, totalSamples, volume, chips);
            && (info.sn76489Clock != 0 <==> Sn76489 in chips)
            && (info.ym2413Clock != 0 <==> Ym2413 in chips)
            && (info.y8950Clock != 0 <==> Y8950 in chips)
            && (info.ay8910Clock != 0 <==> Ay8910 in chips)
            && (info.k051649Clock != 0 <==> K051649 in chips || K052539 in chips)
            && (info.k051649Clock >= SccPlusBit <==> K052539 in chips)
            && info.k051649Clock % SccPlusBit == (if info.k051649Clock == 0 then 0 else HalfClock)
  {
  }

  /** The header fields that describe a run's file of fileLength bytes: the
      end-of-file offset is the file length less 4 (modulo 2^32), the
      sample count is the run's, the data offset points just past the
      header, and each clock is set exactly when its chip was revealed (the
      K051649 field when either SCC variant was, over a 1789773 Hz clock,
      with the SCC+ bit exactly for the K052539). */
  predicate Describes(info: HeaderInfo, fileLength: int, totalSamples: nat, chips: set<Chip>)
  {
    && info.eofOffset == (fileLength - 4) % TwoTo32
    && info.totalSamples == totalSamples
    && 0x34 + info.dataOffset == HeaderSize
    && (info.sn76489Clock != 0 <==> Sn76489 in chips)
    && (info.ym2413Clock != 0 <==> Ym2413 in chips)
    && (info.y8950Clock != 0 <==> Y8950 in chips)
    && (info.ay8910Clock != 0 <==> Ay8910 in chips)
    && (info.k051649Clock != 0 <==> K051649 in chips || K052539 in chips)
    && (info.k051649Clock >= SccPlusBit <==> K052539 in chips)
    && info.k051649Clock % SccPlusBit == (if info.k051649Clock == 0 then 0 else HalfClock)
  }

  /** The header written for dataSize bytes after it describes the file. */
  lemma HeaderFields(fileLength: nat, dataSize: nat, totalSamples: uint32, volume: int, chips: set<Chip>)
    requires fileLength == HeaderSize + dataSize
    ensures Describes(HeaderFor(dataSize, totalSamples, volume, chips), fileLength, totalSamples, chips)
  {
    HeaderChips(dataSize, totalSamples, volume, chips);
  }

  /** The offsets locate the parts of the file: the data starts right after
      the header, and the end-of-file offset plus 4 is the file length, as
      long as that length fits in 32 bits. */
  lemma HeaderOffsets(dataSize: nat, totalSamples: uint32, volume: int, chips: set<Chip>)
    requires HeaderSize + dataSize < TwoTo32
    ensures var info := HeaderFor(dataSize, totalSamples, volume, chips);
            && 0x34 + info.dataOffset == HeaderSize
            && info.eofOffset + 4 == HeaderSize + dataSize
            && info.totalSamples == totalSamples
            && info.version == Version
  {
  }

  /** The volume byte is the option's two's-complement low byte: read back
      as a signed byte it gives the option whenever the option fits in one. */
  lemma VolumeByte(dataSize: nat, totalSamples: uint32, volume: int, chips: set<Chip>)
    requires -0x80 <= volume < 0x80
    ensures var v := HeaderFor(dataSize, totalSamples, volume, chips).volumeModifier;
            (if v < 0x80 then v else v - 0x100) == volume
  {
  }

  /** The Y8950 ADPCM preamble: a VGM data block (67 66 tt ss ss ss ss) of
      type 0x88 whose payload declares a 32 KiB ADPCM memory image and an
      empty chunk at offset 0. */
  const Y8950AdpcmInit: seq<byte> := [
    0x67, 0x66,
    0x88,
    0x08, 0x00, 0x00, 0x00,
    0x00, 0x80, 0x00, 0x00,
    0x00, 0x00, 0x00, 0x00]

  /** The data block type of Y8950 DELTA-T ROM/RAM images. */
  const Y8950RomBlockType: byte := 0x88

  /** Reads a VGM data block: its type, its payload, and the declared image
      size and start offset of a ROM/RAM payload; None when the bytes are
      not exactly one data block. */
  function ReadDataBlock(s: seq<byte>): (r: Option<(byte, nat, nat)>)
    ensures r.Some? ==> |s| >= 15 && s[0] == 0x67 && s[1] == 0x66
  {
    if |s| < 7 || s[0] != 0x67 || s[1] != 0x66 then None
    else
      var size := ReadDword(s, 3);
      if |s| != 7 + size || size < 8 then None
      else Some((s[2], ReadDword(s, 7), ReadDword(s, 11)))
  }

  /** The preamble is one well-formed data block for the Y8950 ADPCM memory:
      32 KiB image, data starting at 0, and no bytes of the image itself. */
  lemma AdpcmInitBlock()
    ensures |Y8950AdpcmInit| == 15
    ensures ReadDataBlock(Y8950AdpcmInit) == Some((Y8950RomBlockType, 0x8000, 0))
  {
    var s := Y8950AdpcmInit;
    assert s[3..7] == [0x08, 0x00, 0x00, 0x00];
    assert s[7..11] == [0x00, 0x80, 0x00, 0x00];
    assert s[11..15] == [0x00, 0x00, 0x00, 0x00];
  }
}
