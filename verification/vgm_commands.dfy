/** The part of the VGM 1.70 command vocabulary the transcoder emits, an
    encoder that lays each command out as bytes, and a decoder that reads a
    command stream back.  The decoder is the independent reading of the
    output against which the scheduler and the handlers are stated. */
module VgmCommands {
  import opened Bytes
  import opened Wrappers

  const OpGgStereo: byte := 0x4F
  const OpSn76489: byte := 0x50
  const OpYm2413: byte := 0x51
  const OpY8950: byte := 0x5C
  const OpWait: byte := 0x61
  const OpEndOfStream: byte := 0x66
  const OpAy8910: byte := 0xA0
  const OpK051649: byte := 0xD2

  /** Largest operand of one wait command (a 16-bit field). */
  const MaxWait: nat := 65535

  datatype Command =
    | Wait(samples: nat)                                   // 61 nn nn
    | GgStereoWrite(data: byte)                            // 4F dd
    | Sn76489Write(data: byte)                             // 50 dd
    | Ym2413Write(reg: byte, data: byte)                   // 51 aa dd
    | Y8950Write(reg: byte, data: byte)                    // 5C aa dd
    | Ay8910Write(reg: byte, data: byte)                   // A0 aa dd
    | SccWrite(port: byte, offset: byte, data: byte)       // D2 pp aa dd
    | EndOfStream                                          // 66

  /** The one-time K051649 enable pulse: port 3 (channel enable), offset 0, all
      five channels on. */
  const SccInitPulse: Command := SccWrite(3, 0, 0x1F)

  /** A command whose fields fit its encoding. */
  predicate WellFormed(c: Command)
  {
    c.Wait? ==> c.samples <= MaxWait
  }

  function Encode(c: Command): seq<byte>
  {
    match c
    case Wait(n) => [OpWait] + Word(n)
    case GgStereoWrite(d) => [OpGgStereo, d]
    case Sn76489Write(d) => [OpSn76489, d]
    case Ym2413Write(a, d) => [OpYm2413, a, d]
    case Y8950Write(a, d) => [OpY8950, a, d]
    case Ay8910Write(a, d) => [OpAy8910, a, d]
    case SccWrite(p, a, d) => [OpK051649, p, a, d]
    case EndOfStream => [OpEndOfStream]
  }

  function EncodeAll(cs: seq<Command>): seq<byte>
  {
    if |cs| == 0 then [] else Encode(cs[0]) + EncodeAll(cs[1..])
  }

  /** Length in bytes of the command an opcode starts; 0 for opcodes this
      stream never contains. */
  function CommandLength(op: byte): nat
  {
    if op == OpEndOfStream then 1
    else if op == OpGgStereo || op == OpSn76489 then 2
    else if op == OpWait || op == OpYm2413 || op == OpY8950 || op == OpAy8910 then 3
    else if op == OpK051649 then 4
    else 0
  }

  /** Reads the single command s holds. */
  function DecodeOne(s: seq<byte>): Command
    requires |s| >= 1 && |s| == CommandLength(s[0])
  {
    var op := s[0];
    if op == OpEndOfStream then EndOfStream
    else if op == OpGgStereo then GgStereoWrite(s[1])
    else if op == OpSn76489 then Sn76489Write(s[1])
    else if op == OpWait then Wait(LeValue(s[1..3]))
    else if op == OpYm2413 then Ym2413Write(s[1], s[2])
    else if op == OpY8950 then Y8950Write(s[1], s[2])
    else if op == OpAy8910 then Ay8910Write(s[1], s[2])
    else SccWrite(s[1], s[2], s[3])
  }

  /** Splits a byte stream into commands; None when it does not parse. */
  function Decode(s: seq<byte>): Option<seq<Command>>
    decreases |s|
  {
    if |s| == 0 then Some([])
    else
      var n := CommandLength(s[0]);
      if n == 0 || |s| < n then None
      else
        match Decode(s[n..])
        case None => None
        case Some(rest) => Some([DecodeOne(s[..n])] + rest)
  }

  /** Total number of samples the waits in cs stand for. */
  function WaitSum(cs: seq<Command>): nat
  {
    if |cs| == 0 then 0
    else (if cs[0].Wait? then cs[0].samples else 0) + WaitSum(cs[1..])
  }

  /** The first K051649 command of cs, if any. */
  function FirstScc(cs: seq<Command>): Option<Command>
  {
    if |cs| == 0 then None
    else if cs[0].SccWrite? then Some(cs[0])
    else FirstScc(cs[1..])
  }

  /** Appending a decodable stream to another decodes to the concatenation. */
  function Concat(x: seq<Command>, y: Option<seq<Command>>): Option<seq<Command>>
  {
    match y
    case None => None
    case Some(ys) => Some(x + ys)
  }

  /** One step of the decoder: a stream starting with a known opcode decodes
      to that command followed by the decoding of the rest. */
  lemma DecodeStep(s: seq<byte>)
    requires |s| >= 1 && 0 < CommandLength(s[0]) <= |s|
    ensures Decode(s) == Concat([DecodeOne(s[..CommandLength(s[0])])], Decode(s[CommandLength(s[0])..]))
  {
  }

  /** Every well-formed command decodes back to itself. */
  lemma DecodeEncode(c: Command)
    requires WellFormed(c)
    ensures Decode(Encode(c)) == Some([c])
  {
    var s := Encode(c);
    var n := CommandLength(s[0]);
    assert n == |s|;
    assert s[n..] == [];
    assert s[..n] == s;
    assert Decode(s[n..]) == Some([]);
    DecodeStep(s);
    match c {
    case Wait(k) =>
      assert s[1..3] == Word(k);
      assert LeValue(s[1..3]) == k;
    case _ =>
    }
    assert DecodeOne(s[..n]) == c;
    assert [c] + [] == [c];
  }

  /** Decoding distributes over concatenation when the first part parses. */
  lemma {:induction false} DecodeAppend(a: seq<byte>, b: seq<byte>, x: seq<Command>)
    requires Decode(a) == Some(x)
    ensures Decode(a + b) == Concat(x, Decode(b))
    decreases |a|
  {
    if |a| == 0 {
      assert a + b == b;
      assert x == [];
      if Decode(b).Some? {
        assert x + Decode(b).value == Decode(b).value;
      }
    } else {
      var n := CommandLength(a[0]);
      DecodeStep(a);
      var tail := Decode(a[n..]).value;
      var c := DecodeOne(a[..n]);
      assert x == [c] + tail;
      var ab := a + b;
      assert ab[0] == a[0];
      assert ab[n..] == a[n..] + b;
      assert ab[..n] == a[..n];
      DecodeStep(ab);
      assert Decode(ab) == Concat([c], Decode(a[n..] + b));
      DecodeAppend(a[n..], b, tail);
      ConcatAssoc(c, tail, Decode(b));
    }
  }

  lemma ConcatAssoc(c: Command, tail: seq<Command>, y: Option<seq<Command>>)
    ensures Concat([c], Concat(tail, y)) == Concat([c] + tail, y)
  {
    if y.Some? {
      assert [c] + (tail + y.value) == ([c] + tail) + y.value;
    }
  }

  lemma {:induction false} EncodeAllAppend(x: seq<Command>, y: seq<Command>)
    ensures EncodeAll(x + y) == EncodeAll(x) + EncodeAll(y)
    decreases |x|
  {
    if |x| == 0 {
      assert x + y == y;
    } else {
      assert (x + y)[1..] == x[1..] + y;
      EncodeAllAppend(x[1..], y);
    }
  }

  /** Round trip: a stream built from well-formed commands decodes to them. */
  lemma {:induction false} DecodeEncodeAll(cs: seq<Command>)
    requires forall i :: 0 <= i < |cs| ==> WellFormed(cs[i])
    ensures Decode(EncodeAll(cs)) == Some(cs)
    decreases |cs|
  {
    if |cs| > 0 {
      DecodeEncode(cs[0]);
      DecodeEncodeAll(cs[1..]);
      DecodeAppend(Encode(cs[0]), EncodeAll(cs[1..]), [cs[0]]);
      assert [cs[0]] + cs[1..] == cs;
    }
  }

  lemma {:induction false} WaitSumAppend(x: seq<Command>, y: seq<Command>)
    ensures WaitSum(x + y) == WaitSum(x) + WaitSum(y)
    decreases |x|
  {
    if |x| == 0 {
      assert x + y == y;
    } else {
      assert (x + y)[1..] == x[1..] + y;
      WaitSumAppend(x[1..], y);
    }
  }

  lemma {:induction false} FirstSccAppend(x: seq<Command>, y: seq<Command>)
    ensures FirstScc(x + y) == if FirstScc(x).Some? then FirstScc(x) else FirstScc(y)
    decreases |x|
  {
    if |x| == 0 {
      assert x + y == y;
    } else {
      assert (x + y)[1..] == x[1..] + y;
      FirstSccAppend(x[1..], y);
    }
  }
}
