/**
  The wire format spelled out byte by byte: what every request looks like on the line, when a
  frame is accepted, and which bytes of an answer end up in which field.
*/
module FrameFields {
  import opened Basics
  import opened FrameCodec
  import Xor

  // ---------------------------------------------------------------- the checksum

  /** Bit k of a number. */
  function Bit(x: nat, k: nat): (bit: nat)
    ensures bit < 2
  {
    if k == 0 then x % 2 else Bit(x / 2, k - 1)
  }

  /** How many bytes have bit k set. */
  function Ones(data: seq<byte>, k: nat): nat {
    if |data| == 0 then 0 else Ones(data[..|data| - 1], k) + Bit(data[|data| - 1], k)
  }

  lemma {:induction false} BitOfXor(a: nat, b: nat, k: nat)
    ensures Bit(Xor.Bits(a, b), k) == (Bit(a, k) + Bit(b, k)) % 2
  {
    hide Xor.Bits;
    Xor.Halves(a, b);
    if k > 0 {
      BitOfXor(a / 2, b / 2, k - 1);
    }
  }

  lemma {:induction false} BitOfZero(k: nat)
    ensures Bit(0, k) == 0
  {
    if k > 0 {
      BitOfZero(k - 1);
    }
  }

  lemma BitOfByteXor(a: byte, b: byte, k: nat)
    ensures Bit(Xor.Of(a, b), k) == (Bit(a, k) + Bit(b, k)) % 2
  {
    BitOfXor(a, b, k);
  }

  /** Every bit of the checksum is the parity of that bit over the bytes it covers. */
  lemma {:induction false} FoldIsParity(data: seq<byte>, k: nat)
    ensures Bit(XorFold(data), k) == Ones(data, k) % 2
  {
    hide Bit, Xor.Of;
    if |data| == 0 {
      BitOfZero(k);
    } else {
      var before := data[..|data| - 1];
      FoldIsParity(before, k);
      BitOfByteXor(XorFold(before), data[|data| - 1], k);
    }
  }

  /** The number has in every place the parity of the data. */
  ghost predicate IsParityOf(checksum: byte, data: seq<byte>) {
    forall k | 0 <= k < 8 :: Bit(checksum, k) == Ones(data, k) % 2
  }

  /** A byte is determined by its eight bits. */
  lemma {:induction false} BitsDetermine(x: nat, y: nat, width: nat)
    requires forall k | 0 <= k < width :: Bit(x, k) == Bit(y, k)
    requires x < Xor.TwoTo(width) && y < Xor.TwoTo(width)
    ensures x == y
  {
    if width > 0 {
      assert Bit(x, 0) == Bit(y, 0);
      forall k | 0 <= k < width - 1
        ensures Bit(x / 2, k) == Bit(y / 2, k)
      {
        assert Bit(x, k + 1) == Bit(y, k + 1);
      }
      BitsDetermine(x / 2, y / 2, width - 1);
    }
  }

  /** The checksum is the one byte with the parity of the data. */
  lemma ParityIff(checksum: byte, data: seq<byte>)
    ensures IsParityOf(checksum, data) <==> checksum == XorFold(data)
  {
    forall k | 0 <= k < 8
      ensures Bit(XorFold(data), k) == Ones(data, k) % 2
    {
      FoldIsParity(data, k);
    }
    if IsParityOf(checksum, data) {
      BitsDetermine(checksum, XorFold(data), 8);
    }
  }

  // ---------------------------------------------------------------- acceptance

  /** STX, at least a pair of codes, ETX, and the parity of everything in between, ETX included. */
  ghost predicate WellFormed(frame: seq<byte>) {
    var n := |frame|;
    n >= 7 && frame[0] == 0x02 && frame[n - 2] == 0x03 && IsParityOf(frame[n - 1], frame[1..n - 1])
  }

  /** The retry loop's test of a frame, in terms of its bytes. */
  lemma AcceptedIff(frame: seq<byte>, code: Code)
    ensures ChecksumValid(frame) <==> WellFormed(frame)
    ensures Accepts(frame, None) <==> WellFormed(frame)
    ensures Accepts(frame, Some(code)) <==> WellFormed(frame) && frame[1..5] == CodeBytes(code)
  {
    hide XorFold, IsParityOf, CodeBytes;
    if |frame| >= 7 {
      ParityIff(frame[|frame| - 1], frame[1..|frame| - 1]);
    }
  }

  /** The three-phase reader hands over exactly the prefix up to one byte after the first later ETX. */
  lemma ReadIff(stream: seq<byte>, frame: seq<byte>, rest: seq<byte>)
    ensures ReadFrame(stream) == Complete(frame, rest)
       <==> && stream == frame + rest && |frame| >= 3 && frame[|frame| - 2] == 0x03
            && forall i | 1 <= i < |frame| - 2 :: frame[i] != 0x03
  {
    if stream == frame + rest && |frame| >= 3 {
      assert forall i | 0 <= i < |frame| :: stream[i] == frame[i];
      assert stream[..|frame|] == frame && stream[|frame|..] == rest;
    }
  }

  // ---------------------------------------------------------------- requests

  /** The bytes of an ASCII text. */
  function Ascii(text: string): (bytes: seq<byte>)
    requires forall i | 0 <= i < |text| :: text[i] as int < 0x80
    ensures |bytes| == |text|
  {
    seq(|text|, i requires 0 <= i < |text| => text[i] as int)
  }

  lemma CodeTexts()
    ensures CodeBytes(MCPD) == Ascii("MCPD") && CodeBytes(MCDC) == Ascii("MCDC") && CodeBytes(MCLZ) == Ascii("MCLZ")
    ensures CodeBytes(MCWP) == Ascii("MCWP") && CodeBytes(MCEZ) == Ascii("MCEZ") && CodeBytes(MCRT) == Ascii("MCRT")
    ensures CodeBytes(RQMI) == Ascii("RQMI") && CodeBytes(RQIW) == Ascii("RQIW")
    ensures CodeBytes(RQID) == Ascii("RQID") && CodeBytes(RQER) == Ascii("RQER")
  {
  }

  /** The request is built, and its bytes are STX, the payload, ETX and their parity. */
  ghost predicate PrintedAs(request: Request, payload: seq<byte>) {
    var built := BuildRequest(request);
    && built.Built?
    && |built.message| == |payload| + 3
    && built.message[..|payload| + 2] == [0x02] + payload + [0x03]
    && IsParityOf(built.message[|payload| + 2], payload + [0x03])
  }

  lemma FramePrints(body: seq<byte>)
    ensures var f := Frame(body);
            && |f| == |body| + 3 && f[..|body| + 2] == [0x02] + body + [0x03]
            && IsParityOf(f[|body| + 2], body + [0x03])
  {
    hide XorFold, IsParityOf;
    ParityIff(XorFold(body + [ETX]), body + [ETX]);
  }

  /** Requests without data. */
  lemma BarePrinted(code: Code)
    requires code != MCDC && code != MCWP
    ensures PrintedAs(Bare(code), CodeBytes(code))
  {
    hide Frame, IsParityOf, CodeBytes;
    FramePrints(CodeBytes(code));
  }

  /** The two that carry data cannot be built without it, and no unlisted pair can. */
  lemma Unprintable()
    ensures BuildRequest(Bare(MCDC)).BuildFailed? && BuildRequest(Bare(MCWP)).BuildFailed?
    ensures BuildRequest(Unlisted).BuildFailed?
  {
  }

  /** The deadbolt requests carry 'O' to open and 'C' to close. */
  lemma BoltPrinted(open: bool)
    ensures PrintedAs(SetBolt(open), Ascii(if open then "MCDCO" else "MCDCC"))
  {
    hide Frame, IsParityOf;
    CodeTexts();
    var body := CodeBytes(MCDC) + [if open then OPEN_BYTE else CLOSE_BYTE];
    FramePrints(body);
    assert body == Ascii(if open then "MCDCO" else "MCDCC");
  }

  /** A product id is padded with NULs to eleven bytes; longer or non-ASCII ids are refused. */
  lemma IdPrintedIff(id: seq<byte>)
    ensures BuildRequest(WriteId(id)).Built? <==> |id| <= 11 && forall i | 0 <= i < |id| :: id[i] < 0x80
    ensures BuildRequest(WriteId(id)).Built? ==>
              PrintedAs(WriteId(id), Ascii("MCWP") + id + seq(11 - |id|, _ => 0x00))
  {
    hide Frame, IsParityOf;
    CodeTexts();
    if |id| <= 11 {
      FramePrints(CodeBytes(MCWP) + PadRight(id, ID_WIDTH));
      assert Ascii("MCWP") + id + seq(11 - |id|, _ => 0x00) == CodeBytes(MCWP) + PadRight(id, ID_WIDTH);
    }
  }

  // ---------------------------------------------------------------- answers

  /** The text of a fixed-width field: the field without its trailing NULs. */
  ghost predicate TextOf(text: seq<byte>, field: seq<byte>) {
    && |text| <= |field| && field[..|text|] == text
    && (forall i | |text| <= i < |field| :: field[i] == 0x00)
    && (|text| > 0 ==> text[|text| - 1] != 0x00)
  }

  lemma {:induction false} StripNulIs(field: seq<byte>)
    ensures TextOf(StripNul(field), field)
  {
    if |field| > 0 && field[|field| - 1] == NUL {
      StripNulIs(field[..|field| - 1]);
    }
  }

  /** Where the i-th of equally wide fields starts. */
  function Offset(width: nat, i: nat): nat {
    if i == 0 then 0 else Offset(width, i - 1) + width
  }

  lemma {:induction false} OffsetIs(width: nat, i: nat)
    ensures Offset(width, i) == width * i
  {
    if i > 0 {
      OffsetIs(width, i - 1);
    }
  }

  lemma {:induction false} ChunkAt(field: seq<byte>, width: nat, i: nat)
    requires width > 0 && Offset(width, i) + width <= |field|
    ensures i < |Chunks(field, width)|
    ensures TextOf(Chunks(field, width)[i], field[Offset(width, i)..Offset(width, i) + width])
    decreases i
  {
    hide TextOf;
    if i == 0 {
      StripNulIs(field[..width]);
      assert field[0..width] == field[..width];
    } else {
      var rest, o := field[width..], Offset(width, i - 1);
      ChunkAt(rest, width, i - 1);
      assert rest[o..o + width] == field[o + width..o + width + width];
    }
  }

  lemma {:induction false} ChunkCount(field: seq<byte>, width: nat, count: nat)
    requires width > 0 && |field| == Offset(width, count)
    ensures |Chunks(field, width)| == count
  {
    if count > 0 {
      ChunkCount(field[width..], width, count - 1);
    }
  }

  /** The texts are those of equally wide fields, in the order they have in the frame. */
  ghost predicate FieldsOf(texts: seq<seq<byte>>, frame: seq<byte>, at: nat, width: nat, count: nat)
    requires |frame| >= at + width * count
  {
    |texts| == count && forall i | 0 <= i < count :: TextAt(texts[i], frame, at, width, i)
  }

  ghost predicate TextAt(text: seq<byte>, frame: seq<byte>, at: nat, width: nat, i: nat) {
    var from := at + width * i;
    from + width <= |frame| && TextOf(text, frame[from..from + width])
  }

  lemma SliceOfSlice(data: seq<byte>, a: nat, b: nat, o: nat, width: nat)
    requires a + o + width <= b <= |data|
    ensures data[a..b][o..o + width] == data[a + o..a + o + width]
  {
    var x, y := data[a..b][o..o + width], data[a + o..a + o + width];
    assert |x| == |y| == width;
    assert forall k | 0 <= k < width :: x[k] == data[a + o + k] && y[k] == data[a + o + k];
  }

  lemma ChunksInFrame(frame: seq<byte>, width: nat, count: nat)
    requires width > 0 && |frame| >= 5 + width * count
    ensures FieldsOf(Chunks(frame[5..5 + width * count], width), frame, 5, width, count)
  {
    hide TextOf, Chunks;
    var field := frame[5..5 + width * count];
    OffsetIs(width, count);
    ChunkCount(field, width, count);
    forall i | 0 <= i < count
      ensures TextAt(Chunks(field, width)[i], frame, 5, width, i)
    {
      OffsetIs(width, i);
      OffsetGrows(width, i, count);
      ChunkAt(field, width, i);
      var o := Offset(width, i);
      SliceOfSlice(frame, 5, 5 + width * count, o, width);
    }
  }

  lemma {:induction false} OffsetGrows(width: nat, i: nat, count: nat)
    requires i < count
    ensures Offset(width, i) + width <= Offset(width, count)
    decreases count
  {
    if i + 1 < count {
      OffsetGrows(width, i, count - 1);
    }
  }

  /** What the data of an answer says, by its codes. */
  ghost predicate DataOf(data: Data, code: Option<Code>, frame: seq<byte>) {
    match code
    case Some(RQIW) => |frame| >= 65 && data.Loadcells? && FieldsOf(data.readings, frame, 5, 6, 10)
    case Some(RQER) => |frame| >= 21 && data.Errors? && FieldsOf(data.codes, frame, 5, 4, 4)
    case Some(RQID) =>
      |frame| >= 17 && data.Status? && TextOf(data.door, frame[5..11]) && TextOf(data.deadbolt, frame[11..17])
    case Some(RQMI) =>
      |frame| >= 18 && data.Info? && TextOf(data.product, frame[5..16]) && TextOf(data.version, frame[16..18])
    case Some(MCWP) => |frame| >= 16 && data.ProductId? && TextOf(data.id, frame[5..16])
    case Some(MCDC) =>
      |frame| >= 6 && data.Bolt? &&
      data.state == (if frame[5] == 'O' as int then UNLOCK else if frame[5] == 'C' as int then LOCKED else Raw(frame[5]))
    case _ => data.NoData?
  }

  /** A parsed answer is the schema's reading of the bytes after the codes. */
  lemma ParsedData(frame: seq<byte>)
    requires ParseResponse(frame).Some?
    ensures var code := LookupCode(frame[1..5]);
            && |frame| >= SchemaWidth(code) + 7
            && ParseData(code, frame[5..5 + SchemaWidth(code)]) == Some(ParseResponse(frame).value.data)
  {
    hide XorFold, LookupCode, ParseData, StripNul;
  }

  lemma FieldCases(code: Option<Code>, frame: seq<byte>, data: Data)
    requires |frame| >= SchemaWidth(code) + 7
    requires ParseData(code, frame[5..5 + SchemaWidth(code)]) == Some(data)
    ensures DataOf(data, code, frame)
  {
    hide TextOf, Chunks, StripNul, FieldsOf;
    if code == Some(RQIW) {
      ChunksInFrame(frame, 6, 10);
    } else if code == Some(RQER) {
      ChunksInFrame(frame, 4, 4);
    } else {
      PlainFields(frame[5..5 + SchemaWidth(code)], frame, code);
    }
  }

  /** Whatever parses carries in every field of its data the bytes of that field, in place. */
  lemma ParsedFields(frame: seq<byte>)
    requires ParseResponse(frame).Some?
    ensures |frame| >= 7 && DataOf(ParseResponse(frame).value.data, LookupCode(frame[1..5]), frame)
  {
    hide ParseResponse, ParseData, FieldsOf, TextOf, LookupCode, DataOf;
    ParsedData(frame);
    FieldCases(LookupCode(frame[1..5]), frame, ParseResponse(frame).value.data);
  }

  lemma PlainFields(field: seq<byte>, frame: seq<byte>, code: Option<Code>)
    requires |frame| >= 5 + |field| && field == frame[5..5 + |field|] && |field| == SchemaWidth(code)
    ensures code == Some(RQID) ==> TextOf(StripNul(field[..6]), frame[5..11]) && TextOf(StripNul(field[6..]), frame[11..17])
    ensures code == Some(RQMI) ==> TextOf(StripNul(field[..11]), frame[5..16]) && TextOf(StripNul(field[11..]), frame[16..18])
    ensures code == Some(MCWP) ==> TextOf(StripNul(field), frame[5..16])
  {
    hide TextOf, StripNul;
    if code == Some(RQID) {
      assert field[..6] == frame[5..11] && field[6..] == frame[11..17];
      StripNulIs(field[..6]);
      StripNulIs(field[6..]);
    } else if code == Some(RQMI) {
      assert field[..11] == frame[5..16] && field[11..] == frame[16..18];
      StripNulIs(field[..11]);
      StripNulIs(field[11..]);
    } else {
      StripNulIs(field);
    }
  }

  /** The table's lengths are those of the fields: ten readings of six, four errors of four, and so on. */
  lemma LengthsOfFields(code: Code)
    ensures FrameLength(code) == 7 + match code
              case MCDC => 1
              case MCWP => 11
              case RQMI => 11 + 2
              case RQIW => 10 * 6
              case RQID => 6 + 6
              case RQER => 4 * 4
              case _ => 0
  {
  }
}
