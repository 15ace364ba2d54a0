/**
  The vendor frame  [STX][CMD 2][SUBCMD 2][DATA][ETX][XOR]  as four separate pieces of the
  service see it: the request printer, the three-phase stream reader, the acceptance test of
  the retry loop, and the declarative response parser.  ASCII text is kept as its bytes.
*/
module FrameCodec {
  import opened Basics
  import Xor

  type byte = Xor.byte

  const STX: byte := 0x02
  const ETX: byte := 0x03
  const NUL: byte := 0x00
  const MIN_FRAME_LENGTH := 7

  /** The ten CMD/SUBCMD pairs the protocol tables list. */
  datatype Code = MCPD | MCDC | MCLZ | MCWP | MCEZ | MCRT | RQMI | RQIW | RQID | RQER

  function CodeBytes(code: Code): (text: seq<byte>)
    ensures |text| == 4 && IsAscii(text) && ETX !in text
  {
    match code
    case MCPD => [0x4D, 0x43, 0x50, 0x44]
    case MCDC => [0x4D, 0x43, 0x44, 0x43]
    case MCLZ => [0x4D, 0x43, 0x4C, 0x5A]
    case MCWP => [0x4D, 0x43, 0x57, 0x50]
    case MCEZ => [0x4D, 0x43, 0x45, 0x5A]
    case MCRT => [0x4D, 0x43, 0x52, 0x54]
    case RQMI => [0x52, 0x51, 0x4D, 0x49]
    case RQIW => [0x52, 0x51, 0x49, 0x57]
    case RQID => [0x52, 0x51, 0x49, 0x44]
    case RQER => [0x52, 0x51, 0x45, 0x52]
  }

  /** Table lookup by the four code bytes. */
  function LookupCode(text: seq<byte>): (found: Option<Code>)
    ensures found.Some? ==> CodeBytes(found.value) == text
    ensures found.None? ==> forall code :: CodeBytes(code) != text
  {
    if text == CodeBytes(MCPD) then Some(MCPD)
    else if text == CodeBytes(MCDC) then Some(MCDC)
    else if text == CodeBytes(MCLZ) then Some(MCLZ)
    else if text == CodeBytes(MCWP) then Some(MCWP)
    else if text == CodeBytes(MCEZ) then Some(MCEZ)
    else if text == CodeBytes(MCRT) then Some(MCRT)
    else if text == CodeBytes(RQMI) then Some(RQMI)
    else if text == CodeBytes(RQIW) then Some(RQIW)
    else if text == CodeBytes(RQID) then Some(RQID)
    else if text == CodeBytes(RQER) then Some(RQER)
    else None
  }

  lemma LookupInvertsCodeBytes(code: Code)
    ensures LookupCode(CodeBytes(code)) == Some(code)
  {
  }

  predicate IsAscii(text: seq<byte>) {
    forall i | 0 <= i < |text| :: text[i] < 0x80
  }

  // ---------------------------------------------------------------- checksum

  /** Left-to-right XOR reduction from zero; both checksum helpers of the service compute it. */
  function XorFold(data: seq<byte>): byte {
    if |data| == 0 then 0 else Xor.Of(XorFold(data[..|data| - 1]), data[|data| - 1])
  }

  lemma {:induction false} XorFoldConcat(left: seq<byte>, right: seq<byte>)
    ensures XorFold(left + right) == Xor.Of(XorFold(left), XorFold(right))
    decreases |right|
  {
    if |right| == 0 {
      assert left + right == left;
      Xor.Zero(XorFold(left));
    } else {
      var init, last := right[..|right| - 1], right[|right| - 1];
      assert (left + right)[..|left + right| - 1] == left + init;
      XorFoldConcat(left, init);
      Xor.Associates(XorFold(left), XorFold(init), last);
    }
  }

  lemma XorSingleton(b: byte)
    ensures XorFold([b]) == b
  {
    assert [b][..0] == [];
    assert XorFold([b]) == Xor.Of(XorFold([]), b);
    Xor.Zero(b);
  }

  /** Replacing one byte changes the fold by exactly the XOR of the old and the new byte. */
  lemma XorFoldUpdate(data: seq<byte>, i: nat, b: byte)
    requires i < |data|
    ensures XorFold(data[i := b]) == Xor.Of(XorFold(data), Xor.Of(data[i], b))
  {
    var left, right := data[..i], data[i + 1..];
    assert data == left + ([data[i]] + right);
    assert data[i := b] == left + ([b] + right);
    XorFoldConcat(left, [data[i]] + right);
    XorFoldConcat([data[i]], right);
    XorFoldConcat(left, [b] + right);
    XorFoldConcat([b], right);
    XorSingleton(data[i]);
    XorSingleton(b);
    Xor.Replace(XorFold(left), data[i], b, XorFold(right));
  }

  /** The retry loop's own test of a complete frame. */
  predicate ChecksumValid(frame: seq<byte>) {
    && |frame| >= MIN_FRAME_LENGTH
    && frame[0] == STX
    && frame[|frame| - 2] == ETX
    && XorFold(frame[1..|frame| - 1]) == frame[|frame| - 1]
  }

  lemma PayloadSubstitution(payload: seq<byte>, i: nat, b: byte)
    requires i < |payload|
    ensures XorFold(payload[i := b]) == XorFold(payload) <==> payload[i] == b
  {
    var fold := XorFold(payload);
    XorFoldUpdate(payload, i, b);
    Xor.Zero(fold);
    Xor.Cancel(fold, Xor.Of(payload[i], b), 0);
    Xor.ZeroIffEqual(payload[i], b);
  }

  lemma PayloadAndChecksumSubstitution(payload: seq<byte>, i: nat, b: byte, c: byte)
    requires i < |payload|
    ensures XorFold(payload[i := b]) == c <==> Xor.Of(payload[i], b) == Xor.Of(XorFold(payload), c)
  {
    XorFoldUpdate(payload, i, b);
    Xor.Solve(XorFold(payload), Xor.Of(payload[i], b), c);
  }

  lemma PayloadDoubleSubstitution(payload: seq<byte>, i: nat, b: byte, j: nat, c: byte)
    requires i < j < |payload|
    ensures XorFold(payload[i := b][j := c]) == XorFold(payload)
       <==> Xor.Of(payload[i], b) == Xor.Of(payload[j], c)
  {
    var once, fold := payload[i := b], XorFold(payload);
    var d, e := Xor.Of(payload[i], b), Xor.Of(payload[j], c);
    XorFoldUpdate(payload, i, b);
    XorFoldUpdate(once, j, c);
    Xor.Associates(fold, d, e);
    Xor.Zero(fold);
    Xor.Cancel(fold, Xor.Of(d, e), 0);
    Xor.ZeroIffEqual(d, e);
  }

  /** Every single-byte substitution in an accepted frame is detected, wherever it falls. */
  lemma SubstitutionDetected(frame: seq<byte>, i: nat, b: byte)
    requires ChecksumValid(frame)
    requires i < |frame| && b != frame[i]
    ensures !ChecksumValid(frame[i := b])
  {
    hide XorFold;
    var n := |frame|;
    var payload := frame[1..n - 1];
    var changed := frame[i := b];
    if 1 <= i < n - 2 {
      assert changed[1..n - 1] == payload[i - 1 := b];
      PayloadSubstitution(payload, i - 1, b);
    } else if i == n - 1 {
      assert changed[1..n - 1] == payload;
    }
  }

  /**
    Exactly which double substitutions slip through: neither byte is a frame marker and both
    were changed by the same XOR difference.
  */
  lemma DoubleSubstitutionUndetectedIff(frame: seq<byte>, i: nat, b: byte, j: nat, c: byte)
    requires ChecksumValid(frame)
    requires i < j < |frame| && b != frame[i] && c != frame[j]
    ensures ChecksumValid(frame[i := b][j := c])
       <==> i != 0 && i != |frame| - 2 && j != |frame| - 2 && Xor.Of(frame[i], b) == Xor.Of(frame[j], c)
  {
    hide XorFold;
    var n := |frame|;
    var payload := frame[1..n - 1];
    var changed := frame[i := b][j := c];
    assert i > 0 ==> payload[i - 1] == frame[i];
    if i != 0 && i != n - 2 && j != n - 2 {
      if j == n - 1 {
        assert changed[1..n - 1] == payload[i - 1 := b];
        PayloadAndChecksumSubstitution(payload, i - 1, b, c);
      } else {
        assert payload[j - 1] == frame[j];
        assert changed[1..n - 1] == payload[i - 1 := b][j - 1 := c];
        PayloadDoubleSubstitution(payload, i - 1, b, j - 1, c);
      }
    }
  }

  // ---------------------------------------------------------------- request printer

  datatype Request =
    | Bare(code: Code)            // a command without data
    | SetBolt(open: bool)         // MC/DC with OPEN or CLOSE
    | WriteId(id: seq<byte>)      // MC/WP with the product id
    | Unlisted                    // a pair no table lists

  datatype BuildResult = Built(message: seq<byte>) | BuildFailed

  const OPEN_BYTE: byte := 0x4F
  const CLOSE_BYTE: byte := 0x43
  const ID_WIDTH := 11

  function Frame(body: seq<byte>): seq<byte> {
    [STX] + body + [ETX] + [XorFold(body + [ETX])]
  }

  function PadRight(text: seq<byte>, width: nat): seq<byte>
    requires |text| <= width
  {
    text + seq(width - |text|, _ => NUL)
  }

  function BuildRequest(request: Request): BuildResult {
    match request
    case Bare(code) =>
      if code == MCDC || code == MCWP then BuildFailed else Built(Frame(CodeBytes(code)))
    case SetBolt(open) =>
      Built(Frame(CodeBytes(MCDC) + [if open then OPEN_BYTE else CLOSE_BYTE]))
    case WriteId(id) =>
      if |id| <= ID_WIDTH && IsAscii(id) then Built(Frame(CodeBytes(MCWP) + PadRight(id, ID_WIDTH)))
      else BuildFailed
    case Unlisted => BuildFailed
  }

  function RequestCode(request: Request): Option<Code> {
    match request
    case Bare(code) => Some(code)
    case SetBolt(_) => Some(MCDC)
    case WriteId(_) => Some(MCWP)
    case Unlisted => None
  }

  // ---------------------------------------------------------------- stream reader

  datatype ReadResult = Complete(frame: seq<byte>, rest: seq<byte>) | Starved

  /** Position of the first ETX at or after `from`, or the length when there is none. */
  function FindEtx(stream: seq<byte>, from: nat): (at: nat)
    requires from <= |stream|
    ensures from <= at <= |stream|
    ensures forall i | from <= i < at :: stream[i] != ETX
    ensures at < |stream| ==> stream[at] == ETX
    decreases |stream| - from
  {
    if from == |stream| || stream[from] == ETX then from else FindEtx(stream, from + 1)
  }

  /** Three phases: any one byte, then up to and including an ETX, then one checksum byte. */
  function ReadFrame(stream: seq<byte>): (r: ReadResult)
    ensures r.Complete? ==> r.frame + r.rest == stream && ReaderShape(r.frame)
  {
    if |stream| == 0 then Starved
    else
      var etx := FindEtx(stream, 1);
      if etx + 1 < |stream| then
        assert stream[..etx + 2] + stream[etx + 2..] == stream;
        Complete(stream[..etx + 2], stream[etx + 2..])
      else Starved
  }

  /** What any frame handed over by the reader looks like. */
  ghost predicate ReaderShape(frame: seq<byte>) {
    && |frame| >= 3
    && frame[|frame| - 2] == ETX
    && forall i | 1 <= i < |frame| - 2 :: frame[i] != ETX
  }

  datatype Drained = Drained(frames: seq<seq<byte>>, rest: seq<byte>)

  /** Frames the reader hands over, one fetch after another, until it starves. */
  function ReadAll(stream: seq<byte>): Drained
    decreases |stream|
  {
    match ReadFrame(stream)
    case Starved => Drained([], stream)
    case Complete(frame, rest) =>
      assert |stream| == |frame| + |rest|;
      var more := ReadAll(rest);
      Drained([frame] + more.frames, more.rest)
  }

  function Concat(frames: seq<seq<byte>>): seq<byte> {
    if |frames| == 0 then [] else frames[0] + Concat(frames[1..])
  }

  /** The reader cuts a printed frame at its own end exactly when the body holds no ETX. */
  lemma FramedReadIff(body: seq<byte>, rest: seq<byte>)
    ensures ReadFrame(Frame(body) + rest) == Complete(Frame(body), rest) <==> ETX !in body
  {
    var f := Frame(body);
    var stream := f + rest;
    assert forall i | 0 <= i < |body| :: stream[i + 1] == body[i];
    assert stream[|body| + 1] == ETX;
    var etx := FindEtx(stream, 1);
    if ETX !in body {
      assert forall i | 1 <= i < |body| + 1 :: stream[i] == body[i - 1];
      assert etx == |body| + 1;
      assert stream[..etx + 2] == f;
      assert stream[etx + 2..] == rest;
    } else {
      var k :| 0 <= k < |body| && body[k] == ETX;
      assert stream[k + 1] == ETX;
      assert etx <= k + 1;
    }
  }

  /** Framing round trip over any number of frames. */
  lemma {:induction false} FramingRoundTrip(bodies: seq<seq<byte>>)
    requires forall i | 0 <= i < |bodies| :: ETX !in bodies[i]
    ensures var frames := seq(|bodies|, i requires 0 <= i < |bodies| => Frame(bodies[i]));
            ReadAll(Concat(frames)) == Drained(frames, [])
  {
    var frames := seq(|bodies|, i requires 0 <= i < |bodies| => Frame(bodies[i]));
    if |bodies| > 0 {
      var tail := bodies[1..];
      var tailFrames := seq(|tail|, i requires 0 <= i < |tail| => Frame(tail[i]));
      assert frames[1..] == tailFrames;
      assert frames == [Frame(bodies[0])] + tailFrames;
      FramedReadIff(bodies[0], Concat(tailFrames));
      FramingRoundTrip(tail);
    }
  }

  /** The reader neither loses, invents nor reorders bytes, whatever the device sends. */
  lemma {:induction false} ReaderConservesBytes(stream: seq<byte>)
    ensures var d := ReadAll(stream); Concat(d.frames) + d.rest == stream
    ensures forall i | 0 <= i < |ReadAll(stream).frames| :: ReaderShape(ReadAll(stream).frames[i])
    decreases |stream|
  {
    match ReadFrame(stream) {
      case Starved =>
      case Complete(frame, rest) =>
        assert |stream| == |frame| + |rest|;
        ReaderConservesBytes(rest);
        var more := ReadAll(rest);
        assert ([frame] + more.frames)[1..] == more.frames;
        assert frame + (Concat(more.frames) + more.rest) == (frame + Concat(more.frames)) + more.rest;
    }
  }

  // ---------------------------------------------------------------- acceptance

  /** CMD and SUBCMD of a frame as the retry loop reads them. */
  function ResponseCodes(frame: seq<byte>): Option<seq<byte>> {
    if |frame| < 5 || frame[0] != STX then None
    else if IsAscii(frame[1..5]) then Some(frame[1..5])
    else None
  }

  predicate Accepts(frame: seq<byte>, expected: Option<Code>) {
    && ChecksumValid(frame)
    && (expected.Some? ==> ResponseCodes(frame) == Some(CodeBytes(expected.value)))
  }

  /** The frame lengths the diagnostic table promises. */
  function FrameLength(code: Code): nat {
    match code
    case MCPD => 7
    case MCDC => 8
    case MCLZ => 7
    case MCWP => 18
    case MCEZ => 7
    case MCRT => 7
    case RQMI => 20
    case RQIW => 67
    case RQID => 19
    case RQER => 23
  }

  // ---------------------------------------------------------------- response parser

  datatype BoltLabel = UNLOCK | LOCKED | Raw(value: byte)

  datatype Data =
    | NoData
    | Bolt(state: BoltLabel)
    | ProductId(id: seq<byte>)
    | Info(product: seq<byte>, version: seq<byte>)
    | Loadcells(readings: seq<seq<byte>>)
    | Status(door: seq<byte>, deadbolt: seq<byte>)
    | Errors(codes: seq<seq<byte>>)

  datatype Response = Response(codes: seq<byte>, data: Data)

  /** Strip the padding a fixed-width text field carries. */
  function StripNul(text: seq<byte>): seq<byte> {
    if |text| > 0 && text[|text| - 1] == NUL then StripNul(text[..|text| - 1]) else text
  }

  /** Total width of the fields the response schema declares; unlisted pairs carry none. */
  function SchemaWidth(code: Option<Code>): nat {
    match code
    case None => 0
    case Some(MCDC) => 1
    case Some(MCWP) => 11
    case Some(RQMI) => 11 + 2
    case Some(RQIW) => 10 * 6
    case Some(RQID) => 6 + 6
    case Some(RQER) => 4 * 4
    case Some(_) => 0
  }

  function Chunks(field: seq<byte>, width: nat): seq<seq<byte>>
    requires width > 0
    decreases |field|
  {
    if |field| < width then [] else [StripNul(field[..width])] + Chunks(field[width..], width)
  }

  function ParseData(code: Option<Code>, field: seq<byte>): Option<Data>
    requires |field| == SchemaWidth(code)
  {
    if code == Some(MCDC) then
      Some(Bolt(if field[0] == OPEN_BYTE then UNLOCK
                else if field[0] == CLOSE_BYTE then LOCKED else Raw(field[0])))
    else if !IsAscii(field) then None
    else match code
      case Some(MCWP) => Some(ProductId(StripNul(field)))
      case Some(RQMI) => Some(Info(StripNul(field[..11]), StripNul(field[11..])))
      case Some(RQIW) => Some(Loadcells(Chunks(field, 6)))
      case Some(RQID) => Some(Status(StripNul(field[..6]), StripNul(field[6..])))
      case Some(RQER) => Some(Errors(Chunks(field, 4)))
      case _ => Some(NoData)
  }

  /** Declarative parse from the left; bytes after the checksum are ignored. */
  function ParseResponse(message: seq<byte>): Option<Response> {
    if |message| < 5 || message[0] != STX || !IsAscii(message[1..5]) then None
    else
      var code := LookupCode(message[1..5]);
      var etx := 5 + SchemaWidth(code);
      if |message| < etx + 2 then None
      else match ParseData(code, message[5..etx])
        case None => None
        case Some(data) =>
          if message[etx] != ETX || XorFold(message[1..etx + 1]) != message[etx + 1] then None
          else Some(Response(StripNul(message[1..3]) + StripNul(message[3..5]), data))
  }

  lemma CodesSurviveStripping(code: Code)
    ensures StripNul(CodeBytes(code)[0..2]) + StripNul(CodeBytes(code)[2..4]) == CodeBytes(code)
  {
  }

  /**
    For a frame the reader cut and the retry loop accepted, parsing succeeds exactly when the
    length is the table's and the text fields are ASCII; the pair it reports is then the
    expected one, so the later defensive comparison cannot fire.
  */
  lemma AcceptedFrameParsesIff(frame: seq<byte>, code: Code)
    requires ReaderShape(frame) && Accepts(frame, Some(code))
    ensures ParseResponse(frame).Some?
       <==> |frame| == FrameLength(code) && (code == MCDC || IsAscii(frame[5..|frame| - 2]))
    ensures ParseResponse(frame).Some? ==> ParseResponse(frame).value.codes == CodeBytes(code)
  {
    var n := |frame|;
    LookupInvertsCodeBytes(code);
    assert frame[1..5] == CodeBytes(code);
    var etx := 5 + SchemaWidth(Some(code));
    assert etx + 2 == FrameLength(code);
    if n == etx + 2 {
      assert frame[1..etx + 1] == frame[1..n - 1];
    } else if n > etx + 2 {
      assert frame[etx] != ETX;
    }
    CodesSurviveStripping(code);
    assert frame[1..3] == CodeBytes(code)[0..2] && frame[3..5] == CodeBytes(code)[2..4];
  }

  /**
    The parser's own checksum and the retry loop's agree: whatever message parses starts with
    a frame of the schema's width that the retry loop would have called valid.
  */
  lemma ParsedMessageStartsWithValidFrame(message: seq<byte>)
    requires ParseResponse(message).Some?
    ensures var width := SchemaWidth(LookupCode(message[1..5]));
            |message| >= width + 7 && ChecksumValid(message[..width + 7])
  {
    var n := SchemaWidth(LookupCode(message[1..5])) + 7;
    assert message[..n][1..n - 1] == message[1..n - 1];
  }

  // ---------------------------------------------------------------- echo round trips

  lemma FrameIsAccepted(body: seq<byte>, code: Code, data: seq<byte>)
    requires body == CodeBytes(code) + data
    ensures Accepts(Frame(body), Some(code))
  {
    var f := Frame(body);
    assert f[1..|f| - 1] == body + [ETX];
    assert f[1..5] == CodeBytes(code);
  }

  /** Parsing a well-formed frame of the right width reports its own codes and fields. */
  lemma ParsePrinted(code: Code, field: seq<byte>)
    requires |field| == SchemaWidth(Some(code))
    ensures ParseResponse(Frame(CodeBytes(code) + field))
         == match ParseData(Some(code), field)
            case None => None
            case Some(data) => Some(Response(CodeBytes(code), data))
  {
    hide XorFold, LookupCode, CodeBytes, ParseData, StripNul;
    var body := CodeBytes(code) + field;
    var f := Frame(body);
    var etx := 5 + |field|;
    assert f[1..5] == CodeBytes(code);
    assert f[1..3] == CodeBytes(code)[0..2] && f[3..5] == CodeBytes(code)[2..4];
    assert f[5..etx] == field;
    assert f[1..etx + 1] == body + [ETX];
    LookupInvertsCodeBytes(code);
    CodesSurviveStripping(code);
  }

  lemma {:induction false} StripPad(text: seq<byte>, pad: nat)
    ensures StripNul(text + seq(pad, _ => NUL)) == StripNul(text)
  {
    var padded := text + seq(pad, _ => NUL);
    if pad == 0 {
      assert padded == text;
    } else {
      assert padded[..|padded| - 1] == text + seq(pad - 1, _ => NUL);
      StripPad(text, pad - 1);
    }
  }

  lemma {:induction false} StripKeepsIff(text: seq<byte>)
    ensures |StripNul(text)| <= |text|
    ensures StripNul(text) == text <==> (|text| == 0 || text[|text| - 1] != NUL)
  {
    if |text| > 0 && text[|text| - 1] == NUL {
      StripKeepsIff(text[..|text| - 1]);
    }
  }

  /** What the host reports when the device echoes a printed request. */
  ghost predicate EchoYields(request: Request, data: Data) {
    var built := BuildRequest(request);
    && built.Built?
    && ReadFrame(built.message) == Complete(built.message, [])
    && RequestCode(request).Some?
    && Accepts(built.message, RequestCode(request))
    && ParseResponse(built.message) == Some(Response(CodeBytes(RequestCode(request).value), data))
  }

  /** An echoed deadbolt request reports UNLOCK for OPEN and LOCKED for CLOSE. */
  lemma DeadboltEcho(open: bool)
    ensures EchoYields(SetBolt(open), Bolt(if open then UNLOCK else LOCKED))
  {
    hide LookupCode, XorFold, FindEtx, StripNul, ChecksumValid, ReadFrame, ParseResponse;
    var field := [if open then OPEN_BYTE else CLOSE_BYTE];
    var body := CodeBytes(MCDC) + field;
    FramedReadIff(body, []);
    assert Frame(body) + [] == Frame(body);
    FrameIsAccepted(body, MCDC, field);
    ParsePrinted(MCDC, field);
  }

  /**
    A product id survives the echo exactly when it is at most 11 ASCII bytes, holds no ETX and
    does not end in the padding byte.
  */
  lemma ProductIdEchoIff(id: seq<byte>)
    ensures EchoYields(WriteId(id), ProductId(id))
       <==> |id| <= ID_WIDTH && IsAscii(id) && ETX !in id && (|id| == 0 || id[|id| - 1] != NUL)
  {
    hide ParseResponse, LookupCode, XorFold, FindEtx, StripNul, ChecksumValid, ReadFrame;
    if |id| <= ID_WIDTH && IsAscii(id) {
      var data := PadRight(id, ID_WIDTH);
      var body := CodeBytes(MCWP) + data;
      FramedReadIff(body, []);
      assert Frame(body) + [] == Frame(body);
      assert body[4..4 + |id|] == id;
      FrameIsAccepted(body, MCWP, data);
      ParsePrinted(MCWP, data);
      StripPad(id, ID_WIDTH - |id|);
      StripKeepsIff(id);
    }
  }
}
