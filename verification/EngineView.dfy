/**
  What the commands make of the bytes of an accepted answer, spelled out frame by frame.
*/
module EngineView {
  import opened Basics
  import opened FrameCodec
  import opened FrameFields
  import opened Engine

  /** The characters of a text are its bytes. */
  predicate Spells(text: string, bytes: seq<byte>) {
    |text| == |bytes| && forall i | 0 <= i < |text| :: text[i] as int == bytes[i]
  }

  lemma ToTextSpells(bytes: seq<byte>)
    ensures Spells(ToText(bytes), bytes)
  {
  }

  predicate PlainText(frame: seq<byte>) {
    |frame| >= 7 && forall i | 5 <= i < |frame| - 2 :: frame[i] < 0x80
  }

  /** An accepted answer of the right length and in ASCII parses; any other is unreadable. */
  lemma ViewParses(frame: seq<byte>, code: Code)
    requires ReaderShape(frame) && Accepts(frame, Some(code))
    ensures |frame| >= 7 && LookupCode(frame[1..5]) == Some(code)
    ensures ParseResponse(frame).Some? <==> |frame| == FrameLength(code) && (code == MCDC || PlainText(frame))
    ensures ParseResponse(frame).None? ==> View(frame).body.Unreadable?
  {
    hide ParseResponse, XorFold, CodeBytes, LookupCode;
    AcceptedFrameParsesIff(frame, code);
    LookupInvertsCodeBytes(code);
    assert IsAscii(frame[5..|frame| - 2]) <==> PlainText(frame) by {
      assert forall i | 5 <= i < |frame| - 2 :: frame[5..|frame| - 2][i - 5] == frame[i];
    }
  }

  /** Six bytes without padding are their own text. */
  lemma FullText(text: seq<byte>, field: seq<byte>)
    requires TextOf(text, field) && |field| > 0
    ensures field[|field| - 1] != 0x00 ==> text == field
    ensures |text| == |field| ==> text == field
  {
    assert field[..|field|] == field;
  }

  /** A field reads as one of the four state words exactly if its bytes are those of the word. */
  lemma WordOf(text: seq<byte>, field: seq<byte>, word: string)
    requires TextOf(text, field) && |field| == 6 && |word| == 6
    requires forall i | 0 <= i < 6 :: 0 < word[i] as int < 0x80
    ensures ToText(text) == word <==> field == Ascii(word)
  {
    FullText(text, field);
    if ToText(text) == word {
      assert |text| == 6;
      assert forall i | 0 <= i < 6 :: ToText(text)[i] as int == field[i];
    }
  }

  predicate IsStatus(frame: seq<byte>) {
    && |frame| == 19
    && (frame[5..11] == Ascii("OPENED") || frame[5..11] == Ascii("CLOSED"))
    && (frame[11..17] == Ascii("UNLOCK") || frame[11..17] == Ascii("LOCKED"))
  }

  /** A status answer: nineteen bytes, the door word and then the deadbolt word. */
  lemma ViewOfStatus(frame: seq<byte>)
    requires ReaderShape(frame) && Accepts(frame, Some(RQID))
    ensures View(frame).body ==
              if IsStatus(frame) then BoltState(frame[11..17] == Ascii("UNLOCK")) else Unreadable
  {
    hide ParseResponse, ChecksumValid, TextOf, ToText, LookupCode, Ascii;
    ViewParses(frame, RQID);
    if ParseResponse(frame).Some? {
      ParsedFields(frame);
      var data := ParseResponse(frame).value.data;
      WordOf(data.door, frame[5..11], "OPENED");
      WordOf(data.door, frame[5..11], "CLOSED");
      WordOf(data.deadbolt, frame[11..17], "UNLOCK");
      WordOf(data.deadbolt, frame[11..17], "LOCKED");
      WordsDiffer();
    } else if IsStatus(frame) {
      WordsArePlain(frame);
    }
  }

  lemma WordsDiffer()
    ensures Ascii("UNLOCK") != Ascii("LOCKED")
  {
    assert Ascii("UNLOCK")[0] != Ascii("LOCKED")[0];
  }

  lemma WordsArePlain(frame: seq<byte>)
    requires IsStatus(frame)
    ensures PlainText(frame)
  {
    forall i | 5 <= i < 17
      ensures frame[i] < 0x80
    {
      if i < 11 {
        assert frame[i] == frame[5..11][i - 5];
      } else {
        assert frame[i] == frame[11..17][i - 11];
      }
    }
  }

  /** A deadbolt acknowledgement: eight bytes, 'O' for unlocked or 'C' for locked. */
  lemma ViewOfBolt(frame: seq<byte>)
    requires ReaderShape(frame) && Accepts(frame, Some(MCDC))
    ensures View(frame).body ==
              if |frame| == 8 && (frame[5] == 'O' as int || frame[5] == 'C' as int)
              then BoltState(frame[5] == 'O' as int) else Unreadable
  {
    hide ParseResponse, ChecksumValid, LookupCode;
    ViewParses(frame, MCDC);
    if ParseResponse(frame).Some? {
      ParsedFields(frame);
    }
  }

  /** A calibration answer carries nothing: seven bytes. */
  lemma ViewOfCalibration(frame: seq<byte>)
    requires ReaderShape(frame) && Accepts(frame, Some(MCLZ))
    ensures View(frame).body == if |frame| == 7 then Empty else Unreadable
  {
    hide ParseResponse, ChecksumValid, LookupCode;
    ViewParses(frame, MCLZ);
    if ParseResponse(frame).Some? {
      ParsedFields(frame);
    }
  }

  /** A loadcell answer: ten six-byte fields in channel order, each without its padding. */
  lemma ViewOfWeights(frame: seq<byte>)
    requires ReaderShape(frame) && Accepts(frame, Some(RQIW))
    ensures View(frame).body.Weights? <==> |frame| == 67 && PlainText(frame)
    ensures !View(frame).body.Weights? ==> View(frame).body.Unreadable?
    ensures View(frame).body.Weights? ==>
              var values := View(frame).body.values;
              |values| == 10 && forall i | 0 <= i < 10 :: ReadsAs(values[i], frame, i)
  {
    hide ParseResponse, ChecksumValid, LookupCode, TextOf;
    ViewParses(frame, RQIW);
    if ParseResponse(frame).Some? {
      ParsedFields(frame);
      var readings := ParseResponse(frame).value.data.readings;
      forall i | 0 <= i < 10
        ensures ReadsAs(ToTexts(readings)[i], frame, i)
      {
        assert TextAt(readings[i], frame, 5, 6, i);
        ToTextSpells(readings[i]);
        assert ToTexts(readings)[i] == ToText(readings[i]);
      }
    }
  }

  /** The text of channel i: its six bytes up to the padding. */
  ghost predicate ReadsAs(text: string, frame: seq<byte>, i: nat) {
    exists bytes :: Spells(text, bytes) && TextAt(bytes, frame, 5, 6, i)
  }

  /** Every task sends the request its command prints. */
  lemma MessagesArePrinted(t: Task)
    ensures var m := MessageOf(t);
            match t.job
            case ReadLoadcells => BuildRequest(Bare(RQIW)) == Built(Frame(CodeBytes(m.code) + m.data))
            case Calibrate => BuildRequest(Bare(MCLZ)) == Built(Frame(CodeBytes(m.code) + m.data))
            case OperateBolt(open) =>
              BuildRequest(if t.bolt.reading then Bare(RQID) else SetBolt(open)) == Built(Frame(CodeBytes(m.code) + m.data))
            case Simple(message) => m == message
  {
    var m := MessageOf(t);
    assert CodeBytes(m.code) + [] == CodeBytes(m.code);
  }
}
