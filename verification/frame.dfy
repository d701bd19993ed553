/** The response frame the coordinator rebuilds from the register words of one
    read before handing it to the decoder: the Modbus RTU layout of a Read
    Holding Registers response (address byte, then the response PDU of section
    6.3 of the MODBUS Application Protocol Specification V1.1b3), without the
    CRC, with every register sent high byte first (section 4.2). */
module Frame {

  import opened Wrappers

  type Byte = x: int | 0 <= x < 0x100
  type Word = x: int | 0 <= x < 0x1_0000

  /** Why `bytes([...])` refused the header: a value outside 0..255. */
  datatype FrameError = HeaderByteOutOfRange

  function High(w: Word): Byte { w / 0x100 }
  function Low(w: Word): Byte { w % 0x100 }

  /** The word whose big-endian bytes are `hi` then `lo`. */
  function Join(hi: Byte, lo: Byte): (w: Word)
    ensures High(w) == hi && Low(w) == lo
  {
    (hi as int) * 0x100 + lo
  }

  /** A word is the join of its two bytes. */
  lemma SplitJoin(w: Word)
    ensures Join(High(w), Low(w)) == w
  {
  }

  /** The words as consecutive big-endian byte pairs (`reg.to_bytes(2, "big")`). */
  function EncodeWords(words: seq<Word>): (bs: seq<Byte>)
    ensures |bs| == 2 * |words|
    ensures forall i :: 0 <= i < |words| ==> bs[2 * i] == High(words[i]) && bs[2 * i + 1] == Low(words[i])
  {
    if |words| == 0 then []
    else
      var rest := EncodeWords(words[1..]);
      var bs := [High(words[0]), Low(words[0])] + rest;
      assert forall i :: 1 <= i < |words| ==> words[1..][i - 1] == words[i];
      assert forall k :: 2 <= k < |bs| ==> bs[k] == rest[k - 2];
      bs
  }

  /** The inverse reading: each byte pair, high byte first, as one word. */
  function DecodeWords(bs: seq<Byte>): (words: seq<Word>)
    requires |bs| % 2 == 0
    ensures |words| == |bs| / 2
    ensures forall i :: 0 <= i < |words| ==> words[i] == Join(bs[2 * i], bs[2 * i + 1])
  {
    if |bs| == 0 then []
    else
      var rest := DecodeWords(bs[2..]);
      var words := [Join(bs[0], bs[1])] + rest;
      assert forall i :: 1 <= i < |words| ==> words[i] == rest[i - 1];
      words
  }

  /** The frame of one read: unit id, function code, a byte count of twice the
      REQUESTED word count (not the number of words received), then the words.
      Python's `bytes` raises `ValueError` when a header value falls outside
      0..255; that is the `Failure`. */
  function BuildFrame(unitId: Byte, functionCode: int, wordCount: int, registers: seq<Word>)
    : (r: Result<seq<Byte>, FrameError>)
    ensures r.Success? <==> 0 <= functionCode < 0x100 && 0 <= 2 * wordCount < 0x100
    ensures r.Success? ==> |r.value| == 3 + 2 * |registers|
    ensures r.Success? ==>
      r.value[0] == unitId && r.value[1] == functionCode && r.value[2] == 2 * wordCount
    ensures r.Success? ==> DecodeWords(r.value[3..]) == registers
  {
    if 0 <= functionCode < 0x100 && 0 <= 2 * wordCount < 0x100 then
      var frame := [unitId, functionCode, 2 * wordCount] + EncodeWords(registers);
      assert frame[3..] == EncodeWords(registers);
      DecodeEncode(registers);
      Success(frame)
    else
      Failure(HeaderByteOutOfRange)
  }

  /** Splitting the encoded words back into pairs recovers them. */
  lemma {:induction false} DecodeEncode(words: seq<Word>)
    ensures DecodeWords(EncodeWords(words)) == words
    decreases |words|
  {
    if |words| > 0 {
      var rest := EncodeWords(words[1..]);
      var bs := [High(words[0]), Low(words[0])] + rest;
      assert EncodeWords(words) == bs;
      assert bs[2..] == rest;
      assert DecodeWords(bs) == [Join(bs[0], bs[1])] + DecodeWords(rest);
      DecodeEncode(words[1..]);
      SplitJoin(words[0]);
      assert words == [words[0]] + words[1..];
    }
  }

  /** Every even-length byte string is the encoding of the words read from it. */
  lemma {:induction false} EncodeDecode(bs: seq<Byte>)
    requires |bs| % 2 == 0
    ensures EncodeWords(DecodeWords(bs)) == bs
    decreases |bs|
  {
    if |bs| > 0 {
      var ws := DecodeWords(bs);
      assert ws[1..] == DecodeWords(bs[2..]);
      EncodeDecode(bs[2..]);
      assert bs == [bs[0], bs[1]] + bs[2..];
    }
  }

  /** An illustration of the header's byte count following the request (the
      general fact is the third postcondition of `BuildFrame`): a response of two
      words to a request for eight still yields a header announcing sixteen
      bytes, longer than the payload behind it. */
  lemma ByteCountFollowsRequest()
    ensures BuildFrame(0xFF, 3, 8, [0x0102, 0x0304]) == Success([0xFF, 3, 16, 1, 2, 3, 4])
  {
    var ws: seq<Word> := [0x0102, 0x0304];
    var bs := EncodeWords(ws);
    assert bs[0] == 1 && bs[1] == 2 && bs[2] == 3 && bs[3] == 4;
    assert bs == [1, 2, 3, 4];
    assert [0xFF, 3, 16] + bs == [0xFF, 3, 16, 1, 2, 3, 4];
  }
}
