/** The vicc byte protocol between vpcd and the server: length-prefixed frames both ways. */
module Vicc {
  import opened Prelude

  datatype Control = PowerOff | PowerOn | Reset | GetAtr

  function ControlByte(c: Control): byte {
    match c
    case PowerOff => 0
    case PowerOn => 1
    case Reset => 2
    case GetAtr => 4
  }

  function ControlOf(b: byte): Option<Control> {
    if b == 0 then Some(PowerOff)
    else if b == 1 then Some(PowerOn)
    else if b == 2 then Some(Reset)
    else if b == 4 then Some(GetAtr)
    else None
  }

  datatype Message = ControlMessage(control: Control) | ApduMessage(apdu: seq<byte>)

  /** What a frame can carry: a control byte, or an APDU of at least two bytes. */
  predicate Valid(m: Message) {
    m.ApduMessage? ==> 2 <= |m.apdu| < U16_MODULUS
  }

  function Payload(m: Message): seq<byte> {
    match m
    case ControlMessage(c) => [ControlByte(c)]
    case ApduMessage(apdu) => apdu
  }

  function BigEndian(n: u16): seq<byte> {
    [n / 256, n % 256]
  }

  function FromBigEndian(hi: byte, lo: byte): u16 {
    hi * 256 + lo
  }

  /** The length is cast to 16 bits, whatever the data. */
  function Frame(data: seq<byte>): seq<byte> {
    BigEndian(|data| % U16_MODULUS) + data
  }

  /** How the peer prints a message sequence. */
  function EncodeAll(ms: seq<Message>): seq<byte> {
    if ms == [] then [] else Frame(Payload(ms[0])) + EncodeAll(ms[1..])
  }

  // ---------------------------------------------------------------------------------------
  // Receiving

  /** What follows the last byte that arrives: an orderly close, or a failing connection. */
  datatype Tail = Eof | Failing

  datatype Fault = LengthUnreadable | ZeroLength | DataUnreadable | UnknownControl

  datatype Received =
    | Got(message: Message, rest: seq<byte>)
    | Graceful
    | Broken(fault: Fault)

  function Receive(input: seq<byte>, tail: Tail): Received {
    if |input| < 2 then
      if tail.Eof? then Graceful else Broken(LengthUnreadable)
    else
      var len := FromBigEndian(input[0], input[1]);
      if len == 0 then Broken(ZeroLength)
      else if |input| < 2 + len then Broken(DataUnreadable)
      else
        var data := input[2..2 + len];
        var rest := input[2 + len..];
        if len == 1 then
          var c := ControlOf(data[0]);
          if c.Some? then Got(ControlMessage(c.value), rest) else Broken(UnknownControl)
        else Got(ApduMessage(data), rest)
  }

  /** The messages delivered until the connection ends, and how it ends. */
  datatype Parsed = Parsed(messages: seq<Message>, end: Received)

  function ReceiveAll(input: seq<byte>, tail: Tail): Parsed
    decreases |input|
  {
    match Receive(input, tail)
    case Got(m, rest) =>
      var later := ReceiveAll(rest, tail);
      Parsed([m] + later.messages, later.end)
    case end => Parsed([], end)
  }

  lemma BigEndianInverse(n: u16)
    ensures var b := BigEndian(n); |b| == 2 && FromBigEndian(b[0], b[1]) == n
  {
  }

  lemma BigEndianOf(hi: byte, lo: byte)
    ensures BigEndian(256 * hi + lo) == [hi, lo]
  {
    assert (256 * hi + lo) / 256 == hi && (256 * hi + lo) % 256 == lo;
  }

  lemma FrameOf(data: seq<byte>)
    requires |data| < U16_MODULUS
    ensures Frame(data) == BigEndian(|data|) + data
  {
    hide BigEndian;
    FitsModulus(|data|);
  }

  lemma FitsModulus(n: nat)
    requires n < U16_MODULUS
    ensures n % U16_MODULUS == n
  {
  }

  /** A message, once its length is read. */
  lemma ReceiveBody(input: seq<byte>, tail: Tail, data: seq<byte>, rest: seq<byte>)
    requires |input| >= 2 && FromBigEndian(input[0], input[1]) == |data| && input[2..] == data + rest
    ensures Receive(input, tail)
         == if data == [] then Broken(ZeroLength)
            else if |data| > 1 then Got(ApduMessage(data), rest)
            else if ControlOf(data[0]).Some? then Got(ControlMessage(ControlOf(data[0]).value), rest)
            else Broken(UnknownControl)
  {
    hide FromBigEndian, ControlOf;
    assert |input| == 2 + |data| + |rest|;
    assert input[2..2 + |data|] == input[2..][..|data|] == data;
    assert input[2 + |data|..] == input[2..][|data|..] == rest;
  }

  /** The wire format, byte by byte: a big-endian 16-bit length; length 1 is a control byte, which
      is 0, 1, 2 or 4; longer is an APDU. */
  lemma WireFormat(hi: byte, lo: byte, data: seq<byte>, rest: seq<byte>, tail: Tail)
    requires |data| == 256 * hi + lo
    ensures var r := Receive([hi, lo] + data + rest, tail);
            if data == [] then r == Broken(ZeroLength)
            else if data == [0] then r == Got(ControlMessage(PowerOff), rest)
            else if data == [1] then r == Got(ControlMessage(PowerOn), rest)
            else if data == [2] then r == Got(ControlMessage(Reset), rest)
            else if data == [4] then r == Got(ControlMessage(GetAtr), rest)
            else if |data| == 1 then r == Broken(UnknownControl)
            else r == Got(ApduMessage(data), rest)
    ensures Frame(data) == [hi, lo] + data
  {
    BigEndianOf(hi, lo);
    FrameOf(data);
    assert FromBigEndian(hi, lo) == |data|;
    hide BigEndian, FromBigEndian, Frame, Receive;
    var input := [hi, lo] + data + rest;
    assert input[0] == hi && input[1] == lo && input[2..] == data + rest;
    ReceiveBody(input, tail, data, rest);
    assert |data| == 1 ==> data == [data[0]];
  }

  /** A stream that ends early ends gracefully only inside a length. */
  lemma EndsEarly(input: seq<byte>)
    requires |input| < 2 || 2 + 256 * input[0] + input[1] > |input|
    ensures Receive(input, Eof) == if |input| < 2 then Graceful else Broken(DataUnreadable)
    ensures Receive(input, Failing) == if |input| < 2 then Broken(LengthUnreadable) else Broken(DataUnreadable)
  {
  }

  lemma FrameShape(data: seq<byte>, rest: seq<byte>)
    requires |data| < U16_MODULUS
    ensures var s := Frame(data) + rest;
            && |s| >= 2 + |data| && FromBigEndian(s[0], s[1]) == |data|
            && s[2..2 + |data|] == data && s[2 + |data|..] == rest
  {
    FrameOf(data);
    BigEndianInverse(|data|);
    hide Frame, BigEndian, FromBigEndian;
  }

  lemma ReceiveFrame(m: Message, rest: seq<byte>, tail: Tail)
    requires Valid(m)
    ensures Receive(Frame(Payload(m)) + rest, tail) == Got(m, rest)
  {
    FrameShape(Payload(m), rest);
  }

  lemma ReceiveAllFrame(m: Message, rest: seq<byte>, tail: Tail)
    requires Valid(m)
    ensures var later := ReceiveAll(rest, tail);
            ReceiveAll(Frame(Payload(m)) + rest, tail) == Parsed([m] + later.messages, later.end)
  {
    ReceiveFrame(m, rest, tail);
  }

  /** Parsing inverts printing on whole streams. */
  lemma {:induction false} ParseInvertsPrint(ms: seq<Message>)
    requires forall m | m in ms :: Valid(m)
    ensures ReceiveAll(EncodeAll(ms), Eof) == Parsed(ms, Graceful)
    decreases |ms|
  {
    if ms != [] {
      ReceiveFrame(ms[0], EncodeAll(ms[1..]), Eof);
      ParseInvertsPrint(ms[1..]);
    }
  }

  lemma CutFrame(m: Message, n: nat)
    requires Valid(m) && n < |Frame(Payload(m))|
    ensures Receive(Frame(Payload(m))[..n], Eof) == if n < 2 then Graceful else Broken(DataUnreadable)
  {
    FrameOf(Payload(m));
    BigEndianInverse(|Payload(m)|);
    hide Frame, BigEndian, FromBigEndian;
    var frame := Frame(Payload(m));
    var cut := frame[..n];
    if n >= 2 {
      assert cut[0] == frame[0] && cut[1] == frame[1];
      assert FromBigEndian(cut[0], cut[1]) == |Payload(m)|;
    }
  }

  /** The first `n` bytes of the printed messages hold exactly the first `k` of them, and that
      is what the receive loop delivers. The end is graceful when the cut falls inside a length
      prefix, and an error inside a body. */
  ghost predicate CutAt(ms: seq<Message>, n: nat, k: nat) {
    && k <= |ms| && |EncodeAll(ms[..k])| <= n <= |EncodeAll(ms)|
    && (k < |ms| ==> n < |EncodeAll(ms[..k + 1])|)
    && ReceiveAll(EncodeAll(ms)[..n], Eof)
         == Parsed(ms[..k], if n - |EncodeAll(ms[..k])| < 2 then Graceful else Broken(DataUnreadable))
  }

  lemma CutInFirst(ms: seq<Message>, n: nat)
    requires ms != [] && Valid(ms[0]) && n < |Frame(Payload(ms[0]))|
    ensures CutAt(ms, n, 0)
  {
    var first := Frame(Payload(ms[0]));
    PrefixEncodes(ms, 1);
    assert EncodeAll(ms)[..n] == first[..n];
    CutFrame(ms[0], n);
  }

  lemma CutLater(ms: seq<Message>, n: nat, k: nat)
    requires ms != [] && Valid(ms[0]) && n >= |Frame(Payload(ms[0]))|
    requires CutAt(ms[1..], n - |Frame(Payload(ms[0]))|, k)
    ensures CutAt(ms, n, k + 1)
  {
    hide Receive, ReceiveAll, Frame, Payload;
    var first := Frame(Payload(ms[0]));
    var rest := EncodeAll(ms[1..])[..n - |first|];
    PrefixEncodes(ms, k + 1);
    if k + 1 < |ms| { PrefixEncodes(ms, k + 2); }
    assert EncodeAll(ms)[..n] == first + rest;
    ReceiveAllFrame(ms[0], rest, Eof);
    assert [ms[0]] + ms[1..][..k] == ms[..k + 1];
  }

  /** A stream cut anywhere delivers exactly the messages whose frames are complete. */
  lemma {:induction false} CutStream(ms: seq<Message>, n: nat) returns (k: nat)
    requires forall m | m in ms :: Valid(m)
    requires n <= |EncodeAll(ms)|
    ensures CutAt(ms, n, k)
    decreases |ms|
  {
    if ms == [] {
      k := 0;
      assert EncodeAll(ms)[..n] == [];
    } else if n < |Frame(Payload(ms[0]))| {
      k := 0;
      CutInFirst(ms, n);
    } else {
      var j := CutStream(ms[1..], n - |Frame(Payload(ms[0]))|);
      k := j + 1;
      CutLater(ms, n, j);
    }
  }

  lemma PrefixEncodes(ms: seq<Message>, k: nat)
    requires 1 <= k <= |ms|
    ensures EncodeAll(ms[..k]) == Frame(Payload(ms[0])) + EncodeAll(ms[1..][..k - 1])
  {
    assert ms[..k][1..] == ms[1..][..k - 1];
  }

  lemma ReceiveExplains(input: seq<byte>, tail: Tail)
    ensures var r := Receive(input, tail);
            && (r.Got? ==> Valid(r.message) && input == Frame(Payload(r.message)) + r.rest)
            && (r.Graceful? <==> |input| < 2 && tail.Eof?)
  {
    if |input| >= 2 {
      var len := FromBigEndian(input[0], input[1]);
      assert BigEndian(len) == [input[0], input[1]];
      if 0 < len && 2 + len <= |input| {
        assert input == [input[0], input[1]] + input[2..2 + len] + input[2 + len..];
        if len == 1 { assert input[2..3] == [input[2]]; }
      }
    }
  }

  /** Conversely, on any byte stream whatever, what is delivered printed back is a prefix of the
      stream; the connection ends gracefully exactly when less than a length prefix is left
      over at an orderly close. */
  lemma {:induction false} PrintInvertsParse(input: seq<byte>, tail: Tail)
    ensures var p := ReceiveAll(input, tail);
            && (forall m | m in p.messages :: Valid(m))
            && EncodeAll(p.messages) <= input
            && !p.end.Got?
            && (p.end.Graceful? <==> |input| - |EncodeAll(p.messages)| < 2 && tail.Eof?)
    decreases |input|
  {
    ReceiveExplains(input, tail);
    var r := Receive(input, tail);
    if r.Got? {
      PrintInvertsParse(r.rest, tail);
      var later := ReceiveAll(r.rest, tail);
      assert ([r.message] + later.messages)[1..] == later.messages;
    }
  }

  // ---------------------------------------------------------------------------------------
  // Responses, as the peer reads them

  function Peel(stream: seq<byte>): Option<(seq<byte>, seq<byte>)> {
    if |stream| < 2 then None
    else
      var len := FromBigEndian(stream[0], stream[1]);
      if |stream| < 2 + len then None else Some((stream[2..2 + len], stream[2 + len..]))
  }

  function FrameAll(responses: seq<seq<byte>>): seq<byte> {
    if responses == [] then [] else Frame(responses[0]) + FrameAll(responses[1..])
  }

  /** The first `n` responses in a stream, if they are all there. */
  function PeelAll(stream: seq<byte>, n: nat): Option<seq<seq<byte>>> {
    if n == 0 then Some([])
    else
      match Peel(stream)
      case None => None
      case Some((data, rest)) =>
        var later := PeelAll(rest, n - 1);
        if later.None? then None else Some([data] + later.value)
  }

  /** A frame is read back as the data it was made from if and only if the data fits the
      16-bit length. */
  lemma FrameReadsBackIff(data: seq<byte>, rest: seq<byte>)
    ensures Peel(Frame(data) + rest) == Some((data, rest)) <==> |data| < U16_MODULUS
  {
    if |data| < U16_MODULUS {
      FrameShape(data, rest);
    } else {
      var s := Frame(data) + rest;
      assert FromBigEndian(s[0], s[1]) < |data|;
    }
  }

  /** The shortest data that does not fit is read as an empty response, and what it should have
      been is taken for the frames that follow. The card buffer allows up to 65538 bytes. */
  lemma OversizeDesynchronises(data: seq<byte>, rest: seq<byte>)
    requires |data| == U16_MODULUS
    ensures Peel(Frame(data) + rest) == Some(([], data + rest))
  {
    var s := Frame(data) + rest;
    assert s[0] == 0 && s[1] == 0;
    assert s[2..2] == [];
    assert s[2..] == data + rest;
  }

  /** Too long data is never read back as itself, whatever remainder is accepted. */
  lemma PeelledShort(data: seq<byte>, rest: seq<byte>)
    requires |data| >= U16_MODULUS
    ensures var p := Peel(Frame(data) + rest); p.Some? ==> p.value.0 != data
  {
    var p := Peel(Frame(data) + rest);
    if p.Some? {
      assert |p.value.0| < U16_MODULUS;
    }
  }

  /** Reading a frame and `n` more. */
  lemma PeelFirst(data: seq<byte>, rest: seq<byte>, n: nat)
    ensures var later := PeelAll(rest, n);
            var all := PeelAll(Frame(data) + rest, n + 1);
            if |data| < U16_MODULUS then all == if later.None? then None else Some([data] + later.value)
            else all.Some? ==> all.value != [] && all.value[0] != data
  {
    hide Frame, Peel;
    FrameReadsBackIff(data, rest);
    if |data| >= U16_MODULUS { PeelledShort(data, rest); }
  }

  predicate AllFit(responses: seq<seq<byte>>) {
    forall r | r in responses :: |r| < U16_MODULUS
  }

  lemma AllFitCons(first: seq<byte>, others: seq<seq<byte>>)
    ensures AllFit([first] + others) <==> |first| < U16_MODULUS && AllFit(others)
  {
    assert first in [first] + others;
    assert forall r | r in others :: r in [first] + others;
  }

  lemma SameTail(first: seq<byte>, others: seq<seq<byte>>, read: seq<seq<byte>>)
    ensures [first] + read == [first] + others <==> read == others
  {
    assert ([first] + read)[1..] == read && ([first] + others)[1..] == others;
  }

  /** Any sequence of responses is read back as sent if and only if all of them fit. */
  lemma {:induction false} ResponsesReadBackIff(responses: seq<seq<byte>>, rest: seq<byte>)
    ensures (PeelAll(FrameAll(responses) + rest, |responses|) == Some(responses))
              <==> (forall r | r in responses :: |r| < U16_MODULUS)
    decreases |responses|
  {
    hide Frame, Peel, PeelAll;
    if responses == [] {
      assert PeelAll(FrameAll(responses) + rest, 0) == Some([]) by { ReadNothing(FrameAll(responses) + rest); }
    } else {
      var first, others := responses[0], responses[1..];
      var after := FrameAll(others) + rest;
      assert FrameAll(responses) + rest == Frame(first) + after;
      assert responses == [first] + others;
      PeelFirst(first, after, |others|);
      ResponsesReadBackIff(others, rest);
      AllFitCons(first, others);
      assert AllFit(responses) <==> |first| < U16_MODULUS && AllFit(others);
      if PeelAll(after, |others|).Some? { SameTail(first, others, PeelAll(after, |others|).value); }
    }
  }

  lemma ReadNothing(stream: seq<byte>)
    ensures PeelAll(stream, 0) == Some([])
  {
  }
}
