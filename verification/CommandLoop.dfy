/** The client's command loop: take commands off the stream one by one, run each on the local
    card through the connection cache, and send its response. */
module CommandLoop {
  import opened Prelude
  import opened Messages
  import opened CardSlot
  import opened CardCache
  import CardLaws
  import opened VpcdSpec
  import Commands = ClientCommands
  import opened ClientCommands

  type Slots = CardLaws.Slots

  /** The readers' connections after a number of commands, and the responses to them. */
  datatype Served = Served(slots: Slots, responses: seq<CommandResponse>)

  /** Commands taken off a stream one by one, until it ends or yields an error. `establish(n)` is
      the error, if any, of setting up PC/SC for the n-th command. */
  function Serve(sid: string, slots: Slots, oracles: string -> Oracle, stream: seq<Option<CommandRequest>>,
                 establish: nat -> Option<PcscError>, n: nat): Served
    decreases |stream|
  {
    if stream == [] || stream[0].None? then Served(slots, [])
    else
      var e := Turn(sid, slots, oracles, stream[0].value, establish(n));
      var rest := Serve(sid, slots[stream[0].value.readerName := e.slot], oracles, stream[1..], establish, n + 1);
      Served(rest.slots, [e.response] + rest.responses)
  }

  /** One command, run on the connection its reader has by then. */
  function Turn(sid: string, slots: Slots, oracles: string -> Oracle, request: CommandRequest,
                establish: Option<PcscError>): Executed {
    var reader := request.readerName;
    Commands.ProcessCommand(sid, request, CardLaws.SlotOf(slots, reader), oracles(reader), establish)
  }

  /** The turn of the `i`-th command: it sees what the commands before it have left. */
  function TurnAt(sid: string, slots: Slots, oracles: string -> Oracle, stream: seq<Option<CommandRequest>>,
                  establish: nat -> Option<PcscError>, n: nat, i: nat): Executed
    requires i < |stream| && stream[i].Some?
  {
    Turn(sid, Serve(sid, slots, oracles, stream[..i], establish, n).slots, oracles, stream[i].value, establish(n + i))
  }

  /** Every command up to the end of the stream or the first error is run exactly once, in
      order, and the i-th response is the i-th command's: it carries its id, and what the server
      makes of it is the card's own answer to it. */
  lemma {:induction false} EachCommandOnce(sid: string, slots: Slots, oracles: string -> Oracle,
      stream: seq<Option<CommandRequest>>, establish: nat -> Option<PcscError>, n: nat, i: nat)
    requires i < |stream| && forall j :: 0 <= j <= i ==> stream[j].Some?
    ensures var responses := Serve(sid, slots, oracles, stream, establish, n).responses;
            var e := TurnAt(sid, slots, oracles, stream, establish, n, i);
            && i < |responses| && responses[i] == e.response
            && e.response.commandId == stream[i].value.commandId && e.response.sessionId == sid
            && (stream[i].value.command.Some? && stream[i].value.command.value.Apdu? ==>
                  ApduAnswer(Got(e.response)) == CardVerdict(e.events, stream[i].value.command.value.apdu))
            && (stream[i].value.command == Some(GetAtr) ==> AtrAnswer(Got(e.response)) == AtrVerdict(e.events))
    decreases i
  {
    hide Turn;
    TurnIsHonest(sid, Serve(sid, slots, oracles, stream[..i], establish, n).slots, oracles, stream[i].value, establish(n + i));
    if i == 0 {
      assert stream[..0] == [];
    } else {
      var first := Turn(sid, slots, oracles, stream[0].value, establish(n));
      var slots' := slots[stream[0].value.readerName := first.slot];
      EachCommandOnce(sid, slots', oracles, stream[1..], establish, n + 1, i - 1);
      assert stream[..i][1..] == stream[1..][..i - 1];
      assert Serve(sid, slots, oracles, stream[..i], establish, n).slots
          == Serve(sid, slots', oracles, stream[1..][..i - 1], establish, n + 1).slots;
    }
  }

  lemma TurnIsHonest(sid: string, slots: Slots, oracles: string -> Oracle, request: CommandRequest,
                     establish: Option<PcscError>)
    ensures var e := Turn(sid, slots, oracles, request, establish);
            && e.response.commandId == request.commandId && e.response.sessionId == sid
            && (request.command.Some? && request.command.value.Apdu? ==>
                  ApduAnswer(Got(e.response)) == CardVerdict(e.events, request.command.value.apdu))
            && (request.command == Some(GetAtr) ==> AtrAnswer(Got(e.response)) == AtrVerdict(e.events))
  {
    var slot, oracle := CardLaws.SlotOf(slots, request.readerName), oracles(request.readerName);
    match request.command
    case Some(Apdu(apdu)) => ApduResponseIsCardsAnswer(sid, request, apdu, slot, oracle, establish);
    case Some(GetAtr) => AtrResponseIsCardsAtr(sid, request, slot, oracle, establish);
    case _ =>
  }

  /** There are no more responses than commands before the end or the first error. */
  lemma {:induction false} NoMoreResponses(sid: string, slots: Slots, oracles: string -> Oracle,
      stream: seq<Option<CommandRequest>>, establish: nat -> Option<PcscError>, n: nat)
    ensures var k := |Serve(sid, slots, oracles, stream, establish, n).responses|;
            && k <= |stream| && (k < |stream| ==> stream[k].None?)
            && (forall j :: 0 <= j < k ==> stream[j].Some?)
    decreases |stream|
  {
    if stream != [] && stream[0].Some? {
      var first := Turn(sid, slots, oracles, stream[0].value, establish(n));
      NoMoreResponses(sid, slots[stream[0].value.readerName := first.slot], oracles, stream[1..], establish, n + 1);
    }
  }

  /** The card calls that commands make on one reader. */
  function CallsFor(stream: seq<Option<CommandRequest>>, reader: string): seq<CardLaws.Op> {
    if stream == [] || stream[0].None? then []
    else
      var r := stream[0].value;
      (if r.readerName != reader then []
       else match r.command
            case Some(Apdu(apdu)) => [CardLaws.TransmitOp(apdu)]
            case Some(Connect) => [CardLaws.AtrOp]
            case Some(GetAtr) => [CardLaws.AtrOp]
            case Some(Disconnect) => []
            case None => [])
      + CallsFor(stream[1..], reader)
  }

  /** Serving commands is one long run of card calls on each reader's persistent connection, so all
      laws of such runs hold over any number of commands. */
  lemma {:induction false} ServingIsOneRun(sid: string, slots: Slots, oracles: string -> Oracle,
      stream: seq<Option<CommandRequest>>, n: nat, reader: string)
    ensures CardLaws.SlotOf(Serve(sid, slots, oracles, stream, _ => None, n).slots, reader)
         == CardLaws.RunOps(reader, CardLaws.SlotOf(slots, reader), oracles(reader), 5, CallsFor(stream, reader)).slot
    decreases |stream|
  {
    if stream != [] && stream[0].Some? {
      var r := stream[0].value;
      var e := Turn(sid, slots, oracles, r, None);
      var slots' := slots[r.readerName := e.slot];
      ServingIsOneRun(sid, slots', oracles, stream[1..], n + 1, reader);
      var calls := CallsFor(stream[1..], reader);
      if r.readerName == reader && r.command.Some? && !r.command.value.Disconnect? {
        var op := if r.command.value.Apdu? then CardLaws.TransmitOp(r.command.value.apdu) else CardLaws.AtrOp;
        CardLaws.UnfoldOps(reader, CardLaws.SlotOf(slots, reader), oracles(reader), 5, op, calls);
      } else {
        assert [] + calls == calls;
      }
    }
  }

  class GrpcClient {
    const cards: CardConnectionManager
    const sessionId: string

    constructor (cards: CardConnectionManager, sessionId: string)
      ensures this.cards == cards && this.sessionId == sessionId
    {
      this.cards := cards;
      this.sessionId := sessionId;
    }

    /** Run one command and build its response. `establish` is the error of setting up the
        PC/SC context, when that fails. */
    method ProcessCommand(request: CommandRequest, establish: Option<PcscError>) returns (response: CommandResponse)
      modifies cards`connections, cards.context
      ensures var reader := request.readerName;
              var e := Commands.ProcessCommand(sessionId, request, old(cards.SlotOf(reader)),
                                               cards.context.oracles(reader), establish);
              response == e.response && cards.SlotOf(reader) == e.slot
              && cards.context.LogOf(reader) == old(cards.context.LogOf(reader)) + e.events
      ensures forall r :: r != request.readerName ==>
                cards.SlotOf(r) == old(cards.SlotOf(r)) && cards.context.LogOf(r) == old(cards.context.LogOf(r))
    {
      var reader := request.readerName;
      var o: Outcome;
      match request.command {
      case Some(Apdu(apdu)) =>
        if establish.Some? {
          o := ApduOutcome(Failure(PcscFailure(establish.value)));
        } else {
          var result := cards.Transmit(reader, apdu);
          o := ApduOutcome(result);
        }
      case Some(Connect) =>
        if establish.Some? {
          o := ConnectOutcome(Failure(PcscFailure(establish.value)));
        } else {
          var atr := cards.GetAtr(reader);
          o := ConnectOutcome(atr);
        }
      case Some(Disconnect) => o := Outcome(true, "", Some(DisconnectPayload));
      case Some(GetAtr) =>
        if establish.Some? {
          o := AtrOutcome(Failure(PcscFailure(establish.value)));
        } else {
          var atr := cards.GetAtr(reader);
          o := AtrOutcome(atr);
        }
      case None => o := Failed("Empty command");
      }
      response := CommandResponse(request.commandId, sessionId, o.success, o.error, o.payload);
    }

    /** The connections as a map; readers never used have the empty slot. */
    ghost function SlotsNow(): Slots
      reads cards, cards.context
    {
      map reader | reader in cards.connections.Keys + cards.context.calls.Keys :: cards.SlotOf(reader)
    }

    /** Serve the stream until it ends or yields an error. */
    method ServeCommands(stream: seq<Option<CommandRequest>>, establish: nat -> Option<PcscError>) returns (responses: seq<CommandResponse>)
      modifies cards`connections, cards.context
      ensures var served := Serve(sessionId, old(SlotsNow()), cards.context.oracles, stream, establish, 0);
              responses == served.responses && forall reader :: cards.SlotOf(reader) == CardLaws.SlotOf(served.slots, reader)
    {
      responses := [];
      ghost var slots := SlotsNow();
      ghost var whole := Serve(sessionId, slots, cards.context.oracles, stream, establish, 0);
      for i := 0 to |stream|
        invariant forall reader :: cards.SlotOf(reader) == CardLaws.SlotOf(slots, reader)
        invariant var rest := Serve(sessionId, slots, cards.context.oracles, stream[i..], establish, i);
                  whole == Served(rest.slots, responses + rest.responses)
      {
        if stream[i].None? {
          return;
        }
        var request := stream[i].value;
        var response := ProcessCommand(request, establish(i));
        assert stream[i..][1..] == stream[i + 1..];
        ghost var e := Turn(sessionId, slots, cards.context.oracles, request, establish(i));
        ghost var rest := Serve(sessionId, slots[request.readerName := e.slot], cards.context.oracles, stream[i + 1..], establish, i + 1);
        assert responses + ([response] + rest.responses) == (responses + [response]) + rest.responses;
        slots := slots[request.readerName := e.slot];
        responses := responses + [response];
      }
    }
  }
}
