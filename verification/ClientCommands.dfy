/** How the remote client executes a command and builds its response. */
module ClientCommands {
  import opened Prelude
  import opened Messages
  import opened CardSlot
  import CardLaws
  import opened CardOutcomes
  import opened VpcdSpec

  /** The success flag, error text and payload of a response. */
  datatype Outcome = Outcome(success: bool, error: string, payload: Option<Payload>)

  function Failed(error: string): Outcome {
    Outcome(false, error, None)
  }

  /** Split the card's answer into data and status word. */
  function ApduOutcome(result: Result<seq<byte>, ClientError>): Outcome {
    match result
    case Success(bytes) =>
      if |bytes| >= 2 then
        var n := |bytes|;
        Outcome(true, "", Some(ApduPayload(bytes[..n - 2], bytes[n - 2], bytes[n - 1])))
      else Failed("Invalid response length")
    case Failure(e) => Failed("APDU transmission failed: " + Display(e))
  }

  function ConnectOutcome(result: Result<seq<byte>, ClientError>): Outcome {
    match result
    case Success(atr) => Outcome(true, "", Some(ConnectPayload(1, 0, atr)))
    case Failure(e) => Failed("Card connect failed: " + Display(e))
  }

  predicate SaysNoCard(error: string) {
    Contains(error, "SCARD_E_NO_SMARTCARD") || Contains(error, "No card") || Contains(error, "NoSmartcard")
  }

  function AtrOutcome(result: Result<seq<byte>, ClientError>): Outcome {
    match result
    case Success(atr) => Outcome(true, "", Some(AtrPayload(atr, true)))
    case Failure(e) =>
      if SaysNoCard(Display(e)) then Outcome(true, "", Some(AtrPayload([], false)))
      else Failed("Get ATR failed: " + Display(e))
  }

  /** A command as executed: the reader's connection afterwards, the PC/SC calls made, and
      the response to send. */
  datatype Executed = Executed(slot: Slot, events: seq<Event>, response: CommandResponse)

  /** `establish` is the error of establishing the PC/SC context, if that fails. */
  function ProcessCommand(sessionId: string, request: CommandRequest, slot: Slot, oracle: Oracle,
                          establish: Option<PcscError>): Executed
  {
    var reader := request.readerName;
    var none := (slot, []);
    var (call, outcome) :=
      match request.command
      case Some(Apdu(apdu)) =>
        if establish.Some? then (none, ApduOutcome(Failure(PcscFailure(establish.value))))
        else var e := Transmit(reader, slot, oracle, MAX_RETRIES, apdu); ((e.slot, e.events), ApduOutcome(e.result))
      case Some(Connect) =>
        if establish.Some? then (none, ConnectOutcome(Failure(PcscFailure(establish.value))))
        else var e := QueryAtr(reader, slot, oracle, MAX_RETRIES); ((e.slot, e.events), ConnectOutcome(e.result))
      case Some(Disconnect) => (none, Outcome(true, "", Some(DisconnectPayload)))
      case Some(GetAtr) =>
        if establish.Some? then (none, AtrOutcome(Failure(PcscFailure(establish.value))))
        else var e := QueryAtr(reader, slot, oracle, MAX_RETRIES); ((e.slot, e.events), AtrOutcome(e.result))
      case None => (none, Failed("Empty command"));
    Executed(call.0, call.1,
             CommandResponse(request.commandId, sessionId, outcome.success, outcome.error, outcome.payload))
  }

  /** Splitting the card's bytes on the client and joining them on the server gives them back
      unchanged exactly when there is a status word to split off. */
  lemma SplitThenJoin(bytes: seq<byte>, id: u64, sid: string)
    ensures var o := ApduOutcome(Success(bytes));
            var answer := ApduAnswer(Got(CommandResponse(id, sid, o.success, o.error, o.payload)));
            answer == if |bytes| >= 2 then bytes else NO_DIAGNOSIS
  {
  }

  /** The card call that last answered. */
  ghost predicate CardSaid(events: seq<Event>, apdu: seq<byte>, bytes: seq<byte>) {
    && events != []
    && Last(events).Transmitted?
    && Last(events).apdu == apdu
    && Last(events).answer.Success?
    && Last(events).answer.value == bytes
  }

  ghost predicate CardReportedAtr(events: seq<Event>, atr: seq<byte>) {
    && events != []
    && Last(events).Queried?
    && Last(events).atr.Success?
    && Last(events).atr.value == atr
  }

  /** What vpcd is to get for an APDU: the bytes the card call that answered it returned, when
      there are at least a status word's worth of them. */
  function CardVerdict(events: seq<Event>, apdu: seq<byte>): seq<byte> {
    if events != [] && Last(events).Transmitted? && Last(events).apdu == apdu
       && Last(events).answer.Success? && |Last(events).answer.value| >= 2
    then Last(events).answer.value
    else NO_DIAGNOSIS
  }

  function AtrVerdict(events: seq<Event>): seq<byte> {
    if events != [] && Last(events).Queried? && Last(events).atr.Success? then Last(events).atr.value else []
  }

  /** What the server makes of the response to an APDU command is the card's answer to that
      APDU, byte for byte, whenever the card gave one, and otherwise the fixed error status. */
  lemma ApduResponseIsCardsAnswer(sid: string, request: CommandRequest, apdu: seq<byte>, slot: Slot,
                                  oracle: Oracle, establish: Option<PcscError>)
    requires request.command == Some(Apdu(apdu))
    ensures var e := ProcessCommand(sid, request, slot, oracle, establish);
            ApduAnswer(Got(e.response)) == CardVerdict(e.events, apdu)
  {
    if establish.None? {
      var t := Transmit(request.readerName, slot, oracle, MAX_RETRIES, apdu);
      CardLaws.TransmitReturnsCardAnswer(request.readerName, slot, oracle, MAX_RETRIES, apdu);
      if t.result.Success? {
        SplitThenJoin(t.result.value, request.commandId, sid);
      }
    }
  }

  /** Likewise the answer to a GetAtr command is the ATR the card reported, or empty. */
  lemma AtrResponseIsCardsAtr(sid: string, request: CommandRequest, slot: Slot,
                              oracle: Oracle, establish: Option<PcscError>)
    requires request.command == Some(GetAtr)
    ensures var e := ProcessCommand(sid, request, slot, oracle, establish);
            AtrAnswer(Got(e.response)) == AtrVerdict(e.events)
  {
    if establish.None? {
      CardLaws.QueryReturnsCardAtr(request.readerName, slot, oracle, MAX_RETRIES);
    }
  }

  // ---------------------------------------------------------------------------------------
  // Every command, in terms of what the PC/SC stack replies

  /** The bytes vpcd is to get for an APDU by what the card replied to it. */
  predicate AnsweredAs(reply: Result<CardBytes, ClientError>, bytes: seq<byte>) {
    bytes == if reply.Success? && |reply.value| >= 2 then reply.value else [0x6F, 0x00]
  }

  /** An APDU command is transmitted, and its response is the card's reply split into data and
      status word, or a failure when the card gave none. */
  lemma ApduCommandMeans(sid: string, request: CommandRequest, apdu: seq<byte>, slot: Slot, oracle: Oracle,
                         reply: Result<CardBytes, ClientError>, after: Slot)
    requires request.command == Some(Apdu(apdu))
    requires CardReplies(request.readerName, oracle, slot, 5, reply, after)
    ensures var e := ProcessCommand(sid, request, slot, oracle, None);
            && e.slot == after && e.response.commandId == request.commandId && e.response.sessionId == sid
            && (if reply.Success? && |reply.value| >= 2 then
                  var n := |reply.value|;
                  && e.response.success
                  && e.response.response == Some(ApduPayload(reply.value[..n - 2], reply.value[n - 2], reply.value[n - 1]))
                else !e.response.success && e.response.response == None)
            && AnsweredAs(reply, ApduAnswer(Got(e.response))) && AnsweredAs(reply, CardVerdict(e.events, apdu))
  {
    var t := Transmit(request.readerName, slot, oracle, 5, apdu);
    TransmitReplies(request.readerName, slot, oracle, 5, apdu);
    CardRepliesOnce(request.readerName, oracle, slot, 5, t.result, t.slot, reply, after);
    ApduResponseIsCardsAnswer(sid, request, apdu, slot, oracle, None);
    if reply.Success? { SplitThenJoin(reply.value, request.commandId, sid); }
  }

  /** A GetAtr command reports the ATR of the card's status; no card is not an error; any other
      failure is. */
  lemma AtrCommandMeans(sid: string, request: CommandRequest, slot: Slot, oracle: Oracle,
                        reply: Result<AtrBytes, ClientError>, after: Slot)
    requires request.command == Some(GetAtr)
    requires CardIdentifies(request.readerName, oracle, slot, 5, reply, after)
    ensures var e := ProcessCommand(sid, request, slot, oracle, None);
            && e.slot == after && e.response.commandId == request.commandId && e.response.sessionId == sid
            && match reply
               case Success(atr) => e.response.success && e.response.response == Some(AtrPayload(atr, true))
               case Failure(error) =>
                 if NamesMissingCard(Display(error)) then e.response.success && e.response.response == Some(AtrPayload([], false))
                 else !e.response.success && e.response.response == None
  {
    var t := QueryAtr(request.readerName, slot, oracle, 5);
    QueryIdentifies(request.readerName, slot, oracle, 5);
    CardIdentifiesOnce(request.readerName, oracle, slot, 5, t.result, t.slot, reply, after);
    hide SaysNoCard, NamesMissingCard, Display;
    if reply.Failure? { SaysAsNamed(Display(reply.error)); }
  }

  /** Establishing the PC/SC context failed: the card is left alone, and the command fails, except
      that a GetAtr command reports no card if that is what the error says. A disconnect is
      acknowledged in any case, and never touches the card. */
  lemma CommandsWithoutCard(sid: string, request: CommandRequest, slot: Slot, oracle: Oracle, establish: Option<PcscError>)
    requires establish.Some? || request.command == Some(Disconnect) || request.command == None
    ensures var e := ProcessCommand(sid, request, slot, oracle, establish);
            && e.slot == slot && e.events == []
            && e.response.commandId == request.commandId && e.response.sessionId == sid
            && (request.command == Some(Disconnect) ==> e.response.success && e.response.response == Some(DisconnectPayload))
            && (request.command == None ==> !e.response.success && e.response.error == "Empty command")
            && (request.command.Some? && (request.command.value.Apdu? || request.command.value.Connect?) ==>
                  !e.response.success && e.response.response == None)
            && (request.command == Some(GetAtr) ==>
                  if NamesMissingCard(Display(PcscFailure(establish.value)))
                  then e.response.success && e.response.response == Some(AtrPayload([], false))
                  else !e.response.success && e.response.response == None)
  {
    if request.command == Some(GetAtr) { SaysAsNamed(Display(PcscFailure(establish.value))); }
  }

  /** A Connect command reports the ATR as proof of a connection. */
  lemma ConnectCommandMeans(sid: string, request: CommandRequest, slot: Slot, oracle: Oracle,
                            reply: Result<AtrBytes, ClientError>, after: Slot)
    requires request.command == Some(Connect)
    requires CardIdentifies(request.readerName, oracle, slot, 5, reply, after)
    ensures var e := ProcessCommand(sid, request, slot, oracle, None);
            && e.slot == after && e.response.commandId == request.commandId && e.response.sessionId == sid
            && match reply
               case Success(atr) => e.response.success && e.response.response == Some(ConnectPayload(1, 0, atr))
               case Failure(_) => !e.response.success && e.response.response == None
  {
    var t := QueryAtr(request.readerName, slot, oracle, 5);
    QueryIdentifies(request.readerName, slot, oracle, 5);
    CardIdentifiesOnce(request.readerName, oracle, slot, 5, t.result, t.slot, reply, after);
  }

  ghost predicate Spells(text: string, part: string) {
    exists before: string, after: string :: text == before + part + after
  }

  /** The error text says that there is no card. */
  ghost predicate NamesMissingCard(error: string) {
    Spells(error, "SCARD_E_NO_SMARTCARD") || Spells(error, "No card") || Spells(error, "NoSmartcard")
  }

  lemma ContainsIffSpells(text: string, part: string)
    ensures Contains(text, part) <==> Spells(text, part)
  {
    if Contains(text, part) {
      var at: nat :| at <= |text| && OccursAt(text, part, at);
      assert text == text[..at] + part + text[at + |part|..];
    }
    if Spells(text, part) {
      var before: string, after: string :| text == before + part + after;
      assert OccursAt(text, part, |before|);
    }
  }

  lemma SaysAsNamed(error: string)
    ensures SaysNoCard(error) <==> NamesMissingCard(error)
  {
    ContainsIffSpells(error, "SCARD_E_NO_SMARTCARD");
    ContainsIffSpells(error, "No card");
    ContainsIffSpells(error, "NoSmartcard");
  }
}
