/** The command-channel messages of the wire protocol. */
module Messages {
  import opened Prelude

  datatype Command =
    | Apdu(apdu: seq<byte>)
    | Connect
    | Disconnect
    | GetAtr

  datatype CommandRequest = CommandRequest(
    commandId: u64,
    command: Option<Command>,
    readerName: string)

  datatype Payload =
    | ApduPayload(data: seq<byte>, sw1: nat, sw2: nat)
    | ConnectPayload(cardHandle: nat, activeProtocol: nat, connectAtr: seq<byte>)
    | DisconnectPayload
    | AtrPayload(atr: seq<byte>, cardPresent: bool)

  datatype CommandResponse = CommandResponse(
    commandId: u64,
    sessionId: string,
    success: bool,
    error: string,
    response: Option<Payload>)
}
