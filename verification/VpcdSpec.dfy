/** The decisions a vpcd client takes, as functions of what it observes. */
module VpcdSpec {
  import opened Prelude
  import opened Messages
  import opened SessionSpec

  const MAX_POLLS: nat := 300
  const POLL_INTERVAL_MS: nat := 100
  const REPLY_TIMEOUT_MS: nat := 30_000

  /** 6F00: no precise diagnosis. */
  const NO_DIAGNOSIS: seq<byte> := [0x6F, 0x00]

  datatype Sighting = SessionGone | NotReady | ChannelUp

  /** One look at the session table while waiting for the command channel. */
  function Observe(t: Table, sid: string): Sighting {
    if sid !in t then SessionGone
    else if t[sid].channel.Some? then ChannelUp
    else NotReady
  }

  /** The ATR registered for a reader, when there is one to answer with. */
  function CachedAtr(t: Table, sid: string, reader: string): Option<seq<byte>> {
    if sid in t && reader in t[sid].readers && t[sid].readers[reader].atr != []
    then Some(t[sid].readers[reader].atr)
    else None
  }

  /** How waiting for a reply ends. */
  datatype WaitResult = Got(response: CommandResponse) | SenderDropped | TimedOut

  function ApduAnswer(reply: WaitResult): (bytes: seq<byte>)
    ensures |bytes| >= 2
  {
    if reply.Got? && reply.response.success && reply.response.response.Some?
       && reply.response.response.value.ApduPayload? then
      var payload := reply.response.response.value;
      payload.data + [payload.sw1 % 256, payload.sw2 % 256]
    else NO_DIAGNOSIS
  }

  predicate CarriesAtr(reply: WaitResult) {
    && reply.Got? && reply.response.success
    && reply.response.response.Some? && reply.response.response.value.AtrPayload?
  }

  function AtrAnswer(reply: WaitResult): seq<byte> {
    if CarriesAtr(reply) then reply.response.response.value.atr else []
  }
}
