/** Transparency is exact: it holds for up to 2^64 issued commands, and fails for more.

    The id counter is 64 bits wide and wraps, so command 2^64 + 1 has the id of command 1 again
    and a response to command 1 that was never delivered answers it. The run that shows this
    loses one response, spends ids on commands that cannot be queued, and reconnects. */
module Wraparound {
  import opened Prelude
  import opened Messages
  import opened CardSlot
  import opened SessionSpec
  import opened VpcdSpec
  import opened ClientCommands
  import opened World
  import opened Correlation
  import opened Transparency
  import opened Runs
  import opened Delivery

  /** Two commands share an id exactly when they are a multiple of 2^64 apart, and share the
      handshake's id 0, so that no direct reply reaches them, exactly when 2^64 divides them. */
  lemma SameIdIff(k: Serial, l: Serial)
    ensures IdOf(k) == IdOf(l) <==> (k - l) % U64_MODULUS == 0
    ensures IdOf(k) == 0 <==> exists n: nat :: k == n * U64_MODULUS
  {
    assert k == k / U64_MODULUS * U64_MODULUS + IdOf(k);
    assert l == l / U64_MODULUS * U64_MODULUS + IdOf(l);
  }

  // ---------------------------------------------------------------------------------------
  // The run

  const SESSION := "s"
  const READER := "r"
  const FIRST_APDU: seq<byte> := [0x00, 0xA4]
  const SECOND_APDU: seq<byte> := [0x00, 0xB0]
  const STATUS: seq<byte> := [0x90, 0x00]

  /** A card that is there and says 9000. */
  function Willing(n: nat): Reply {
    Reply(Success(1), Success(STATUS), Success([]))
  }

  /** The undelivered response to the first command. */
  ghost predicate Leftover(w: World) {
    && |w.executed| == 1
    && w.executed[0].request.command == Some(Apdu(FIRST_APDU))
    && w.executed[0].response == CommandResponse(1, SESSION, true, "", Some(ApduPayload([], 0x90, 0x00)))
  }

  /** One idle vpcd client of the session. */
  ghost predicate OneClient(w: World) {
    Run(w) && |w.tasks| == 1 && w.tasks[0].phase.Idle? && w.tasks[0].sessionId == SESSION
  }

  /** The session's channel leads to a queue that is gone. */
  ghost predicate Burning(w: World, q: nat) {
    && OneClient(w)
    && CanSend(w, SESSION) && w.table[SESSION].channel.value.queue == q
    && (q in w.runtime.queues ==> !w.runtime.queues[q].open)
  }

  lemma Registered() returns (w: World)
    ensures OneClient(w) && w.runtime.issued == 0 && w.executed == [] && SESSION in w.table
    ensures w.streams == map[] && w.runtime.queues == map[] && w.cards == map[]
    ensures w.tasks[0].readerName == READER && w.answers == []
  {
    var establish := OnTable(Establish(SESSION, "c"));
    var register := OnTable(Register(Registration(Pair(SESSION, READER), [], true)));
    var start := OnTable(Start(0));
    var w0 := Init(true, DEFAULT_TIMEOUT_SECS);
    RunFrom(true, DEFAULT_TIMEOUT_SECS);
    RunOn(w0, establish);
    var w1 := Next(w0, establish);
    RunOn(w1, register);
    var w2 := Next(w1, register);
    RunOn(w2, start);
    w := Next(w2, start);
  }

  /** A client connects on a new stream. */
  lemma Connects(w: World, q: nat) returns (w': World)
    requires OneClient(w) && SESSION in w.table && q !in w.streams
    ensures OneClient(w') && w'.tasks == w.tasks && Undisturbed(w', 0, q)
    ensures w'.runtime.issued == w.runtime.issued && w'.executed == w.executed && w'.cards == w.cards
    ensures w'.answers == w.answers && w'.streams.Keys == w.streams.Keys + {q}
    ensures w'.streams[q].sessionId == SESSION && w'.streams[q].client == 0
  {
    var open, register := OnStream(q, OpenStream(SESSION, 0)), OnStream(q, RegisterStream);
    RunOn(w, open);
    var unnamed := Next(w, open);
    RunOn(unnamed, register);
    w' := Next(unnamed, register);
  }

  /** The client waits for an answer from the session's queue `q`. */
  ghost predicate Awaiting(w: World, q: nat, request: Request, k: Serial) {
    && Run(w) && |w.tasks| == 1 && w.tasks[0].sessionId == SESSION && w.tasks[0].phase == Waiting(request, k)
    && k in w.runtime.oneshots
    && CanSend(w, SESSION) && w.table[SESSION].channel.value.queue == q && q in w.streams
  }

  lemma Issues(w: World, q: nat, apdu: seq<byte>) returns (w': World)
    requires OneClient(w) && Undisturbed(w, 0, q)
    ensures Awaiting(w', q, ApduRequest(apdu), w.runtime.issued + 1) && Underway(w, 0, q, apdu, w')
  {
    w' := GoesOut(w, 0, q, apdu);
    RunLater(w, OutSteps(0, q, apdu), w');
  }

  lemma FirstExecuted() returns (w: World)
    ensures Awaiting(w, 0, ApduRequest(FIRST_APDU), 1) && Leftover(w)
    ensures w.runtime.issued == 1 && w.streams.Keys == {0} && 0 in w.runtime.queues
  {
    var registered := Registered();
    var connected := Connects(registered, 0);
    var sent := Issues(connected, 0, FIRST_APDU);
    w := Executes(sent);
  }

  lemma Executes(w: World) returns (w': World)
    requires Awaiting(w, 0, ApduRequest(FIRST_APDU), 1) && w.executed == [] && w.cards == map[]
    requires w.streams[0].sessionId == SESSION
    requires w.streams[0].wire == [CommandRequest(1, Some(Apdu(FIRST_APDU)), READER)]
    ensures Awaiting(w', 0, ApduRequest(FIRST_APDU), 1) && Leftover(w')
    ensures w'.runtime == w.runtime && w'.streams.Keys == w.streams.Keys
  {
    RunOn(w, Execute(0, Willing, None));
    FirstResponse(w);
    w' := Next(w, Execute(0, Willing, None));
  }

  /** The wait ends, and the queue breaks. */
  lemma Disconnects(w: World, q: nat, end: TaskStep) returns (w': World)
    requires exists request: Request, k: Serial :: Awaiting(w, q, request, k)
    requires q in w.runtime.queues && (end == TimeOut || end == Resume) && Enabled(w, OnTask(0, end))
    ensures Burning(w', q) && w'.runtime.issued == w.runtime.issued
    ensures w'.executed == w.executed && w'.streams == w.streams
    ensures w'.answers == Next(w, OnTask(0, end)).answers
  {
    RunOn(w, OnTask(0, end));
    var given := Next(w, OnTask(0, end));
    RunOn(given, OnStream(q, BreakQueue));
    w' := Next(given, OnStream(q, BreakQueue));
  }

  /** The first command is executed, but its response is lost on the way. */
  lemma FirstAnswerLost() returns (w: World)
    ensures Burning(w, 0) && Leftover(w) && w.runtime.issued == 1 && w.streams.Keys == {0}
  {
    var executed := FirstExecuted();
    w := Disconnects(executed, 0, TimeOut);
  }

  lemma FirstResponse(w: World)
    requires 0 in w.streams && w.streams[0].sessionId == SESSION && w.cards == map[]
    requires w.streams[0].wire == [CommandRequest(1, Some(Apdu(FIRST_APDU)), READER)]
    ensures Performed(w, 0, Willing, None).response
              == CommandResponse(1, SESSION, true, "", Some(ApduPayload([], 0x90, 0x00)))
  {
  }

  /** An id is spent on a command that cannot be queued. */
  lemma BurnOne(w: World, q: nat) returns (w': World)
    requires Burning(w, q)
    ensures Burning(w', q) && w'.runtime.issued == w.runtime.issued + 1
    ensures w'.executed == w.executed && w'.streams == w.streams && w.answers <= w'.answers
  {
    var receive := OnTask(0, Receive(ApduRequest(FIRST_APDU)));
    RunOn(w, receive);
    var received := Next(w, receive);
    RunOn(received, OnTask(0, Poll));
    var ready := Next(received, OnTask(0, Poll));
    RunOn(ready, OnTask(0, IssueCommand));
    w' := Next(ready, OnTask(0, IssueCommand));
  }

  lemma {:induction false} Burn(w: World, q: nat, n: nat) returns (w': World)
    requires Burning(w, q)
    ensures Burning(w', q) && w'.runtime.issued == w.runtime.issued + n
    ensures w'.executed == w.executed && w'.streams == w.streams && w.answers <= w'.answers
  {
    w' := w;
    if n > 0 {
      var burnt := Burn(w, q, n - 1);
      w' := BurnOne(burnt, q);
    }
  }

  /** An answer to the second APDU that is the card's answer to the first. */
  ghost predicate Mixed(w: World, n: nat) {
    && n < |w.answers|
    && w.answers[n].request == ApduRequest(SECOND_APDU)
    && w.answers[n].bytes == STATUS
  }

  /** The leftover response is taken for the answer to command 2^64 + 1. */
  lemma StaleDelivered(w: World) returns (w': World)
    requires Awaiting(w, 1, ApduRequest(SECOND_APDU), U64_MODULUS + 1) && Leftover(w)
    requires IsPending(ChannelsOf(w.table), SESSION, U64_MODULUS + 1)
    requires w.runtime.oneshots[U64_MODULUS + 1] == Oneshot(Empty, true)
    ensures Awaiting(w', 1, ApduRequest(SECOND_APDU), U64_MODULUS + 1) && Leftover(w')
    ensures w'.answers == w.answers && w'.runtime.issued == w.runtime.issued && w'.runtime.queues == w.runtime.queues
    ensures w'.runtime.oneshots[U64_MODULUS + 1].cell == Full(w.executed[0].response)
  {
    RunOn(w, DirectReply(0));
    w' := Next(w, DirectReply(0));
  }

  lemma SecondIssued(w: World) returns (w': World)
    requires Burning(w, 0) && Leftover(w) && w.runtime.issued == U64_MODULUS && w.streams.Keys == {0}
    ensures Awaiting(w', 1, ApduRequest(SECOND_APDU), U64_MODULUS + 1) && Leftover(w')
    ensures IsPending(ChannelsOf(w'.table), SESSION, U64_MODULUS + 1)
    ensures w'.runtime.oneshots[U64_MODULUS + 1] == Oneshot(Empty, true)
    ensures w'.runtime.issued == U64_MODULUS + 1 && 1 in w'.runtime.queues
  {
    var connected := Connects(w, 1);
    w' := Issues(connected, 1, SECOND_APDU);
  }

  lemma StaleAnswer(w: World) returns (w': World, n: nat)
    requires Burning(w, 0) && Leftover(w) && w.runtime.issued == U64_MODULUS && w.streams.Keys == {0}
    ensures Burning(w', 1) && Leftover(w') && Mixed(w', n) && w'.runtime.issued == U64_MODULUS + 1
  {
    var sent := SecondIssued(w);
    var replied := StaleDelivered(sent);
    w' := Disconnects(replied, 1, Resume);
    n := |sent.answers|;
    assert [] + [0x90, 0x00] == STATUS;
  }

  lemma MixedIsNotTransparent(w: World, n: nat)
    requires Leftover(w) && Mixed(w, n)
    ensures !Transparent(w)
  {
  }

  /** Transparency holds of every run that issues n commands if and only if n is at most 2^64. */
  lemma TransparentExactlyUpTo(n: nat)
    ensures (forall w: World | Run(w) && w.runtime.issued == n :: Transparent(w)) <==> n <= U64_MODULUS
  {
    if n <= U64_MODULUS {
      forall w: World | Run(w) && w.runtime.issued == n ensures Transparent(w) {
        ApduTransparency(w);
      }
    } else {
      var lost := FirstAnswerLost();
      var burnt := Burn(lost, 0, U64_MODULUS - 1);
      var mixed, at := StaleAnswer(burnt);
      var w := Burn(mixed, 1, n - U64_MODULUS - 1);
      assert w.answers[at] == mixed.answers[at];
      MixedIsNotTransparent(w, at);
    }
  }
}
