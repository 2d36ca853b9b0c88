/** From vpcd's bytes to the card's bytes and back, over whole runs. */
module EndToEnd {
  import opened Prelude
  import opened Messages
  import opened CardSlot
  import opened SessionSpec
  import opened VpcdSpec
  import opened ClientCommands
  import opened World
  import opened Transparency
  import opened AnswerOrder
  import opened ClientRefinement
  import opened Vicc
  import Client = VpcdClient

  /** The way of a card's answer: split into data and status word by the client, joined again
      and framed by the server, peeled off by vpcd. The bytes survive if and only if there are a
      status word's worth of them and at most 65535, although the card buffer allows 65538. */
  lemma ResponsePathIff(bytes: CardBytes, id: u64, sid: string, rest: seq<byte>)
    ensures var o := ApduOutcome(Success(bytes));
            var answer := ApduAnswer(WaitResult.Got(CommandResponse(id, sid, o.success, o.error, o.payload)));
            Peel(Frame(answer) + rest) == Some((bytes, rest)) <==> 2 <= |bytes| < U16_MODULUS
  {
    SplitThenJoin(bytes, id, sid);
    if |bytes| >= 2 {
      FrameReadsBackIff(bytes, rest);
    } else {
      FrameReadsBackIff(NO_DIAGNOSIS, rest);
    }
  }

  function RequestOf(m: Message): Request
    requires Client.BearsAnswer(m)
  {
    match m
    case ApduMessage(apdu) => ApduRequest(apdu)
    case ControlMessage(_) => AtrRequest
  }

  /** The requests among the messages vpcd sends. */
  function RequestsIn(ms: seq<Message>): seq<Request> {
    if ms == [] then []
    else (if Client.BearsAnswer(ms[0]) then [RequestOf(ms[0])] else []) + RequestsIn(ms[1..])
  }

  function TextsOf(answers: seq<Answer>): seq<seq<byte>> {
    seq(|answers|, n requires 0 <= n < |answers| => answers[n].bytes)
  }

  lemma {:induction false} GivenAreAnswered(answers: seq<Answer>, i: nat)
    ensures |GivenBy(answers, i)| == |Answered(answers, i)|
    ensures forall k :: 0 <= k < |GivenBy(answers, i)| ==>
              GivenBy(answers, i)[k] in answers && GivenBy(answers, i)[k].request == Answered(answers, i)[k]
  {
    if answers != [] {
      GivenAreAnswered(answers[..|answers| - 1], i);
    }
  }

  /** The answers of an idle vpcd client are one to each request it took up, in that order. */
  lemma OneAnswerEach(autoVpcd: bool, timeoutSecs: nat, steps: seq<Step>, w: World, i: nat)
    requires Reaches(Init(autoVpcd, timeoutSecs), steps, w) && i < |w.tasks| && w.tasks[i].phase.Idle?
    ensures var given := GivenBy(w.answers, i);
            && |given| == |Asked(steps, i)|
            && (forall k :: 0 <= k < |given| ==> given[k] in w.answers && given[k].request == Asked(steps, i)[k])
  {
    EveryRequestAnsweredOnce(Init(autoVpcd, timeoutSecs), steps, w, i);
    assert Answered(w.answers, i) + [] == Answered(w.answers, i);
    assert [] + [] + Asked(steps, i) == Asked(steps, i);
    GivenAreAnswered(w.answers, i);
  }

  lemma CardsOrFailure(w: World, a: Answer)
    requires Reachable(w) && a in w.answers && a.request.ApduRequest?
    ensures 2 <= |a.bytes| <= RESPONSE_BUFFER
    ensures a.bytes == NO_DIAGNOSIS || CardsOwnBytes(w, a)
  {
    ApduTransparency(w);
    var n :| 0 <= n < |w.answers| && w.answers[n] == a;
    assert |w.answers[n].bytes| >= 2;
  }

  // ---------------------------------------------------------------------------------------
  // The message loop on what the client saw in a run

  lemma {:induction false} OneRequestEach(ms: seq<Message>, n: nat)
    ensures |RequestsIn(ms)| == |Client.Askers(ms, n)|
  {
    if ms != [] { OneRequestEach(ms[1..], n + 1); }
  }

  lemma {:induction false} RequestAtAsker(ms: seq<Message>, n: nat, k: nat)
    requires k < |Client.Askers(ms, n)|
    ensures var asker := Client.Askers(ms, n)[k];
            && n <= asker < n + |ms| && Client.BearsAnswer(ms[asker - n])
            && k < |RequestsIn(ms)| && RequestsIn(ms)[k] == RequestOf(ms[asker - n])
    decreases |ms|
  {
    var first := if Client.BearsAnswer(ms[0]) then 1 else 0;
    if k >= first {
      RequestAtAsker(ms[1..], n + 1, k - first);
    }
  }

  function IndexOf(s: seq<nat>, x: nat): (k: nat)
    requires x in s
    ensures k < |s| && s[k] == x
  {
    if s[0] == x then 0 else 1 + IndexOf(s[1..], x)
  }

  const NOTHING: Client.Surroundings :=
    Client.Surroundings(map[], (n: nat) => map[], map[], Runtime(0, map[], map[]), 0, TimedOut)

  /** Surroundings that show the k-th asker what was seen for the k-th request. */
  function SurroundingsFor(askers: seq<nat>, seen: seq<Client.Surroundings>): nat -> Client.Surroundings
    requires |seen| == |askers|
  {
    n => if n in askers then seen[IndexOf(askers, n)] else NOTHING
  }

  /** The message at this position, shown this, is answered with this text. */
  ghost predicate Gets(target: Client.Target, ms: seq<Message>, asker: nat, v: Client.Surroundings, text: seq<byte>) {
    asker < |ms| && Client.BearsAnswer(ms[asker]) && Client.Response(Some(target), ms[asker], v) == text
  }

  lemma RespondsAsShown(target: Client.Target, ms: seq<Message>, seen: seq<Client.Surroundings>, texts: seq<seq<byte>>)
    requires |seen| == |texts| == |Client.Askers(ms, 0)|
    requires forall k :: 0 <= k < |texts| ==> Gets(target, ms, Client.Askers(ms, 0)[k], seen[k], texts[k])
    ensures Client.Responses(Some(target), ms, SurroundingsFor(Client.Askers(ms, 0), seen), 0) == texts
  {
    hide Client.Response;
    var askers := Client.Askers(ms, 0);
    var env := SurroundingsFor(askers, seen);
    Client.ResponsesMatchAskers(Some(target), ms, env, 0);
    Client.AskersInOrder(ms, 0);
    forall k | 0 <= k < |texts| ensures Client.Responses(Some(target), ms, env, 0)[k] == texts[k] {
      assert Gets(target, ms, askers[k], seen[k], texts[k]);
      assert IndexOf(askers, askers[k]) == k;
    }
  }

  /** `delays` tells how long after each command its reply came. */
  function SeenIn(parts: seq<Looks>, target: Client.Target, requests: seq<Request>, delays: nat -> nat): seq<Client.Surroundings>
    requires |parts| == |requests| && forall k :: 0 <= k < |parts| ==> parts[k] != []
  {
    seq(|parts|, k requires 0 <= k < |parts| => Seen(parts[k], target, requests[k], delays(k)))
  }

  lemma ResponseIsAnswer(part: Looks, a: Answer, t: Task, m: Message, delayMs: nat)
    requires delayMs <= 30_000
    requires FinishedBy(part, a, t) && Client.BearsAnswer(m) && a.request == RequestOf(m)
    ensures part != []
    ensures Client.Response(Some(TargetOf(t)), m, Seen(part, TargetOf(t), a.request, delayMs)) == a.bytes
  {
    hide Ran, Seen, Client.Response;
    assert MessageFor(a.request) == m;
    assert a.bytes == CodeAnswer(part, TargetOf(t), a.request, delayMs);
  }

  /** The message loop, shown what the vpcd client saw in the run, responds with its answers. */
  lemma LoopGivesTheAnswers(ms: seq<Message>, parts: seq<Looks>, t: Task, given: seq<Answer>, delays: nat -> nat)
    requires forall k: nat :: delays(k) <= 30_000
    requires |parts| == |given| == |RequestsIn(ms)|
    requires forall k :: 0 <= k < |given| ==> given[k].request == RequestsIn(ms)[k] && FinishedBy(parts[k], given[k], t)
    requires forall k :: 0 <= k < |parts| ==> parts[k] != []
    ensures |Client.Askers(ms, 0)| == |parts|
    ensures var seen := SeenIn(parts, TargetOf(t), RequestsIn(ms), delays);
            Client.Responses(Some(TargetOf(t)), ms, SurroundingsFor(Client.Askers(ms, 0), seen), 0) == TextsOf(given)
  {
    hide FinishedBy, Seen, Client.Response, Client.Responses, Client.BearsAnswer;
    OneRequestEach(ms, 0);
    var seen := SeenIn(parts, TargetOf(t), RequestsIn(ms), delays);
    forall k | 0 <= k < |given|
      ensures Gets(TargetOf(t), ms, Client.Askers(ms, 0)[k], seen[k], TextsOf(given)[k])
    {
      RequestAtAsker(ms, 0, k);
      ResponseIsAnswer(parts[k], given[k], t, ms[Client.Askers(ms, 0)[k]], delays(k));
    }
    RespondsAsShown(TargetOf(t), ms, seen, TextsOf(given));
  }

  /** Under these surroundings the message loop writes the frames of these texts, as far as vpcd
      takes them, and leaves power as last asked; and vpcd reads back exactly these texts if and
      only if none is longer than 65535 bytes. */
  ghost predicate Delivers(target: Client.Target, ms: seq<Message>, env: nat -> Client.Surroundings, budget: nat,
                           texts: seq<seq<byte>>) {
    var served := Client.Serve(Some(target), true, ms, budget, env, 0);
    var frames := FrameAll(texts);
    if |frames| <= budget then
      && served == Client.Served(frames, Client.PowerAfterAll(true, ms))
      && ((PeelAll(served.written, |texts|) == Some(texts)) <==> (forall r | r in texts :: |r| < U16_MODULUS))
    else served.written == frames[..budget]
  }

  lemma LoopDelivers(target: Client.Target, ms: seq<Message>, env: nat -> Client.Surroundings, budget: nat,
                     texts: seq<seq<byte>>)
    requires Client.Responses(Some(target), ms, env, 0) == texts
    ensures Delivers(target, ms, env, budget, texts)
  {
    Client.LoopIsPipeline(Some(target), true, ms, budget, env);
    ResponsesReadBackIff(texts, []);
    assert FrameAll(texts) + [] == FrameAll(texts);
  }

  /** Until the ids run out, and whatever bytes vpcd sends to a vpcd client: when the client takes
      up the requests among the messages these hold, and has answered all, then all its steps in
      the run are its code's looks for these requests, one part after another, and the message
      loop, shown what the client saw at those looks, with replies after any times within 30 s,
      - writes the frames of one answer to each request, in the order asked, as far as vpcd takes
        them, and leaves power as last asked;
      - gives as answer to each APDU the card's own bytes for it, or 6F00, from 2 up to 65538 bytes;
      - is read back by vpcd as exactly these answers if and only if none is longer than 65535
        bytes. */
  lemma VpcdGetsTheCardsAnswers(autoVpcd: bool, timeoutSecs: nat, steps: seq<Step>, w: World, i: nat,
                                input: seq<byte>, tail: Tail, budget: nat, delays: nat -> nat)
    returns (parts: seq<Looks>)
    requires forall k: nat :: delays(k) <= 30_000
    requires Reaches(Init(autoVpcd, timeoutSecs), steps, w) && w.runtime.issued <= U64_MODULUS
    requires i < |w.tasks| && w.tasks[i].phase.Idle?
    requires Asked(steps, i) == RequestsIn(ReceiveAll(input, tail).messages)
    ensures LooksIn(Init(autoVpcd, timeoutSecs), steps, i) == Joined(parts)
    ensures var ms := ReceiveAll(input, tail).messages;
            var given, target := GivenBy(w.answers, i), TargetOf(w.tasks[i]);
            && |parts| == |given| == |RequestsIn(ms)| == |Client.Askers(ms, 0)|
            && (forall k :: 0 <= k < |given| ==>
                  && given[k].request == RequestsIn(ms)[k]
                  && FinishedBy(parts[k], given[k], w.tasks[i]))
            && (forall k :: 0 <= k < |given| && given[k].request.ApduRequest? ==>
                  && 2 <= |given[k].bytes| <= RESPONSE_BUFFER
                  && (given[k].bytes == NO_DIAGNOSIS || CardsOwnBytes(w, given[k])))
            && Delivers(target, ms, SurroundingsFor(Client.Askers(ms, 0), SeenIn(parts, target, RequestsIn(ms), delays)), budget,
                        TextsOf(given))
  {
    var ms := ReceiveAll(input, tail).messages;
    var given, target := GivenBy(w.answers, i), TargetOf(w.tasks[i]);
    var current: Looks;
    parts, current := AnswersAreComputed(autoVpcd, timeoutSecs, steps, w, i);
    assert Joined(parts) + [] == Joined(parts);
    OneAnswerEach(autoVpcd, timeoutSecs, steps, w, i);
    forall k | 0 <= k < |parts| ensures parts[k] != [] {
      assert FinishedBy(parts[k], given[k], w.tasks[i]);
    }
    LoopGivesTheAnswers(ms, parts, w.tasks[i], given, delays);
    forall k | 0 <= k < |given| && given[k].request.ApduRequest?
      ensures 2 <= |given[k].bytes| <= RESPONSE_BUFFER
      ensures given[k].bytes == NO_DIAGNOSIS || CardsOwnBytes(w, given[k])
    {
      CardsOrFailure(w, given[k]);
    }
    LoopDelivers(target, ms, SurroundingsFor(Client.Askers(ms, 0), SeenIn(parts, target, RequestsIn(ms), delays)), budget,
                 TextsOf(given));
  }
}
