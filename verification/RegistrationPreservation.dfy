/** Every step keeps readers as last registered, and starts one vpcd client for each reader
    whose first registration had a card. */
module RegistrationPreservation {
  import opened Prelude
  import opened Messages
  import opened CardSlot
  import opened SessionSpec
  import opened VpcdSpec
  import opened World
  import opened Correlation
  import opened Invariant
  import opened CorePreservation
  import opened TaskPreservation

  ghost predicate RegistrationPart(w: World) {
    && RegistrationsOk(w.table, w.known, w.registrations)
    && StartedRight(w.registrations, w.autoVpcd, w.starting, PairsOf(w.tasks))
    && LookupsOk(w.tasks, w.starting, w.table, w.known, w.registrations)
  }

  // ---------------------------------------------------------------------------------------
  // Histories of registrations

  lemma FirstAppend(registrations: seq<Registration>, r: Registration, p: Pair)
    ensures var earlier := FirstOf(registrations, p);
            FirstOf(registrations + [r], p) == if earlier.Some? then earlier else if r.pair == p then Some(r) else None
  {
  }

  lemma {:induction false} FirstIffLatest(registrations: seq<Registration>, p: Pair)
    ensures FirstOf(registrations, p).Some? <==> LatestOf(registrations, p).Some?
  {
    if registrations != [] {
      FirstIffLatest(registrations[..|registrations| - 1], p);
    }
  }

  lemma {:induction false} NeverRegistered(registrations: seq<Registration>, p: Pair)
    requires forall n :: 0 <= n < |registrations| ==> registrations[n].pair.sessionId != p.sessionId
    ensures LatestOf(registrations, p) == None
  {
    if registrations != [] {
      NeverRegistered(registrations[..|registrations| - 1], p);
    }
  }

  // ---------------------------------------------------------------------------------------
  // Tables that keep their readers

  /** No session appears, and those that remain keep their readers. */
  ghost predicate ReadersKept(t: Table, t': Table) {
    forall sid | sid in t' :: sid in t && t'[sid].readers == t[sid].readers
  }

  lemma KeptReadersKeepRegistration(w: World, w': World)
    requires RegistrationPart(w) && ReadersKept(w.table, w'.table)
    requires w'.known == w.known && w'.registrations == w.registrations && w'.autoVpcd == w.autoVpcd
    requires w'.starting == w.starting && w'.tasks == w.tasks
    ensures RegistrationPart(w')
  {
  }

  lemma LookupsLater(tasks: seq<Task>, starting: seq<Pair>, table: Table, table': Table, known: set<string>,
                     known': set<string>, registrations: seq<Registration>)
    requires LookupsOk(tasks, starting, table, known, registrations)
    requires known <= known'
    requires forall sid | sid in table' && sid in known :: sid in table
    ensures LookupsOk(tasks, starting, table', known', registrations)
  {
  }

  lemma EstablishKeepsRegistration(w: World, sid: string, clientId: string)
    requires RegistrationPart(w) && sid !in w.known
    ensures RegistrationPart(DoTable(w, Establish(sid, clientId)))
  {
    var w' := DoTable(w, Establish(sid, clientId));
    forall s | s in w'.table
      ensures ReadersCurrent(s, w'.table[s], w'.registrations)
    {
      if s == sid {
        forall reader: string ensures LatestOf(w.registrations, Pair(sid, reader)) == None {
          NeverRegistered(w.registrations, Pair(sid, reader));
        }
      } else {
        assert ReadersCurrent(s, w.table[s], w.registrations);
      }
    }
    LookupsLater(w.tasks, w.starting, w.table, w'.table, w.known, w'.known, w.registrations);
  }

  lemma UpdatedReadersCurrent(sid: string, s: SessionState, registrations: seq<Registration>, r: Registration)
    requires ReadersCurrent(sid, s, registrations)
    ensures ReadersCurrent(sid,
              if r.pair.sessionId == sid then UpdateReader(s, r.pair.readerName, r.atr, r.cardPresent) else s,
              registrations + [r])
  {
  }

  /** A client is asked for exactly when the reader is new to the session, the feature is on
      and there is a card. */
  lemma RegisterStartsRight(w: World, r: Registration)
    requires RegistrationPart(w) && r.pair.sessionId in w.table
    ensures var w' := DoRegister(w, r);
            StartedRight(w'.registrations, w'.autoVpcd, w'.starting, PairsOf(w'.tasks))
  {
    var sid, reader := r.pair.sessionId, r.pair.readerName;
    var w' := DoRegister(w, r);
    var isNew := reader !in w.table[sid].readers;
    assert ReadersCurrent(sid, w.table[sid], w.registrations);
    assert r.pair == Pair(sid, reader);
    assert isNew <==> LatestOf(w.registrations, r.pair).None?;
    FirstIffLatest(w.registrations, r.pair);
    forall p: Pair
      ensures multiset(w'.starting)[p] + multiset(PairsOf(w'.tasks))[p] == Wanted(w'.registrations, w'.autoVpcd, p)
    {
      FirstAppend(w.registrations, r, p);
      assert multiset(w.starting)[p] + multiset(PairsOf(w.tasks))[p] == Wanted(w.registrations, w.autoVpcd, p);
    }
  }

  lemma RegisterKeepsRegistration(w: World, r: Registration)
    requires RegistrationPart(w)
    ensures RegistrationPart(DoRegister(w, r))
  {
    var sid := r.pair.sessionId;
    if sid in w.table {
      var w' := DoRegister(w, r);
      forall s | s in w'.table
        ensures ReadersCurrent(s, w'.table[s], w'.registrations)
      {
        UpdatedReadersCurrent(s, w.table[s], w.registrations, r);
      }
      RegisterStartsRight(w, r);
      forall i | 0 <= i < |w.tasks|
        ensures LookupOk(w.tasks[i], w'.table, w'.known, w'.registrations)
      {
        assert LookupOk(w.tasks[i], w.table, w.known, w.registrations);
        assert w'.registrations[..w.tasks[i].checkedAt] == w.registrations[..w.tasks[i].checkedAt];
      }
    }
  }

  lemma StartKeepsRegistration(w: World, i: nat)
    requires RegistrationPart(w) && i < |w.starting|
    ensures RegistrationPart(DoStart(w, i))
  {
    var w' := DoStart(w, i);
    var p := w.starting[i];
    assert PairsOf(w'.tasks) == PairsOf(w.tasks) + [p];
    assert w.starting == w.starting[..i] + [p] + w.starting[i + 1..];
    forall q: Pair
      ensures multiset(w'.starting)[q] + multiset(PairsOf(w'.tasks))[q] == Wanted(w'.registrations, w'.autoVpcd, q)
    {
      assert multiset(w.starting)[q] + multiset(PairsOf(w.tasks))[q] == Wanted(w.registrations, w.autoVpcd, q);
    }
    forall n | 0 <= n < |w'.tasks|
      ensures LookupOk(w'.tasks[n], w'.table, w'.known, w'.registrations)
    {
      if n < |w.tasks| { assert LookupOk(w.tasks[n], w.table, w.known, w.registrations); }
    }
    forall n | 0 <= n < |w'.starting|
      ensures w'.starting[n].sessionId in w'.known
    {
      assert w'.starting[n] == if n < i then w.starting[n] else w.starting[n + 1];
    }
  }

  lemma TableStepKeepsRegistration(w: World, change: TableStep)
    requires RegistrationPart(w) && TableEnabled(w, change)
    ensures RegistrationPart(DoTable(w, change))
  {
    match change
    case Establish(sid, clientId) => EstablishKeepsRegistration(w, sid, clientId);
    case Register(r) => RegisterKeepsRegistration(w, r);
    case Start(i) => StartKeepsRegistration(w, i);
    case _ => KeptReadersKeepRegistration(w, DoTable(w, change));
  }

  lemma RegisterStreamKeepsRegistration(w: World, q: nat)
    requires RegistrationPart(w) && q in w.streams
    ensures RegistrationPart(DoRegisterStream(w, q))
  {
    KeptReadersKeepRegistration(w, DoRegisterStream(w, q));
  }

  lemma EndStreamKeepsRegistration(w: World, q: nat)
    requires RegistrationPart(w) && q in w.streams
    ensures RegistrationPart(DoEndStream(w, q))
  {
    KeptReadersKeepRegistration(w, DoEndStream(w, q));
  }

  lemma StreamStepKeepsRegistration(w: World, q: nat, event: StreamStep)
    requires RegistrationPart(w) && StreamEnabled(w, q, event)
    ensures RegistrationPart(DoStream(w, q, event))
  {
    match event
    case RegisterStream => RegisterStreamKeepsRegistration(w, q);
    case EndStream => EndStreamKeepsRegistration(w, q);
    case _ =>
  }

  lemma RespondKeepsRegistration(w: World, sid: string, response: CommandResponse)
    requires RegistrationPart(w)
    ensures RegistrationPart(DoRespond(w, sid, response))
  {
  }

  // ---------------------------------------------------------------------------------------
  // Moves

  lemma MoveKeepsRegistration(w: World, i: nat, m: Move)
    requires RegistrationPart(w) && i < |w.tasks|
    requires m.task.sessionId == w.tasks[i].sessionId && m.task.readerName == w.tasks[i].readerName
    requires LookupOk(m.task, w.table, w.known, w.registrations)
    ensures RegistrationPart(Made(w, i, m))
  {
    assert PairsOf(w.tasks[i := m.task]) == PairsOf(w.tasks);
  }

  lemma LookUpMoveOk(w: World, i: nat, t: Task)
    requires RegistrationsOk(w.table, w.known, w.registrations)
    requires LookupOk(t, w.table, w.known, w.registrations)
    ensures LookupOk(LookUpMove(w.table, |w.registrations|, i, t).task, w.table, w.known, w.registrations)
  {
    CachedIsLatest(w.table, w.known, w.registrations, t.sessionId, t.readerName);
    assert w.registrations[..|w.registrations|] == w.registrations;
  }

  lemma TaskStepKeepsRegistration(w: World, i: nat, action: TaskStep)
    requires RegistrationPart(w) && i < |w.tasks| && TaskEnabled(w, w.tasks[i], action)
    ensures RegistrationPart(DoTask(w, i, action))
  {
    var t := w.tasks[i];
    assert LookupOk(t, w.table, w.known, w.registrations);
    match action
    case Receive(request) => MoveKeepsRegistration(w, i, ReceiveMove(t, request));
    case LookUp =>
      LookUpMoveOk(w, i, t);
      MoveKeepsRegistration(w, i, LookUpMove(w.table, |w.registrations|, i, t));
    case Poll => MoveKeepsRegistration(w, i, PollMove(w.table, i, t));
    case IssueCommand =>
      if CanSend(w, t.sessionId) {
        var sent := SendFor(w, i, t);
        KeptReadersKeepRegistration(w, sent);
        MoveKeepsRegistration(sent, i, IssueMove(i, t, SendResultOf(w, t)));
      } else {
        MoveKeepsRegistration(w, i, FailMove(i, t, t.phase.request));
      }
    case Resume =>
      MoveKeepsRegistration(w.(runtime := StopReceiving(w.runtime, t.phase.serial)), i,
                            ReplyMove(i, t, Found(w.runtime.oneshots[t.phase.serial].cell)));
    case TimeOut =>
      MoveKeepsRegistration(w.(runtime := StopReceiving(w.runtime, t.phase.serial)), i, ReplyMove(i, t, TimedOut));
  }
}
