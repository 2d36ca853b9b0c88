/** The heart of the protocol: which one-shots are pending where, and what may be in them.

    The invariant is stated on the command channels, the shared runtime and two histories
    only, so that a step that leaves these alone keeps it for free. */
module Correlation {
  import opened Prelude
  import opened Messages
  import opened SessionSpec
  import opened World

  type Channels = map<string, Channel>

  function ChannelsOf(t: Table): Channels {
    map sid | sid in t && t[sid].channel.Some? :: t[sid].channel.value
  }

  /** Exactly the commands issued so far have a one-shot and a recorded purpose. */
  ghost predicate Numbered(rt: Runtime, issues: map<Serial, Issue>) {
    && (forall k: Serial :: k in rt.oneshots <==> 1 <= k <= rt.issued)
    && (forall k: Serial :: k in issues <==> 1 <= k <= rt.issued)
  }

  /** A pending entry is filed under its command's id, in the session it was issued for, and
      its one-shot has not been used. */
  ghost predicate Filed(sid: string, id: u64, k: Serial, rt: Runtime, issues: map<Serial, Issue>) {
    && id == IdOf(k)
    && k in rt.oneshots && rt.oneshots[k].cell.Empty?
    && k in issues && issues[k].sessionId == sid
  }

  ghost predicate PendingFiled(ch: Channels, rt: Runtime, issues: map<Serial, Issue>) {
    forall sid, id | sid in ch && id in ch[sid].pending :: Filed(sid, id, ch[sid].pending[id], rt, issues)
  }

  ghost predicate IsPending(ch: Channels, sid: string, k: Serial) {
    sid in ch && IdOf(k) in ch[sid].pending && ch[sid].pending[IdOf(k)] == k
  }

  /** An empty one-shot that is still waited on can still be answered: it is pending in the
      session it was issued for. */
  ghost predicate NoOrphans(ch: Channels, rt: Runtime, issues: map<Serial, Issue>) {
    forall k | k in rt.oneshots && k in issues && rt.oneshots[k].cell.Empty? && rt.oneshots[k].receiving ::
      IsPending(ch, issues[k].sessionId, k)
  }

  ghost predicate AnsweredBy(executed: seq<Execution>, k: Serial, response: CommandResponse) {
    exists j :: 0 <= j < |executed| && SerialOf(executed[j].request.commandId) == k && executed[j].response == response
  }

  /** What a one-shot holds is the response to an execution of its own command. */
  ghost predicate OwnAnswers(rt: Runtime, executed: seq<Execution>) {
    forall k | k in rt.oneshots && rt.oneshots[k].cell.Full? ::
      AnsweredBy(executed, k, rt.oneshots[k].cell.response)
  }

  ghost predicate Correlated(ch: Channels, rt: Runtime, issues: map<Serial, Issue>, executed: seq<Execution>) {
    && Numbered(rt, issues)
    && PendingFiled(ch, rt, issues)
    && NoOrphans(ch, rt, issues)
    && OwnAnswers(rt, executed)
  }

  // ---------------------------------------------------------------------------------------
  // The few ways in which channels and one-shots change

  /** The one-shots pending in the channels of `dropped`. */
  ghost predicate IsPendingSet(ch: Channels, dropped: set<string>, serials: set<Serial>) {
    && (forall sid, id | sid in dropped && sid in ch && id in ch[sid].pending :: ch[sid].pending[id] in serials)
    && (forall k | k in serials :: exists sid, id ::
          sid in dropped && sid in ch && id in ch[sid].pending && ch[sid].pending[id] == k)
  }

  /** Dropping whole channels closes what was pending there and nothing else. */
  lemma DropChannels(ch: Channels, rt: Runtime, issues: map<Serial, Issue>, executed: seq<Execution>,
                     dropped: set<string>, serials: set<Serial>)
    requires Correlated(ch, rt, issues, executed)
    requires IsPendingSet(ch, dropped, serials)
    ensures Correlated(ch - dropped, rt.(oneshots := DropSenders(rt.oneshots, serials)), issues, executed)
  {
    var ch', rt' := ch - dropped, rt.(oneshots := DropSenders(rt.oneshots, serials));
    forall sid, id | sid in ch' && id in ch'[sid].pending
      ensures Filed(sid, id, ch'[sid].pending[id], rt', issues)
    {
      var k := ch[sid].pending[id];
      assert Filed(sid, id, k, rt, issues);
      assert k !in serials;
    }
    forall k | k in rt'.oneshots && k in issues && rt'.oneshots[k].cell.Empty? && rt'.oneshots[k].receiving
      ensures IsPending(ch', issues[k].sessionId, k)
    {
      assert k in rt.oneshots;
      assert IsPending(ch, issues[k].sessionId, k);
    }
    forall k | k in rt'.oneshots && rt'.oneshots[k].cell.Full?
      ensures AnsweredBy(executed, k, rt'.oneshots[k].cell.response)
    {
      assert rt'.oneshots[k] == rt.oneshots[k];
    }
  }

  lemma AttachChannel(ch: Channels, rt: Runtime, issues: map<Serial, Issue>, executed: seq<Execution>,
                      sid: string, q: nat)
    requires Correlated(ch, rt, issues, executed)
    requires sid !in ch
    ensures Correlated(ch[sid := Channel(q, map[])], rt, issues, executed)
  {
  }

  /** Until the counter has gone all the way round, a new id is nowhere pending. */
  lemma FreshId(ch: Channels, rt: Runtime, issues: map<Serial, Issue>, sid: string)
    requires Numbered(rt, issues) && PendingFiled(ch, rt, issues)
    requires rt.issued + 1 <= U64_MODULUS
    requires sid in ch
    ensures IdOf(rt.issued + 1) !in ch[sid].pending
  {
  }

  lemma IssueOne(ch: Channels, rt: Runtime, issues: map<Serial, Issue>, executed: seq<Execution>,
                 sid: string, receiving: bool, issue: Issue, queues: map<nat, Queue>)
    requires Correlated(ch, rt, issues, executed)
    requires rt.issued + 1 <= U64_MODULUS
    requires sid in ch && issue.sessionId == sid
    ensures var k := rt.issued + 1;
            Correlated(ch[sid := ch[sid].(pending := ch[sid].pending[IdOf(k) := k])],
                       Runtime(k, rt.oneshots[k := Oneshot(Empty, receiving)], queues),
                       issues[k := issue], executed)
  {
    var k := rt.issued + 1;
    var ch' := ch[sid := ch[sid].(pending := ch[sid].pending[IdOf(k) := k])];
    var rt' := Runtime(k, rt.oneshots[k := Oneshot(Empty, receiving)], queues);
    var issues' := issues[k := issue];
    FreshId(ch, rt, issues, sid);
    forall s, id | s in ch' && id in ch'[s].pending
      ensures Filed(s, id, ch'[s].pending[id], rt', issues')
    {
      if s == sid && id == IdOf(k) {
      } else {
        assert s in ch && id in ch[s].pending;
        assert Filed(s, id, ch[s].pending[id], rt, issues);
      }
    }
    forall j | j in rt'.oneshots && j in issues' && rt'.oneshots[j].cell.Empty? && rt'.oneshots[j].receiving
      ensures IsPending(ch', issues'[j].sessionId, j)
    {
      if j != k {
        assert IsPending(ch, issues[j].sessionId, j);
        SerialOfId(j);
        SerialOfId(k);
      }
    }
    forall j | j in rt'.oneshots && rt'.oneshots[j].cell.Full?
      ensures AnsweredBy(executed, j, rt'.oneshots[j].cell.response)
    {
      assert j in rt.oneshots;
    }
  }

  lemma CompleteOne(ch: Channels, rt: Runtime, issues: map<Serial, Issue>, executed: seq<Execution>,
                    sid: string, response: CommandResponse)
    requires Correlated(ch, rt, issues, executed)
    requires rt.issued <= U64_MODULUS
    requires sid in ch && response.commandId in ch[sid].pending
    requires AnsweredBy(executed, SerialOf(response.commandId), response)
    ensures var id := response.commandId;
            && ch[sid].pending[id] == SerialOf(id)
            && Correlated(ch[sid := ch[sid].(pending := ch[sid].pending - {id})],
                          rt.(oneshots := Fill(rt.oneshots, SerialOf(id), response)), issues, executed)
  {
    var id := response.commandId;
    var k := ch[sid].pending[id];
    assert Filed(sid, id, k, rt, issues);
    SerialOfId(k);
    var ch' := ch[sid := ch[sid].(pending := ch[sid].pending - {id})];
    var rt' := rt.(oneshots := Fill(rt.oneshots, k, response));
    forall s, i | s in ch' && i in ch'[s].pending
      ensures Filed(s, i, ch'[s].pending[i], rt', issues)
    {
      assert s in ch && i in ch[s].pending;
      assert Filed(s, i, ch[s].pending[i], rt, issues);
    }
    forall j | j in rt'.oneshots && j in issues && rt'.oneshots[j].cell.Empty? && rt'.oneshots[j].receiving
      ensures IsPending(ch', issues[j].sessionId, j)
    {
      assert j != k && rt'.oneshots[j] == rt.oneshots[j];
      assert IsPending(ch, issues[j].sessionId, j);
      SerialOfId(j);
    }
    forall j | j in rt'.oneshots && rt'.oneshots[j].cell.Full?
      ensures AnsweredBy(executed, j, rt'.oneshots[j].cell.response)
    {
      if j != k { assert rt'.oneshots[j] == rt.oneshots[j]; }
    }
  }

  lemma ExecuteOne(ch: Channels, rt: Runtime, issues: map<Serial, Issue>, executed: seq<Execution>, e: Execution)
    requires Correlated(ch, rt, issues, executed)
    ensures Correlated(ch, rt, issues, executed + [e])
  {
    forall k | k in rt.oneshots && rt.oneshots[k].cell.Full?
      ensures AnsweredBy(executed + [e], k, rt.oneshots[k].cell.response)
    {
      AnsweredLater(executed, e, k, rt.oneshots[k].cell.response);
    }
  }

  lemma AnsweredLater(executed: seq<Execution>, e: Execution, k: Serial, response: CommandResponse)
    requires AnsweredBy(executed, k, response)
    ensures AnsweredBy(executed + [e], k, response)
  {
    var j :| 0 <= j < |executed| && SerialOf(executed[j].request.commandId) == k && executed[j].response == response;
    assert (executed + [e])[j] == executed[j];
  }
}
