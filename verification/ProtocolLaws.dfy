/** Further consequences of the invariant: no waiter is forgotten, and every command completes
    and executes at most once and in order. */
module ProtocolLaws {
  import opened Prelude
  import opened Messages
  import opened CardSlot
  import opened SessionSpec
  import opened VpcdSpec
  import opened ClientCommands
  import opened World
  import opened Correlation
  import opened Invariant
  import opened CorePreservation
  import opened TaskPreservation
  import opened RegistrationPreservation
  import opened Transparency

  // ---------------------------------------------------------------------------------------
  // Waiting

  /** A waiting vpcd client can still be answered, or already has its own answer to collect, or
      has been told that none will come. */
  lemma NoOrphanedWaiter(w: World, i: nat)
    requires Reachable(w) && i < |w.tasks| && w.tasks[i].phase.Waiting?
    ensures var k := w.tasks[i].phase.serial;
            && k in w.runtime.oneshots
            && match w.runtime.oneshots[k].cell
               case Empty => IsPending(ChannelsOf(w.table), w.tasks[i].sessionId, k)
               case Full(response) => response.commandId == IdOf(k) && AnsweredBy(w.executed, k, response)
               case Closed => true
  {
    ReachableInv(w);
    var k := w.tasks[i].phase.serial;
    assert WaitsForOwn(i, w.tasks[i], w.runtime.oneshots, w.issues);
    if w.runtime.oneshots[k].cell.Full? {
      var response := w.runtime.oneshots[k].cell.response;
      assert AnsweredBy(w.executed, k, response);
      var j :| 0 <= j < |w.executed| && SerialOf(w.executed[j].request.commandId) == k && w.executed[j].response == response;
      assert QueuedRight(w.executed[j].request, w.executed[j].stream, w.executed[j].sessionId, w.issues);
      assert HonestResponse(w.executed[j]);
    }
  }

  /** Pending ids of all sessions are distinct, belong to issued commands, and are 0 (the
      handshake's id) only for the very last command the counter can number. */
  lemma PendingIdsDisjoint(w: World, sid1: string, sid2: string, id: u64)
    requires Reachable(w)
    requires sid1 in w.table && w.table[sid1].channel.Some? && id in w.table[sid1].channel.value.pending
    ensures 1 <= SerialOf(id) <= w.runtime.issued
    ensures w.runtime.issued < U64_MODULUS ==> 1 <= id <= w.runtime.issued
    ensures sid2 in w.table && w.table[sid2].channel.Some? && id in w.table[sid2].channel.value.pending ==> sid1 == sid2
  {
    ReachableInv(w);
    var ch := ChannelsOf(w.table);
    assert Filed(sid1, id, ch[sid1].pending[id], w.runtime, w.issues);
    SerialOfId(ch[sid1].pending[id]);
    if sid2 in ch && id in ch[sid2].pending {
      assert Filed(sid2, id, ch[sid2].pending[id], w.runtime, w.issues);
      SerialOfId(ch[sid2].pending[id]);
    }
  }

  // ---------------------------------------------------------------------------------------
  // Completion

  /** No command is completed twice in a run. */
  lemma CompletedOnce(w: World, m: nat, n: nat)
    requires Reachable(w) && m < n < |w.completed|
    ensures w.completed[m] != w.completed[n]
  {
    ReachableInv(w);
  }

  /** Once completed, a command's response is refused on either path, for every session, and
      the refusal changes nothing. */
  lemma DuplicateRefused(w: World, n: nat, sid: string, response: CommandResponse)
    requires Reachable(w) && n < |w.completed| && SerialOf(response.commandId) == w.completed[n]
    ensures Respond(w.table, w.runtime, sid, response).result.Failure?
    ensures DoRespond(w, sid, response) == w
  {
    ReachableInv(w);
    var id := response.commandId;
    if sid in w.table && w.table[sid].channel.Some? && id in w.table[sid].channel.value.pending {
      var k := w.table[sid].channel.value.pending[id];
      assert Filed(sid, id, ChannelsOf(w.table)[sid].pending[id], w.runtime, w.issues);
      SerialOfId(k);
      assert false;
    }
    RefusalChangesNothing(w.table, w.runtime, sid, response);
  }

  lemma RefusalChangesNothing(t: Table, rt: Runtime, sid: string, response: CommandResponse)
    ensures var r := Respond(t, rt, sid, response);
            r.result.Failure? ==> r.table == t && r.runtime == rt
  {
  }

  /** The direct RPC reports success for a nonzero id exactly when that id was pending in the
      session named, and always for id 0. */
  lemma AckIffPending(t: Table, rt: Runtime, response: CommandResponse)
    ensures DirectResponse(t, rt, response).result.Success? <==>
              || response.commandId == 0
              || (response.sessionId in t && t[response.sessionId].channel.Some?
                  && response.commandId in t[response.sessionId].channel.value.pending)
  {
  }

  /** A successful delivery is recorded, exactly one command at a time. */
  lemma DeliveryCompletes(w: World, sid: string, j: nat)
    requires Reachable(w) && j < |w.executed|
    ensures var response := w.executed[j].response;
            var w' := DoRespond(w, sid, response);
            if response.commandId > 0 && Respond(w.table, w.runtime, sid, response).result.Success?
            then w'.completed == w.completed + [SerialOf(response.commandId)]
            else w'.completed == w.completed && w' == w
  {
  }

  // ---------------------------------------------------------------------------------------
  // Order

  /** On every stream the commands executed are the first ones sent, in the order sent, and
      serials increase along the stream. */
  lemma IssueOrderIsExecutionOrder(w: World, q: nat)
    requires Reachable(w) && q in w.streams
    ensures ExecutedOn(w.executed, q) <= w.streams[q].sent
    ensures Increasing(w.streams[q].sent) && Increasing(ExecutedOn(w.executed, q))
  {
    ReachableInv(w);
    var done := ExecutedOn(w.executed, q);
    assert StreamOk(q, w.streams[q], w.runtime.queues[q], w.issues, done);
    var all := done + w.streams[q].wire + w.runtime.queues[q].buffer;
    assert forall i :: 0 <= i < |done| ==> done[i] == all[i] == w.streams[q].sent[i];
  }

  /** Where an execution stands among those of its stream. */
  lemma {:induction false} PlaceOnStream(executed: seq<Execution>, j: nat) returns (place: nat)
    requires j < |executed|
    ensures place == |ExecutedOn(executed[..j], executed[j].stream)|
    ensures place < |ExecutedOn(executed, executed[j].stream)|
    ensures ExecutedOn(executed, executed[j].stream)[place] == executed[j].request
    ensures ExecutedOn(executed[..j], executed[j].stream) <= ExecutedOn(executed, executed[j].stream)
    decreases |executed|
  {
    var n := |executed|;
    if j == n - 1 {
      place := |ExecutedOn(executed[..j], executed[j].stream)|;
    } else {
      place := PlaceOnStream(executed[..n - 1], j);
      assert executed[..n - 1][..j] == executed[..j];
    }
  }

  /** No command is executed twice, on whatever streams. */
  lemma ExecutedOnce(w: World, i: nat, j: nat)
    requires Reachable(w) && i < j < |w.executed|
    ensures w.executed[i].request.commandId != w.executed[j].request.commandId
  {
    ReachableInv(w);
    var a, b := w.executed[i], w.executed[j];
    assert QueuedRight(a.request, a.stream, a.sessionId, w.issues);
    assert QueuedRight(b.request, b.stream, b.sessionId, w.issues);
    if a.stream == b.stream {
      var place := PlaceOnStream(w.executed, j);
      var earlier := PlaceOnStream(w.executed[..j], i);
      IssueOrderIsExecutionOrder(w, a.stream);
      var done := ExecutedOn(w.executed, a.stream);
      assert earlier < place;
      assert done[earlier] == ExecutedOn(w.executed[..j], a.stream)[earlier] == a.request;
      assert done[place] == b.request;
    }
  }
}
