/** Cleaning up expired sessions removes exactly those, and tells exactly their waiters. */
module Expiry {
  import opened Prelude
  import opened Messages
  import opened SessionSpec
  import opened World
  import opened Correlation
  import opened Invariant
  import opened Transparency

  /** A session is expired when a whole second more than the timeout has passed. */
  lemma ExpiredIff(s: SessionState, now: nat, timeoutSecs: nat)
    ensures IsExpired(s, now, timeoutSecs) <==> now >= s.lastActivity + (timeoutSecs + 1) * NANOS_PER_SECOND
  {
  }

  /** Every session either was idle too long and is gone, or is kept as it was with everything
      pending in it; and one-shots change only for what was pending in a removed session. */
  lemma CleanupExact(t: Table, rt: Runtime, now: nat, timeoutSecs: nat)
    ensures var c := CleanupExpired(t, rt, now, timeoutSecs);
            && (forall sid :: sid in c.table <==>
                  sid in t && now < t[sid].lastActivity + (timeoutSecs + 1) * NANOS_PER_SECOND)
            && (forall sid | sid in c.table :: c.table[sid] == t[sid])
            && c.runtime.issued == rt.issued && c.runtime.queues == rt.queues
            && c.runtime.oneshots.Keys == rt.oneshots.Keys
            && (forall k | k in rt.oneshots && c.runtime.oneshots[k] != rt.oneshots[k] ::
                  && k in PendingIn(t, ExpiredIds(t, now, timeoutSecs))
                  && c.runtime.oneshots[k] == rt.oneshots[k].(cell := Closed))
  {
  }

  /** Cleaning up again at the same time changes nothing. */
  lemma CleanupTwice(t: Table, rt: Runtime, now: nat, timeoutSecs: nat)
    ensures var once := CleanupExpired(t, rt, now, timeoutSecs);
            CleanupExpired(once.table, once.runtime, now, timeoutSecs) == once
  {
  }

  /** A command pending in one session is not pending in any other. */
  lemma PendingInOneSession(w: World, ids: set<string>, sid: string, k: Serial)
    requires Inv(w) && IsPending(ChannelsOf(w.table), sid, k)
    ensures k in PendingIn(w.table, ids) <==> sid in ids
  {
    var ch := ChannelsOf(w.table);
    assert Filed(sid, IdOf(k), ch[sid].pending[IdOf(k)], w.runtime, w.issues);
    if sid in ids {
      assert k in PendingSerials(w.table[sid]);
    }
    if k in PendingIn(w.table, ids) {
      var other :| other in ids && other in w.table && k in PendingSerials(w.table[other]);
      var id :| id in ch[other].pending && ch[other].pending[id] == k;
      assert Filed(other, id, ch[other].pending[id], w.runtime, w.issues);
    }
  }

  /** In the running system: a vpcd client waiting for a pending command is told at once when
      its session is cleaned up, and notices nothing when another session is. */
  lemma CleanupTellsItsWaiters(w: World, i: nat)
    requires Reachable(w) && i < |w.tasks| && w.tasks[i].phase.Waiting?
    requires w.tasks[i].phase.serial in w.runtime.oneshots
    requires w.runtime.oneshots[w.tasks[i].phase.serial].cell.Empty?
    ensures var k, sid := w.tasks[i].phase.serial, w.tasks[i].sessionId;
            var w' := Next(w, OnTable(Cleanup));
            && sid in w.table && k in w'.runtime.oneshots
            && w'.runtime.oneshots[k].cell
                 == if IsExpired(w.table[sid], w.now, w.timeoutSecs) then Closed else Empty
  {
    ReachableInv(w);
    var k, sid := w.tasks[i].phase.serial, w.tasks[i].sessionId;
    var ch := ChannelsOf(w.table);
    assert WaitsForOwn(i, w.tasks[i], w.runtime.oneshots, w.issues);
    assert IsPending(ch, sid, k);
    var ids := ExpiredIds(w.table, w.now, w.timeoutSecs);
    PendingInOneSession(w, ids, sid, k);
  }
}
