/** Composing runs of the system, and what single steps leave alone. */
module Runs {
  import Messages
  import opened World
  import opened Transparency

  lemma {:induction false} OneMore(w: World, steps: seq<Step>, w': World, step: Step)
    requires Reaches(w, steps, w') && Enabled(w', step)
    ensures Reaches(w, steps + [step], Next(w', step))
    decreases |steps|
  {
    if steps == [] {
      assert [step][1..] == [];
    } else {
      OneMore(Next(w, steps[0]), steps[1..], w', step);
      assert (steps + [step])[1..] == steps[1..] + [step];
    }
  }

  lemma RunOn(w: World, step: Step)
    requires Run(w) && Enabled(w, step)
    ensures Run(Next(w, step))
  {
    var autoVpcd: bool, timeoutSecs: nat, steps: seq<Step> :| Reaches(Init(autoVpcd, timeoutSecs), steps, w);
    OneMore(Init(autoVpcd, timeoutSecs), steps, w, step);
  }

  lemma RunFrom(autoVpcd: bool, timeoutSecs: nat)
    ensures Run(Init(autoVpcd, timeoutSecs))
  {
    assert Reaches(Init(autoVpcd, timeoutSecs), [], Init(autoVpcd, timeoutSecs));
  }

  // ---------------------------------------------------------------------------------------
  // Most steps do not touch the vpcd clients

  lemma TableStepKeepsClients(w: World, change: TableStep)
    requires TableEnabled(w, change) && !change.Start?
    ensures var w' := DoTable(w, change); w'.tasks == w.tasks && w'.answers == w.answers
  {
  }

  lemma StreamStepKeepsClients(w: World, q: nat, event: StreamStep)
    requires StreamEnabled(w, q, event)
    ensures var w' := DoStream(w, q, event); w'.tasks == w.tasks && w'.answers == w.answers
  {
  }

  lemma RespondKeepsClients(w: World, sid: string, response: Messages.CommandResponse)
    ensures var w' := DoRespond(w, sid, response); w'.tasks == w.tasks && w'.answers == w.answers
  {
  }

  lemma OthersKeepClients(w: World, step: Step)
    requires Enabled(w, step) && !step.OnTask? && !(step.OnTable? && step.change.Start?)
    ensures var w' := Next(w, step); w'.tasks == w.tasks && w'.answers == w.answers
  {
    match step
    case OnTable(change) => TableStepKeepsClients(w, change);
    case OnStream(q, event) => StreamStepKeepsClients(w, q, event);
    case DirectReply(j) => RespondKeepsClients(w, w.executed[j].response.sessionId, w.executed[j].response);
    case StreamReply(q, j) => RespondKeepsClients(w, w.streams[q].sessionId, w.executed[j].response);
    case Execute(_, _, _) =>
    case Inspect(_, _, _, _) =>
  }
}
