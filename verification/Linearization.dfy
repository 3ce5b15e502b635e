/** Every SubmitAnswer behaves as if it ran in one instant, the one of its last statement. */
module Linearization {
  import opened Domain
  import opened Schema
  import opened Requests
  import opened Invariants
  import opened Timeline
  import opened Quiz

  lemma FirstStepAnswers(db: Tables, r: Request, env: Env)
    requires r.Submit? && r.submit.SubmitStart? && SubmitStep(db, r, env).Finish?
    ensures var o := SubmitStep(db, r, env).response;
            o.Answered? && VerdictIn(o.answer) == VerdictOf(db, r.user, r.question, r.choice)
  {
  }

  lemma LaterStepAnswers(db: Tables, r: Request, env: Env)
    requires r.Submit? && !r.submit.SubmitStart? && SubmitStep(db, r, env).Finish?
    requires SubmitTracked(db, r) && FourAndKey(db) && env.id !in db.attempts
    ensures var o := SubmitStep(db, r, env).response;
            o.Answered? && VerdictIn(o.answer) == VerdictOf(db, r.user, r.question, r.choice)
  {
    var q := PgCast(r.question).value;
    assert q in db.answerKeys;
    hide FourAndKey;
  }

  lemma LastStepAnswers(w: World, rid: nat, env: Env)
    requires Inv(w) && Enabled(w, Advance(rid, env)) && w.requests[rid].Submit?
    requires StepOf(w.db, w.requests[rid], env).Finish?
    ensures var r := w.requests[rid]; var o := StepOf(w.db, r, env).response;
            o.Answered? && VerdictIn(o.answer) == VerdictOf(w.db, r.user, r.question, r.choice)
  {
    var r := w.requests[rid];
    assert Tracked(w.db, r) && FourAndKey(w.db) && Fresh(w, env.id);
    hide Inv, VerdictOf, SubmitStep, FourAndKey, Fits, SubmitTracked;
    if r.submit.SubmitStart? {
      FirstStepAnswers(w.db, r, env);
    } else {
      LaterStepAnswers(w.db, r, env);
    }
  }

  /** Every finished SubmitAnswer of every run, signed in or anonymous, refused or answered, of a
      stored question or a default one, answered with the verdict of the state in which its last
      statement ran. */
  lemma SubmissionsAreLinearizable(w0: World, actions: seq<Action>, i: nat) returns (rid: nat, m: nat)
    requires StartState(w0) && Runs(w0, actions) && i < |After(w0, actions).log|
    requires After(w0, actions).log[i].request.Submit?
    ensures FinishedAt(w0, actions, i, rid, m)
    ensures var e := After(w0, actions).log[i]; var r := e.request;
            && e.response.Answered?
            && VerdictIn(e.response.answer) == VerdictOf(At(w0, actions, m).db, r.user, r.question, r.choice)
  {
    StartIsIdle(w0);
    rid, m := EntryWasFinished(w0, actions, i);
    InvAt(w0, actions, m);
    hide At, Runs, StartState, Inv, VerdictOf, StepOf, Fits;
    assert actions[m] == Advance(rid, actions[m].env);
    LastStepAnswers(At(w0, actions, m), rid, actions[m].env);
  }
}
