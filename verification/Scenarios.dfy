/** Building runs action by action. */
module Scenarios {
  import opened Schema
  import opened Requests
  import opened Timeline

  lemma {:induction false} Extend(w0: World, actions: seq<Action>, a: Action)
    requires Runs(w0, actions) && Enabled(After(w0, actions), a)
    ensures Runs(w0, actions + [a]) && After(w0, actions + [a]) == Next(After(w0, actions), a)
    decreases |actions|
  {
    hide Enabled, Next;
    if actions == [] {
      var first := Next(w0, a);
      assert [a][1..] == [] && Runs(first, []) && After(first, []) == first;
      assert actions + [a] == [a];
      assert After(w0, [a]) == After(first, [a][1..]);
    } else {
      assert (actions + [a])[0] == actions[0] && (actions + [a])[1..] == actions[1..] + [a];
      Extend(Next(w0, actions[0]), actions[1..], a);
    }
  }

  lemma AtExtended(w0: World, actions: seq<Action>, a: Action, n: nat)
    requires Runs(w0, actions) && Runs(w0, actions + [a]) && n <= |actions|
    ensures At(w0, actions + [a], n) == At(w0, actions, n)
  {
    assert (actions + [a])[..n] == actions[..n];
    hide Runs, After;
  }

  /** After `actions` the requests in flight are `requests`, and nothing else has ever changed. */
  ghost predicate Quiet(w0: World, actions: seq<Action>, requests: map<nat, Request>) {
    && Runs(w0, actions) && After(w0, actions) == w0.(requests := requests)
    && forall n | 0 <= n <= |actions| :: At(w0, actions, n).db == w0.db
  }

  lemma QuietBegins(w0: World)
    ensures Quiet(w0, [], w0.requests)
  {
    AtEnd(w0, []);
  }

  lemma QuietExtends(w0: World, actions: seq<Action>, requests: map<nat, Request>, a: Action,
      requests': map<nat, Request>)
    requires Quiet(w0, actions, requests)
    requires Enabled(w0.(requests := requests), a) && Next(w0.(requests := requests), a) == w0.(requests := requests')
    ensures Quiet(w0, actions + [a], requests')
  {
    Extend(w0, actions, a);
    AtEnd(w0, actions + [a]);
    hide Runs, After, Enabled, Next, At;
    forall n | 0 <= n <= |actions + [a]| ensures At(w0, actions + [a], n).db == w0.db {
      if n <= |actions| {
        AtExtended(w0, actions, a, n);
      }
    }
  }

  lemma QuietStart(w0: World, actions: seq<Action>, requests: map<nat, Request>, rid: nat, r: Request)
    requires Quiet(w0, actions, requests) && rid !in requests && Initial(r)
    ensures Quiet(w0, actions + [Start(rid, r)], requests[rid := r])
  {
    hide Quiet;
    QuietExtends(w0, actions, requests, Start(rid, r), requests[rid := r]);
  }

  /** A step that goes on and leaves the tables as they are. */
  lemma QuietStep(w0: World, actions: seq<Action>, requests: map<nat, Request>, rid: nat, env: Env, next: Request)
    requires Quiet(w0, actions, requests) && rid in requests && Fits(w0.(requests := requests), requests[rid], env)
    requires var o := StepOf(w0.db, requests[rid], env);
             o.Continue? && o.next == next && !o.effect.AddAttempt? && Apply(w0.db, o.effect) == w0.db
    ensures Quiet(w0, actions + [Advance(rid, env)], requests[rid := next])
  {
    hide Quiet, StepOf, Fits;
    QuietExtends(w0, actions, requests, Advance(rid, env), requests[rid := next]);
  }
}
