/** The states a run passes through, and where in the run a request read, wrote or finished. */
module Timeline {
  import opened Domain
  import opened Schema
  import opened Repository
  import opened Requests
  import opened Invariants

  lemma {:induction false} PrefixRuns(w: World, actions: seq<Action>, n: nat)
    requires Runs(w, actions) && n <= |actions|
    ensures Runs(w, actions[..n])
    decreases n
  {
    hide Enabled, Next;
    if n > 0 {
      PrefixRuns(Next(w, actions[0]), actions[1..], n - 1);
      assert actions[..n][0] == actions[0] && actions[..n][1..] == actions[1..][..n - 1];
    }
  }

  /** The state before action `n`; the last one is the state at the end. */
  ghost function At(w: World, actions: seq<Action>, n: nat): World
    requires Runs(w, actions) && n <= |actions|
  {
    PrefixRuns(w, actions, n);
    After(w, actions[..n])
  }

  lemma {:induction false} StepAt(w: World, actions: seq<Action>, n: nat)
    requires Runs(w, actions) && n < |actions|
    ensures Enabled(At(w, actions, n), actions[n]) && At(w, actions, n + 1) == Next(At(w, actions, n), actions[n])
    decreases n
  {
    hide Enabled, Next;
    assert actions[..n + 1][0] == actions[0];
    if n == 0 {
      var first := Next(w, actions[0]);
      assert actions[..1][1..] == [] && Runs(first, []) && After(first, []) == first;
      PrefixRuns(w, actions, 1);
      assert At(w, actions, 1) == After(first, actions[..1][1..]);
    } else {
      StepAt(Next(w, actions[0]), actions[1..], n - 1);
      assert actions[..n][0] == actions[0] && actions[..n][1..] == actions[1..][..n - 1];
      assert actions[..n + 1][1..] == actions[1..][..n];
    }
  }

  lemma AtEnd(w: World, actions: seq<Action>)
    requires Runs(w, actions)
    ensures At(w, actions, |actions|) == After(w, actions) && At(w, actions, 0) == w
  {
    assert actions[..|actions|] == actions;
  }

  lemma AtShift(w: World, actions: seq<Action>, n: nat)
    requires Runs(w, actions) && 0 < n <= |actions|
    ensures Runs(Next(w, actions[0]), actions[1..]) && At(Next(w, actions[0]), actions[1..], n - 1) == At(w, actions, n)
  {
    hide Enabled, Next;
    PrefixRuns(w, actions, n);
    assert actions[..n][0] == actions[0] && actions[..n][1..] == actions[1..][..n - 1];
  }

  /** The part of a run between two of its states is a run. */
  lemma {:induction false} Between(w: World, actions: seq<Action>, n: nat, m: nat)
    requires Runs(w, actions) && n <= m <= |actions|
    ensures Runs(At(w, actions, n), actions[n..m]) && After(At(w, actions, n), actions[n..m]) == At(w, actions, m)
    decreases n
  {
    hide Enabled, Next;
    if n == 0 {
      PrefixRuns(w, actions, m);
      assert actions[0..m] == actions[..m];
    } else {
      Between(Next(w, actions[0]), actions[1..], n - 1, m - 1);
      AtShift(w, actions, n);
      AtShift(w, actions, m);
      assert actions[1..][n - 1..m - 1] == actions[n..m];
    }
  }

  lemma InvAt(w: World, actions: seq<Action>, n: nat)
    requires StartState(w) && Runs(w, actions) && n <= |actions|
    ensures Inv(At(w, actions, n))
  {
    StartHasInv(w);
    PrefixRuns(w, actions, n);
    hide StartState, Inv;
    RunKeepsInv(w, actions[..n]);
  }

  // ---------------------------------------------------------------- finished requests

  /** Entry `i` of the log was written by action `m`, a step of request `rid`. */
  ghost predicate FinishedAt(w: World, actions: seq<Action>, i: nat, rid: nat, m: nat)
    requires Runs(w, actions)
  {
    && m < |actions| && actions[m].Advance? && actions[m].rid == rid
    && Enabled(At(w, actions, m), actions[m]) && |At(w, actions, m).log| == i
    && i < |After(w, actions).log| && At(w, actions, m).requests[rid] == After(w, actions).log[i].request
    && var o := StepOf(At(w, actions, m).db, After(w, actions).log[i].request, actions[m].env);
       o.Finish? && o.response == After(w, actions).log[i].response
  }

  lemma LogGrows(w: World, a: Action)
    requires Enabled(w, a)
    ensures w.log <= Next(w, a).log
    ensures Next(w, a).log == w.log ||
            (&& a.Advance? && a.rid in w.requests && Fits(w, w.requests[a.rid], a.env)
             && var o := StepOf(w.db, w.requests[a.rid], a.env);
                o.Finish? && Next(w, a).log == w.log + [Entry(w.requests[a.rid], o.response)])
  {
    hide StepOf, Fits;
  }

  lemma {:induction false} LogIsKept(w: World, actions: seq<Action>, n: nat, m: nat)
    requires Runs(w, actions) && n <= m <= |actions|
    ensures At(w, actions, n).log <= At(w, actions, m).log
    decreases m
  {
    hide Enabled, Next, At;
    if n < m {
      LogIsKept(w, actions, n, m - 1);
      StepAt(w, actions, m - 1);
      LogGrows(At(w, actions, m - 1), actions[m - 1]);
    }
  }

  lemma {:induction false} FindFinish(w: World, actions: seq<Action>, i: nat, k: nat) returns (m: nat)
    requires Runs(w, actions) && k <= |actions| && |w.log| <= i < |At(w, actions, k).log|
    ensures m < k && |At(w, actions, m).log| == i < |At(w, actions, m + 1).log|
    decreases k
  {
    AtEnd(w, actions);
    hide Enabled, Next, At;
    assert k > 0;
    StepAt(w, actions, k - 1);
    LogGrows(At(w, actions, k - 1), actions[k - 1]);
    if i < |At(w, actions, k - 1).log| {
      m := FindFinish(w, actions, i, k - 1);
    } else {
      m := k - 1;
    }
  }

  /** Every entry was written by a step of the run. */
  lemma EntryWasFinished(w: World, actions: seq<Action>, i: nat) returns (rid: nat, m: nat)
    requires Runs(w, actions) && |w.log| <= i < |After(w, actions).log|
    ensures FinishedAt(w, actions, i, rid, m)
  {
    AtEnd(w, actions);
    hide At, StepOf, Next, Fits;
    m := FindFinish(w, actions, i, |actions|);
    StepAt(w, actions, m);
    LogGrows(At(w, actions, m), actions[m]);
    LogIsKept(w, actions, m + 1, |actions|);
    rid := actions[m].rid;
  }

  // ---------------------------------------------------------------- served questions

  /** Action `n` read the row that `r`, a GetQuestion about to list choices, holds: the question
      was live then, and the row is the one stored then. */
  ghost predicate RowReadAt(w: World, actions: seq<Action>, rid: nat, r: Request, n: nat)
    requires Runs(w, actions)
  {
    && r.Get? && r.get.RowRead? && n < |actions| && actions[n].Advance? && actions[n].rid == rid
    && rid in At(w, actions, n).requests
    && At(w, actions, n).requests[rid] == r.(get := Picked(r.get.picked, r.get.lifted))
    && Live(At(w, actions, n).db, r.get.picked) && At(w, actions, n).db.questions[r.get.picked] == r.get.row
  }

  /** Request `rid` is `r` in every state after action `n`, up to the one before action `m`. */
  ghost predicate Held(w: World, actions: seq<Action>, rid: nat, r: Request, n: nat, m: nat)
    requires Runs(w, actions) && m <= |actions|
  {
    forall j | n < j <= m :: rid in At(w, actions, j).requests && At(w, actions, j).requests[rid] == r
  }

  lemma RowReadOwnStep(db: Tables, r: Request, env: Env)
    requires (r.Create? || r.Update?) ==> |env.ids| == |r.draft.choices|
    requires StepOf(db, r, env).Continue? && StepOf(db, r, env).next.Get? && StepOf(db, r, env).next.get.RowRead?
    ensures var r' := StepOf(db, r, env).next;
            && r == r'.(get := Picked(r'.get.picked, r'.get.lifted))
            && Live(db, r'.get.picked) && db.questions[r'.get.picked] == r'.get.row
  {
  }

  /** One step back from a request that has read its row: it had read it already, or reads it. */
  lemma RowReadStep(w: World, a: Action, rid: nat)
    requires Enabled(w, a) && rid in Next(w, a).requests
    requires var r := Next(w, a).requests[rid]; r.Get? && r.get.RowRead?
    ensures rid in w.requests
    ensures var r := Next(w, a).requests[rid];
            || w.requests[rid] == r
            || (&& a.Advance? && a.rid == rid && w.requests[rid] == r.(get := Picked(r.get.picked, r.get.lifted))
                && Live(w.db, r.get.picked) && w.db.questions[r.get.picked] == r.get.row)
  {
    if a.Advance? && a.rid == rid {
      RowReadOwnStep(w.db, w.requests[rid], a.env);
    }
    hide StepOf, Fits, Live;
  }

  lemma RowReadBefore(w: World, actions: seq<Action>, rid: nat, r: Request, k: nat)
    requires Runs(w, actions) && k < |actions|
    requires rid in At(w, actions, k + 1).requests && r == At(w, actions, k + 1).requests[rid] && r.Get?
             && r.get.RowRead?
    ensures rid in At(w, actions, k).requests
    ensures At(w, actions, k).requests[rid] == r || RowReadAt(w, actions, rid, r, k)
  {
    StepAt(w, actions, k);
    hide Enabled, Next, At, Live, Runs;
    RowReadStep(At(w, actions, k), actions[k], rid);
  }

  lemma {:induction false} RowWasRead(w: World, actions: seq<Action>, rid: nat, r: Request, k: nat) returns (n: nat)
    requires w.requests == map[] && Runs(w, actions) && k <= |actions| && rid in At(w, actions, k).requests
    requires r == At(w, actions, k).requests[rid] && r.Get? && r.get.RowRead?
    ensures n < k && RowReadAt(w, actions, rid, r, n) && Held(w, actions, rid, r, n, k)
    decreases k
  {
    AtEnd(w, actions);
    hide Enabled, Next, At, Live, Runs, RowReadAt;
    assert k > 0;
    RowReadBefore(w, actions, rid, r, k - 1);
    if At(w, actions, k - 1).requests[rid] == r {
      n := RowWasRead(w, actions, rid, r, k - 1);
    } else {
      n := k - 1;
    }
  }

  lemma StartIsIdle(w: World)
    requires StartState(w)
    ensures w.requests == map[] && w.log == []
  {
  }

  /** Where a stored question that was served came from: the row was read, live, by action `n`,
      and its choices were listed by action `m`. */
  ghost predicate ServedFrom(w: World, actions: seq<Action>, i: nat, rid: nat, n: nat, m: nat)
    requires Runs(w, actions)
  {
    && FinishedAt(w, actions, i, rid, m) && n < m
    && var e := After(w, actions).log[i];
       && RowReadAt(w, actions, rid, e.request, n) && Held(w, actions, rid, e.request, n, m)
       && e.response.Served? && e.response.served.Ok?
       && var q, at := e.response.served.value, e.request.get;
          && q == Question(Canonical(at.picked), at.row.prompt, q.choices, Coalesce(at.row.explanation))
          && IsChoiceList(At(w, actions, m).db, at.picked, q.choices)
  }

  lemma ServesWhatItListed(w: World, r: Request, env: Env)
    requires r.Get? && r.get.RowRead? && Fits(w, r, env)
    ensures StepOf(w.db, r, env) == Finish(Nothing, Served(Ok(
              Question(Canonical(r.get.picked), r.get.row.prompt, env.choices, Coalesce(r.get.row.explanation))),
                  r.get.lifted))
    ensures IsChoiceList(w.db, r.get.picked, env.choices)
  {
  }

  lemma ServedHasSource(w: World, actions: seq<Action>, i: nat) returns (rid: nat, n: nat, m: nat)
    requires StartState(w) && Runs(w, actions) && i < |After(w, actions).log|
    requires var r := After(w, actions).log[i].request; r.Get? && r.get.RowRead?
    ensures ServedFrom(w, actions, i, rid, n, m)
  {
    StartIsIdle(w);
    hide At, StepOf, Fits, IsChoiceList, RowReadAt, Held, StartState;
    rid, m := EntryWasFinished(w, actions, i);
    var r := After(w, actions).log[i].request;
    n := RowWasRead(w, actions, rid, r, m);
    ServesWhatItListed(At(w, actions, m), r, actions[m].env);
  }
}
