/** Nobody gets stuck: in every reachable state every request in flight can take its next step, and
    it is done after at most five of its own, whatever the others do. */
module Progress {
  import opened Domain
  import opened Schema
  import opened Repository
  import opened Requests
  import opened Invariants
  import opened Quiz

  // ---------------------------------------------------------------- what a step needs

  lemma {:induction false} UpperBound(ids: set<nat>) returns (bound: nat)
    ensures forall id | id in ids :: id < bound
  {
    bound := 0;
    if ids != {} {
      var id :| id in ids;
      bound := UpperBound(ids - {id});
      bound := if id < bound then bound else id + 1;
      assert ids == (ids - {id}) + {id};
    }
  }

  function InUse(w: World): set<Uuid> {
    w.db.questions.Keys + w.db.choices.Keys + w.db.attempts.Keys + DefaultIds
    + set rid, id | rid in w.requests && id in Names(w.requests[rid]) :: id
  }

  lemma UnusedIsFresh(w: World, id: Uuid)
    requires id !in InUse(w)
    ensures Fresh(w, id)
  {
    hide DefaultIds, Names;
  }

  lemma {:induction false} LeastOf(s: set<Uuid>, key: map<Uuid, int>) returns (least: Uuid)
    requires s != {} && s <= key.Keys
    ensures least in s && forall id | id in s :: key[least] <= key[id]
  {
    var some :| some in s;
    var others := s - {some};
    assert forall id | id in s :: id == some || id in others;
    if others == {} {
      least := some;
    } else {
      var other := LeastOf(others, key);
      least := if key[other] < key[some] then other else some;
    }
  }

  /** Any set of rows can be listed in descending order. */
  lemma {:induction false} CanOrder(s: set<Uuid>, key: map<Uuid, int>) returns (rows: seq<Uuid>)
    requires s <= key.Keys
    ensures OrderedDesc(rows, s, key)
  {
    rows := [];
    if s != {} {
      var least := LeastOf(s, key);
      var before := CanOrder(s - {least}, key);
      rows := before + [least];
    }
  }

  lemma CanListChoices(db: Tables, q: Uuid) returns (cs: seq<Choice>)
    requires OrdinalsUnique(db.choices)
    ensures IsChoiceList(db, q, cs)
  {
    var key := map c | c in ChoicesOf(db, q) :: -db.choices[c].ordinal;
    var rows := CanOrder(ChoicesOf(db, q), key);
    DistinctSize(rows, ChoicesOf(db, q));
    cs := seq(|rows|, i requires 0 <= i < |rows| => ChoiceRead(db.choices, rows[i]));
    ReadChoicesAscend(db, q, rows, key, cs);
  }

  lemma CanListCandidates(db: Tables, authors: Authors, previous: IdText) returns (rows: seq<Uuid>)
    ensures IsListing(db, authors, previous, rows)
  {
    rows := CanOrder(Candidates(db, authors, previous), CreatedAt(db));
  }

  lemma FreshIds(w: World, n: nat) returns (id: Uuid, ids: seq<Uuid>)
    ensures Fresh(w, id) && |ids| == n && Distinct(ids)
    ensures forall i | 0 <= i < n :: Fresh(w, ids[i]) && ids[i] != id
  {
    var bound := UpperBound(InUse(w));
    ids := seq(n, i requires 0 <= i < n => bound + 1 + i);
    id := bound;
    UnusedIsFresh(w, id);
    forall i | 0 <= i < n ensures Fresh(w, ids[i]) {
      UnusedIsFresh(w, ids[i]);
    }
  }

  /** In every state with unique ordinals, reachable ones included, any request can step. */
  lemma CanStep(w: World, r: Request) returns (env: Env)
    requires OrdinalsUnique(w.db.choices)
    ensures Fits(w, r, env)
  {
    hide Fresh, IsListing, IsChoiceList, OrdinalsUnique;
    var n := if r.Create? || r.Update? then |r.draft.choices| else 0;
    var id, ids := FreshIds(w, n);
    var rows: seq<Uuid> := [];
    var choices: seq<Choice> := [];
    if r.Get? && r.get.RowRead? {
      choices := CanListChoices(w.db, r.get.picked);
    } else if r.Get? && !r.get.Picked? {
      var (authors, previous) := QueryOf(r.get, r.previous);
      rows := CanListCandidates(w.db, authors, previous);
    }
    env := Env(id, ids, 0, rows, choices);
  }

  // ---------------------------------------------------------------- how many steps are left

  function StepsLeft(r: Request): (n: nat)
    ensures 1 <= n <= 5
  {
    match r
    case Submit(_, _, _, at) =>
      (match at case SubmitStart => 4 case KeyRead(_) => 3 case Checked(_) => 2 case UserEnsured(_) => 1)
    case Create(_, _, ready) => if ready then 1 else 2
    case Update(_, _, _, at) => (match at case UpdateStart => 3 case Owned => 2 case UpdateReady => 1)
    case Get(_, _, at) =>
      (match at
       case GetStart => 5
       case Listing(_) => 4
       case Lifting(_) => 3
       case Picked(_, _) => 2
       case RowRead(_, _, _) => 1)
  }

  lemma StepCountsDown(db: Tables, r: Request, env: Env)
    requires (r.Create? || r.Update?) ==> |env.ids| == |r.draft.choices|
    requires StepOf(db, r, env).Continue?
    ensures StepsLeft(StepOf(db, r, env).next) < StepsLeft(r)
  {
  }

  function OwnSteps(actions: seq<Action>, rid: nat): nat {
    if actions == [] then 0
    else (if actions[0].Advance? && actions[0].rid == rid then 1 else 0) + OwnSteps(actions[1..], rid)
  }

  /** The steps left of request `rid`; none once it has finished. */
  ghost function Left(w: World, rid: nat): nat {
    if rid in w.requests then StepsLeft(w.requests[rid]) else 0
  }

  predicate Starts(a: Action, rid: nat) {
    a.Start? && a.rid == rid
  }

  lemma OneStepCounts(w: World, a: Action, rid: nat)
    requires Enabled(w, a) && !Starts(a, rid)
    ensures Left(Next(w, a), rid) + (if a.Advance? && a.rid == rid then 1 else 0) <= Left(w, rid)
  {
    if a.Advance? && a.rid == rid && rid in Next(w, a).requests {
      StepCountsDown(w.db, w.requests[rid], a.env);
    }
    hide StepOf, Fits;
  }

  /** In every run a request takes no more own steps than it had left, whether it finishes on the
      way or not and whatever the others do; what it took and what is left never exceed it. (A
      request that is started later under the same number is another one.) */
  lemma {:induction false} StepsAreBounded(w: World, actions: seq<Action>, rid: nat)
    requires Runs(w, actions) && forall a | a in actions :: !Starts(a, rid)
    ensures OwnSteps(actions, rid) + Left(After(w, actions), rid) <= Left(w, rid) <= 5
    decreases |actions|
  {
    if actions != [] {
      OneStepCounts(w, actions[0], rid);
      hide Enabled, Next, StepsLeft, Starts;
      StepsAreBounded(Next(w, actions[0]), actions[1..], rid);
    }
  }

  /** From every state that satisfies the invariant a request can be run to its end: at most five
      steps of its own, every one of them enabled, and it is answered. */
  lemma {:induction false} CanFinish(w: World, rid: nat) returns (actions: seq<Action>)
    requires Inv(w) && rid in w.requests
    ensures Runs(w, actions) && rid !in After(w, actions).requests
    ensures |actions| <= StepsLeft(w.requests[rid])
    ensures forall a | a in actions :: a.Advance? && a.rid == rid
    decreases StepsLeft(w.requests[rid])
  {
    var env := CanStep(w, w.requests[rid]);
    var a := Advance(rid, env);
    assert Enabled(w, a);
    NextKeepsInv(w, a);
    hide Inv, Fits, StepsLeft;
    var w1 := Next(w, a);
    var rest: seq<Action> := [];
    if rid in w1.requests {
      StepCountsDown(w.db, w.requests[rid], env);
      hide StepOf;
      rest := CanFinish(w1, rid);
    }
    hide StepOf;
    actions := [a] + rest;
    assert actions[1..] == rest;
  }

  /** And in any well-formed state a request can be run alone, step after step. */
  lemma {:induction false} CanRunAlone(db: Tables, r: Request, n: nat) returns (envs: seq<Env>)
    requires WellFormed(db)
    ensures |envs| == n && AloneFits(db, r, envs)
    decreases n
  {
    envs := [];
    if n > 0 {
      var env := CanStep(Single(db, r), r);
      var o := StepOf(db, r, env);
      var rest: seq<Env> := seq(n - 1, _ => env);
      StepIsLegal(Single(db, r), r, env);
      EffectKeepsWellFormed(db, o.effect);
      hide WellFormed, Fits, StepOf, Legal;
      if o.Continue? {
        rest := CanRunAlone(Apply(db, o.effect), o.next, n - 1);
      }
      envs := [env] + rest;
      assert envs[1..] == rest;
    }
  }
}
