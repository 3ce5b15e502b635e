/** A run in which GetQuestion serves a question that never was. */
module Mixture {
  import opened Domain
  import opened Schema
  import opened Repository
  import opened QuizSelection
  import opened Requests
  import opened Invariants
  import opened Timeline
  import opened Guarantees
  import opened Quiz
  import opened Serving
  import opened Progress
  import opened Scenarios

  /** The row `q` as a GetQuestion holds it between its two reads. */
  function Holding(db: Tables, seed: nat, q: Uuid): Request
    requires q in db.questions
  {
    Get(seed, Blank, RowRead(q, db.questions[q], false))
  }

  lemma FirstListing(w: World, q: Uuid, seed: nat, env: Env)
    requires OnlyLive(w.db, q) && Fits(w, Get(seed, Blank, GetStart), env)
    ensures StepOf(w.db, Get(seed, Blank, GetStart), env)
         == Continue(Nothing, Get(seed, Blank, Listing(w.db.questions[q].author == "system")))
  {
    var rows := env.rows;
    EmptyListing(w.db, NotSystem, Blank, rows);
    assert w.db.questions[q].author != "system" ==> q in Candidates(w.db, NotSystem, Blank);
    assert w.db.questions[q].author == "system" ==> Candidates(w.db, NotSystem, Blank) == {};
  }

  lemma SecondListing(w: World, q: Uuid, seed: nat, env: Env)
    requires OnlyLive(w.db, q) && Fits(w, Get(seed, Blank, Listing(w.db.questions[q].author == "system")), env)
    ensures StepOf(w.db, Get(seed, Blank, Listing(w.db.questions[q].author == "system")), env)
         == Continue(Nothing, Get(seed, Blank, Picked(q, false)))
  {
    var authors := if w.db.questions[q].author == "system" then SystemOnly else Everyone;
    EmptyListing(w.db, authors, Blank, env.rows);
    assert q in Candidates(w.db, authors, Blank);
    assert Pick(seed, env.rows) in Candidates(w.db, authors, Blank);
  }

  function Listed(db: Tables, seed: nat, q: Uuid): Request
    requires q in db.questions
  {
    Get(seed, Blank, Listing(db.questions[q].author == "system"))
  }

  /** A run in which request 0 is `r` and nothing else has happened. */
  ghost predicate Only(w0: World, actions: seq<Action>, r: Request) {
    Quiet(w0, actions, map[0 := r])
  }

  lemma OnlySteps(w0: World, actions: seq<Action>, r: Request, env: Env, next: Request)
    requires Only(w0, actions, r) && Fits(w0.(requests := map[0 := r]), r, env)
    requires StepOf(w0.db, r, env) == Continue(Nothing, next)
    ensures Only(w0, actions + [Advance(0, env)], next)
  {
    assert map[0 := r][0 := next] == map[0 := next];
    hide Quiet, StepOf, Fits;
    QuietStep(w0, actions, map[0 := r], 0, env, next);
  }

  lemma ListsOnce(w0: World, actions: seq<Action>, q: Uuid, seed: nat) returns (actions': seq<Action>)
    requires OrdinalsUnique(w0.db.choices) && OnlyLive(w0.db, q) && Only(w0, actions, Get(seed, Blank, GetStart))
    ensures Only(w0, actions', Listed(w0.db, seed, q))
  {
    var r := Get(seed, Blank, GetStart);
    var w := w0.(requests := map[0 := r]);
    hide Only, Fits, StepOf, OrdinalsUnique;
    var env := CanStep(w, r);
    FirstListing(w, q, seed, env);
    OnlySteps(w0, actions, r, env, Listed(w0.db, seed, q));
    actions' := actions + [Advance(0, env)];
  }

  lemma PicksIt(w0: World, actions: seq<Action>, q: Uuid, seed: nat) returns (actions': seq<Action>)
    requires OrdinalsUnique(w0.db.choices) && OnlyLive(w0.db, q) && Only(w0, actions, Listed(w0.db, seed, q))
    ensures Only(w0, actions', Get(seed, Blank, Picked(q, false)))
  {
    var r := Listed(w0.db, seed, q);
    var w := w0.(requests := map[0 := r]);
    hide Only, Fits, StepOf, OrdinalsUnique;
    var env := CanStep(w, r);
    SecondListing(w, q, seed, env);
    OnlySteps(w0, actions, r, env, Get(seed, Blank, Picked(q, false)));
    actions' := actions + [Advance(0, env)];
  }

  lemma HoldsIt(w0: World, actions: seq<Action>, q: Uuid, seed: nat) returns (actions': seq<Action>)
    requires OrdinalsUnique(w0.db.choices) && OnlyLive(w0.db, q)
    requires Only(w0, actions, Get(seed, Blank, Picked(q, false)))
    ensures Only(w0, actions', Holding(w0.db, seed, q))
  {
    var r := Get(seed, Blank, Picked(q, false));
    var w := w0.(requests := map[0 := r]);
    hide Only, Fits, OrdinalsUnique;
    var env := CanStep(w, r);
    assert StepOf(w0.db, r, env) == Continue(Nothing, Holding(w0.db, seed, q));
    hide StepOf, Holding;
    OnlySteps(w0, actions, r, env, Holding(w0.db, seed, q));
    actions' := actions + [Advance(0, env)];
  }

  lemma StartFacts(w0: World, q: Uuid)
    requires StartState(w0) && OnlyLive(w0.db, q)
    ensures OrdinalsUnique(w0.db.choices) && Live(w0.db, q) && w0.db.questions[q].author in w0.db.users
  {
  }

  lemma GetBegins(w0: World, seed: nat) returns (actions: seq<Action>)
    requires StartState(w0)
    ensures Only(w0, actions, Get(seed, Blank, GetStart))
  {
    hide Quiet, StartState;
    var r := Get(seed, Blank, GetStart);
    StartIsIdle(w0);
    QuietBegins(w0);
    QuietStart(w0, [], map[], 0, r);
    assert map[][0 := r] == map[0 := r];
    actions := [] + [Start(0, r)];
  }

  /** A GetQuestion alone picks the only live question and reads its row. */
  lemma ReadsTheRow(w0: World, q: Uuid, seed: nat) returns (actions: seq<Action>)
    requires StartState(w0) && OnlyLive(w0.db, q)
    ensures Only(w0, actions, Holding(w0.db, seed, q))
  {
    hide Quiet, StartState, OnlyLive, Holding, Listed, OrdinalsUnique, Only, Live;
    StartFacts(w0, q);
    actions := GetBegins(w0, seed);
    actions := ListsOnce(w0, actions, q, seed);
    actions := PicksIt(w0, actions, q, seed);
    actions := HoldsIt(w0, actions, q, seed);
  }

  /** The requests in flight when an update has come to point `at` while request 0 holds its row. */
  function Both(db: Tables, seed: nat, q: Uuid, draft: Draft, at: UpdatePoint): map<nat, Request>
    requires q in db.questions
  {
    map[0 := Holding(db, seed, q), 1 := Update(db.questions[q].author, Canonical(q), draft, at)]
  }

  lemma AuthorStarts(w0: World, held: seq<Action>, q: Uuid, seed: nat, draft: Draft) returns (actions: seq<Action>)
    requires q in w0.db.questions && Only(w0, held, Holding(w0.db, seed, q))
    ensures Quiet(w0, actions, Both(w0.db, seed, q, draft, UpdateStart))
  {
    var r := Update(w0.db.questions[q].author, Canonical(q), draft, UpdateStart);
    hide Quiet, Holding;
    QuietStart(w0, held, map[0 := Holding(w0.db, seed, q)], 1, r);
    assert map[0 := Holding(w0.db, seed, q)][1 := r] == Both(w0.db, seed, q, draft, UpdateStart);
    actions := held + [Start(1, r)];
  }

  lemma FitsCounts(w: World, r: Request, env: Env)
    requires Fits(w, r, env) && (r.Create? || r.Update?)
    ensures |env.ids| == |r.draft.choices|
  {
  }

  lemma AuthorSteps(w0: World, actions: seq<Action>, q: Uuid, seed: nat, draft: Draft, at: UpdatePoint,
      next: UpdatePoint)
    returns (actions': seq<Action>)
    requires OrdinalsUnique(w0.db.choices) && Live(w0.db, q) && ValidDraft(draft)
    requires w0.db.questions[q].author != "" && w0.db.questions[q].author in w0.db.users
    requires Quiet(w0, actions, Both(w0.db, seed, q, draft, at))
    requires (at.UpdateStart? && next.Owned?) || (at.Owned? && next.UpdateReady?)
    ensures Quiet(w0, actions', Both(w0.db, seed, q, draft, next))
  {
    var requests := Both(w0.db, seed, q, draft, at);
    var r' := Both(w0.db, seed, q, draft, next)[1];
    hide Quiet, OrdinalsUnique, Fits, ValidDraft;
    var env := CanStep(w0.(requests := requests), requests[1]);
    assert |env.ids| == |draft.choices| by { FitsCounts(w0.(requests := requests), requests[1], env); }
    assert w0.db.users + {w0.db.questions[q].author} == w0.db.users;
    QuietStep(w0, actions, requests, 1, env, r');
    assert requests[1 := r'] == Both(w0.db, seed, q, draft, next);
    actions' := actions + [Advance(1, env)];
  }

  /** The author comes and is about to commit. */
  lemma AuthorComes(w0: World, held: seq<Action>, q: Uuid, seed: nat, draft: Draft) returns (actions: seq<Action>)
    requires StartState(w0) && OnlyLive(w0.db, q) && w0.db.questions[q].author != "" && ValidDraft(draft)
    requires Only(w0, held, Holding(w0.db, seed, q))
    ensures Quiet(w0, actions, Both(w0.db, seed, q, draft, UpdateReady))
  {
    hide Quiet, StartState, OrdinalsUnique, ValidDraft, Holding, OnlyLive, Both;
    StartFacts(w0, q);
    actions := AuthorStarts(w0, held, q, seed, draft);
    actions := AuthorSteps(w0, actions, q, seed, draft, UpdateStart, Owned);
    actions := AuthorSteps(w0, actions, q, seed, draft, Owned, UpdateReady);
  }

  lemma UpdateFinishes(w: World, q: Uuid, draft: Draft, env: Env)
    requires Live(w.db, q) && !Attempted(w.db, q) && ValidDraft(draft) && 1 in w.requests
    requires w.requests[1] == Update(w.db.questions[q].author, Canonical(q), draft, UpdateReady)
    requires Fits(w, w.requests[1], env)
    ensures OwnUpdate(w, Advance(1, env), q) && StepOf(w.db, w.requests[1], env).Finish?
    ensures var w' := Next(w, Advance(1, env));
            w'.requests == w.requests - {1} && |w'.log| == |w.log| + 1
  {
    hide Attempted, IsBlank;
  }

  /** The update commits: the question's choices are new, and its prompt is the draft's. */
  lemma AuthorCommits(w: World, q: Uuid, draft: Draft, env: Env)
    requires Inv(w) && Live(w.db, q) && !Attempted(w.db, q) && ValidDraft(draft) && 1 in w.requests
    requires w.requests[1] == Update(w.db.questions[q].author, Canonical(q), draft, UpdateReady)
    requires Fits(w, w.requests[1], env)
    ensures var w' := Next(w, Advance(1, env));
            && Keyed(w'.db, q) && ChoicesOf(w'.db, q) !! ChoicesOf(w.db, q) && w'.db.questions[q].prompt == draft.prompt
            && w'.requests == w.requests - {1} && |w'.log| == |w.log| + 1 && Inv(w')
  {
    hide Inv, Fits, OwnUpdate, ValidDraft, ChoicesIn, Attempted, StepOf, Next;
    var a := Advance(1, env);
    UpdateFinishes(w, q, draft, env);
    NextKeepsInv(w, a);
    OwnUpdateCommits(w, a, q);
  }

  /** Request 0 lists the new choices and answers with the old row. */
  lemma ServesTheMixture(w: World, db: Tables, q: Uuid, seed: nat, env: Env) returns (served: Question)
    requires Inv(w) && q in db.questions && w.requests == map[0 := Holding(db, seed, q)] && Fits(w, w.requests[0], env)
    ensures var w' := Next(w, Advance(0, env));
            && w'.db == w.db && w'.log == w.log + [Entry(Holding(db, seed, q), Served(Ok(served), false))]
    ensures IsChoiceList(w.db, q, served.choices)
    ensures var row := db.questions[q];
            served == Question(Canonical(q), row.prompt, served.choices, Coalesce(row.explanation))
  {
    ServesWhatItListed(w, w.requests[0], env);
    hide StepOf, Inv, Fits;
    var row := db.questions[q];
    served := Question(Canonical(q), row.prompt, env.choices, Coalesce(row.explanation));
  }

  lemma MixtureIsNotStored(db: Tables, db': Tables, q: Uuid, served: Question, draft: Draft)
    requires Keyed(db, q) && Keyed(db', q) && |ChoicesOf(db', q)| == 4 && ChoicesOf(db', q) !! ChoicesOf(db, q)
    requires db'.questions[q].prompt == draft.prompt && draft.prompt != db.questions[q].prompt
    requires IsChoiceList(db', q, served.choices)
    requires var row := db.questions[q];
             served == Question(Canonical(q), row.prompt, served.choices, Coalesce(row.explanation))
    ensures !Shown(db, q, served) && !Shown(db', q, served)
  {
    hide IsChoiceList, ChoicesIn, Shown;
    NotShownWithoutChoices(db, db', q, served);
    ShownIffSameTexts(db, db', q, served);
  }

  lemma FourKeyed(w: World, q: Uuid)
    requires Inv(w) && q in w.db.questions
    ensures Keyed(w.db, q) && |ChoicesOf(w.db, q)| == 4 && OrdinalsUnique(w.db.choices)
  {
  }

  /** The update commits, and then request 0 is answered with `served`, which is stored neither
      before nor after. */
  ghost predicate Mixed(w: World, q: Uuid, seed: nat, env: Env, env': Env, served: Question) {
    && q in w.db.questions && Enabled(w, Advance(1, env))
    && var w1 := Next(w, Advance(1, env));
       && Enabled(w1, Advance(0, env')) && |w1.log| == |w.log| + 1
       && var w2 := Next(w1, Advance(0, env'));
          && w2.db == w1.db && w2.log == w1.log + [Entry(Holding(w.db, seed, q), Served(Ok(served), false))]
          && served.id == Canonical(q) && !Shown(w.db, q, served) && !Shown(w1.db, q, served)
  }

  lemma CommitComesFirst(w: World, q: Uuid, seed: nat, draft: Draft) returns (env: Env)
    requires Inv(w) && Live(w.db, q) && !Attempted(w.db, q) && ValidDraft(draft)
    requires w.requests == Both(w.db, seed, q, draft, UpdateReady)
    ensures Enabled(w, Advance(1, env))
    ensures var w1 := Next(w, Advance(1, env));
            && Keyed(w1.db, q) && ChoicesOf(w1.db, q) !! ChoicesOf(w.db, q) && w1.db.questions[q].prompt == draft.prompt
            && w1.requests == map[0 := Holding(w.db, seed, q)] && |w1.log| == |w.log| + 1 && Inv(w1)
  {
    hide Inv, Fits, ValidDraft, Attempted, ChoicesIn, Next, Holding, StepOf, OrdinalsUnique;
    FourKeyed(w, q);
    env := CanStep(w, w.requests[1]);
    AuthorCommits(w, q, draft, env);
    var w1 := Next(w, Advance(1, env));
    assert w1.requests == map[0 := Holding(w.db, seed, q)];
  }

  /** With a row held and an update about to commit, the commit and the listing in that order serve
      a question that is stored neither before nor after. */
  lemma MixesUp(w: World, q: Uuid, seed: nat, draft: Draft) returns (env: Env, env': Env, served: Question)
    requires Inv(w) && Live(w.db, q) && !Attempted(w.db, q) && ValidDraft(draft)
    requires w.requests == Both(w.db, seed, q, draft, UpdateReady) && draft.prompt != w.db.questions[q].prompt
    ensures Mixed(w, q, seed, env, env', served)
  {
    hide Inv, Fits, ValidDraft, Attempted, Shown, IsChoiceList, ChoicesIn, Next, Holding, StepOf, OrdinalsUnique, Both;
    FourKeyed(w, q);
    env := CommitComesFirst(w, q, seed, draft);
    var w1 := Next(w, Advance(1, env));
    FourKeyed(w1, q);
    env' := CanStep(w1, w1.requests[0]);
    served := ServesTheMixture(w1, w.db, q, seed, env');
    MixtureIsNotStored(w.db, w1.db, q, served, draft);
  }

  lemma DbOfTwoMore(w0: World, ready: seq<Action>, a: Action, b: Action, n: nat)
    requires Runs(w0, ready) && Runs(w0, ready + [a]) && Runs(w0, ready + [a] + [b]) && n <= |ready| + 2
    ensures At(w0, ready + [a] + [b], n).db ==
              if n <= |ready| then At(w0, ready, n).db
              else if n == |ready| + 1 then After(w0, ready + [a]).db
              else After(w0, ready + [a] + [b]).db
  {
    AtEnd(w0, ready + [a]);
    AtEnd(w0, ready + [a] + [b]);
    hide Runs, After, At;
    if n <= |ready| + 1 {
      AtExtended(w0, ready + [a], b, n);
    }
    if n <= |ready| {
      AtExtended(w0, ready, a, n);
    }
  }

  /** Two actions more, with the tables as they are after the first of them. */
  lemma TwoMore(w0: World, ready: seq<Action>, a: Action, b: Action, q: Uuid, served: Question)
    returns (actions: seq<Action>)
    requires Runs(w0, ready) && forall n | 0 <= n <= |ready| :: At(w0, ready, n).db == w0.db
    requires Enabled(After(w0, ready), a) && Enabled(Next(After(w0, ready), a), b)
    requires var w := Next(After(w0, ready), a);
             Next(w, b).db == w.db && !Shown(w0.db, q, served) && !Shown(w.db, q, served)
    ensures Runs(w0, actions) && After(w0, actions) == Next(Next(After(w0, ready), a), b)
    ensures forall n | 0 <= n <= |actions| :: !Shown(At(w0, actions, n).db, q, served)
  {
    hide Enabled, Next, Shown;
    Extend(w0, ready, a);
    Extend(w0, ready + [a], b);
    actions := ready + [a] + [b];
    hide Runs;
    forall n | 0 <= n <= |actions| ensures !Shown(At(w0, actions, n).db, q, served) {
      DbOfTwoMore(w0, ready, a, b, n);
    }
  }

  lemma NoAttemptYet(w0: World, q: Uuid)
    requires StartState(w0) && OnlyLive(w0.db, q)
    ensures w0.log == [] && !Attempted(w0.db, q) && Live(w0.db, q)
  {
  }

  /** From any start state with one live question, for any draft of its author that changes its
      prompt, there is a run in which GetQuestion serves a question that is the stored one in no
      state of the run: the old prompt over the new choices. */
  lemma ServesWhatNeverWas(w0: World, q: Uuid, seed: nat, draft: Draft) returns (actions: seq<Action>, served: Question)
    requires StartState(w0) && OnlyLive(w0.db, q) && w0.db.questions[q].author != "" && ValidDraft(draft)
    requires draft.prompt != w0.db.questions[q].prompt
    ensures Runs(w0, actions) && |After(w0, actions).log| == 2
    ensures After(w0, actions).log[1] == Entry(Holding(w0.db, seed, q), Served(Ok(served), false))
    ensures served.id == Canonical(q)
    ensures forall n | 0 <= n <= |actions| :: !Shown(At(w0, actions, n).db, q, served)
  {
    hide StartState, ValidDraft, OnlyLive, Attempted, Holding, Both, Shown, Inv, Only, Next, Enabled;
    NoAttemptYet(w0, q);
    var held := ReadsTheRow(w0, q, seed);
    var ready := AuthorComes(w0, held, q, seed, draft);
    StartHasInv(w0);
    RunKeepsInv(w0, ready);
    var env, env': Env;
    env, env', served := MixesUp(After(w0, ready), q, seed, draft);
    actions := TwoMore(w0, ready, Advance(1, env), Advance(0, env'), q, served);
  }
}
