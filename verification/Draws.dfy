/** Which questions GetQuestion can draw, read off the question rows. */
module Draws {
  import opened Domain
  import opened Schema
  import opened QuizSelection
  import opened Requests
  import opened Quiz
  import opened Progress

  /** A question that is not deleted and that the previous id does not name. */
  predicate OtherLive(db: Tables, previous: IdText, q: Uuid) {
    q in db.questions && db.questions[q].deletedAt.None? && Canonical(q) != previous
  }

  /** Somebody has written one. */
  predicate OtherByUsers(db: Tables, previous: IdText) {
    exists q | q in db.questions :: OtherLive(db, previous, q) && db.questions[q].author != "system"
  }

  predicate OtherBySystem(db: Tables, previous: IdText) {
    exists q | q in db.questions :: OtherLive(db, previous, q) && db.questions[q].author == "system"
  }

  /** While there is another question of a user, every other question, the system's included;
      without one, every other question of the system; and without that too, the previous question
      itself if it is one of the system. */
  predicate MayServe(db: Tables, previous: IdText, q: Uuid) {
    if OtherByUsers(db, previous) then OtherLive(db, previous, q)
    else if OtherBySystem(db, previous) then OtherLive(db, previous, q) && db.questions[q].author == "system"
    else q in db.questions && db.questions[q].deletedAt.None? && db.questions[q].author == "system"
  }

  lemma UserCandidates(db: Tables, previous: IdText)
    ensures Candidates(db, NotSystem, previous) == {} <==> !OtherByUsers(db, previous)
  {
    if OtherByUsers(db, previous) {
      var q :| q in db.questions && OtherLive(db, previous, q) && db.questions[q].author != "system";
      assert q in Candidates(db, NotSystem, previous);
    }
  }

  lemma SystemCandidates(db: Tables, previous: IdText)
    ensures Candidates(db, SystemOnly, previous) == {} <==> !OtherBySystem(db, previous)
  {
    if OtherBySystem(db, previous) {
      var q :| q in db.questions && OtherLive(db, previous, q) && db.questions[q].author == "system";
      assert q in Candidates(db, SystemOnly, previous);
    }
  }

  lemma EverybodysCandidates(db: Tables, previous: IdText, q: Uuid)
    ensures q in Candidates(db, Everyone, previous) <==> OtherLive(db, previous, q)
    ensures Candidates(db, Everyone, previous) == {} ==> Candidates(db, NotSystem, previous) == {}
  {
    if Candidates(db, NotSystem, previous) != {} {
      var p :| p in Candidates(db, NotSystem, previous);
      assert p in Candidates(db, Everyone, previous);
    }
  }

  lemma SettledOnRows(db: Tables, previous: IdText, q: Uuid)
    ensures q in Settled(db, previous) <==> MayServe(db, previous, q)
  {
    UserCandidates(db, previous);
    SystemCandidates(db, previous);
    EverybodysCandidates(db, previous, q);
    hide OtherByUsers, OtherBySystem;
  }

  // ---------------------------------------------------------------- nothing else is served

  /** GetQuestion run alone serves a question that it may serve, as it is stored, and a default one
      exactly if there is none. */
  lemma DrawsOnlyThese(db: Tables, seed: nat, previous: IdText, envs: seq<Env>)
    requires previous.Blank? || GoParses(previous)
    requires |envs| == 5 && AloneFits(db, Get(seed, previous, GetStart), envs)
    ensures var o := Alone(db, Get(seed, previous, GetStart), envs);
            if exists q :: MayServe(db, previous, q) then
              exists q :: MayServe(db, previous, q) && ServesStored(db, o, q)
            else ServesDefault(db, o, seed, previous)
  {
    GetAlone(db, seed, previous, envs);
    hide AloneFits, Alone, ServesDefault, ServesStored, Settled, MayServe;
    forall q ensures q in Settled(db, previous) <==> MayServe(db, previous, q) {
      SettledOnRows(db, previous, q);
    }
  }

  // ---------------------------------------------------------------- each of them is drawn

  lemma AloneGoesOn(db: Tables, r: Request, env: Env, next: Request, rest: seq<Env>)
    requires Fits(Single(db, r), r, env) && StepOf(db, r, env) == Continue(Nothing, next) && AloneFits(db, next, rest)
    ensures AloneFits(db, r, [env] + rest) && Alone(db, r, [env] + rest) == Alone(db, next, rest)
  {
    assert ([env] + rest)[1..] == rest;
    hide Fits, StepOf;
  }

  lemma CanListRows(db: Tables, r: Request, rows: seq<Uuid>) returns (env: Env)
    requires OrdinalsUnique(db.choices) && r.Get? && !r.get.Picked? && !r.get.RowRead?
    requires var (authors, previous) := QueryOf(r.get, r.previous); IsListing(db, authors, previous, rows)
    ensures Fits(Single(db, r), r, env) && env.rows == rows
  {
    hide Fresh, IsListing, OrdinalsUnique;
    env := CanStep(Single(db, r), r);
    env := env.(rows := rows);
  }

  lemma PickedIsServed(db: Tables, r: Request, q: Uuid, n: nat) returns (envs: seq<Env>)
    requires WellFormed(db) && r.Get? && r.get.Picked? && r.get.picked == q && Live(db, q) && n >= 2
    ensures |envs| == n && AloneFits(db, r, envs) && ServesStored(db, Alone(db, r, envs), q)
  {
    hide WellFormed, AloneFits, Alone, ServesStored;
    envs := CanRunAlone(db, r, n);
    AloneReads(db, r, envs);
  }

  lemma IndexOf(rows: seq<Uuid>, q: Uuid) returns (seed: nat)
    requires q in rows
    ensures rows != [] && Pick(seed, rows) == q
  {
    seed :| seed < |rows| && rows[seed] == q;
  }

  lemma ListedIsPicked(db: Tables, seed: nat, previous: IdText, at: GetPoint, env: Env, q: Uuid)
    requires (at.Listing? || at.Lifting?) && env.rows != [] && Pick(seed, env.rows) == q
    ensures StepOf(db, Get(seed, previous, at), env) == Continue(Nothing, Get(seed, previous, Picked(q, at.Lifting?)))
  {
  }

  lemma ListedIsServed(db: Tables, seed: nat, previous: IdText, at: GetPoint, rows: seq<Uuid>, q: Uuid, n: nat)
    returns (envs: seq<Env>)
    requires WellFormed(db) && OrdinalsUnique(db.choices) && (at.Listing? || at.Lifting?) && Live(db, q) && n >= 2
    requires var (authors, excluded) := QueryOf(at, previous); IsListing(db, authors, excluded, rows)
    requires rows != [] && Pick(seed, rows) == q
    ensures |envs| == n + 1 && AloneFits(db, Get(seed, previous, at), envs)
    ensures ServesStored(db, Alone(db, Get(seed, previous, at), envs), q)
  {
    hide WellFormed, AloneFits, Alone, ServesStored, IsListing, Fits, OrdinalsUnique, StepOf, Live, Pick, Single;
    var r := Get(seed, previous, at);
    var env := CanListRows(db, r, rows);
    var next := Get(seed, previous, Picked(q, at.Lifting?));
    ListedIsPicked(db, seed, previous, at, env, q);
    var rest := PickedIsServed(db, next, q, n);
    AloneGoesOn(db, r, env, next, rest);
    envs := [env] + rest;
  }

  lemma EmptyIsLifted(db: Tables, seed: nat, previous: IdText, none: bool, rest: seq<Env>) returns (envs: seq<Env>)
    requires WellFormed(db) && !previous.Blank? && AloneFits(db, Get(seed, previous, Lifting(none)), rest)
    requires IsListing(db, LiftedAuthors(none), previous, [])
    ensures |envs| == |rest| + 1 && AloneFits(db, Get(seed, previous, Listing(none)), envs)
    ensures Alone(db, Get(seed, previous, Listing(none)), envs) == Alone(db, Get(seed, previous, Lifting(none)), rest)
  {
    assert OrdinalsUnique(db.choices);
    hide WellFormed, AloneFits, Alone, IsListing, Fits, OrdinalsUnique;
    var r, next := Get(seed, previous, Listing(none)), Get(seed, previous, Lifting(none));
    var env := CanListRows(db, r, []);
    assert StepOf(db, r, env) == Continue(Nothing, next);
    hide StepOf;
    AloneGoesOn(db, r, env, next, rest);
    envs := [env] + rest;
  }

  lemma NoneIsEmpty(db: Tables, authors: Authors, previous: IdText, rows: seq<Uuid>)
    requires IsListing(db, authors, previous, rows) && Candidates(db, authors, previous) == {}
    ensures rows == []
  {
    EmptyListing(db, authors, previous, rows);
  }

  lemma CandidateIsListed(db: Tables, authors: Authors, previous: IdText, q: Uuid) returns (rows: seq<Uuid>, seed: nat)
    requires q in Candidates(db, authors, previous)
    ensures IsListing(db, authors, previous, rows) && rows != [] && Pick(seed, rows) == q && Live(db, q)
  {
    rows := CanListCandidates(db, authors, previous);
    seed := IndexOf(rows, q);
  }

  lemma LiftedIsListed(db: Tables, previous: IdText, none: bool, q: Uuid) returns (seed: nat, envs: seq<Env>)
    requires WellFormed(db) && OrdinalsUnique(db.choices) && !previous.Blank?
    requires Candidates(db, LiftedAuthors(none), previous) == {} && q in Candidates(db, LiftedAuthors(none), Blank)
    ensures |envs| == 4 && AloneFits(db, Get(seed, previous, Listing(none)), envs)
    ensures ServesStored(db, Alone(db, Get(seed, previous, Listing(none)), envs), q)
  {
    hide WellFormed, AloneFits, Alone, ServesStored, Candidates, OrdinalsUnique, Live, IsListing, Pick;
    var rows := CanListCandidates(db, LiftedAuthors(none), previous);
    NoneIsEmpty(db, LiftedAuthors(none), previous, rows);
    var all: seq<Uuid>;
    all, seed := CandidateIsListed(db, LiftedAuthors(none), Blank, q);
    var rest := ListedIsServed(db, seed, previous, Lifting(none), all, q, 2);
    envs := EmptyIsLifted(db, seed, previous, none, rest);
  }

  lemma OtherIsListed(db: Tables, previous: IdText, none: bool, q: Uuid) returns (seed: nat, envs: seq<Env>)
    requires WellFormed(db) && OrdinalsUnique(db.choices) && q in Candidates(db, LiftedAuthors(none), previous)
    ensures |envs| == 4 && AloneFits(db, Get(seed, previous, Listing(none)), envs)
    ensures ServesStored(db, Alone(db, Get(seed, previous, Listing(none)), envs), q)
  {
    hide WellFormed, AloneFits, Alone, ServesStored, Candidates, OrdinalsUnique, Live, IsListing, Pick;
    var rows: seq<Uuid>;
    rows, seed := CandidateIsListed(db, LiftedAuthors(none), previous, q);
    envs := ListedIsServed(db, seed, previous, Listing(none), rows, q, 3);
  }

  lemma SettledIsListed(db: Tables, previous: IdText, none: bool, q: Uuid) returns (seed: nat, envs: seq<Env>)
    requires WellFormed(db) && OrdinalsUnique(db.choices) && (previous.Blank? || GoParses(previous))
    requires q in Settled(db, previous) && none == (Candidates(db, NotSystem, previous) == {})
    ensures |envs| == 4 && AloneFits(db, Get(seed, previous, Listing(none)), envs)
    ensures ServesStored(db, Alone(db, Get(seed, previous, Listing(none)), envs), q)
  {
    hide WellFormed, AloneFits, Alone, ServesStored, Candidates, OrdinalsUnique;
    if q in Candidates(db, LiftedAuthors(none), previous) {
      seed, envs := OtherIsListed(db, previous, none, q);
    } else {
      seed, envs := LiftedIsListed(db, previous, none, q);
    }
  }

  /** Every question that GetQuestion may serve is drawn by some request: there are a digest and an
      environment with which it is the one served. */
  lemma EachIsDrawn(db: Tables, previous: IdText, q: Uuid) returns (seed: nat, envs: seq<Env>)
    requires WellFormed(db) && (previous.Blank? || GoParses(previous)) && MayServe(db, previous, q)
    ensures |envs| == 5 && AloneFits(db, Get(seed, previous, GetStart), envs)
    ensures ServesStored(db, Alone(db, Get(seed, previous, GetStart), envs), q)
  {
    SettledOnRows(db, previous, q);
    assert OrdinalsUnique(db.choices);
    hide WellFormed, AloneFits, Alone, ServesStored, Settled, Candidates, MayServe, OrdinalsUnique, IsListing, Fits;
    var none := Candidates(db, NotSystem, previous) == {};
    var rest: seq<Env>;
    seed, rest := SettledIsListed(db, previous, none, q);
    var rows := CanListCandidates(db, NotSystem, previous);
    EmptyListing(db, NotSystem, previous, rows);
    var r, next := Get(seed, previous, GetStart), Get(seed, previous, Listing(none));
    var env := CanListRows(db, r, rows);
    assert StepOf(db, r, env) == Continue(Nothing, next);
    hide StepOf;
    AloneGoesOn(db, r, env, next, rest);
    envs := [env] + rest;
  }
}
