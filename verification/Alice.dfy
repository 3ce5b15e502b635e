/** One database, with a user and her question, at which the quiz surprises. */
module Alice {
  import opened Domain
  import opened Schema
  import opened Repository
  import opened Requests
  import opened Timeline
  import opened Quiz
  import opened Spelling
  import opened Progress
  import opened Fallback
  import opened Scenarios
  import opened Deviations
  import opened Mixture

  /** Alice's question and another draft for it. */
  const FirstDraft := Draft("1 + 1?", ["1", "2", "3", "4"], 1, "")
  const SecondDraft := Draft("2 + 2?", ["1", "2", "3", "4"], 3, "")

  const AliceQuestion: Uuid := 0x5000a
  const AliceChoices: seq<Uuid> := [0x5000b, 0x5000c, 0x5000d, 0x5000e]

  function AliceEffect(now: int): Effect {
    AddQuestion(AliceQuestion, AliceChoices, "alice", FirstDraft, now)
  }

  function WithoutSeeds(db: Tables, now: int): Tables
    requires 0x1 in db.questions && 0x2 in db.questions && 0x3 in db.questions
  {
    Apply(Apply(Apply(db, SoftDelete(0x1, now)), SoftDelete(0x2, now)), SoftDelete(0x3, now))
  }

  /** A migrated database in which alice has written a question and the seeded ones are deleted. */
  function AliceDb(db: Tables, now: int): Tables
    requires 0x1 in db.questions && 0x2 in db.questions && 0x3 in db.questions
  {
    WithoutSeeds(Apply(Apply(db, AddUser("alice")), AliceEffect(now)), now)
  }

  lemma DraftsAreValid()
    ensures ValidDraft(FirstDraft) && ValidDraft(SecondDraft) && FirstDraft.prompt != SecondDraft.prompt
  {
    assert !IsBlank(FirstDraft.prompt) by { assert !IsGoSpace(FirstDraft.prompt[0]); }
    assert !IsBlank(SecondDraft.prompt) by { assert !IsGoSpace(SecondDraft.prompt[0]); }
    forall i | 0 <= i < 4 ensures !IsBlank(FirstDraft.choices[i]) && !IsBlank(SecondDraft.choices[i]) {
      assert !IsGoSpace(FirstDraft.choices[i][0]) && !IsGoSpace(SecondDraft.choices[i][0]);
    }
  }

  lemma AliceIsLegal(db: Tables, now: int)
    requires Migrated(db)
    ensures Legal(db, AddUser("alice")) && Legal(Apply(db, AddUser("alice")), AliceEffect(now))
  {
    hide WellFormed;
  }

  lemma DeletesKeepWellFormed(db: Tables, now: int)
    requires WellFormed(db) && 0x1 in db.questions && 0x2 in db.questions && 0x3 in db.questions
    ensures WellFormed(WithoutSeeds(db, now))
  {
    hide WellFormed;
    var db1 := Apply(db, SoftDelete(0x1, now));
    var db2 := Apply(db1, SoftDelete(0x2, now));
    EffectKeepsWellFormed(db, SoftDelete(0x1, now));
    EffectKeepsWellFormed(db1, SoftDelete(0x2, now));
    EffectKeepsWellFormed(db2, SoftDelete(0x3, now));
  }

  lemma AliceIsWellFormed(db: Tables, now: int)
    requires Migrated(db)
    ensures WellFormed(AliceDb(db, now))
  {
    AliceIsLegal(db, now);
    assert WellFormed(db);
    hide WellFormed, Legal, WithoutSeeds, NewChoices;
    var db1 := Apply(db, AddUser("alice"));
    EffectKeepsWellFormed(db, AddUser("alice"));
    EffectKeepsWellFormed(db1, AliceEffect(now));
    DeletesKeepWellFormed(Apply(db1, AliceEffect(now)), now);
  }

  lemma AliceRows(db: Tables, now: int)
    requires Migrated(db)
    ensures var db' := AliceDb(db, now);
            && db'.questions.Keys == db.questions.Keys + {AliceQuestion} && db'.attempts == map[]
            && db'.questions[AliceQuestion] == NewRow("alice", FirstDraft, now)
            && forall q | q in db.questions :: db'.questions[q].deletedAt.Some?
  {
    hide WellFormed, NewChoices;
  }

  /** It is a start state, and alice's question is the only live one. */
  lemma AliceIsAlone(db: Tables, now: int)
    requires Migrated(db)
    ensures StartState(World(AliceDb(db, now), map[], [], map[]))
    ensures OnlyLive(AliceDb(db, now), AliceQuestion)
    ensures AliceDb(db, now).questions[AliceQuestion] == NewRow("alice", FirstDraft, now)
  {
    hide WellFormed, AliceDb;
    AliceIsWellFormed(db, now);
    AliceRows(db, now);
  }

  // ---------------------------------------------------------------- how to get there

  lemma DeletesRun(w0: World, written: seq<Action>, now: int) returns (actions: seq<Action>)
    requires Runs(w0, written)
    requires var db := After(w0, written).db; 0x1 in db.questions && 0x2 in db.questions && 0x3 in db.questions
    ensures Runs(w0, actions) && After(w0, actions).db == WithoutSeeds(After(w0, written).db, now)
  {
    hide Runs, After;
    Extend(w0, written, Delete(0x1, now));
    var one := written + [Delete(0x1, now)];
    Extend(w0, one, Delete(0x2, now));
    var two := one + [Delete(0x2, now)];
    Extend(w0, two, Delete(0x3, now));
    actions := two + [Delete(0x3, now)];
  }

  /** The environment that hands out the ids of her question. */
  function AliceEnv(now: int): Env {
    Env(AliceQuestion, AliceChoices, now, [], [])
  }

  lemma AliceEnvFits(w: World, r: Request, now: int)
    requires r == Create("alice", FirstDraft, true) && w.requests == map[0 := r] && w.db.attempts == map[]
    requires (forall q | q in w.db.questions :: q < 0x4) && forall c | c in w.db.choices :: c <= 0x4000
    ensures Fits(w, r, AliceEnv(now))
  {
  }

  lemma AliceCreates(w: World, now: int)
    requires w.requests == map[0 := Create("alice", FirstDraft, true)] && "alice" in w.db.users
    requires Enabled(w, Advance(0, AliceEnv(now)))
    ensures Next(w, Advance(0, AliceEnv(now))).db == Apply(w.db, AliceEffect(now))
  {
  }

  lemma AliceArrives(w: World, env: Env)
    requires w.requests == map[0 := Create("alice", FirstDraft, false)] && Enabled(w, Advance(0, env))
    ensures Next(w, Advance(0, env)).db == Apply(w.db, AddUser("alice"))
    ensures Next(w, Advance(0, env)).requests == map[0 := Create("alice", FirstDraft, true)]
  {
    DraftsAreValid();
    hide ValidDraft, Fits;
    assert w.requests[0 := Create("alice", FirstDraft, true)] == map[0 := Create("alice", FirstDraft, true)];
  }

  lemma QuietMeans(w0: World, actions: seq<Action>, requests: map<nat, Request>)
    requires Quiet(w0, actions, requests)
    ensures Runs(w0, actions) && After(w0, actions) == w0.(requests := requests)
  {
  }

  lemma AliceComes(w0: World) returns (actions: seq<Action>)
    requires OrdinalsUnique(w0.db.choices) && w0.requests == map[]
    ensures Runs(w0, actions) && After(w0, actions).db == Apply(w0.db, AddUser("alice"))
    ensures After(w0, actions).requests == map[0 := Create("alice", FirstDraft, true)]
  {
    hide Runs, After, OrdinalsUnique, Fits, StepOf, Quiet;
    var r := Create("alice", FirstDraft, false);
    QuietBegins(w0);
    QuietStart(w0, [], map[], 0, r);
    assert map[][0 := r] == map[0 := r];
    var w1 := w0.(requests := map[0 := r]);
    var started := [] + [Start(0, r)];
    assert Runs(w0, started) && After(w0, started) == w1 by { QuietMeans(w0, started, map[0 := r]); }
    var env := CanStep(w1, r);
    Extend(w0, started, Advance(0, env));
    AliceArrives(w1, env);
    actions := started + [Advance(0, env)];
  }

  lemma AliceIsReady(w: World, db: Tables, now: int)
    requires Migrated(db) && w.db == Apply(db, AddUser("alice"))
    requires w.requests == map[0 := Create("alice", FirstDraft, true)]
    ensures Enabled(w, Advance(0, AliceEnv(now)))
    ensures Next(w, Advance(0, AliceEnv(now))).db == Apply(w.db, AliceEffect(now))
  {
    hide WellFormed, Fits, StepOf, Next;
    AliceEnvFits(w, Create("alice", FirstDraft, true), now);
    AliceCreates(w, now);
  }

  lemma MigratedIsUnique(db: Tables)
    requires Migrated(db)
    ensures OrdinalsUnique(db.choices)
  {
  }

  /** Alice signs in for the first time and creates her question. */
  lemma AliceWrites(w0: World, now: int) returns (actions: seq<Action>)
    requires Migrated(w0.db) && w0.requests == map[]
    ensures Runs(w0, actions) && After(w0, actions).db == Apply(Apply(w0.db, AddUser("alice")), AliceEffect(now))
  {
    hide Runs, After, OrdinalsUnique, Next, Enabled, Migrated, Apply;
    MigratedIsUnique(w0.db);
    var arrived := AliceComes(w0);
    AliceIsReady(After(w0, arrived), w0.db, now);
    Extend(w0, arrived, Advance(0, AliceEnv(now)));
    actions := arrived + [Advance(0, AliceEnv(now))];
  }

  /** A run from the migrated database gets to this one. */
  lemma AliceIsReached(w0: World, now: int) returns (actions: seq<Action>)
    requires w0 == World(Seeded(now), map[], [], map[]) && Migrated(Seeded(now))
    ensures StartState(w0) && Runs(w0, actions) && After(w0, actions).db == AliceDb(Seeded(now), now)
  {
    hide Seeded, Runs, After, WellFormed, PartlySeeded, DefaultsIntact, StartState, NewChoices;
    SeedIsStart(now);
    var written := AliceWrites(w0, now);
    actions := DeletesRun(w0, written, now);
  }

  // ---------------------------------------------------------------- what happens there

  function BracedAlice(): IdText {
    Variant(AliceQuestion, true, Braced(AliceQuestion))
  }

  /** There, asked for another question than hers, GetQuestion serves a default one when her
      question's id is spelled canonically. */
  lemma AliceIsNotRepeated(db: Tables, now: int, seed: nat, envs: seq<Env>)
    requires db == Seeded(now) && Migrated(db) && |envs| == 5
    requires AloneFits(AliceDb(db, now), Get(seed, Canonical(AliceQuestion), GetStart), envs)
    ensures var o := Alone(AliceDb(db, now), Get(seed, Canonical(AliceQuestion), GetStart), envs);
            ServesDefault(AliceDb(db, now), o, seed, Canonical(AliceQuestion))
  {
    hide Seeded, AloneFits, Alone, ServesDefault, AliceDb, StartState, WellFormed, PartlySeeded;
    AliceIsAlone(db, now);
    LoneUserQuestionIsNotRepeated(AliceDb(db, now), AliceQuestion, seed, envs);
  }

  /** When it is in braces, hers is served again. */
  lemma AliceIsRepeatedInBraces(db: Tables, now: int, seed: nat, envs: seq<Env>)
    requires db == Seeded(now) && Migrated(db) && |envs| == 5
    requires AloneFits(AliceDb(db, now), Get(seed, BracedAlice(), GetStart), envs)
    ensures var o := Alone(AliceDb(db, now), Get(seed, BracedAlice(), GetStart), envs);
            ServesStored(AliceDb(db, now), o, AliceQuestion)
  {
    hide Seeded, Braced, AloneFits, Alone, ServesStored, AliceDb, OnlyLive, StartState, WellFormed, PartlySeeded;
    AliceIsAlone(db, now);
    OtherSpellingIsRepeated(AliceDb(db, now), AliceQuestion, true, Braced(AliceQuestion), seed, envs);
  }

  /** And a run from there serves her first prompt over the choices of her second draft, which no
      state of the run has stored. */
  lemma AliceIsMixedUp(db: Tables, now: int, seed: nat) returns (w0: World, actions: seq<Action>, served: Question)
    requires db == Seeded(now) && Migrated(db)
    ensures w0 == World(AliceDb(db, now), map[], [], map[])
    ensures Runs(w0, actions) && |After(w0, actions).log| == 2
    ensures After(w0, actions).log[1].request.Get? && After(w0, actions).log[1].response == Served(Ok(served), false)
    ensures served.id == Canonical(AliceQuestion)
    ensures forall n | 0 <= n <= |actions| :: !Shown(At(w0, actions, n).db, AliceQuestion, served)
  {
    hide Seeded, AliceDb, OnlyLive, StartState, Runs, After, At, Shown, ValidDraft, WellFormed, PartlySeeded;
    AliceIsAlone(db, now);
    DraftsAreValid();
    w0 := World(AliceDb(db, now), map[], [], map[]);
    actions, served := ServesWhatNeverWas(w0, AliceQuestion, seed, SecondDraft);
  }
}
