/** The fallback set and its seeded rows over whole runs. */
module Fallback {
  import opened Domain
  import opened Schema
  import opened QuizSelection
  import opened Requests
  import opened Invariants
  import opened Guarantees
  import opened Quiz

  /** No update in flight is by the author of the seeded questions. */
  ghost predicate NoSystemUpdate(w: World) {
    forall rid | rid in w.requests && w.requests[rid].Update? :: w.requests[rid].user != "system"
  }

  predicate ByUsers(a: Action) {
    a.Start? && a.request.Update? ==> a.request.user != "system"
  }

  lemma StepKeepsUser(db: Tables, r: Request, env: Env)
    requires (r.Create? || r.Update?) ==> |env.ids| == |r.draft.choices|
    requires StepOf(db, r, env).Continue?
    ensures StepOf(db, r, env).next.Update? ==> r.Update? && StepOf(db, r, env).next.user == r.user
  {
  }

  lemma StepKeepsNoSystemUpdate(w: World, a: Action)
    requires Enabled(w, a) && NoSystemUpdate(w) && ByUsers(a)
    ensures NoSystemUpdate(Next(w, a))
  {
    if a.Advance? && StepOf(w.db, w.requests[a.rid], a.env).Continue? {
      StepKeepsUser(w.db, w.requests[a.rid], a.env);
      hide StepOf, Fits;
    }
  }

  /** Fresh ids are none of the fixed ones, so a question that is absent stays absent. */
  lemma AbsentStaysAbsent(w: World, a: Action, id: Uuid)
    requires Enabled(w, a) && id in DefaultIds && id !in w.db.questions
    ensures id !in Next(w, a).db.questions
  {
    if a.Advance? {
      StepIds(w.db, w.requests[a.rid], a.env);
      assert Fresh(w, a.env.id);
      hide StepOf, Fits;
    }
  }

  /** What DefaultIntact asks of a stored question is asked of its content. */
  lemma IntactByContent(db: Tables, db': Tables, d: Question)
    requires d.id.Canonical? && DefaultIntact(db, d) && d.id.id in db.questions
    requires d.id.id in db'.questions && d.id.id in db'.answerKeys && ContentOf(db', d.id.id) == ContentOf(db, d.id.id)
    ensures DefaultIntact(db', d)
  {
    var q := d.id.id;
    hide DefaultKeys;
    forall i | 0 <= i < |d.choices| ensures Belongs(db', d.choices[i].id.id, q) {
      assert d.choices[i].id.id in ContentOf(db, q).choices;
    }
  }

  lemma StepKeepsDefault(w: World, a: Action, d: Question)
    requires Inv(w) && Enabled(w, a) && NoSystemUpdate(w)
    requires d.id.Canonical? && d.id.id in DefaultIds && DefaultIntact(w.db, d)
    ensures DefaultIntact(Next(w, a).db, d)
  {
    if d.id.id in w.db.questions {
      StepContent(w, a, d.id.id);
      hide Inv, Enabled, Next, ContentOf, DefaultKeys, RevisedTo;
      IntactByContent(w.db, Next(w, a).db, d);
    } else {
      AbsentStaysAbsent(w, a, d.id.id);
    }
  }

  lemma DefaultQuestionIds()
    ensures DefaultQuestions[0].id == Canonical(0x1) && DefaultQuestions[1].id == Canonical(0x2)
            && DefaultQuestions[2].id == Canonical(0x3)
  {
  }

  /** Unless somebody updates a seeded question as the user "system", the rows with the fallback
      ids stay absent or as seeded. */
  lemma {:induction false} RunKeepsDefaults(w: World, actions: seq<Action>)
    requires Inv(w) && Runs(w, actions) && NoSystemUpdate(w) && DefaultsIntact(w.db)
    requires forall i | 0 <= i < |actions| :: ByUsers(actions[i])
    ensures DefaultsIntact(After(w, actions).db)
    decreases |actions|
  {
    if actions != [] {
      hide Inv, Enabled, Next, NoSystemUpdate, DefaultIntact;
      assert ByUsers(actions[0]);
      StepKeepsNoSystemUpdate(w, actions[0]);
      NextKeepsInv(w, actions[0]);
      DefaultQuestionIds();
      StepKeepsDefault(w, actions[0], DefaultQuestions[0]);
      StepKeepsDefault(w, actions[0], DefaultQuestions[1]);
      StepKeepsDefault(w, actions[0], DefaultQuestions[2]);
      RunKeepsDefaults(Next(w, actions[0]), actions[1..]);
    }
  }

  /** So in every such run, whatever GetQuestion serves can be answered in that state. */
  lemma ServedIsAnswerableInRuns(w0: World, actions: seq<Action>, seed: nat, previous: IdText, envs: seq<Env>,
      user: string)
    requires StartState(w0) && DefaultsIntact(w0.db) && Runs(w0, actions)
    requires forall i | 0 <= i < |actions| :: ByUsers(actions[i])
    requires previous.Blank? || GoParses(previous)
    requires |envs| == 5 && AloneFits(After(w0, actions).db, Get(seed, previous, GetStart), envs)
    ensures var o := Alone(After(w0, actions).db, Get(seed, previous, GetStart), envs);
            && o.Some? && o.value.1.Served? && o.value.1.served.Ok?
            && exists k :: Answerable(After(w0, actions).db, user, o.value.1.served.value, k)
  {
    StartHasInv(w0);
    RunKeepsInv(w0, actions);
    assert NoSystemUpdate(w0);
    assert WellFormed(After(w0, actions).db);
    hide Runs, After, StartState, DefaultsIntact, WellFormed, NoSystemUpdate, Graded, Counted, Tracked, ServedSound,
        AloneFits, Alone;
    RunKeepsDefaults(w0, actions);
    ServedIsAnswerable(After(w0, actions).db, seed, previous, envs, user);
  }

  // ---------------------------------------------------------------- the migrated database

  /** A fallback question of four choices with the ids that the migration gives them. */
  predicate SeedShape(d: Question, q: Uuid, base: Uuid) {
    && d.id == Canonical(q)
    && |d.choices| == 4
    && d.choices[0].id == Canonical(base + 1) && d.choices[1].id == Canonical(base + 2)
    && d.choices[2].id == Canonical(base + 3) && d.choices[3].id == Canonical(base + 4)
  }

  /** The fallback key of `d` is the choice the migration marks. */
  predicate SeedKeyed(d: Question, base: Uuid, correctOrdinal: nat) {
    d.id in DefaultKeys && DefaultKeys[d.id] == Canonical(base + 1 + correctOrdinal)
  }

  /** The rows that the migration inserts for it. */
  function SeedEffect(d: Question, q: Uuid, base: Uuid, correctOrdinal: int, now: int): Effect
    requires SeedShape(d, q, base)
  {
    var labels := [d.choices[0].text, d.choices[1].text, d.choices[2].text, d.choices[3].text];
    AddQuestion(q, [base + 1, base + 2, base + 3, base + 4], "system",
        Draft(d.prompt, labels, correctOrdinal, d.explanation), now)
  }

  const Unseeded := Tables({"system"}, map[], map[], map[], map[])

  /** The three inserts one after the other, for any three questions of the seed's shape. */
  function SeedPair(d0: Question, d1: Question, now: int): Tables
    requires SeedShape(d0, 0x1, 0x1000) && SeedShape(d1, 0x2, 0x2000)
  {
    Apply(Apply(Unseeded, SeedEffect(d0, 0x1, 0x1000, 0, now)), SeedEffect(d1, 0x2, 0x2000, 0, now))
  }

  /** The tables after the migrations. */
  function Seeded(now: int): Tables {
    Apply(SeedPair(DefaultQuestions[0], DefaultQuestions[1], now), SeedEffect(DefaultQuestions[2], 0x3, 0x3000, 2, now))
  }

  /** Part of the seed is in: well formed, without attempts, and ids below the next ones. */
  ghost predicate PartlySeeded(db: Tables, nextQuestion: Uuid, nextBase: Uuid) {
    && WellFormed(db) && db.attempts == map[] && "system" in db.users
    && (forall q | q in db.questions :: 0 < q < nextQuestion)
    && (forall c | c in db.choices :: c <= nextBase)
  }

  /** The three questions are in, and all ids are below 4 and 0x4001. */
  ghost predicate Migrated(db: Tables) {
    PartlySeeded(db, 0x4, 0x4000) && 0x1 in db.questions && 0x2 in db.questions && 0x3 in db.questions
  }

  lemma SeedIsLegal(db: Tables, d: Question, q: Uuid, base: Uuid, correctOrdinal: int, now: int)
    requires SeedShape(d, q, base) && 0 <= correctOrdinal <= 3 && PartlySeeded(db, q, base)
    ensures Legal(db, SeedEffect(d, q, base, correctOrdinal, now))
  {
    hide WellFormed;
  }

  lemma ChoicesBounded(db: Tables, e: Effect, bound: Uuid)
    requires SoundChoices(db.choices, db.questions.Keys) && Legal(db, e) && e.AddQuestion? && Writes(e)
    requires (forall c | c in db.choices :: c <= bound) && forall i | 0 <= i < 4 :: e.ids[i] <= bound
    ensures forall c | c in Apply(db, e).choices :: c <= bound
  {
    WriteRewrites(db, e);
    hide Legal, SoundChoices, NewChoices;
    forall c | c in Apply(db, e).choices ensures c <= bound {
      assert c in e.ids || c in db.choices;
    }
  }

  lemma AddedRows(db: Tables, e: Effect)
    requires Legal(db, e) && e.AddQuestion?
    ensures var db' := Apply(db, e);
            && db'.users == db.users && db'.attempts == db.attempts
            && db'.questions.Keys == db.questions.Keys + {e.question}
  {
    hide NewChoices;
  }

  lemma BoundedAfterAdd(db: Tables, e: Effect, nextQuestion: Uuid, nextBase: Uuid)
    requires nextQuestion > 0 && PartlySeeded(db, nextQuestion, nextBase)
    requires Legal(db, e) && e.AddQuestion? && Writes(e)
    requires e.question == nextQuestion && forall i | 0 <= i < 4 :: e.ids[i] <= nextBase + 0x1000
    ensures PartlySeeded(Apply(db, e), nextQuestion + 1, nextBase + 0x1000)
  {
    hide SoundChoices, Legal, NewChoices, AuthorsExist, OrdinalsUnique, SoundKeys, SoundAttempts, FourAndKey;
    assert SoundChoices(db.choices, db.questions.Keys);
    hide WellFormed;
    EffectKeepsWellFormed(db, e);
    ChoicesBounded(db, e, nextBase + 0x1000);
    AddedRows(db, e);
    hide Apply;
  }

  lemma FourBelong(db: Tables, q: Uuid, base: Uuid)
    requires base + 1 in ChoicesOf(db, q) && base + 2 in ChoicesOf(db, q) && base + 3 in ChoicesOf(db, q)
             && base + 4 in ChoicesOf(db, q)
    ensures Belongs(db, base + 1, q) && Belongs(db, base + 2, q) && Belongs(db, base + 3, q) && Belongs(db, base + 4, q)
  {
  }

  lemma SeedIsIntact(db: Tables, d: Question, q: Uuid, base: Uuid, correctOrdinal: int, now: int)
    requires SeedShape(d, q, base) && 0 <= correctOrdinal <= 3 && SoundChoices(db.choices, db.questions.Keys)
    requires Legal(db, SeedEffect(d, q, base, correctOrdinal, now))
    requires SeedKeyed(d, base, correctOrdinal)
    ensures DefaultIntact(Apply(db, SeedEffect(d, q, base, correctOrdinal, now)), d)
  {
    var e := SeedEffect(d, q, base, correctOrdinal, now);
    hide DefaultKeys;
    WrittenChoices(db, e, q);
    hide SoundChoices, Legal, ChoicesIn;
    assert base + 1 in ChoicesOf(Apply(db, e), q) by { assert e.ids[0] in e.ids; }
    assert base + 2 in ChoicesOf(Apply(db, e), q) by { assert e.ids[1] in e.ids; }
    assert base + 3 in ChoicesOf(Apply(db, e), q) by { assert e.ids[2] in e.ids; }
    assert base + 4 in ChoicesOf(Apply(db, e), q) by { assert e.ids[3] in e.ids; }
    FourBelong(Apply(db, e), q, base);
  }

  /** One of the migration's inserts. */
  lemma SeedStep(db: Tables, d: Question, q: Uuid, base: Uuid, correctOrdinal: int, now: int)
    requires q > 0 && SeedShape(d, q, base) && 0 <= correctOrdinal <= 3 && PartlySeeded(db, q, base)
    requires SeedKeyed(d, base, correctOrdinal)
    ensures var e := SeedEffect(d, q, base, correctOrdinal, now);
            && Legal(db, e) && WellFormed(db) && PartlySeeded(Apply(db, e), q + 1, base + 0x1000)
            && q in Apply(db, e).questions && DefaultIntact(Apply(db, e), d)
  {
    var e := SeedEffect(d, q, base, correctOrdinal, now);
    SeedIsLegal(db, d, q, base, correctOrdinal, now);
    assert Writes(e) && e.AddQuestion? && e.question == q && forall i | 0 <= i < 4 :: e.ids[i] <= base + 0x1000;
    assert SoundChoices(db.choices, db.questions.Keys) && WellFormed(db);
    assert q in Apply(db, e).questions;
    hide WellFormed, Legal, SoundChoices, DefaultIntact, SeedKeyed, SeedEffect, Apply;
    BoundedAfterAdd(db, e, q, base);
    SeedIsIntact(db, d, q, base, correctOrdinal, now);
  }

  lemma SeedKeepsIntact(db: Tables, e: Effect, d: Question)
    requires WellFormed(db) && Legal(db, e) && e.AddQuestion? && d.id.Canonical? && DefaultIntact(db, d)
             && d.id.id in db.questions
    ensures DefaultIntact(Apply(db, e), d) && d.id.id in Apply(db, e).questions
  {
    EffectKeepsContent(db, e, d.id.id);
    hide WellFormed, ContentOf, DefaultKeys;
    IntactByContent(db, Apply(db, e), d);
  }

  lemma SeedKeys(d0: Question, d1: Question, now: int)
    requires SeedShape(d0, 0x1, 0x1000) && SeedShape(d1, 0x2, 0x2000)
    ensures SeedKeyed(d0, 0x1000, 0) && SeedKeyed(d1, 0x2000, 0) && SeedEffect(d1, 0x2, 0x2000, 0, now).AddQuestion?
    ensures PartlySeeded(Unseeded, 0x1, 0x1000)
  {
  }

  lemma SeedPairIntact(d0: Question, d1: Question, now: int)
    requires SeedShape(d0, 0x1, 0x1000) && SeedShape(d1, 0x2, 0x2000)
    ensures var two := SeedPair(d0, d1, now);
            && PartlySeeded(two, 0x3, 0x3000) && 0x1 in two.questions && 0x2 in two.questions
            && DefaultIntact(two, d0) && DefaultIntact(two, d1)
  {
    SeedKeys(d0, d1, now);
    assert d0.id == Canonical(0x1) && d1.id == Canonical(0x2);
    hide SeedShape, SeedKeyed;
    var e0, e1 := SeedEffect(d0, 0x1, 0x1000, 0, now), SeedEffect(d1, 0x2, 0x2000, 0, now);
    hide DefaultIntact, DefaultKeys, Apply, SeedEffect, WellFormed, Legal, Unseeded, PartlySeeded;
    SeedStep(Unseeded, d0, 0x1, 0x1000, 0, now);
    SeedStep(Apply(Unseeded, e0), d1, 0x2, 0x2000, 0, now);
    SeedKeepsIntact(Apply(Unseeded, e0), e1, d0);
  }

  lemma SeedThree(d0: Question, d1: Question, d2: Question, now: int)
    requires SeedShape(d0, 0x1, 0x1000) && SeedShape(d1, 0x2, 0x2000) && SeedShape(d2, 0x3, 0x3000)
    ensures var three := Apply(SeedPair(d0, d1, now), SeedEffect(d2, 0x3, 0x3000, 2, now));
            && Migrated(three)
            && DefaultIntact(three, d0) && DefaultIntact(three, d1) && DefaultIntact(three, d2)
  {
    assert SeedKeyed(d2, 0x3000, 2);
    var two, e2 := SeedPair(d0, d1, now), SeedEffect(d2, 0x3, 0x3000, 2, now);
    assert e2.AddQuestion? && d0.id == Canonical(0x1) && d1.id == Canonical(0x2) && d2.id == Canonical(0x3);
    hide SeedShape, SeedKeyed;
    hide DefaultIntact, DefaultKeys, Apply, SeedEffect, WellFormed, Legal, SeedPair, PartlySeeded;
    SeedPairIntact(d0, d1, now);
    SeedStep(two, d2, 0x3, 0x3000, 2, now);
    SeedKeepsIntact(two, e2, d0);
    SeedKeepsIntact(two, e2, d1);
  }

  /** The migrated database is a start state with the fallback rows as seeded. */
  lemma SeedIsStart(now: int)
    ensures StartState(World(Seeded(now), map[], [], map[])) && DefaultsIntact(Seeded(now))
    ensures Migrated(Seeded(now))
  {
    hide DefaultIntact, DefaultKeys, Apply, SeedEffect, WellFormed;
    SeedThree(DefaultQuestions[0], DefaultQuestions[1], DefaultQuestions[2], now);
  }
}
