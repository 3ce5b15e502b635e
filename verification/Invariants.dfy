/** What holds in every reachable state of every interleaving. */
module Invariants {
  import opened Domain
  import opened Schema
  import opened Repository
  import opened QuizSelection
  import opened Requests

  ghost predicate KeyIs(db: Tables, q: Uuid, c: Uuid) {
    q in db.answerKeys && db.answerKeys[q] == c
  }

  /** What the ownership check of an update found stays true: authors do not change. */
  predicate OwnedBy(db: Tables, question: IdText, user: string) {
    && PgCast(question).Some? && PgCast(question).value in db.questions
    && db.questions[PgCast(question).value].author == user
  }

  ghost predicate SubmitTracked(db: Tables, r: Request) {
    r.Submit? && !r.submit.SubmitStart? ==>
      && r.submit.correct.Canonical?
      && PgCast(r.question).Some? && PgCast(r.question).value in db.questions
      && (PgCast(r.choice).Some? && Belongs(db, PgCast(r.choice).value, PgCast(r.question).value) ==>
            KeyIs(db, PgCast(r.question).value, r.submit.correct.id))
      && (!r.submit.KeyRead? ==> PgCast(r.choice).Some? && r.user != "")
      && (r.submit.UserEnsured? ==> r.user in db.users)
  }

  /** A GetQuestion holds an id that was in the candidate list and is not the previous one,
      unless the exclusion was lifted; a row it has read was live. */
  ghost predicate GetTracked(db: Tables, previous: IdText, at: GetPoint) {
    match at
    case GetStart => true
    case Listing(_) => previous.Blank? || GoParses(previous)
    case Lifting(_) => GoParses(previous)
    case Picked(q, lifted) =>
      && (previous.Blank? || GoParses(previous)) && q in db.questions && (lifted || Canonical(q) != previous)
    case RowRead(q, row, lifted) =>
      && (previous.Blank? || GoParses(previous)) && q in db.questions && (lifted || Canonical(q) != previous)
      && row.deletedAt.None? && row.author == db.questions[q].author
  }

  /** The heart of grading under interleaving: a submission carries the key it read, and as long
      as its choice still belongs to its question that key is the current one. */
  ghost predicate Tracked(db: Tables, r: Request) {
    && SubmitTracked(db, r)
    && (r.Create? && r.ready ==> ValidDraft(r.draft) && r.user != "" && r.user in db.users)
    && (r.Update? && !r.update.UpdateStart? ==> ValidDraft(r.draft) && OwnedBy(db, r.question, r.user))
    && (r.Get? ==> GetTracked(db, r.previous, r.get))
  }

  /** Four choices with ids, by ordinal. */
  predicate FourInOrder(cs: seq<Choice>) {
    |cs| == 4 && forall i | 0 <= i < 4 :: cs[i].ordinal == i && cs[i].id.Canonical?
  }

  /** `q` is the stored question whose row the request had read, and the row was live then. */
  ghost predicate ServedLive(db: Tables, at: GetPoint, q: Question) {
    && at.RowRead? && at.picked in db.questions && at.row.deletedAt.None?
    && q == Question(Canonical(at.picked), at.row.prompt, q.choices, Coalesce(at.row.explanation))
    && FourInOrder(q.choices)
  }

  /** What a finished GetQuestion answered: a question that is stored or a default one, and the
      previous one only after the exclusion was lifted. It refuses nothing but a bad previous id. */
  ghost predicate ServedSound(db: Tables, e: Entry) {
    e.request.Get? && e.response.Served? ==>
      match e.response.served
      case Err(code) => code == InvalidArgument && !e.request.previous.Blank? && !GoParses(e.request.previous)
      case Ok(q) =>
        && (e.request.previous.Blank? || GoParses(e.request.previous))
        && (q in DefaultQuestions || ServedLive(db, e.request.get, q))
        && (!e.response.lifted ==> q.id != e.request.previous)
  }

  /** A stored grade is true of the current key, provided the choice was submitted in its
      canonical spelling; otherwise it is `false`. */
  ghost predicate GradeHolds(db: Tables, row: AttemptRow, text: IdText) {
    && PgCast(text) == Some(row.choice)
    && (row.isCorrect <==> text.Canonical? && KeyIs(db, row.question, row.choice))
  }

  ghost predicate Graded(w: World) {
    && w.spelled.Keys == w.db.attempts.Keys
    && forall a | a in w.db.attempts :: GradeHolds(w.db, w.db.attempts[a], w.spelled[a])
  }

  /** A finished SubmitAnswer of `user` that answered with an attempt id. */
  predicate Stored(e: Entry, user: string) {
    && e.request.Submit? && e.request.user == user
    && e.response.Answered? && e.response.answer.Ok? && !e.response.answer.value.attempt.Blank?
  }

  function StoredCount(log: seq<Entry>, user: string): nat {
    if log == [] then 0
    else StoredCount(log[..|log| - 1], user) + if Stored(log[|log| - 1], user) then 1 else 0
  }

  ghost predicate Counted(w: World) {
    forall user :: |AttemptsOf(w.db, user)| == StoredCount(w.log, user)
  }

  ghost predicate Inv(w: World) {
    && WellFormed(w.db)
    && (forall rid | rid in w.requests :: Tracked(w.db, w.requests[rid]))
    && Graded(w)
    && Counted(w)
    && forall i | 0 <= i < |w.log| :: ServedSound(w.db, w.log[i])
  }

  // ---------------------------------------------------------------- one step is legal

  lemma StepIsLegal(w: World, r: Request, env: Env)
    requires Fits(w, r, env)
    ensures Legal(w.db, StepOf(w.db, r, env).effect)
  {
    assert forall i | 0 <= i < |env.ids| :: Fresh(w, env.ids[i]);
  }

  // ---------------------------------------------------------------- requests stay tracked

  /** The effect's new ids are none that the request names. */
  ghost predicate Unforeseen(e: Effect, r: Request) {
    && (e.AddQuestion? ==> e.question !in Names(r))
    && (Writes(e) ==> forall i | 0 <= i < |e.ids| :: e.ids[i] !in Names(r))
  }

  /** A question write elsewhere changes neither the question's choices nor its key, and a write
      to the question itself takes every choice away that a request could have named. */
  lemma TrackedThroughWrite(db: Tables, e: Effect, r: Request)
    requires SoundChoices(db.choices, db.questions.Keys) && Legal(db, e) && Writes(e) && Unforeseen(e, r)
             && SubmitTracked(db, r)
    ensures SubmitTracked(Apply(db, e), r)
  {
    if r.Submit? && !r.submit.SubmitStart? && PgCast(r.choice).Some? {
      var q, c := PgCast(r.question).value, PgCast(r.choice).value;
      assert c in Names(r);
      WrittenChoices(db, e, q);
      hide Legal, SoundChoices;
      assert Belongs(Apply(db, e), c, q) <==> c in ChoicesOf(Apply(db, e), q);
      assert Belongs(db, c, q) <==> c in ChoicesOf(db, q);
    }
  }

  lemma TrackedThrough(db: Tables, e: Effect, r: Request)
    requires SoundChoices(db.choices, db.questions.Keys) && Legal(db, e) && Unforeseen(e, r) && Tracked(db, r)
    ensures Tracked(Apply(db, e), r)
  {
    if Writes(e) {
      TrackedThroughWrite(db, e, r);
    }
  }

  lemma SubmitContinues(db: Tables, r: Request, env: Env)
    requires r.Submit? && SoundKeys(db) && SubmitTracked(db, r) && SubmitStep(db, r, env).Continue?
    ensures Tracked(Apply(db, SubmitStep(db, r, env).effect), SubmitStep(db, r, env).next)
  {
  }

  lemma GetContinues(w: World, r: Request, env: Env)
    requires r.Get? && GetTracked(w.db, r.previous, r.get) && Fits(w, r, env) && GetStep(w.db, r, env).Continue?
    ensures Tracked(w.db, GetStep(w.db, r, env).next)
  {
    if env.rows != [] && (r.get.Listing? || r.get.Lifting?) {
      var (authors, previous) := QueryOf(r.get, r.previous);
      assert Pick(r.seed, env.rows) in Candidates(w.db, authors, previous);
    }
  }

  lemma ContinuesTracked(w: World, r: Request, env: Env)
    requires SoundKeys(w.db) && Tracked(w.db, r) && Fits(w, r, env) && StepOf(w.db, r, env).Continue?
    ensures Tracked(Apply(w.db, StepOf(w.db, r, env).effect), StepOf(w.db, r, env).next)
  {
    match r
    case Submit(_, _, _, _) => SubmitContinues(w.db, r, env);
    case Get(_, _, _) => GetContinues(w, r, env);
    case _ =>
  }

  lemma ListedInOrder(db: Tables, q: Uuid, cs: seq<Choice>)
    requires SoundChoices(db.choices, db.questions.Keys) && FourAndKey(db) && q in db.questions
             && IsChoiceList(db, q, cs)
    ensures FourInOrder(cs)
  {
    ChoiceListOrdinals(db, q, cs);
    forall i | 0 <= i < 4 ensures cs[i].ordinal == i && cs[i].id.Canonical? {
      assert Shows(db.choices, q, cs[i]);
    }
  }

  lemma GetFinishes(w: World, r: Request, env: Env)
    requires r.Get? && GetTracked(w.db, r.previous, r.get) && GetStep(w.db, r, env).Finish?
    requires r.get.RowRead? ==> FourInOrder(env.choices)
    ensures ServedSound(w.db, Entry(r, GetStep(w.db, r, env).response))
  {
    hide FourInOrder, DefaultQuestions;
  }

  // ---------------------------------------------------------------- grades stay true

  /** Nothing but a replacement changes a key, and a replacement needs an unattempted question. */
  lemma GradeThrough(db: Tables, e: Effect, row: AttemptRow, text: IdText)
    requires Legal(db, e) && GradeHolds(db, row, text)
    requires row.question in db.questions && (e.ReplaceQuestion? ==> row.question != e.question)
    ensures GradeHolds(Apply(db, e), row, text)
  {
  }

  lemma NewGradeHolds(db: Tables, r: Request, env: Env)
    requires r.Submit? && Tracked(db, r) && SubmitStep(db, r, env).effect.AddAttempt?
    ensures var e := SubmitStep(db, r, env).effect;
            Legal(db, e) ==> GradeHolds(Apply(db, e), e.row, r.choice) && e.row.user == r.user
  {
  }

  /** An effect other than a new attempt leaves every stored grade true. */
  lemma GradedThrough(w: World, e: Effect)
    requires SoundAttempts(w.db) && Legal(w.db, e) && !e.AddAttempt? && Graded(w)
    ensures Graded(w.(db := Apply(w.db, e)))
  {
    forall a | a in w.db.attempts ensures GradeHolds(Apply(w.db, e), w.db.attempts[a], w.spelled[a]) {
      assert SoundAttempt(w.db, w.db.attempts[a]);
      GradeThrough(w.db, e, w.db.attempts[a], w.spelled[a]);
    }
  }

  lemma GradedWithNew(w: World, r: Request, env: Env)
    requires r.Submit? && Tracked(w.db, r) && Graded(w) && SubmitStep(w.db, r, env).effect.AddAttempt?
    requires Legal(w.db, SubmitStep(w.db, r, env).effect)
    ensures var e := SubmitStep(w.db, r, env).effect;
            Graded(w.(db := Apply(w.db, e), spelled := w.spelled[e.attempt := r.choice]))
  {
    NewGradeHolds(w.db, r, env);
    var e := SubmitStep(w.db, r, env).effect;
    hide SubmitStep, SubmitTracked;
    var w' := w.(db := Apply(w.db, e), spelled := w.spelled[e.attempt := r.choice]);
    forall a | a in w'.db.attempts ensures GradeHolds(w'.db, w'.db.attempts[a], w'.spelled[a]) {
      assert a == e.attempt || GradeHolds(w.db, w.db.attempts[a], w.spelled[a]);
    }
  }

  // ---------------------------------------------------------------- attempts are counted

  lemma CountSnoc(log: seq<Entry>, e: Entry, user: string)
    ensures StoredCount(log + [e], user) == StoredCount(log, user) + if Stored(e, user) then 1 else 0
  {
    assert (log + [e])[..|log|] == log;
  }

  /** An attempt is inserted exactly by the finishing step whose response carries its id. */
  lemma StoredMeansInserted(db: Tables, r: Request, env: Env, user: string)
    requires (r.Create? || r.Update?) ==> |env.ids| == |r.draft.choices|
    ensures var o := StepOf(db, r, env);
            (o.Finish? && Stored(Entry(r, o.response), user)) <==> (o.effect.AddAttempt? && o.effect.row.user == user)
    ensures StepOf(db, r, env).effect.AddAttempt? ==> r.Submit? && StepOf(db, r, env).Finish?
  {
  }

  lemma AttemptsGrow(db: Tables, e: Effect, user: string)
    requires Shaped(db, e) && (e.AddAttempt? ==> e.attempt !in db.attempts)
    ensures |AttemptsOf(Apply(db, e), user)|
         == |AttemptsOf(db, user)| + if e.AddAttempt? && e.row.user == user then 1 else 0
  {
    var after := AttemptsOf(Apply(db, e), user);
    if e.AddAttempt? && e.row.user == user {
      assert after == AttemptsOf(db, user) + {e.attempt};
    } else {
      assert after == AttemptsOf(db, user);
    }
  }

  lemma CountedThrough(w: World, rid: nat, env: Env)
    requires rid in w.requests && Counted(w) && Fits(w, w.requests[rid], env)
    ensures Counted(Advanced(w, rid, StepOf(w.db, w.requests[rid], env)))
  {
    var r := w.requests[rid];
    var o := StepOf(w.db, r, env);
    StepIsLegal(w, r, env);
    forall user ensures |AttemptsOf(Apply(w.db, o.effect), user)|
                     == StoredCount(Advanced(w, rid, o).log, user) {
      StoredMeansInserted(w.db, r, env, user);
      AttemptsGrow(w.db, o.effect, user);
      hide StepOf, Legal, Fits, AttemptsOf, Apply, Stored, StoredCount;
      if o.Finish? { CountSnoc(w.log, Entry(r, o.response), user); }
    }
  }

  // ---------------------------------------------------------------- served questions

  lemma ServedThrough(db: Tables, e: Effect, entry: Entry)
    requires Legal(db, e) && ServedSound(db, entry)
    ensures ServedSound(Apply(db, e), entry)
  {
  }

  // ---------------------------------------------------------------- the invariant is inductive

  lemma StepIds(db: Tables, r: Request, env: Env)
    requires (r.Create? || r.Update?) ==> |env.ids| == |r.draft.choices|
    ensures var e := StepOf(db, r, env).effect;
            (e.AddQuestion? ==> e.question == env.id) && (e.AddQuestion? || e.ReplaceQuestion? ==> e.ids == env.ids)
  {
  }

  lemma FitsIsUnforeseen(w: World, r: Request, env: Env, other: nat)
    requires Fits(w, r, env) && other in w.requests
    ensures Unforeseen(StepOf(w.db, r, env).effect, w.requests[other])
  {
    StepIds(w.db, r, env);
    hide StepOf;
    assert Fresh(w, env.id) && forall i | 0 <= i < |env.ids| :: Fresh(w, env.ids[i]);
  }

  lemma AdvanceKeepsTracked(w: World, rid: nat, env: Env, other: nat)
    requires Inv(w) && rid in w.requests && Fits(w, w.requests[rid], env)
    requires other in Advanced(w, rid, StepOf(w.db, w.requests[rid], env)).requests
    ensures var w' := Advanced(w, rid, StepOf(w.db, w.requests[rid], env)); Tracked(w'.db, w'.requests[other])
  {
    StepIsLegal(w, w.requests[rid], env);
    if other == rid {
      assert Tracked(w.db, w.requests[rid]);
      hide Tracked, Graded, Counted, Fits, StepOf, Legal;
      ContinuesTracked(w, w.requests[rid], env);
    } else {
      FitsIsUnforeseen(w, w.requests[rid], env, other);
      assert Tracked(w.db, w.requests[other]);
      hide Tracked, Graded, Counted, Fits, StepOf, Legal;
      TrackedThrough(w.db, StepOf(w.db, w.requests[rid], env).effect, w.requests[other]);
    }
  }

  lemma AdvanceKeepsGraded(w: World, rid: nat, env: Env)
    requires Inv(w) && rid in w.requests && Fits(w, w.requests[rid], env)
    ensures Graded(Advanced(w, rid, StepOf(w.db, w.requests[rid], env)))
  {
    var r := w.requests[rid];
    StepIsLegal(w, r, env);
    StoredMeansInserted(w.db, r, env, "");
    assert Tracked(w.db, r) && SoundAttempts(w.db);
    hide Tracked, Counted, Fits, Legal, WellFormed, SubmitStep, CreateStep, UpdateStep, GetStep;
    var e := StepOf(w.db, r, env).effect;
    if e.AddAttempt? {
      GradedWithNew(w, r, env);
    } else {
      GradedThrough(w, e);
    }
  }

  lemma ServedByGetOnly(db: Tables, r: Request, env: Env)
    requires (r.Create? || r.Update?) ==> |env.ids| == |r.draft.choices|
    ensures !r.Get? && StepOf(db, r, env).Finish? ==> !StepOf(db, r, env).response.Served?
    ensures r.Get? ==> StepOf(db, r, env).effect.Nothing?
  {
  }

  lemma FinishedServed(w: World, r: Request, env: Env)
    requires SoundChoices(w.db.choices, w.db.questions.Keys) && FourAndKey(w.db)
    requires Tracked(w.db, r) && Fits(w, r, env) && StepOf(w.db, r, env).Finish?
    ensures var o := StepOf(w.db, r, env); ServedSound(Apply(w.db, o.effect), Entry(r, o.response))
  {
    ServedByGetOnly(w.db, r, env);
    if r.Get? {
      if r.get.RowRead? { ListedInOrder(w.db, r.get.picked, env.choices); }
      hide SoundChoices, FourAndKey, FourInOrder, IsChoiceList;
      GetFinishes(w, r, env);
      hide GetStep, ServedSound;
    }
  }

  lemma AdvanceKeepsServed(w: World, rid: nat, env: Env)
    requires Inv(w) && rid in w.requests && Fits(w, w.requests[rid], env)
    ensures var w' := Advanced(w, rid, StepOf(w.db, w.requests[rid], env));
            forall i | 0 <= i < |w'.log| :: ServedSound(w'.db, w'.log[i])
  {
    var r := w.requests[rid];
    var o := StepOf(w.db, r, env);
    var w' := Advanced(w, rid, o);
    assert Tracked(w.db, r) && SoundChoices(w.db.choices, w.db.questions.Keys) && FourAndKey(w.db);
    hide Tracked, Counted, Graded, Fits, WellFormed, ServedSound, StepOf, Legal, SoundChoices, FourAndKey;
    StepIsLegal(w, r, env);
    if o.Finish? { FinishedServed(w, r, env); }
    forall i | 0 <= i < |w'.log| ensures ServedSound(w'.db, w'.log[i]) {
      if i < |w.log| { ServedThrough(w.db, o.effect, w.log[i]); }
    }
  }

  lemma AdvanceKeepsInv(w: World, rid: nat, env: Env)
    requires Inv(w) && Enabled(w, Advance(rid, env))
    ensures Inv(Next(w, Advance(rid, env)))
  {
    var r := w.requests[rid];
    var w' := Next(w, Advance(rid, env));
    StepIsLegal(w, r, env);
    EffectKeepsWellFormed(w.db, StepOf(w.db, r, env).effect);
    CountedThrough(w, rid, env);
    AdvanceKeepsGraded(w, rid, env);
    AdvanceKeepsServed(w, rid, env);
    hide Tracked, Counted, Graded, Fits, WellFormed, ServedSound, StepOf, Legal;
    forall other | other in w'.requests ensures Tracked(w'.db, w'.requests[other]) {
      AdvanceKeepsTracked(w, rid, env, other);
    }
  }

  lemma DeleteKeepsInv(w: World, q: Uuid, now: int)
    requires Inv(w) && q in w.db.questions
    ensures Inv(Next(w, Delete(q, now)))
  {
    var e := SoftDelete(q, now);
    var w' := Next(w, Delete(q, now));
    assert Legal(w.db, e);
    EffectKeepsWellFormed(w.db, e);
    GradedThrough(w, e);
    forall user ensures |AttemptsOf(w'.db, user)| == StoredCount(w'.log, user) {
      AttemptsGrow(w.db, e, user);
    }
    forall rid | rid in w'.requests ensures Tracked(w'.db, w'.requests[rid]) {
      assert Tracked(w.db, w.requests[rid]);
      TrackedThrough(w.db, e, w.requests[rid]);
    }
    forall i | 0 <= i < |w'.log| ensures ServedSound(w'.db, w'.log[i]) {
      ServedThrough(w.db, e, w.log[i]);
    }
  }

  /** Every enabled action keeps the invariant. */
  lemma NextKeepsInv(w: World, a: Action)
    requires Inv(w) && Enabled(w, a)
    ensures Inv(Next(w, a))
  {
    match a
    case Start(_, _) =>
    case Advance(rid, env) => AdvanceKeepsInv(w, rid, env);
    case Delete(q, now) => DeleteKeepsInv(w, q, now);
  }

  /** So it holds in every state of every run. */
  lemma {:induction false} RunKeepsInv(w: World, actions: seq<Action>)
    requires Inv(w) && Runs(w, actions)
    ensures Inv(After(w, actions))
    decreases |actions|
  {
    if actions != [] {
      NextKeepsInv(w, actions[0]);
      RunKeepsInv(Next(w, actions[0]), actions[1..]);
    }
  }

  lemma StartHasInv(w: World)
    requires StartState(w)
    ensures Inv(w)
  {
    forall user ensures |AttemptsOf(w.db, user)| == StoredCount(w.log, user) {
      assert AttemptsOf(w.db, user) == {};
    }
  }
}
