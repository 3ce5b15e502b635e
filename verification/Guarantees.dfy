/** What the store promises its users over whole runs: grades, statistics, history, authorship. */
module Guarantees {
  import opened Domain
  import opened Schema
  import opened Repository
  import opened QuizSelection
  import opened Requests
  import opened Invariants
  import opened Timeline

  // ---------------------------------------------------------------- grades

  /** In every reachable state a stored grade says whether the choice is the question's current
      key, exactly if it was submitted in its canonical spelling or is not the key anyway: the
      key is compared as text, so another spelling of the right choice is stored as wrong. */
  lemma GradesAreCurrent(w0: World, actions: seq<Action>, a: Uuid)
    requires StartState(w0) && Runs(w0, actions) && a in After(w0, actions).db.attempts
    ensures var w := After(w0, actions); var row := w.db.attempts[a];
            && a in w.spelled && PgCast(w.spelled[a]) == Some(row.choice)
            && row.question in w.db.questions && Belongs(w.db, row.choice, row.question)
            && ((row.isCorrect <==> KeyIs(w.db, row.question, row.choice)) <==>
                (w.spelled[a].Canonical? || !KeyIs(w.db, row.question, row.choice)))
  {
    StartHasInv(w0);
    RunKeepsInv(w0, actions);
    var w := After(w0, actions);
    hide Runs, After, StartState;
    assert GradeHolds(w.db, w.db.attempts[a], w.spelled[a]);
    assert SoundAttempt(w.db, w.db.attempts[a]);
  }

  // ---------------------------------------------------------------- statistics

  function CorrectOf(db: Tables, user: string): set<Uuid> {
    set a | a in db.attempts && db.attempts[a].user == user && db.attempts[a].isCorrect
  }

  /** GetMyStats. */
  function MyStats(db: Tables, user: string): Result<Stats> {
    if user == "" then Err(Unauthenticated) else
    var total, correct := |AttemptsOf(db, user)|, |CorrectOf(db, user)|;
    Ok(Stats(total, correct, if total > 0 then correct as real / total as real else 0.0))
  }

  /** The user's attempts that are right when graded again, against the keys as they are now. */
  function Regraded(db: Tables, user: string): set<Uuid> {
    set a | a in db.attempts && db.attempts[a].user == user
         && db.attempts[a].question in db.answerKeys && db.answerKeys[db.attempts[a].question] == db.attempts[a].choice
  }

  lemma ProperSubsetIsSmaller<T>(a: set<T>, b: set<T>)
    requires a < b
    ensures |a| < |b|
  {
    var x :| x in b && x !in a;
    SubsetSize(a, b - {x});
  }

  /** In a graded state the marks are the right answers among the canonically spelled ones. */
  lemma MarksAgainstRegrading(w: World, user: string)
    requires Graded(w)
    ensures CorrectOf(w.db, user) <= Regraded(w.db, user) <= AttemptsOf(w.db, user) <= w.spelled.Keys
    ensures forall a | a in Regraded(w.db, user) :: a in CorrectOf(w.db, user) <==> w.spelled[a].Canonical?
  {
    forall a | a in w.db.attempts ensures GradeHolds(w.db, w.db.attempts[a], w.spelled[a]) {}
  }

  /** In every reachable state the total is the number of SubmitAnswer calls of this user that
      answered with an attempt id, and the correct count is the count by regrading, exactly if
      every attempt that regrades as right was submitted in canonical spelling. */
  lemma StatsAreTheHistory(w0: World, actions: seq<Action>, user: string)
    requires StartState(w0) && Runs(w0, actions) && user != ""
    ensures var w := After(w0, actions); var stats := MyStats(w.db, user).value;
            && stats.total == StoredCount(w.log, user)
            && stats.correct <= |Regraded(w.db, user)| <= stats.total
            && Regraded(w.db, user) <= w.spelled.Keys
            && (stats.correct == |Regraded(w.db, user)|
                <==> forall a | a in Regraded(w.db, user) :: w.spelled[a].Canonical?)
  {
    StartHasInv(w0);
    RunKeepsInv(w0, actions);
    var w := After(w0, actions);
    hide Runs, After, StartState, WellFormed, Tracked, ServedSound, Graded, StoredCount;
    MarksAgainstRegrading(w, user);
    var right, marked, all := Regraded(w.db, user), CorrectOf(w.db, user), AttemptsOf(w.db, user);
    assert |all| == StoredCount(w.log, user);
    hide CorrectOf, Regraded, AttemptsOf, Counted;
    SubsetSize(marked, right);
    SubsetSize(right, all);
    if marked != right {
      ProperSubsetIsSmaller(marked, right);
    }
  }

  lemma Ratio(c: real, t: real)
    requires 0.0 <= c <= t && 0.0 < t
    ensures 0.0 <= c / t <= 1.0 && c / t * t == c
  {
  }

  /** Only an anonymous caller is refused; anybody else gets the number of their attempts, of the
      right ones among them, and their exact quotient, which is 0 without attempts. */
  lemma AccuracyIsARatio(db: Tables, user: string)
    ensures user == "" ==> MyStats(db, user) == Err(Unauthenticated)
    ensures user != "" ==> MyStats(db, user).Ok? && var s := MyStats(db, user).value;
              && s.total == |set a | a in db.attempts && db.attempts[a].user == user|
              && s.correct == |set a | a in db.attempts && db.attempts[a].user == user && db.attempts[a].isCorrect|
              && 0.0 <= s.accuracy <= 1.0 && s.accuracy * s.total as real == s.correct as real
              && (s.total == 0 ==> s.accuracy == 0.0)
  {
    assert CorrectOf(db, user) <= AttemptsOf(db, user);
    assert AttemptsOf(db, user) == set a | a in db.attempts && db.attempts[a].user == user;
    assert CorrectOf(db, user) == set a | a in db.attempts && db.attempts[a].user == user && db.attempts[a].isCorrect;
    SubsetSize(CorrectOf(db, user), AttemptsOf(db, user));
    if |AttemptsOf(db, user)| > 0 {
      Ratio(|CorrectOf(db, user)| as real, |AttemptsOf(db, user)| as real);
    }
  }

  // ---------------------------------------------------------------- answers under interleaving

  /** Refused exactly if the choice does not belong; otherwise answered with the current key. */
  ghost predicate JudgedNow(db: Tables, question: IdText, choice: IdText, answer: Result<SubmitResult>) {
    && PgCast(question).Some?
    && (answer.Ok? <==> PgCast(choice).Some? && Belongs(db, PgCast(choice).value, PgCast(question).value))
    && (answer.Ok? ==>
          && answer.value.correctChoice.Canonical? && KeyIs(db, PgCast(question).value, answer.value.correctChoice.id)
          && (answer.value.isCorrect <==> choice == answer.value.correctChoice))
  }

  /** The statement after which a submission that read a stored key is answered: the attempt
      insert, or for an anonymous one the check of the choice. */
  predicate IsLastStatement(r: Request) {
    r.Submit? && (r.submit.UserEnsured? || (r.submit.KeyRead? && r.user == ""))
  }

  lemma LastStatementJudges(db: Tables, r: Request, env: Env)
    requires IsLastStatement(r) && SubmitTracked(db, r) && env.id !in db.attempts
    ensures var o := SubmitStep(db, r, env);
            o.Finish? && o.response.Answered? && JudgedNow(db, r.question, r.choice, o.response.answer)
  {
    assert r.submit.UserEnsured? ==> !r.question.Blank? && !r.choice.Blank?;
  }

  /** The last statement of a submission, whatever ran since it read the key: it is refused exactly
      if its choice does not belong to the question any more, and otherwise it answers with the key
      of this very state, to a signed-in user and to an anonymous one. */
  lemma RefusedIffReplaced(w0: World, actions: seq<Action>, rid: nat, env: Env)
    requires StartState(w0) && Runs(w0, actions) && Enabled(After(w0, actions), Advance(rid, env))
    requires IsLastStatement(After(w0, actions).requests[rid])
    ensures var w := After(w0, actions); var r := w.requests[rid]; var o := SubmitStep(w.db, r, env);
            o.Finish? && o.response.Answered? && JudgedNow(w.db, r.question, r.choice, o.response.answer)
  {
    StartHasInv(w0);
    RunKeepsInv(w0, actions);
    var w := After(w0, actions);
    assert Tracked(w.db, w.requests[rid]) && Fresh(w, env.id);
    hide Runs, After, StartState, WellFormed, Graded, Counted, ServedSound, JudgedNow, SubmitStep;
    LastStatementJudges(w.db, w.requests[rid], env);
  }

  /** A finished GetQuestion served a default question, or a stored one whose row was live when one
      of its steps read it and whose choices a later step of it listed. */
  ghost predicate HasSource(w0: World, actions: seq<Action>, i: nat)
    requires Runs(w0, actions) && i < |After(w0, actions).log|
  {
    var response := After(w0, actions).log[i].response;
    response.Served? && response.served.Ok? ==>
      response.served.value in DefaultQuestions || exists rid, n, m :: ServedFrom(w0, actions, i, rid, n, m)
  }

  /** GetQuestion under any interleaving with creates, updates and soft deletes: it refuses only
      a malformed previous id, it never ends in NotFound, it serves a default question or one whose
      row was live in the state where it read it, with four choices by ordinal as they were in the
      state where it listed them, and it repeats the previous one only through the retry that lifts
      the exclusion. */
  lemma GetQuestionAlwaysServes(w0: World, actions: seq<Action>, i: nat)
    requires StartState(w0) && Runs(w0, actions) && i < |After(w0, actions).log|
    requires After(w0, actions).log[i].request.Get? && After(w0, actions).log[i].response.Served?
    ensures ServedSound(After(w0, actions).db, After(w0, actions).log[i]) && HasSource(w0, actions, i)
  {
    StartHasInv(w0);
    RunKeepsInv(w0, actions);
    hide Runs, After, StartState, WellFormed, Graded, Counted, DefaultQuestions, FourInOrder;
    if After(w0, actions).log[i].request.get.RowRead? {
      var rid, n, m := ServedHasSource(w0, actions, i);
    }
  }

  // ---------------------------------------------------------------- content

  /** What a reader of a question sees, with its author and its key. */
  datatype Content = Content(
    author: string,
    prompt: string,
    explanation: Option<string>,
    choices: map<Uuid, ChoiceRow>,
    key: Uuid)

  function ContentOf(db: Tables, q: Uuid): Content
    requires q in db.questions && q in db.answerKeys
  {
    var row := db.questions[q];
    Content(row.author, row.prompt, row.explanation, map c | c in ChoicesOf(db, q) :: db.choices[c], db.answerKeys[q])
  }

  function DraftContent(author: string, draft: Draft, q: Uuid, ids: seq<Uuid>): Content
    requires Complete(draft) && |ids| == 4
  {
    Content(author, draft.prompt, NullIfEmpty(draft.explanation), NewChoices(q, ids, draft.choices, 4),
        ids[draft.correctOrdinal])
  }

  lemma WriteKeepsOtherContent(db: Tables, e: Effect, q: Uuid)
    requires SoundChoices(db.choices, db.questions.Keys) && Legal(db, e) && Writes(e)
    requires q in db.questions && q in db.answerKeys && q != e.question
    ensures var db' := Apply(db, e); q in db'.questions && q in db'.answerKeys && ContentOf(db', q) == ContentOf(db, q)
  {
    WrittenChoices(db, e, q);
    WriteRewrites(db, e);
    hide Legal, SoundChoices;
    assert ChoicesOf(Apply(db, e), q) == ChoicesOf(db, q);
  }

  lemma EffectKeepsContent(db: Tables, e: Effect, q: Uuid)
    requires SoundChoices(db.choices, db.questions.Keys) && Legal(db, e)
    requires q in db.questions && q in db.answerKeys && !(e.ReplaceQuestion? && e.question == q)
    ensures var db' := Apply(db, e); q in db'.questions && q in db'.answerKeys && ContentOf(db', q) == ContentOf(db, q)
  {
    if Writes(e) {
      hide SoundChoices, ContentOf;
      WriteKeepsOtherContent(db, e, q);
    }
  }

  lemma RewrittenRows(before: map<Uuid, ChoiceRow>, after: map<Uuid, ChoiceRow>, q: Uuid, ids: seq<Uuid>,
      labels: seq<string>)
    requires |ids| == |labels| == 4 && Distinct(ids) && Rewrites(before, after, q, ids, labels)
    requires ChoicesIn(after, q) == set c | c in ids
    ensures (map c | c in ChoicesIn(after, q) :: after[c]) == NewChoices(q, ids, labels, 4)
  {
    NewChoicesRows(q, ids, labels, 4);
    assert ids[..4] == ids;
    var rows := NewChoices(q, ids, labels, 4);
    forall c ensures c in rows <==> c in ids {}
    forall c | c in rows ensures after[c] == rows[c] {
      var i :| 0 <= i < 4 && ids[i] == c;
    }
  }

  lemma ReplacementContent(db: Tables, e: Effect)
    requires SoundChoices(db.choices, db.questions.Keys) && Legal(db, e) && e.ReplaceQuestion?
    ensures e.question in Apply(db, e).questions && e.question in Apply(db, e).answerKeys
    ensures ContentOf(Apply(db, e), e.question) == DraftContent(db.questions[e.question].author, e.draft, e.question,
            e.ids)
  {
    WrittenChoices(db, e, e.question);
    WriteRewrites(db, e);
    hide SoundChoices, Rewrites, NewChoices;
    RewrittenRows(db.choices, Apply(db, e).choices, e.question, e.ids, e.draft.choices);
  }

  /** The only kind of action that can change a question: the commit of an UpdateQuestion by its
      author, with a valid draft, on a live question that nobody has attempted. */
  ghost predicate OwnUpdate(w: World, a: Action, q: Uuid) {
    && a.Advance? && a.rid in w.requests
    && w.requests[a.rid].Update? && w.requests[a.rid].update.UpdateReady?
    && PgCast(w.requests[a.rid].question) == Some(q)
    && Live(w.db, q) && w.db.questions[q].author == w.requests[a.rid].user
    && ValidDraft(w.requests[a.rid].draft)
    && !Attempted(w.db, q)
  }

  lemma ReplaceComesFromUpdate(db: Tables, r: Request, env: Env)
    requires (r.Create? || r.Update?) ==> |env.ids| == |r.draft.choices|
    requires StepOf(db, r, env).effect.ReplaceQuestion?
    ensures r.Update? && r.update.UpdateReady?
    ensures StepOf(db, r, env).effect == UpdateOutcome(db, r.user, r.question, r.draft, env.ids, env.now).effect
  {
  }

  lemma ReplacesOnlyByUpdate(w: World, rid: nat, env: Env)
    requires rid in w.requests && Fits(w, w.requests[rid], env) && Tracked(w.db, w.requests[rid])
    requires StepOf(w.db, w.requests[rid], env).effect.ReplaceQuestion?
    ensures var e := StepOf(w.db, w.requests[rid], env).effect;
            OwnUpdate(w, Advance(rid, env), e.question) && e.draft == w.requests[rid].draft && e.ids == env.ids
  {
    ReplaceComesFromUpdate(w.db, w.requests[rid], env);
    hide StepOf, Fits;
  }

  ghost predicate RevisedTo(w: World, a: Action, q: Uuid, content: Content)
    requires OwnUpdate(w, a, q)
  {
    var r := w.requests[a.rid];
    Complete(r.draft) && |a.env.ids| == 4 && content == DraftContent(r.user, r.draft, q, a.env.ids)
  }

  /** `q` is still there with its author, and its content is as it was, unless `a` is an update
      by its author: then it is exactly that update's draft. */
  ghost predicate KeptOrRevised(w: World, a: Action, q: Uuid, db': Tables)
    requires q in w.db.questions && q in w.db.answerKeys
  {
    && q in db'.questions && q in db'.answerKeys
    && ContentOf(db', q).author == ContentOf(w.db, q).author
    && (ContentOf(db', q) != ContentOf(w.db, q) ==> OwnUpdate(w, a, q) && RevisedTo(w, a, q, ContentOf(db', q)))
  }

  lemma AdvanceContent(w: World, rid: nat, env: Env, q: Uuid)
    requires Inv(w) && Enabled(w, Advance(rid, env)) && q in w.db.questions && q in w.db.answerKeys
    ensures KeptOrRevised(w, Advance(rid, env), q, Next(w, Advance(rid, env)).db)
  {
    StepIsLegal(w, w.requests[rid], env);
    var e := StepOf(w.db, w.requests[rid], env).effect;
    assert Tracked(w.db, w.requests[rid]) && SoundChoices(w.db.choices, w.db.questions.Keys);
    if e.ReplaceQuestion? && e.question == q {
      ReplacesOnlyByUpdate(w, rid, env);
      hide StepOf, Fits, Tracked, WellFormed, SoundChoices, Graded, Counted, ContentOf, DraftContent;
      ReplacementContent(w.db, e);
    } else {
      hide StepOf, Fits, Tracked, WellFormed, SoundChoices, Graded, Counted, Legal, ContentOf, DraftContent;
      EffectKeepsContent(w.db, e, q);
    }
  }

  lemma DeleteContent(w: World, p: Uuid, now: int, q: Uuid)
    requires SoundChoices(w.db.choices, w.db.questions.Keys) && Enabled(w, Delete(p, now)) && q in w.db.questions
             && q in w.db.answerKeys
    ensures KeptOrRevised(w, Delete(p, now), q, Next(w, Delete(p, now)).db)
  {
    hide ContentOf, SoundChoices;
    EffectKeepsContent(w.db, SoftDelete(p, now), q);
  }

  /** One step changes a question's content only through an update by its author. */
  lemma StepContent(w: World, a: Action, q: Uuid)
    requires Inv(w) && Enabled(w, a) && q in w.db.questions && q in w.db.answerKeys
    ensures KeptOrRevised(w, a, q, Next(w, a).db)
  {
    hide Tracked, Graded, Counted, ServedSound, SoundChoices, OrdinalsUnique, SoundKeys, SoundAttempts, FourAndKey,
        Fits;
    match a
    case Start(_, _) =>
    case Delete(p, now) =>
      hide KeptOrRevised;
      DeleteContent(w, p, now, q);
    case Advance(rid, env) =>
      hide KeptOrRevised, Inv, Enabled, Next;
      AdvanceContent(w, rid, env, q);
  }

  // ---------------------------------------------------------------- runs cut in two

  /** A prefix of the rest of a run, with the first action before it, is a prefix of the run. */
  lemma PrefixAfterFirst(w: World, actions: seq<Action>, n: nat)
    requires actions != [] && n <= |actions[1..]| && Enabled(w, actions[0])
             && Runs(Next(w, actions[0]), actions[1..][..n])
    ensures Runs(w, actions[..n + 1]) && After(w, actions[..n + 1]) == After(Next(w, actions[0]), actions[1..][..n])
  {
    hide Enabled, Next;
    assert actions[..n + 1][0] == actions[0] && actions[..n + 1][1..] == actions[1..][..n];
  }

  ghost predicate UpdatedOnTheWay(w: World, actions: seq<Action>, q: Uuid) {
    exists n :: 0 <= n < |actions| && Runs(w, actions[..n]) && OwnUpdate(After(w, actions[..n]), actions[n], q)
  }

  lemma UpdatedLater(w: World, actions: seq<Action>, q: Uuid)
    requires actions != [] && Enabled(w, actions[0]) && UpdatedOnTheWay(Next(w, actions[0]), actions[1..], q)
    ensures UpdatedOnTheWay(w, actions, q)
  {
    hide Enabled, Next, OwnUpdate;
    var w1, rest := Next(w, actions[0]), actions[1..];
    var n :| 0 <= n < |rest| && Runs(w1, rest[..n]) && OwnUpdate(After(w1, rest[..n]), rest[n], q);
    PrefixAfterFirst(w, actions, n);
    assert OwnUpdate(After(w, actions[..n + 1]), actions[n + 1], q);
  }

  lemma UpdatedFirst(w: World, actions: seq<Action>, q: Uuid)
    requires actions != [] && OwnUpdate(w, actions[0], q)
    ensures UpdatedOnTheWay(w, actions, q)
  {
    hide OwnUpdate;
    assert Runs(w, actions[..0]) && After(w, actions[..0]) == w;
  }

  /** Over a whole run a question keeps its author, and if its content at the end differs from
      its content at the start, then its author committed an update of it on the way, while it
      was live and unattempted, even if a deletion came between the ownership check and the write. */
  lemma {:induction false} ContentChangesByAuthorOnly(w: World, actions: seq<Action>, q: Uuid)
    requires Inv(w) && Runs(w, actions) && q in w.db.questions && q in w.db.answerKeys
    ensures var w' := After(w, actions);
            && q in w'.db.questions && q in w'.db.answerKeys
            && ContentOf(w'.db, q).author == ContentOf(w.db, q).author
            && (ContentOf(w'.db, q) != ContentOf(w.db, q) ==> UpdatedOnTheWay(w, actions, q))
    decreases |actions|
  {
    if actions != [] {
      var w1 := Next(w, actions[0]);
      StepContent(w, actions[0], q);
      NextKeepsInv(w, actions[0]);
      hide Inv, Next, Enabled, ContentOf, OwnUpdate, UpdatedOnTheWay;
      ContentChangesByAuthorOnly(w1, actions[1..], q);
      if ContentOf(w1.db, q) != ContentOf(w.db, q) {
        UpdatedFirst(w, actions, q);
      } else if ContentOf(After(w, actions).db, q) != ContentOf(w.db, q) {
        UpdatedLater(w, actions, q);
      }
    }
  }

  // ---------------------------------------------------------------- history

  lemma EffectKeepsAttempt(db: Tables, e: Effect, attempt: Uuid)
    requires Legal(db, e) && attempt in db.attempts
    ensures attempt in Apply(db, e).attempts && Apply(db, e).attempts[attempt] == db.attempts[attempt]
  {
  }

  lemma StepKeepsAttempt(w: World, a: Action, attempt: Uuid)
    requires Enabled(w, a) && attempt in w.db.attempts
    ensures attempt in Next(w, a).db.attempts && Next(w, a).db.attempts[attempt] == w.db.attempts[attempt]
  {
    match a
    case Start(_, _) =>
    case Delete(q, now) => EffectKeepsAttempt(w.db, SoftDelete(q, now), attempt);
    case Advance(rid, env) =>
      StepIsLegal(w, w.requests[rid], env);
      hide StepOf, Fits, Legal;
      EffectKeepsAttempt(w.db, StepOf(w.db, w.requests[rid], env).effect, attempt);
  }

  /** Once attempted, a question is the one that was attempted: in every later state the attempt
      is there as stored, and the question's author, prompt, explanation, choices and key are as
      they were. */
  lemma {:induction false} AttemptFreezesQuestion(w: World, actions: seq<Action>, attempt: Uuid)
    requires Inv(w) && Runs(w, actions) && attempt in w.db.attempts
    requires var q := w.db.attempts[attempt].question; q in w.db.questions && q in w.db.answerKeys
    ensures var w' := After(w, actions); var q := w.db.attempts[attempt].question;
            && attempt in w'.db.attempts && w'.db.attempts[attempt] == w.db.attempts[attempt]
            && q in w'.db.questions && q in w'.db.answerKeys && ContentOf(w'.db, q) == ContentOf(w.db, q)
    decreases |actions|
  {
    if actions != [] {
      var q := w.db.attempts[attempt].question;
      StepKeepsAttempt(w, actions[0], attempt);
      StepContent(w, actions[0], q);
      assert Attempted(w.db, q);
      NextKeepsInv(w, actions[0]);
      hide Inv, Next, Enabled, ContentOf, Attempted;
      AttemptFreezesQuestion(Next(w, actions[0]), actions[1..], attempt);
    }
  }

  /** The step leaves all five tables as they are, and if it is the request's last one it answers
      with an error. */
  ghost predicate ChangesNothing(w: World, rid: nat, env: Env) {
    && Enabled(w, Advance(rid, env)) && Next(w, Advance(rid, env)).db == w.db
    && var o := StepOf(w.db, w.requests[rid], env);
       o.Finish? ==> o.response.Written? && o.response.detail.Err?
  }

  /** The transaction alone, whoever sends it: Internal for the author of a live question,
      NotFound otherwise. */
  lemma UpdateOfAttemptedFails(db: Tables, user: string, question: IdText, draft: Draft, ids: seq<Uuid>, now: int)
    requires |ids| == |draft.choices| && PgCast(question).Some? && Attempted(db, PgCast(question).value)
    ensures var w := UpdateOutcome(db, user, question, draft, ids, now); w.result.Err? && Apply(db, w.effect) == db
    ensures var q := PgCast(question).value;
            UpdateOutcome(db, user, question, draft, ids, now).result
              == if Live(db, q) && db.questions[q].author == user then Err(Internal) else Err(NotFound)
  {
  }

  lemma UpdateOfAttemptedEffect(db: Tables, r: Request, env: Env)
    requires r.Update? && |env.ids| == |r.draft.choices| && AuthorsExist(db)
    requires !r.update.UpdateStart? ==> OwnedBy(db, r.question, r.user)
    requires PgCast(r.question).Some? && Attempted(db, PgCast(r.question).value)
    ensures var o := UpdateStep(db, r, env);
            Apply(db, o.effect) == db && (o.Finish? ==> o.response.Written? && o.response.detail.Err?)
  {
    if r.update.UpdateReady? {
      UpdateOfAttemptedFails(db, r.user, r.question, r.draft, env.ids, env.now);
    } else if r.update.Owned? {
      assert db.users + {r.user} == db.users;
    }
    hide Attempted, UpdateOutcome;
  }

  /** Whatever the spelling of the id and the draft, a step of an update of an attempted question
      changes none of the five tables, and if it is the last one the answer is an error. */
  lemma UpdateOfAttemptedStep(w: World, rid: nat, env: Env)
    requires Inv(w) && Enabled(w, Advance(rid, env)) && w.requests[rid].Update?
    requires PgCast(w.requests[rid].question).Some? && Attempted(w.db, PgCast(w.requests[rid].question).value)
    ensures ChangesNothing(w, rid, env)
  {
    var r := w.requests[rid];
    assert Tracked(w.db, r) && AuthorsExist(w.db);
    UpdateOfAttemptedEffect(w.db, r, env);
  }

  lemma {:induction false} AttemptStays(w: World, actions: seq<Action>, k: nat, m: nat, attempt: Uuid)
    requires Runs(w, actions) && k <= m <= |actions| && attempt in At(w, actions, k).db.attempts
    ensures attempt in At(w, actions, m).db.attempts
    ensures At(w, actions, m).db.attempts[attempt] == At(w, actions, k).db.attempts[attempt]
    decreases m
  {
    hide Enabled, Next, At, Runs;
    if k < m {
      AttemptStays(w, actions, k, m - 1, attempt);
      StepAt(w, actions, m - 1);
      StepKeepsAttempt(At(w, actions, m - 1), actions[m - 1], attempt);
    }
  }

  predicate UpdateOf(r: Request, q: Uuid) {
    r.Update? && PgCast(r.question) == Some(q)
  }

  /** Once a run holds an attempt on a question, no later step of any update of it, begun before or
      after, in whatever spelling and with whatever draft, changes any of the five tables. */
  lemma LaterUpdatesChangeNothing(w0: World, actions: seq<Action>, k: nat, attempt: Uuid, m: nat)
    requires StartState(w0) && Runs(w0, actions) && k <= m < |actions|
    requires attempt in At(w0, actions, k).db.attempts
    requires actions[m].Advance? && actions[m].rid in At(w0, actions, m).requests
    requires UpdateOf(At(w0, actions, m).requests[actions[m].rid], At(w0, actions, k).db.attempts[attempt].question)
    ensures ChangesNothing(At(w0, actions, m), actions[m].rid, actions[m].env)
    ensures At(w0, actions, m + 1).db == At(w0, actions, m).db
  {
    AttemptStays(w0, actions, k, m, attempt);
    StepAt(w0, actions, m);
    InvAt(w0, actions, m);
    var w, q := At(w0, actions, m), At(w0, actions, k).db.attempts[attempt].question;
    assert Attempted(w.db, q) by { assert w.db.attempts[attempt].question == q; }
    hide At, Inv, Next, Runs, StepOf, Attempted;
    UpdateOfAttemptedStep(w, actions[m].rid, actions[m].env);
    assert actions[m] == Advance(actions[m].rid, actions[m].env);
  }

  /** The action that wrote an entry left it in the log. */
  lemma EntryIsIn(w: World, actions: seq<Action>, i: nat, rid: nat, m: nat)
    requires Runs(w, actions) && FinishedAt(w, actions, i, rid, m)
    ensures i < |At(w, actions, m + 1).log|
  {
    StepAt(w, actions, m);
    hide At, Runs, StepOf, Fits;
  }

  /** And every such update that finishes later is answered with an error. */
  lemma LaterUpdatesFail(w0: World, actions: seq<Action>, k: nat, attempt: Uuid, i: nat)
    requires StartState(w0) && Runs(w0, actions) && k <= |actions|
    requires attempt in At(w0, actions, k).db.attempts
    requires |At(w0, actions, k).log| <= i < |After(w0, actions).log|
    requires UpdateOf(After(w0, actions).log[i].request, At(w0, actions, k).db.attempts[attempt].question)
    ensures var response := After(w0, actions).log[i].response; response.Written? && response.detail.Err?
  {
    StartIsIdle(w0);
    hide At, Inv, Next, Runs, StepOf, Attempted, StartState;
    var rid, m := EntryWasFinished(w0, actions, i);
    if m < k {
      StepAt(w0, actions, m);
      LogIsKept(w0, actions, m + 1, k);
      EntryIsIn(w0, actions, i, rid, m);
      assert false;
    }
    LaterUpdatesChangeNothing(w0, actions, k, attempt, m);
  }

  // ---------------------------------------------------------------- from a start state

  /** The same two guarantees between any two states of any run from a start state. */
  lemma HistoryIsPreserved(w0: World, before: seq<Action>, later: seq<Action>, attempt: Uuid)
    requires StartState(w0) && Runs(w0, before) && Runs(After(w0, before), later)
    requires attempt in After(w0, before).db.attempts
    ensures var w := After(w0, before); var w' := After(w, later); var q := w.db.attempts[attempt].question;
            && attempt in w'.db.attempts && w'.db.attempts[attempt] == w.db.attempts[attempt]
            && q in w.db.questions && q in w.db.answerKeys && q in w'.db.questions && q in w'.db.answerKeys
            && ContentOf(w'.db, q) == ContentOf(w.db, q)
  {
    StartHasInv(w0);
    RunKeepsInv(w0, before);
    var w := After(w0, before);
    hide Runs, After, ContentOf;
    assert SoundAttempt(w.db, w.db.attempts[attempt]);
    AttemptFreezesQuestion(w, later, attempt);
  }

  lemma ContentIsTheAuthors(w0: World, before: seq<Action>, later: seq<Action>, q: Uuid)
    requires StartState(w0) && Runs(w0, before) && Runs(After(w0, before), later)
    requires q in After(w0, before).db.questions
    ensures var w := After(w0, before); var w' := After(w, later);
            && q in w.db.answerKeys && q in w'.db.questions && q in w'.db.answerKeys
            && ContentOf(w'.db, q).author == ContentOf(w.db, q).author
            && (ContentOf(w'.db, q) != ContentOf(w.db, q) ==> UpdatedOnTheWay(w, later, q))
  {
    StartHasInv(w0);
    RunKeepsInv(w0, before);
    hide Runs, After, ContentOf, UpdatedOnTheWay;
    ContentChangesByAuthorOnly(After(w0, before), later, q);
  }
}
