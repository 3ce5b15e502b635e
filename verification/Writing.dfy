/** What CreateQuestion and UpdateQuestion answer and commit, in every run, read off the rows. */
module Writing {
  import opened Domain
  import opened Schema
  import opened Repository
  import opened Requests
  import opened Invariants
  import opened Timeline
  import opened Quiz
  import opened Usecases

  /** The text column of an explanation. */
  function ExplanationColumn(explanation: string): Option<string> {
    if |explanation| > 0 then Some(explanation) else None
  }

  /** The question row, its four choices in the draft's order and its key are in; nothing else of
      the tables has changed. */
  ghost predicate Committed(db: Tables, db': Tables, q: Uuid, row: QuestionRow, draft: Draft, ids: seq<Uuid>) {
    && |ids| == |draft.choices| == 4 && 0 <= draft.correctOrdinal <= 3
    && db'.users == db.users && db'.attempts == db.attempts && db'.questions == db.questions[q := row]
    && (forall i | 0 <= i < 4 :: ids[i] !in db.choices) && Rewrites(db.choices, db'.choices, q, ids, draft.choices)
    && db'.answerKeys == db.answerKeys[q := ids[draft.correctOrdinal]]
  }

  /** The answer shows what was committed. */
  predicate ShowsWritten(r: Result<Detail>, id: IdText, draft: Draft, ids: seq<Uuid>, now: int) {
    && |ids| == |draft.choices| == 4 && 0 <= draft.correctOrdinal <= 3
    && r == Ok(Detail(id, draft.prompt, [
                 Choice(Canonical(ids[0]), draft.choices[0], 0), Choice(Canonical(ids[1]), draft.choices[1], 1),
                 Choice(Canonical(ids[2]), draft.choices[2], 2), Choice(Canonical(ids[3]), draft.choices[3], 3)],
                 Canonical(ids[draft.correctOrdinal]), draft.explanation, now))
  }

  ghost predicate HasFault(draft: Draft) {
    exists f :: Faulty(draft, f)
  }

  // ---------------------------------------------------------------- create

  /** Refused for want of a user or for a faulty field, and for nothing else. */
  ghost predicate CreateAnswer(user: string, draft: Draft, r: Result<Detail>) {
    && (r == Err(Unauthenticated) <==> user == "")
    && (r == Err(InvalidArgument) <==> user != "" && HasFault(draft))
    && (r.Ok? <==> user != "" && !HasFault(draft))
  }

  /** A new row of this author, with both timestamps at `now`. */
  function CreatedRow(user: string, draft: Draft, now: int): QuestionRow {
    QuestionRow(user, draft.prompt, ExplanationColumn(draft.explanation), now, now, None)
  }

  ghost predicate CreateCommits(db: Tables, db': Tables, user: string, draft: Draft, env: Env, r: Result<Detail>) {
    if r.Ok? then
      && env.id !in db.questions && Committed(db, db', env.id, CreatedRow(user, draft, env.now), draft, env.ids)
      && ShowsWritten(r, Canonical(env.id), draft, env.ids, env.now)
    else db' == db
  }

  lemma CreatedIsCommitted(db: Tables, author: string, draft: Draft, q: Uuid, ids: seq<Uuid>, now: int)
    requires SoundChoices(db.choices, db.questions.Keys)
    requires Legal(db, AddQuestion(q, ids, author, draft, now))
    ensures Committed(db, Apply(db, AddQuestion(q, ids, author, draft, now)), q, CreatedRow(author, draft, now), draft,
                      ids)
  {
    WriteRewrites(db, AddQuestion(q, ids, author, draft, now));
    hide SoundChoices, NewChoices, Rewrites;
  }

  lemma DraftIsShown(id: IdText, draft: Draft, ids: seq<Uuid>, now: int)
    requires Complete(draft) && |ids| == 4
    ensures ShowsWritten(Ok(DetailOf(id, ids, draft, now)), id, draft, ids, now)
  {
    var cs := DraftChoices(ids, draft, 4);
    assert cs == [cs[0], cs[1], cs[2], cs[3]];
  }

  lemma FirstCreateStep(db: Tables, r: Request, env: Env)
    requires r.Create? && !r.ready && |env.ids| == |r.draft.choices|
    ensures var o := StepOf(db, r, env);
            if r.user == "" || HasFault(r.draft) then
              o == Finish(Nothing, Written(Err(if r.user == "" then Unauthenticated else InvalidArgument)))
            else o == Continue(AddUser(r.user), r.(ready := true))
  {
    ValidMeansFaultless(r.draft);
    hide ValidDraft, Faulty;
  }

  lemma ReadyCreateFinishes(w: World, r: Request, env: Env)
    requires r.Create? && r.ready && r.user != "" && r.user in w.db.users && ValidDraft(r.draft) && Fits(w, r, env)
    requires SoundChoices(w.db.choices, w.db.questions.Keys) && Legal(w.db, StepOf(w.db, r, env).effect)
    ensures var o := StepOf(w.db, r, env);
            && o.Finish? && o.response.Written? && o.response.detail.Ok?
            && CreateCommits(w.db, Apply(w.db, o.effect), r.user, r.draft, env, o.response.detail)
  {
    assert StepOf(w.db, r, env).effect == AddQuestion(env.id, env.ids, r.user, r.draft, env.now);
    assert env.id !in w.db.questions by { assert Fresh(w, env.id); }
    hide SoundChoices, Fits;
    CreatedIsCommitted(w.db, r.user, r.draft, env.id, env.ids, env.now);
    hide Legal, Committed, ShowsWritten, Apply;
    DraftIsShown(Canonical(env.id), r.draft, env.ids, env.now);
  }

  lemma ReadyIsAccepted(user: string, draft: Draft, r: Result<Detail>)
    requires user != "" && ValidDraft(draft) && r.Ok?
    ensures CreateAnswer(user, draft, r)
  {
    ValidMeansFaultless(draft);
    hide ValidDraft, Faulty;
  }

  lemma RefusedCreate(db: Tables, user: string, draft: Draft, env: Env)
    requires user == "" || HasFault(draft)
    ensures var r: Result<Detail> := Err(if user == "" then Unauthenticated else InvalidArgument);
            CreateAnswer(user, draft, r) && CreateCommits(db, Apply(db, Nothing), user, draft, env, r)
  {
    hide HasFault;
  }

  lemma CreateIsReady(w: World, rid: nat)
    requires Inv(w) && rid in w.requests && w.requests[rid].Create?
    ensures var r := w.requests[rid]; r.ready ==> r.user != "" && r.user in w.db.users && ValidDraft(r.draft)
    ensures SoundChoices(w.db.choices, w.db.questions.Keys)
  {
    assert Tracked(w.db, w.requests[rid]);
  }

  lemma FitsCounts(w: World, r: Request, env: Env)
    requires Fits(w, r, env) && (r.Create? || r.Update?)
    ensures |env.ids| == |r.draft.choices|
  {
  }

  /** What the last step of a create answers and commits. */
  lemma CreateFinishes(w: World, rid: nat, env: Env)
    requires Inv(w) && Enabled(w, Advance(rid, env)) && w.requests[rid].Create?
    requires StepOf(w.db, w.requests[rid], env).Finish?
    ensures var r, o := w.requests[rid], StepOf(w.db, w.requests[rid], env);
            && o.response.Written? && CreateAnswer(r.user, r.draft, o.response.detail)
            && CreateCommits(w.db, Apply(w.db, o.effect), r.user, r.draft, env, o.response.detail)
  {
    var r := w.requests[rid];
    hide Inv, SoundChoices, Legal, Fits, ValidDraft, Faulty, StepOf, CreateCommits, CreateAnswer, HasFault, Apply;
    CreateIsReady(w, rid);
    if r.ready {
      StepIsLegal(w, r, env);
      ReadyCreateFinishes(w, r, env);
      ReadyIsAccepted(r.user, r.draft, StepOf(w.db, r, env).response.detail);
    } else {
      FitsCounts(w, r, env);
      FirstCreateStep(w.db, r, env);
      RefusedCreate(w.db, r.user, r.draft, env);
    }
  }

  /** Every finished CreateQuestion of every run was refused exactly for an empty user or a faulty
      draft, and otherwise stored one new question of its author with the draft's texts, and
      answered with it. */
  lemma CreatesAreAnswered(w0: World, actions: seq<Action>, i: nat) returns (rid: nat, m: nat)
    requires StartState(w0) && Runs(w0, actions) && i < |After(w0, actions).log|
    requires After(w0, actions).log[i].request.Create?
    ensures FinishedAt(w0, actions, i, rid, m)
    ensures var e := After(w0, actions).log[i]; var r := e.request;
            && e.response.Written? && CreateAnswer(r.user, r.draft, e.response.detail)
            && CreateCommits(At(w0, actions, m).db, At(w0, actions, m + 1).db, r.user, r.draft, actions[m].env,
                             e.response.detail)
  {
    StartIsIdle(w0);
    rid, m := EntryWasFinished(w0, actions, i);
    InvAt(w0, actions, m);
    StepAt(w0, actions, m);
    hide At, Runs, StartState, Inv, StepOf, Fits, CreateAnswer, CreateCommits;
    assert actions[m] == Advance(rid, actions[m].env);
    CreateFinishes(At(w0, actions, m), rid, actions[m].env);
  }

  lemma SoundOf(db: Tables)
    requires WellFormed(db)
    ensures SoundChoices(db.choices, db.questions.Keys)
  {
  }

  lemma ReadyAlone(db: Tables, r: Request, envs: seq<Env>)
    requires WellFormed(db) && |envs| == 2 && AloneFits(db, r, envs) && r.Create? && !r.ready
    requires r.user != "" && ValidDraft(r.draft)
    requires StepOf(db, r, envs[0]) == Continue(AddUser(r.user), r.(ready := true))
    ensures var o := Alone(db, r, envs);
            && o.Some? && o.value.1.Written? && o.value.1.detail.Ok?
            && CreateCommits(db.(users := db.users + {r.user}), o.value.0, r.user, r.draft, envs[1], o.value.1.detail)
  {
    var db1, r1 := Apply(db, AddUser(r.user)), r.(ready := true);
    hide Fits, StepOf, ValidDraft, WellFormed, CreateCommits;
    assert AloneFits(db1, r1, envs[1..]) && envs[1..][0] == envs[1];
    StepIsLegal(Single(db1, r1), r1, envs[1]);
    assert SoundChoices(db1.choices, db1.questions.Keys) by { SoundOf(db); }
    ReadyCreateFinishes(Single(db1, r1), r1, envs[1]);
  }

  /** Run alone from any well-formed state, a create by a signed-in user with no faulty field ends
      in Ok with the user and the question stored; otherwise it is refused and nothing changes. */
  lemma CreateAlone(db: Tables, user: string, draft: Draft, envs: seq<Env>)
    requires WellFormed(db) && |envs| == 2 && AloneFits(db, Create(user, draft, false), envs)
    ensures var o := Alone(db, Create(user, draft, false), envs);
            && o.Some? && o.value.1.Written? && CreateAnswer(user, draft, o.value.1.detail)
            && CreateCommits(if o.value.1.detail.Ok? then db.(users := db.users + {user}) else db, o.value.0,
                             user, draft, envs[1], o.value.1.detail)
  {
    var r := Create(user, draft, false);
    hide Fits, StepOf, WellFormed, Committed, ShowsWritten, Faulty, ValidDraft;
    FitsCounts(Single(db, r), r, envs[0]);
    FirstCreateStep(db, r, envs[0]);
    ValidMeansFaultless(draft);
    if user != "" && !HasFault(draft) {
      ReadyAlone(db, r, envs);
    }
  }

  // ---------------------------------------------------------------- update

  predicate StoredLive(db: Tables, q: Uuid) {
    q in db.questions && db.questions[q].deletedAt == None
  }

  predicate StoredAttempt(db: Tables, q: Uuid) {
    exists a | a in db.attempts :: db.attempts[a].question == q
  }

  ghost predicate BadUpdate(question: IdText, draft: Draft) {
    !GoParses(question) || PgCast(question).None? || HasFault(draft)
  }

  predicate Owned(db: Tables, q: Uuid, user: string) {
    StoredLive(db, q) && db.questions[q].author == user
  }

  /** The answer to an update whose first step ran on `first` and whose last step ran on `last`. */
  ghost predicate UpdateAnswer(first: Tables, last: Tables, user: string, question: IdText, draft: Draft,
      r: Result<Detail>)
  {
    && (r == Err(Unauthenticated) <==> user == "")
    && (r == Err(InvalidArgument) <==> user != "" && BadUpdate(question, draft))
    && (user != "" && !BadUpdate(question, draft) ==>
          var q := PgCast(question).value;
          && (r == Err(PermissionDenied) <==> StoredLive(first, q) && first.questions[q].author != user)
          && (r == Err(NotFound) <==>
                !StoredLive(first, q) || (first.questions[q].author == user && !StoredLive(last, q)))
          && (r == Err(Internal) <==>
                Owned(first, q, user) && StoredLive(last, q) && StoredAttempt(last, q))
          && (r.Ok? <==>
                Owned(first, q, user) && StoredLive(last, q) && !StoredAttempt(last, q)))
  }

  /** The old row with the draft's texts and the time of the update. */
  function UpdatedRow(row: QuestionRow, draft: Draft, now: int): QuestionRow {
    QuestionRow(row.author, draft.prompt, ExplanationColumn(draft.explanation), row.createdAt, now, row.deletedAt)
  }

  ghost predicate UpdateCommits(db: Tables, db': Tables, question: IdText, draft: Draft, env: Env, r: Result<Detail>) {
    if r.Ok? then
      && PgCast(question).Some? && PgCast(question).value in db.questions
      && var q := PgCast(question).value;
         && Committed(db, db', q, UpdatedRow(db.questions[q], draft, env.now), draft, env.ids)
         && ShowsWritten(r, question, draft, env.ids, env.now)
    else db' == db
  }

  /** The first step refuses, or the question is stored, live and the user's. */
  lemma FirstUpdateStep(db: Tables, r: Request, env: Env)
    requires r.Update? && r.update.UpdateStart? && |env.ids| == |r.draft.choices|
    ensures var o := StepOf(db, r, env);
            if o.Finish? then
              && o.effect.Nothing? && o.response.Written? && o.response.detail.Err?
              && UpdateAnswer(db, db, r.user, r.question, r.draft, o.response.detail)
            else
              && o == Continue(Nothing, r.(update := UpdatePoint.Owned))
              && r.user != "" && !BadUpdate(r.question, r.draft) && Owned(db, PgCast(r.question).value, r.user)
  {
    ValidMeansFaultless(r.draft);
    hide ValidDraft, Faulty, StoredAttempt;
  }

  lemma UpdatedIsCommitted(db: Tables, q: Uuid, draft: Draft, ids: seq<Uuid>, now: int)
    requires SoundChoices(db.choices, db.questions.Keys) && Legal(db, ReplaceQuestion(q, ids, draft, now))
    ensures Committed(db, Apply(db, ReplaceQuestion(q, ids, draft, now)), q, UpdatedRow(db.questions[q], draft, now),
                      draft, ids)
  {
    WriteRewrites(db, ReplaceQuestion(q, ids, draft, now));
    hide SoundChoices, NewChoices, Rewrites, Attempted;
  }

  lemma CommitEffect(w: World, r: Request, env: Env)
    requires r.Update? && r.update.UpdateReady? && ValidDraft(r.draft) && OwnedBy(w.db, r.question, r.user)
    requires |env.ids| == |r.draft.choices|
    ensures var q := PgCast(r.question).value;
            StepOf(w.db, r, env) ==
              if !StoredLive(w.db, q) then Finish(Nothing, Written(Err(NotFound)))
              else if StoredAttempt(w.db, q) then Finish(Nothing, Written(Err(Internal)))
              else Finish(ReplaceQuestion(q, env.ids, r.draft, env.now),
                          Written(Ok(DetailOf(r.question, env.ids, r.draft, env.now))))
  {
    hide IsBlank;
  }

  lemma NothingChanges(db: Tables)
    ensures Apply(db, Nothing) == db
  {
  }

  lemma CommitFinishes(w: World, r: Request, env: Env)
    requires r.Update? && r.update.UpdateReady? && ValidDraft(r.draft) && OwnedBy(w.db, r.question, r.user)
    requires |env.ids| == |r.draft.choices| && SoundChoices(w.db.choices, w.db.questions.Keys)
    requires Legal(w.db, StepOf(w.db, r, env).effect)
    ensures var o := StepOf(w.db, r, env);
            o.Finish? && o.response.Written?
            && UpdateCommits(w.db, Apply(w.db, o.effect), r.question, r.draft, env, o.response.detail)
  {
    CommitEffect(w, r, env);
    hide StepOf, SoundChoices, Legal, Committed, ShowsWritten, Apply, StoredAttempt, DetailOf;
    var q := PgCast(r.question).value;
    if StoredLive(w.db, q) && !StoredAttempt(w.db, q) {
      UpdatedIsCommitted(w.db, q, r.draft, env.ids, env.now);
      assert Complete(r.draft);
      DraftIsShown(r.question, r.draft, env.ids, env.now);
    }
    NothingChanges(w.db);
  }

  lemma CommitAnswers(first: Tables, w: World, r: Request, env: Env)
    requires r.Update? && r.update.UpdateReady? && ValidDraft(r.draft) && OwnedBy(w.db, r.question, r.user)
    requires |env.ids| == |r.draft.choices|
    requires r.user != "" && !BadUpdate(r.question, r.draft) && Owned(first, PgCast(r.question).value, r.user)
    ensures var o := StepOf(w.db, r, env);
            o.Finish? && o.response.Written?
            && UpdateAnswer(first, w.db, r.user, r.question, r.draft, o.response.detail)
  {
    CommitEffect(w, r, env);
    hide StepOf, StoredAttempt, HasFault, ValidDraft;
  }

  // ---------------------------------------------------------------- where an update began

  predicate SameUpdate(r: Request, r': Request) {
    r.Update? && r'.Update? && r.user == r'.user && r.question == r'.question && r.draft == r'.draft
  }

  /** Action `f` is the first step of the update that request `rid` still is just before action
      `m`: it found the question stored, live and the user's, unless it is `m` itself. */
  ghost predicate BeganAt(w0: World, actions: seq<Action>, rid: nat, r: Request, f: nat, m: nat)
    requires Runs(w0, actions) && m <= |actions|
  {
    && r.Update? && f < |actions| && f <= m && actions[f].Advance? && actions[f].rid == rid
    && rid in At(w0, actions, f).requests
    && At(w0, actions, f).requests[rid] == Update(r.user, r.question, r.draft, UpdateStart)
    && forall j | f <= j <= m :: rid in At(w0, actions, j).requests && SameUpdate(r, At(w0, actions, j).requests[rid])
  }

  lemma UpdateLaterStep(db: Tables, r: Request, env: Env)
    requires (r.Create? || r.Update?) ==> |env.ids| == |r.draft.choices|
    requires StepOf(db, r, env).Continue? && StepOf(db, r, env).next.Update?
    ensures SameUpdate(StepOf(db, r, env).next, r)
  {
  }

  lemma UpdateOwnStep(w: World, r: Request, env: Env)
    requires Fits(w, r, env) && StepOf(w.db, r, env).Continue? && StepOf(w.db, r, env).next.Update?
    ensures SameUpdate(StepOf(w.db, r, env).next, r)
    ensures r.update.UpdateStart? ==>
              r.user != "" && !BadUpdate(r.question, r.draft) && Owned(w.db, PgCast(r.question).value, r.user)
  {
    if r.Update? && r.update.UpdateStart? {
      FitsCounts(w, r, env);
      FirstUpdateStep(w.db, r, env);
      hide StepOf, Fits, UpdateAnswer, BadUpdate;
    } else {
      UpdateLaterStep(w.db, r, env);
      hide StepOf, Fits;
    }
  }

  /** One step back from an update that is past its first step. */
  lemma UpdateStepBack(w: World, a: Action, rid: nat)
    requires Enabled(w, a) && rid in Next(w, a).requests
    requires var r := Next(w, a).requests[rid]; r.Update? && !r.update.UpdateStart?
    ensures rid in w.requests && SameUpdate(Next(w, a).requests[rid], w.requests[rid])
    ensures var r := Next(w, a).requests[rid];
            w.requests[rid].update.UpdateStart? ==>
              && a.Advance? && a.rid == rid && r.user != "" && !BadUpdate(r.question, r.draft)
              && Owned(w.db, PgCast(r.question).value, r.user)
  {
    if a.Advance? && a.rid == rid {
      UpdateOwnStep(w, w.requests[rid], a.env);
    }
    hide StepOf, Fits, HasFault, Owned;
  }

  lemma UpdateBefore(w0: World, actions: seq<Action>, rid: nat, r: Request, k: nat) returns (before: Request)
    requires Runs(w0, actions) && k < |actions| && rid in At(w0, actions, k + 1).requests
    requires At(w0, actions, k + 1).requests[rid] == r && r.Update? && !r.update.UpdateStart?
    ensures rid in At(w0, actions, k).requests && before == At(w0, actions, k).requests[rid] && SameUpdate(r, before)
    ensures before.update.UpdateStart? ==>
              && actions[k].Advance? && actions[k].rid == rid && r.user != "" && !BadUpdate(r.question, r.draft)
              && Owned(At(w0, actions, k).db, PgCast(r.question).value, r.user)
  {
    hide Enabled, Next, At, Runs, Owned, BadUpdate;
    StepAt(w0, actions, k);
    UpdateStepBack(At(w0, actions, k), actions[k], rid);
    before := At(w0, actions, k).requests[rid];
  }

  lemma BeganExtends(w0: World, actions: seq<Action>, rid: nat, before: Request, r: Request, f: nat, k: nat)
    requires Runs(w0, actions) && k < |actions| && BeganAt(w0, actions, rid, before, f, k) && SameUpdate(r, before)
    requires rid in At(w0, actions, k + 1).requests && At(w0, actions, k + 1).requests[rid] == r
    ensures BeganAt(w0, actions, rid, r, f, k + 1)
  {
    hide At, Runs;
  }

  lemma BeginsAt(w0: World, actions: seq<Action>, rid: nat, before: Request, k: nat)
    requires Runs(w0, actions) && k < |actions| && rid in At(w0, actions, k).requests
    requires before == At(w0, actions, k).requests[rid] && before.Update? && before.update.UpdateStart?
    requires actions[k].Advance? && actions[k].rid == rid
    ensures BeganAt(w0, actions, rid, before, k, k)
  {
    hide At, Runs;
  }

  lemma {:induction false} UpdateBegan(w0: World, actions: seq<Action>, rid: nat, r: Request, k: nat) returns (f: nat)
    requires w0.requests == map[] && Runs(w0, actions) && k <= |actions| && rid in At(w0, actions, k).requests
    requires At(w0, actions, k).requests[rid] == r && r.Update? && !r.update.UpdateStart?
    ensures f < k && BeganAt(w0, actions, rid, r, f, k)
    ensures r.user != "" && !BadUpdate(r.question, r.draft)
    ensures Owned(At(w0, actions, f).db, PgCast(r.question).value, r.user)
    decreases k
  {
    AtEnd(w0, actions);
    hide At, Runs, Owned, BadUpdate, BeganAt;
    assert k > 0;
    var before := UpdateBefore(w0, actions, rid, r, k - 1);
    if before.update.UpdateStart? {
      f := k - 1;
      BeginsAt(w0, actions, rid, before, f);
    } else {
      f := UpdateBegan(w0, actions, rid, before, k - 1);
    }
    BeganExtends(w0, actions, rid, before, r, f, k - 1);
  }

  lemma UpdateEndsAtOnce(w: World, rid: nat, env: Env)
    requires Enabled(w, Advance(rid, env)) && w.requests[rid].Update? && w.requests[rid].update.UpdateStart?
    requires StepOf(w.db, w.requests[rid], env).Finish?
    ensures var r, o := w.requests[rid], StepOf(w.db, w.requests[rid], env);
            && o.response.Written? && UpdateAnswer(w.db, w.db, r.user, r.question, r.draft, o.response.detail)
            && UpdateCommits(w.db, Apply(w.db, o.effect), r.question, r.draft, env, o.response.detail)
  {
    hide StepOf, Fits, UpdateAnswer, BadUpdate, Owned;
    FitsCounts(w, w.requests[rid], env);
    FirstUpdateStep(w.db, w.requests[rid], env);
  }

  lemma UpdateIsReady(w: World, rid: nat, env: Env)
    requires Inv(w) && Enabled(w, Advance(rid, env)) && w.requests[rid].Update? && !w.requests[rid].update.UpdateStart?
    requires StepOf(w.db, w.requests[rid], env).Finish?
    ensures var r := w.requests[rid]; r.update.UpdateReady? && ValidDraft(r.draft) && OwnedBy(w.db, r.question, r.user)
    ensures SoundChoices(w.db.choices, w.db.questions.Keys)
  {
    assert Tracked(w.db, w.requests[rid]);
    hide ValidDraft;
  }

  lemma UpdateEndsLater(first: Tables, w: World, rid: nat, env: Env)
    requires Inv(w) && Enabled(w, Advance(rid, env)) && w.requests[rid].Update? && !w.requests[rid].update.UpdateStart?
    requires StepOf(w.db, w.requests[rid], env).Finish?
    requires var r := w.requests[rid];
             r.user != "" && !BadUpdate(r.question, r.draft) && Owned(first, PgCast(r.question).value, r.user)
    ensures var r, o := w.requests[rid], StepOf(w.db, w.requests[rid], env);
            && o.response.Written? && UpdateAnswer(first, w.db, r.user, r.question, r.draft, o.response.detail)
            && UpdateCommits(w.db, Apply(w.db, o.effect), r.question, r.draft, env, o.response.detail)
  {
    var r := w.requests[rid];
    UpdateIsReady(w, rid, env);
    StepIsLegal(w, r, env);
    hide Inv, StepOf, Fits, UpdateAnswer, UpdateCommits, BadUpdate, Owned, ValidDraft, OwnedBy, SoundChoices, Legal;
    FitsCounts(w, r, env);
    CommitAnswers(first, w, r, env);
    CommitFinishes(w, r, env);
  }

  /** Every finished UpdateQuestion of every run: refused as PermissionDenied exactly if its first
      step found the question live and another's, as NotFound exactly if it found it absent or
      deleted or its last step found it deleted, as Internal exactly if its last step found it
      attempted, for its input exactly as the rows say, and otherwise committed, row for row; and
      a refused one changed nothing in its last step. */
  lemma UpdatesAreAnswered(w0: World, actions: seq<Action>, i: nat) returns (rid: nat, f: nat, m: nat)
    requires StartState(w0) && Runs(w0, actions) && i < |After(w0, actions).log|
    requires After(w0, actions).log[i].request.Update?
    ensures FinishedAt(w0, actions, i, rid, m) && BeganAt(w0, actions, rid, After(w0, actions).log[i].request, f, m)
    ensures var e := After(w0, actions).log[i]; var r := e.request;
            && e.response.Written?
            && UpdateAnswer(At(w0, actions, f).db, At(w0, actions, m).db, r.user, r.question, r.draft,
                            e.response.detail)
            && UpdateCommits(At(w0, actions, m).db, At(w0, actions, m + 1).db, r.question, r.draft, actions[m].env,
                             e.response.detail)
  {
    StartIsIdle(w0);
    hide StartState, Inv, At, Runs, StepOf, Fits, UpdateAnswer, UpdateCommits, Owned, BadUpdate;
    rid, m := EntryWasFinished(w0, actions, i);
    InvAt(w0, actions, m);
    StepAt(w0, actions, m);
    assert actions[m] == Advance(rid, actions[m].env);
    var r := After(w0, actions).log[i].request;
    if r.update.UpdateStart? {
      f := m;
      BeginsAt(w0, actions, rid, r, m);
      UpdateEndsAtOnce(At(w0, actions, m), rid, actions[m].env);
    } else {
      f := UpdateBegan(w0, actions, rid, r, m);
      UpdateEndsLater(At(w0, actions, f).db, At(w0, actions, m), rid, actions[m].env);
    }
  }
}
