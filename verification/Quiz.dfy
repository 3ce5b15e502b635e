/** The quiz use cases run without interference: what SubmitAnswer and GetQuestion answer in one
    database state, that each served question can be answered, and the methods themselves. */
module Quiz {
  import opened Domain
  import opened Schema
  import opened Repository
  import opened QuizSelection
  import opened Requests
  import opened Spelling

  /** A world with nothing in flight but `r`. */
  function Single(db: Tables, r: Request): World {
    World(db, map[0 := r], [], map[])
  }

  /** `envs` supply the steps of `r` one after the other. */
  ghost predicate AloneFits(db: Tables, r: Request, envs: seq<Env>)
    decreases |envs|
  {
    envs == [] ||
    (Fits(Single(db, r), r, envs[0]) &&
     var o := StepOf(db, r, envs[0]);
     (o.Continue? ==> AloneFits(Apply(db, o.effect), o.next, envs[1..])))
  }

  /** The request run to its end with no other step in between. */
  ghost function Alone(db: Tables, r: Request, envs: seq<Env>): Option<(Tables, Response)>
    requires AloneFits(db, r, envs)
    decreases |envs|
  {
    if envs == [] then None else
    match StepOf(db, r, envs[0])
    case Finish(effect, response) => Some((Apply(db, effect), response))
    case Continue(effect, next) => Alone(Apply(db, effect), next, envs[1..])
  }

  // ---------------------------------------------------------------- SubmitAnswer in one state

  /** What SubmitAnswer decides: the grade, the key it shows, and whether an attempt is stored. */
  datatype Verdict = Verdict(isCorrect: bool, correctChoice: IdText, stored: bool)

  ghost function VerdictOf(db: Tables, user: string, question: IdText, choice: IdText): Result<Verdict> {
    if !GoParses(question) || !GoParses(choice) || PgCast(question).None? then Err(InvalidArgument) else
    var q := PgCast(question).value;
    if q !in db.answerKeys then
      if question in DefaultKeys then Ok(Verdict(choice == DefaultKeys[question], DefaultKeys[question], false))
      else Err(NotFound)
    else if PgCast(choice).None? || !Belongs(db, PgCast(choice).value, q) then Err(InvalidArgument)
    else Ok(Verdict(choice == Canonical(db.answerKeys[q]), Canonical(db.answerKeys[q]), user != ""))
  }

  function VerdictIn(answer: Result<SubmitResult>): Result<Verdict> {
    match answer
    case Err(code) => Err(code)
    case Ok(res) => Ok(Verdict(res.isCorrect, res.correctChoice, !res.attempt.Blank?))
  }

  ghost predicate AnswersWith(o: Option<(Tables, Response)>, v: Result<Verdict>) {
    o.Some? && o.value.1.Answered? && VerdictIn(o.value.1.answer) == v
  }

  /** The insert itself: the user was just ensured and the choice was just checked, so it goes in. */
  lemma AloneInserts(db: Tables, r: Request, envs: seq<Env>)
    requires r.Submit? && r.submit.UserEnsured? && r.user != "" && r.user in db.users && |envs| == 1
             && AloneFits(db, r, envs)
    requires GoParses(r.question) && PgCast(r.question).Some? && PgCast(r.question).value in db.questions
    requires GoParses(r.choice) && PgCast(r.choice).Some?
             && Belongs(db, PgCast(r.choice).value, PgCast(r.question).value)
    ensures AnswersWith(Alone(db, r, envs), Ok(Verdict(r.choice == r.submit.correct, r.submit.correct, true)))
  {
    assert envs[0].id !in db.attempts;
  }

  lemma AloneEnsuresUser(db: Tables, r: Request, envs: seq<Env>)
    requires r.Submit? && r.submit.Checked? && r.user != "" && |envs| == 2 && AloneFits(db, r, envs)
    requires GoParses(r.question) && PgCast(r.question).Some? && PgCast(r.question).value in db.questions
    requires GoParses(r.choice) && PgCast(r.choice).Some?
             && Belongs(db, PgCast(r.choice).value, PgCast(r.question).value)
    ensures AnswersWith(Alone(db, r, envs), Ok(Verdict(r.choice == r.submit.correct, r.submit.correct, true)))
  {
    var r' := r.(submit := UserEnsured(r.submit.correct));
    var db' := Apply(db, AddUser(r.user));
    assert StepOf(db, r, envs[0]) == Continue(AddUser(r.user), r');
    hide AnswersWith, Fits, StepOf;
    AloneInserts(db', r', envs[1..]);
  }

  lemma AloneChecks(db: Tables, r: Request, envs: seq<Env>)
    requires r.Submit? && r.submit.KeyRead? && |envs| == 3 && AloneFits(db, r, envs)
    requires GoParses(r.question) && GoParses(r.choice) && PgCast(r.question).Some?
             && PgCast(r.question).value in db.questions
    ensures var ok := PgCast(r.choice).Some? && Belongs(db, PgCast(r.choice).value, PgCast(r.question).value);
            AnswersWith(Alone(db, r, envs),
              if ok then Ok(Verdict(r.choice == r.submit.correct, r.submit.correct, r.user != ""))
              else Err(InvalidArgument))
  {
    if StepOf(db, r, envs[0]).Continue? {
      var r' := r.(submit := Checked(r.submit.correct));
      assert StepOf(db, r, envs[0]) == Continue(Nothing, r');
      assert PgCast(r.choice).Some? && Belongs(db, PgCast(r.choice).value, PgCast(r.question).value) && r.user != "";
      hide AnswersWith, Fits, StepOf;
      AloneEnsuresUser(db, r', envs[1..]);
    }
  }

  /** SubmitAnswer in one state: refused, answered from the fallback keys, or graded against the
      stored key; and stored exactly for a signed-in user and a stored question. */
  lemma SubmitAloneVerdict(db: Tables, user: string, question: IdText, choice: IdText, envs: seq<Env>)
    requires SoundKeys(db) && |envs| == 4 && AloneFits(db, Submit(user, question, choice, SubmitStart), envs)
    ensures AnswersWith(Alone(db, Submit(user, question, choice, SubmitStart), envs),
            VerdictOf(db, user, question, choice))
  {
    var r := Submit(user, question, choice, SubmitStart);
    if StepOf(db, r, envs[0]).Continue? {
      var q := PgCast(question).value;
      var r' := r.(submit := KeyRead(Canonical(db.answerKeys[q])));
      assert StepOf(db, r, envs[0]) == Continue(Nothing, r');
      hide AnswersWith, Fits, StepOf;
      AloneChecks(db, r', envs[1..]);
    }
  }

  /** Grading by text is grading by id exactly when the choice is spelled canonically or is not
      the right one: any other spelling of the right choice is graded wrong. */
  lemma GradeIsTrueIffCanonical(db: Tables, user: string, question: IdText, choice: IdText)
    requires VerdictOf(db, user, question, choice).Ok? && PgCast(question).Some?
             && PgCast(question).value in db.answerKeys
    ensures var key := db.answerKeys[PgCast(question).value];
            && VerdictOf(db, user, question, choice).value.correctChoice == Canonical(key)
            && ((VerdictOf(db, user, question, choice).value.isCorrect <==> PgCast(choice) == Some(key)) <==>
                (choice.Canonical? || PgCast(choice) != Some(key)))
  {
  }

  /** Inputs that show it: whatever the question, its right choice without hyphens or in braces
      is accepted and graded wrong, while its canonical text is graded right. */
  lemma OtherSpellingIsGradedWrong(db: Tables, user: string, q: Uuid, text: string)
    requires q in db.answerKeys && Belongs(db, db.answerKeys[q], q)
    requires text == Compact(db.answerKeys[q]) || text == Braced(db.answerKeys[q])
    ensures var key := db.answerKeys[q];
            && VerdictOf(db, user, Canonical(q), Spell(key, text)) == Ok(Verdict(false, Canonical(key), user != ""))
            && VerdictOf(db, user, Canonical(q), Spell(key, CanonicalText(key)))
               == Ok(Verdict(true, Canonical(key), user != ""))
  {
    CompactIsNotCanonical(db.answerKeys[q]);
    hide Compact, Braced, CanonicalText;
  }

  /** In upper case it is graded wrong exactly if its id has a hexadecimal letter; the seeded
      ids are digits only (`SeededHasNoLetter`). */
  lemma UpperCaseIsGradedWrongIffLetter(db: Tables, user: string, q: Uuid)
    requires q in db.answerKeys && Belongs(db, db.answerKeys[q], q)
    ensures var key := db.answerKeys[q]; var text := CanonicalText(key);
            VerdictOf(db, user, Canonical(q), Spell(key, UpperCase(text)))
            == Ok(Verdict(!HasLetter(text), Canonical(key), user != ""))
  {
    UpperCaseDiffersIffLetter(db.answerKeys[q]);
    hide CanonicalText, HasLetter;
  }

  // ---------------------------------------------------------------- GetQuestion in one state

  ghost predicate OnlyLive(db: Tables, q: Uuid) {
    Live(db, q) && forall p :: Live(db, p) ==> p == q
  }

  /** `question` is `q` as it is stored, and it is live. */
  ghost predicate IsStored(db: Tables, q: Uuid, question: Question) {
    Live(db, q) && Shown(db, q, question)
  }

  /** What one run of GetQuestion can serve. */
  ghost predicate ServesStored(db: Tables, o: Option<(Tables, Response)>, q: Uuid) {
    && o.Some? && o.value.0 == db && o.value.1.Served? && o.value.1.served.Ok?
    && IsStored(db, q, o.value.1.served.value)
  }

  ghost predicate ServesDefault(db: Tables, o: Option<(Tables, Response)>, seed: nat, previous: IdText) {
    && o.Some? && o.value.0 == db && o.value.1.Served?
    && o.value.1.served == Ok(DefaultFor(seed, previous))
  }

  lemma AloneReads(db: Tables, r: Request, envs: seq<Env>)
    requires r.Get? && r.get.Picked? && Live(db, r.get.picked) && |envs| >= 2 && AloneFits(db, r, envs)
    ensures ServesStored(db, Alone(db, r, envs), r.get.picked)
  {
    var r' := r.(get := RowRead(r.get.picked, db.questions[r.get.picked], r.get.lifted));
    assert StepOf(db, r, envs[0]) == Continue(Nothing, r');
    assert AloneFits(db, r', envs[1..]);
  }

  lemma EmptyListing(db: Tables, authors: Authors, previous: IdText, rows: seq<Uuid>)
    requires IsListing(db, authors, previous, rows)
    ensures rows == [] <==> Candidates(db, authors, previous) == {}
    ensures rows != [] ==> forall seed: nat :: Pick(seed, rows) in Candidates(db, authors, previous)
  {
    if rows != [] { assert rows[0] in Candidates(db, authors, previous); }
  }

  ghost predicate ServesOneOf(db: Tables, o: Option<(Tables, Response)>, qs: set<Uuid>) {
    exists q :: q in qs && ServesStored(db, o, q)
  }

  /** A non-empty listing is picked from, and the picked question is read. */
  lemma AlonePicks(db: Tables, r: Request, envs: seq<Env>, authors: Authors, previous: IdText, next: Request)
    requires r.Get? && |envs| >= 3 && AloneFits(db, r, envs)
    requires IsListing(db, authors, previous, envs[0].rows) && envs[0].rows != []
    requires next.Get? && next.get.Picked? && next.get.picked == Pick(r.seed, envs[0].rows)
    requires StepOf(db, r, envs[0]) == Continue(Nothing, next)
    ensures ServesOneOf(db, Alone(db, r, envs), Candidates(db, authors, previous))
  {
    EmptyListing(db, authors, previous, envs[0].rows);
    assert next.get.picked in Candidates(db, authors, previous);
    hide ServesStored, Fits, StepOf, IsListing;
    AloneReads(db, next, envs[1..]);
    assert ServesStored(db, Alone(db, r, envs), next.get.picked);
  }

  function LiftedAuthors(noUserQuestions: bool): Authors {
    if noUserQuestions then SystemOnly else Everyone
  }

  /** The retry without exclusion: whatever it lists is picked from, else the fallback set. */
  lemma AloneLifts(db: Tables, r: Request, envs: seq<Env>)
    requires r.Get? && r.get.Lifting? && |envs| >= 3 && AloneFits(db, r, envs)
    ensures var all := Candidates(db, LiftedAuthors(r.get.noUserQuestions), Blank);
            if all == {} then ServesDefault(db, Alone(db, r, envs), r.seed, r.previous)
            else ServesOneOf(db, Alone(db, r, envs), all)
  {
    var authors := LiftedAuthors(r.get.noUserQuestions);
    assert IsListing(db, authors, Blank, envs[0].rows);
    EmptyListing(db, authors, Blank, envs[0].rows);
    hide ServesStored, ServesOneOf, Fits, IsListing, Candidates;
    if envs[0].rows != [] {
      AlonePicks(db, r, envs, authors, Blank, r.(get := Picked(Pick(r.seed, envs[0].rows), true)));
    }
  }

  lemma AloneRetries(db: Tables, r: Request, envs: seq<Env>)
    requires r.Get? && r.get.Listing? && !r.previous.Blank? && |envs| >= 4 && AloneFits(db, r, envs)
             && envs[0].rows == []
    ensures var all := Candidates(db, LiftedAuthors(r.get.noUserQuestions), Blank);
            if all == {} then ServesDefault(db, Alone(db, r, envs), r.seed, r.previous)
            else ServesOneOf(db, Alone(db, r, envs), all)
  {
    var next := r.(get := Lifting(r.get.noUserQuestions));
    assert StepOf(db, r, envs[0]) == Continue(Nothing, next);
    hide ServesDefault, ServesOneOf, Fits, StepOf, Candidates;
    AloneLifts(db, next, envs[1..]);
  }

  lemma AloneLists(db: Tables, r: Request, envs: seq<Env>)
    requires r.Get? && r.get.Listing? && |envs| >= 4 && AloneFits(db, r, envs)
    ensures var authors := LiftedAuthors(r.get.noUserQuestions);
            var others, all := Candidates(db, authors, r.previous), Candidates(db, authors, Blank);
            if others != {} then ServesOneOf(db, Alone(db, r, envs), others)
            else if r.previous.Blank? || all == {} then ServesDefault(db, Alone(db, r, envs), r.seed, r.previous)
            else ServesOneOf(db, Alone(db, r, envs), all)
  {
    var authors := LiftedAuthors(r.get.noUserQuestions);
    assert IsListing(db, authors, r.previous, envs[0].rows);
    EmptyListing(db, authors, r.previous, envs[0].rows);
    hide ServesStored, ServesOneOf, Fits, IsListing, Candidates;
    if envs[0].rows != [] {
      AlonePicks(db, r, envs, authors, r.previous, r.(get := Picked(Pick(r.seed, envs[0].rows), false)));
    } else if !r.previous.Blank? {
      AloneRetries(db, r, envs);
    }
  }

  /** The candidate set GetQuestion settles on. */
  ghost function Settled(db: Tables, previous: IdText): set<Uuid> {
    var authors := LiftedAuthors(Candidates(db, NotSystem, previous) == {});
    if Candidates(db, authors, previous) != {} || previous.Blank? then Candidates(db, authors, previous)
    else Candidates(db, authors, Blank)
  }

  /** GetQuestion in one state serves a live stored question of its candidate set with its stored
      choices, or, when that set is empty, a default question. */
  lemma GetAlone(db: Tables, seed: nat, previous: IdText, envs: seq<Env>)
    requires previous.Blank? || GoParses(previous)
    requires |envs| == 5 && AloneFits(db, Get(seed, previous, GetStart), envs)
    ensures var o := Alone(db, Get(seed, previous, GetStart), envs);
            if Settled(db, previous) == {} then ServesDefault(db, o, seed, previous)
            else ServesOneOf(db, o, Settled(db, previous))
  {
    var r := Get(seed, previous, GetStart);
    EmptyListing(db, NotSystem, previous, envs[0].rows);
    var r' := r.(get := Listing(envs[0].rows == []));
    assert StepOf(db, r, envs[0]) == Continue(Nothing, r');
    hide ServesOneOf, ServesDefault, Fits, StepOf, IsListing, Candidates;
    AloneLists(db, r', envs[1..]);
  }

  lemma PoolOfPrevious(db: Tables, p: Uuid)
    ensures p in Settled(db, Canonical(p)) <==> OnlyLive(db, p) && db.questions[p].author == "system"
    ensures p in Settled(db, Canonical(p)) ==> Settled(db, Canonical(p)) == {p}
  {
    forall q | q != p && Live(db, q)
      ensures db.questions[q].author != "system" ==>
                q in Candidates(db, NotSystem, Canonical(p)) && q in Candidates(db, Everyone, Canonical(p))
      ensures db.questions[q].author == "system" ==> q in Candidates(db, SystemOnly, Canonical(p)) {}
  }

  /** With the previous question spelled canonically, GetQuestion serves it again exactly if it
      is the only live question and it is a system question. (A lone question written by a user
      is not served again: the retry lists system questions only, and the fallback set follows.) */
  lemma RepeatsIffOnlySystemQuestion(db: Tables, seed: nat, previous: IdText, envs: seq<Env>)
    requires previous.Canonical?
    requires |envs| == 5 && AloneFits(db, Get(seed, previous, GetStart), envs)
    ensures var o := Alone(db, Get(seed, previous, GetStart), envs);
            && o.Some? && o.value.1.Served? && o.value.1.served.Ok?
            && (o.value.1.served.value.id == previous <==>
                OnlyLive(db, previous.id) && db.questions[previous.id].author == "system")
  {
    GetAlone(db, seed, previous, envs);
    hide AloneFits, Alone, IsChoiceList, DefaultFor;
    PoolOfPrevious(db, previous.id);
  }

  /** The exclusion works on the canonical text only: a previous id in another spelling stays a
      candidate whenever it is one at all. */
  lemma ExclusionIsByText(db: Tables, authors: Authors, previous: IdText)
    requires GoParses(previous)
    ensures previous.id !in Candidates(db, authors, previous) <==>
              previous.Canonical? || previous.id !in Candidates(db, authors, Blank)
  {
  }

  // ---------------------------------------------------------------- what is served can be answered

  /** A default question's id is free, or its row is as seeded: same choices, same key. */
  ghost predicate DefaultIntact(db: Tables, d: Question)
    requires d.id.Canonical?
  {
    d.id.id !in db.questions ||
    (&& db.questions[d.id.id].author == "system"
     && d.id in DefaultKeys && DefaultKeys[d.id].Canonical?
     && d.id.id in db.answerKeys && db.answerKeys[d.id.id] == DefaultKeys[d.id].id
     && forall i | 0 <= i < |d.choices| :: d.choices[i].id.Canonical? && Belongs(db, d.choices[i].id.id, d.id.id))
  }

  ghost predicate DefaultsIntact(db: Tables) {
    && DefaultIntact(db, DefaultQuestions[0])
    && DefaultIntact(db, DefaultQuestions[1])
    && DefaultIntact(db, DefaultQuestions[2])
  }

  /** All four choices are accepted, and exactly the one at `k` is graded correct. */
  ghost predicate Answerable(db: Tables, user: string, q: Question, k: nat) {
    && |q.choices| == 4 && k < 4
    && forall i | 0 <= i < 4 ::
         var v := VerdictOf(db, user, q.id, q.choices[i].id);
         v.Ok? && (v.value.isCorrect <==> i == k) && v.value.correctChoice == q.choices[k].id
  }

  lemma OneIsTheKey(db: Tables, user: string, q: Question, k: nat)
    requires q.id.Canonical? && q.id.id in db.answerKeys && |q.choices| == 4 && k < 4
    requires forall i | 0 <= i < 4 :: q.choices[i].id.Canonical? && Belongs(db, q.choices[i].id.id, q.id.id)
    requires forall i | 0 <= i < 4 :: q.choices[i].id == Canonical(db.answerKeys[q.id.id]) <==> i == k
    ensures Answerable(db, user, q, k)
  {
  }

  lemma StoredIsAnswerable(db: Tables, user: string, question: Question, q: Uuid)
    requires WellFormed(db) && q in db.questions && question.id == Canonical(q) && IsChoiceList(db, q, question.choices)
    ensures exists k :: Answerable(db, user, question, k)
  {
    var key := db.answerKeys[q];
    assert Belongs(db, key, q);
    ChoiceListOrdinals(db, q, question.choices);
    ChoiceListCovers(db, q, question.choices, key);
    hide WellFormed, Answerable;
    var k := db.choices[key].ordinal;
    forall i | 0 <= i < 4 ensures Shows(db.choices, q, question.choices[i]) && question.choices[i].ordinal == i {}
    OneIsTheKey(db, user, question, k);
  }

  lemma SeededIsAnswerable(db: Tables, user: string, d: Question, k: nat)
    requires d.id in DefaultKeys && d.id.Canonical? && DefaultIntact(db, d)
             && (d.id.id in db.answerKeys ==> d.id.id in db.questions)
    requires d.id.id in db.questions ==> d.id.id in db.answerKeys
    requires |d.choices| == 4 && k < 4
    requires forall i | 0 <= i < 4 ::
               d.choices[i].id.Canonical? && (d.choices[i].id == DefaultKeys[d.id] <==> i == k)
    ensures Answerable(db, user, d, k)
  {
    hide DefaultKeys;
    if d.id.id in db.questions {
      OneIsTheKey(db, user, d, k);
    }
  }

  lemma DefaultIsAnswerable(db: Tables, user: string, d: Question)
    requires SoundKeys(db) && FourAndKey(db) && DefaultsIntact(db) && d in DefaultQuestions
    ensures exists k :: Answerable(db, user, d, k)
  {
    hide Answerable, DefaultIntact;
    var k := if d == DefaultQuestions[2] then 2 else 0;
    SeededIsAnswerable(db, user, d, k);
  }

  /** Whatever GetQuestion serves in a state can be answered in that state, by anybody: none of
      its four choices is refused and exactly one is graded correct. */
  lemma ServedIsAnswerable(db: Tables, seed: nat, previous: IdText, envs: seq<Env>, user: string)
    requires WellFormed(db) && DefaultsIntact(db)
    requires previous.Blank? || GoParses(previous)
    requires |envs| == 5 && AloneFits(db, Get(seed, previous, GetStart), envs)
    ensures var o := Alone(db, Get(seed, previous, GetStart), envs);
            && o.Some? && o.value.1.Served? && o.value.1.served.Ok?
            && exists k :: Answerable(db, user, o.value.1.served.value, k)
  {
    GetAlone(db, seed, previous, envs);
    var o := Alone(db, Get(seed, previous, GetStart), envs);
    hide AloneFits, Alone, IsChoiceList, WellFormed, DefaultsIntact, Answerable;
    if Settled(db, previous) == {} {
      DefaultIsAnswerable(db, user, DefaultFor(seed, previous));
    } else {
      var q :| q in Settled(db, previous) && ServesStored(db, o, q);
      assert Live(db, q);
      StoredIsAnswerable(db, user, o.value.1.served.value, q);
    }
  }
}
