/** The five tables, the SQL statements on them with the constraints the migrations declare,
    and the changes that committed work makes to them. */
module Schema {
  import opened Domain

  datatype QuestionRow = QuestionRow(
    author: string,
    prompt: string,
    explanation: Option<string>,
    createdAt: int,
    updatedAt: int,
    deletedAt: Option<int>)

  datatype ChoiceRow = ChoiceRow(question: Uuid, text: string, ordinal: int)

  datatype AttemptRow = AttemptRow(user: string, question: Uuid, choice: Uuid, isCorrect: bool, answeredAt: int)

  datatype Tables = Tables(
    users: set<string>,
    questions: map<Uuid, QuestionRow>,
    choices: map<Uuid, ChoiceRow>,
    answerKeys: map<Uuid, Uuid>,
    attempts: map<Uuid, AttemptRow>)

  predicate Live(db: Tables, q: Uuid) {
    q in db.questions && db.questions[q].deletedAt.None?
  }

  function ChoicesIn(choices: map<Uuid, ChoiceRow>, q: Uuid): set<Uuid> {
    set c | c in choices && choices[c].question == q
  }

  function ChoicesOf(db: Tables, q: Uuid): set<Uuid> {
    ChoicesIn(db.choices, q)
  }

  predicate Belongs(db: Tables, c: Uuid, q: Uuid) {
    c in db.choices && db.choices[c].question == q
  }

  predicate Attempted(db: Tables, q: Uuid) {
    exists a | a in db.attempts :: db.attempts[a].question == q
  }

  ghost predicate AuthorsExist(db: Tables) {
    forall q | q in db.questions :: db.questions[q].author in db.users
  }

  ghost predicate SoundKeys(db: Tables) {
    forall q | q in db.answerKeys :: q in db.questions && Belongs(db, db.answerKeys[q], q)
  }

  ghost predicate SoundAttempt(db: Tables, row: AttemptRow) {
    row.user in db.users && row.question in db.questions && Belongs(db, row.choice, row.question)
  }

  ghost predicate SoundAttempts(db: Tables) {
    forall a | a in db.attempts :: SoundAttempt(db, db.attempts[a])
  }

  ghost predicate FourAndKey(db: Tables) {
    forall q | q in db.questions :: q in db.answerKeys && |ChoicesOf(db, q)| == 4
  }

  ghost predicate SoundChoices(choices: map<Uuid, ChoiceRow>, questions: set<Uuid>) {
    forall c | c in choices :: choices[c].question in questions && 0 <= choices[c].ordinal <= 3
  }

  ghost predicate OrdinalsUnique(choices: map<Uuid, ChoiceRow>) {
    forall c, d | c in choices && d in choices && c != d && choices[c].question == choices[d].question
      :: choices[c].ordinal != choices[d].ordinal
  }

  /** What every committed state satisfies: the declared keys, references and checks, and for
      every question four choices and an answer key among them. */
  ghost predicate WellFormed(db: Tables) {
    && AuthorsExist(db)
    && SoundChoices(db.choices, db.questions.Keys)
    && OrdinalsUnique(db.choices)
    && SoundKeys(db)
    && SoundAttempts(db)
    && FourAndKey(db)
  }

  // ---------------------------------------------------------------- statements

  function NewRow(author: string, draft: Draft, now: int): QuestionRow {
    QuestionRow(author, draft.prompt, NullIfEmpty(draft.explanation), now, now, None)
  }

  /** INSERT INTO questions. */
  function InsertQuestion(db: Tables, q: Uuid, author: string, draft: Draft, now: int): Option<Tables> {
    if q in db.questions || author !in db.users then None else
    Some(db.(questions := db.questions[q := NewRow(author, draft, now)]))
  }

  function Revised(row: QuestionRow, draft: Draft, now: int): QuestionRow {
    row.(prompt := draft.prompt, explanation := NullIfEmpty(draft.explanation), updatedAt := now)
  }

  /** UPDATE questions ... WHERE id AND author AND deleted_at IS NULL; None when no row matches. */
  function UpdateQuestionRow(db: Tables, q: Uuid, user: string, draft: Draft, now: int): Option<Tables> {
    if !Live(db, q) || db.questions[q].author != user then None else
    Some(db.(questions := db.questions[q := Revised(db.questions[q], draft, now)]))
  }

  /** INSERT INTO choices: primary key, reference, ordinal check, one ordinal per question. */
  function InsertChoice(db: Tables, c: Uuid, q: Uuid, text: string, ordinal: int): Option<Tables> {
    if || c in db.choices
       || q !in db.questions
       || !(0 <= ordinal <= 3)
       || (exists d | d in ChoicesOf(db, q) :: db.choices[d].ordinal == ordinal)
    then None
    else Some(db.(choices := db.choices[c := ChoiceRow(q, text, ordinal)]))
  }

  /** DELETE FROM choices WHERE question_id: the answer key goes with its choice, and an
      attempted choice refuses to go. */
  function DeleteChoices(db: Tables, q: Uuid): Option<Tables> {
    var gone := ChoicesOf(db, q);
    if exists a | a in db.attempts :: db.attempts[a].choice in gone && db.attempts[a].question == q then None else
    Some(db.(
      choices := db.choices - gone,
      answerKeys := map k | k in db.answerKeys && !(k == q && db.answerKeys[k] in gone) :: db.answerKeys[k]))
  }

  /** INSERT INTO answer_keys ... ON CONFLICT (question_id) DO UPDATE. */
  function UpsertAnswerKey(db: Tables, q: Uuid, c: Uuid): Option<Tables> {
    if q !in db.questions || !Belongs(db, c, q) then None else
    Some(db.(answerKeys := db.answerKeys[q := c]))
  }

  /** INSERT INTO attempts: the composite reference asks again that the choice is the question's. */
  function InsertAttempt(db: Tables, a: Uuid, row: AttemptRow): Option<Tables> {
    if a in db.attempts || row.user !in db.users || row.question !in db.questions
        || !Belongs(db, row.choice, row.question)
    then None
    else Some(db.(attempts := db.attempts[a := row]))
  }

  /** The deferred trigger, fired at commit for every question whose choices were touched. */
  predicate FourChoicesEach(db: Tables, touched: set<Uuid>) {
    forall q | q in touched :: |ChoicesOf(db, q)| == 4
  }

  // ---------------------------------------------------------------- committed changes

  /** The rows that inserting `labels` in order writes, the first `n` of them. */
  function NewChoices(q: Uuid, ids: seq<Uuid>, labels: seq<string>, n: nat): (rows: map<Uuid, ChoiceRow>)
    requires n <= |ids| && n <= |labels|
  {
    if n == 0 then map[]
    else NewChoices(q, ids, labels, n - 1)[ids[n - 1] := ChoiceRow(q, labels[n - 1], n - 1)]
  }

  ghost predicate Distinct(ids: seq<Uuid>) {
    forall i, j | 0 <= i < j < |ids| :: ids[i] != ids[j]
  }

  lemma {:induction false} NewChoicesAt(q: Uuid, ids: seq<Uuid>, labels: seq<string>, n: nat, i: nat)
    requires i < n <= |ids| && n <= |labels| && Distinct(ids)
    ensures var rows := NewChoices(q, ids, labels, n); ids[i] in rows && rows[ids[i]] == ChoiceRow(q, labels[i], i)
  {
    if i < n - 1 {
      assert ids[i] != ids[n - 1];
      NewChoicesAt(q, ids, labels, n - 1, i);
    }
  }

  lemma {:induction false} NewChoicesFrom(q: Uuid, ids: seq<Uuid>, labels: seq<string>, n: nat, c: Uuid)
    requires n <= |ids| && n <= |labels| && c in NewChoices(q, ids, labels, n)
    ensures var row := NewChoices(q, ids, labels, n)[c];
            row.question == q && 0 <= row.ordinal < n && ids[row.ordinal] == c && c in ids[..n]
  {
    if c != ids[n - 1] {
      NewChoicesFrom(q, ids, labels, n - 1, c);
    }
    assert ids[..n][NewChoices(q, ids, labels, n)[c].ordinal] == c;
  }

  /** Row `i` is the `i`-th id with the `i`-th label, and there is no other row. */
  lemma NewChoicesRows(q: Uuid, ids: seq<Uuid>, labels: seq<string>, n: nat)
    requires n <= |ids| && n <= |labels| && Distinct(ids)
    ensures var rows := NewChoices(q, ids, labels, n);
            && (forall i | 0 <= i < n :: ids[i] in rows && rows[ids[i]] == ChoiceRow(q, labels[i], i))
            && (forall c | c in rows :: c in ids[..n] && rows[c].question == q && 0 <= rows[c].ordinal < n
                                        && ids[rows[c].ordinal] == c)
  {
    var rows := NewChoices(q, ids, labels, n);
    hide Distinct, NewChoices;
    forall i | 0 <= i < n ensures ids[i] in rows && rows[ids[i]] == ChoiceRow(q, labels[i], i) {
      NewChoicesAt(q, ids, labels, n, i);
    }
    forall c | c in rows
      ensures c in ids[..n] && rows[c].question == q && 0 <= rows[c].ordinal < n && ids[rows[c].ordinal] == c
    {
      NewChoicesFrom(q, ids, labels, n, c);
    }
  }

  datatype Effect =
    | Nothing
    | AddUser(user: string)
    | AddAttempt(attempt: Uuid, row: AttemptRow)
    | AddQuestion(question: Uuid, ids: seq<Uuid>, author: string, draft: Draft, now: int)
    | ReplaceQuestion(question: Uuid, ids: seq<Uuid>, draft: Draft, now: int)
    | SoftDelete(question: Uuid, now: int)

  predicate Complete(draft: Draft) {
    |draft.choices| == 4 && 0 <= draft.correctOrdinal <= 3
  }

  /** Ids that `gen_random_uuid` hands out: pairwise distinct and in no row. */
  ghost predicate FreshChoices(db: Tables, ids: seq<Uuid>) {
    Distinct(ids) && forall i | 0 <= i < |ids| :: ids[i] !in db.choices
  }

  /** The guard under which the database commits an effect. */
  ghost predicate Legal(db: Tables, e: Effect) {
    match e
    case Nothing => true
    case AddUser(_) => true
    case AddAttempt(a, row) => a !in db.attempts && SoundAttempt(db, row)
    case AddQuestion(q, ids, author, draft, _) =>
      q !in db.questions && author in db.users && Complete(draft) && |ids| == 4 && FreshChoices(db, ids)
    case ReplaceQuestion(q, ids, draft, _) =>
      Live(db, q) && !Attempted(db, q) && Complete(draft) && |ids| == 4 && FreshChoices(db, ids)
    case SoftDelete(q, _) => q in db.questions
  }

  /** What `Apply` needs to write its rows; every legal effect has it. */
  predicate Shaped(db: Tables, e: Effect) {
    match e
    case AddQuestion(_, ids, _, draft, _) => Complete(draft) && |ids| == 4
    case ReplaceQuestion(q, ids, draft, _) => q in db.questions && Complete(draft) && |ids| == 4
    case SoftDelete(q, _) => q in db.questions
    case _ => true
  }

  function Apply(db: Tables, e: Effect): Tables
    requires Shaped(db, e)
  {
    match e
    case Nothing => db
    case AddUser(user) => db.(users := db.users + {user})
    case AddAttempt(a, row) => db.(attempts := db.attempts[a := row])
    case AddQuestion(q, ids, author, draft, now) =>
      db.(questions := db.questions[q := NewRow(author, draft, now)],
          choices := db.choices + NewChoices(q, ids, draft.choices, 4),
          answerKeys := db.answerKeys[q := ids[draft.correctOrdinal]])
    case ReplaceQuestion(q, ids, draft, now) =>
      db.(questions := db.questions[q := Revised(db.questions[q], draft, now)],
          choices := db.choices - ChoicesOf(db, q) + NewChoices(q, ids, draft.choices, 4),
          answerKeys := db.answerKeys[q := ids[draft.correctOrdinal]])
    case SoftDelete(q, now) =>
      db.(questions := db.questions[q := db.questions[q].(deletedAt := Some(now))])
  }

  /** `after` is `before` with the choices of `q` replaced by the rows of `ids`. */
  ghost predicate Rewrites(before: map<Uuid, ChoiceRow>, after: map<Uuid, ChoiceRow>, q: Uuid, ids: seq<Uuid>,
      labels: seq<string>)
    requires |ids| == |labels| == 4
  {
    && (forall c :: c in after <==> c in ids || (c in before && before[c].question != q))
    && (forall c | c in before && before[c].question != q :: after[c] == before[c])
    && (forall i | 0 <= i < 4 :: after[ids[i]] == ChoiceRow(q, labels[i], i))
  }

  lemma RewriteHolds(before: map<Uuid, ChoiceRow>, q: Uuid, ids: seq<Uuid>, labels: seq<string>)
    requires |ids| == |labels| == 4 && Distinct(ids)
    requires forall i | 0 <= i < 4 :: ids[i] !in before
    ensures Rewrites(before, before - ChoicesIn(before, q) + NewChoices(q, ids, labels, 4), q, ids, labels)
  {
    NewChoicesRows(q, ids, labels, 4);
    assert ids[..4] == ids;
  }

  lemma RewriteKeepsSound(before: map<Uuid, ChoiceRow>, after: map<Uuid, ChoiceRow>, q: Uuid, ids: seq<Uuid>,
      labels: seq<string>, questions: set<Uuid>)
    requires |ids| == |labels| == 4 && Rewrites(before, after, q, ids, labels)
    requires SoundChoices(before, questions)
    ensures SoundChoices(after, questions + {q})
  {
    forall c | c in after ensures after[c].question in questions + {q} && 0 <= after[c].ordinal <= 3 {
      if c in ids {
        var i :| 0 <= i < 4 && ids[i] == c;
      }
    }
  }

  lemma RewriteKeepsUnique(before: map<Uuid, ChoiceRow>, after: map<Uuid, ChoiceRow>, q: Uuid, ids: seq<Uuid>,
      labels: seq<string>)
    requires |ids| == |labels| == 4 && Rewrites(before, after, q, ids, labels)
    requires OrdinalsUnique(before)
    requires forall i | 0 <= i < 4 :: ids[i] !in before
    ensures OrdinalsUnique(after)
  {
    forall c, d | c in after && d in after && c != d && after[c].question == after[d].question
      ensures after[c].ordinal != after[d].ordinal
    {
      assert c in ids ==> after[c].question == q;
      assert d in ids ==> after[d].question == q;
    }
  }

  lemma RewriteChoices(before: map<Uuid, ChoiceRow>, after: map<Uuid, ChoiceRow>, q: Uuid, ids: seq<Uuid>,
      labels: seq<string>, p: Uuid)
    requires |ids| == |labels| == 4 && Distinct(ids) && Rewrites(before, after, q, ids, labels)
    requires forall i | 0 <= i < 4 :: ids[i] !in before
    ensures p != q ==> ChoicesIn(after, p) == ChoicesIn(before, p)
    ensures p == q ==> ChoicesIn(after, p) == (set c | c in ids) && |ChoicesIn(after, p)| == 4
  {
    forall c ensures c in ChoicesIn(after, p) <==> if p == q then c in ids else c in ChoicesIn(before, p) {
      if c in ids {
        var i :| 0 <= i < 4 && ids[i] == c;
      }
    }
    if p == q {
      assert ChoicesIn(after, p) == (set c | c in ids);
      assert (set c | c in ids) == {ids[0], ids[1], ids[2], ids[3]};
    }
  }

  /** The common shape of the two question writes. */
  ghost predicate Writes(e: Effect) {
    (e.AddQuestion? || e.ReplaceQuestion?) && |e.ids| == |e.draft.choices| == 4
  }

  lemma WriteRewrites(db: Tables, e: Effect)
    requires SoundChoices(db.choices, db.questions.Keys) && Legal(db, e) && Writes(e)
    ensures Rewrites(db.choices, Apply(db, e).choices, e.question, e.ids, e.draft.choices)
  {
    RewriteHolds(db.choices, e.question, e.ids, e.draft.choices);
    if e.AddQuestion? {
      assert ChoicesIn(db.choices, e.question) == {};
      assert db.choices - ChoicesIn(db.choices, e.question) == db.choices;
    }
  }

  /** A committed question write leaves every other question's choices alone and gives the
      written one exactly the fresh choices. */
  lemma WrittenChoices(db: Tables, e: Effect, q: Uuid)
    requires SoundChoices(db.choices, db.questions.Keys) && Legal(db, e) && Writes(e)
    ensures q != e.question ==> ChoicesOf(Apply(db, e), q) == ChoicesOf(db, q)
    ensures q == e.question ==> ChoicesOf(Apply(db, e), q) == (set c | c in e.ids) && |ChoicesOf(Apply(db, e), q)| == 4
  {
    WriteRewrites(db, e);
    RewriteChoices(db.choices, Apply(db, e).choices, e.question, e.ids, e.draft.choices, q);
  }

  lemma WriteKeepsFour(db: Tables, e: Effect)
    requires SoundChoices(db.choices, db.questions.Keys) && FourAndKey(db) && Legal(db, e) && Writes(e)
    ensures FourAndKey(Apply(db, e))
  {
    var db' := Apply(db, e);
    forall q | q in db'.questions ensures q in db'.answerKeys && |ChoicesOf(db', q)| == 4 {
      WrittenChoices(db, e, q);
    }
  }

  lemma WriteKeepsKeys(db: Tables, e: Effect)
    requires SoundChoices(db.choices, db.questions.Keys) && SoundKeys(db) && Legal(db, e) && Writes(e)
    ensures SoundKeys(Apply(db, e))
  {
    var db' := Apply(db, e);
    WriteRewrites(db, e);
    forall q | q in db'.answerKeys ensures q in db'.questions && Belongs(db', db'.answerKeys[q], q) {
      if q == e.question {
        assert db'.choices[e.ids[e.draft.correctOrdinal]].question == q;
      } else {
        assert Belongs(db, db.answerKeys[q], q);
      }
    }
  }

  lemma WriteKeepsAttempts(db: Tables, e: Effect)
    requires SoundChoices(db.choices, db.questions.Keys) && SoundAttempts(db) && Legal(db, e) && Writes(e)
    ensures SoundAttempts(Apply(db, e))
  {
    var db' := Apply(db, e);
    WriteRewrites(db, e);
    forall a | a in db'.attempts ensures SoundAttempt(db', db'.attempts[a]) {
      assert SoundAttempt(db, db.attempts[a]);
    }
  }

  lemma WriteKeepsChoices(db: Tables, e: Effect)
    requires SoundChoices(db.choices, db.questions.Keys) && Legal(db, e) && Writes(e)
    ensures SoundChoices(Apply(db, e).choices, Apply(db, e).questions.Keys)
  {
    WriteRewrites(db, e);
    RewriteKeepsSound(db.choices, Apply(db, e).choices, e.question, e.ids, e.draft.choices, db.questions.Keys);
    hide Rewrites, SoundChoices;
    assert Apply(db, e).questions.Keys == db.questions.Keys + {e.question};
  }

  lemma WriteKeepsUnique(db: Tables, e: Effect)
    requires SoundChoices(db.choices, db.questions.Keys) && OrdinalsUnique(db.choices) && Legal(db, e) && Writes(e)
    ensures OrdinalsUnique(Apply(db, e).choices)
  {
    hide OrdinalsUnique, Apply;
    WriteRewrites(db, e);
    RewriteKeepsUnique(db.choices, Apply(db, e).choices, e.question, e.ids, e.draft.choices);
  }

  lemma FourCarryOver(db: Tables, db': Tables)
    requires FourAndKey(db) && db'.choices == db.choices
    requires db'.answerKeys == db.answerKeys && db'.questions.Keys == db.questions.Keys
    ensures FourAndKey(db')
  {
    forall q | q in db'.questions ensures q in db'.answerKeys && |ChoicesOf(db', q)| == 4 {
      assert q in db.questions.Keys;
    }
  }

  lemma AttemptAddedKeepsWellFormed(db: Tables, a: Uuid, row: AttemptRow)
    requires WellFormed(db) && SoundAttempt(db, row)
    ensures WellFormed(db.(attempts := db.attempts[a := row]))
  {
    var db' := db.(attempts := db.attempts[a := row]);
    FourCarryOver(db, db');
    forall b | b in db'.attempts ensures SoundAttempt(db', db'.attempts[b]) {
      assert b == a || SoundAttempt(db, db.attempts[b]);
    }
  }

  lemma KeysCarryOver(db: Tables, db': Tables)
    requires SoundKeys(db) && db'.answerKeys == db.answerKeys && db'.choices == db.choices
    requires db'.questions.Keys == db.questions.Keys
    ensures SoundKeys(db')
  {
    forall q | q in db'.answerKeys ensures q in db'.questions && Belongs(db', db'.answerKeys[q], q) {
      assert q in db.questions.Keys && Belongs(db, db.answerKeys[q], q);
    }
  }

  lemma AttemptsCarryOver(db: Tables, db': Tables)
    requires SoundAttempts(db) && db'.attempts == db.attempts && db'.choices == db.choices
    requires db.users <= db'.users && db.questions.Keys <= db'.questions.Keys
    ensures SoundAttempts(db')
  {
    forall a | a in db'.attempts ensures SoundAttempt(db', db'.attempts[a]) {
      assert SoundAttempt(db, db.attempts[a]);
    }
  }

  /** Changing a question's row, but not its author, leaves the rest of the store as sound. */
  lemma RowChangeKeepsWellFormed(db: Tables, q: Uuid, row: QuestionRow)
    requires WellFormed(db) && q in db.questions && row.author == db.questions[q].author
    ensures WellFormed(db.(questions := db.questions[q := row]))
  {
    var db' := db.(questions := db.questions[q := row]);
    assert db'.questions.Keys == db.questions.Keys;
    hide SoundAttempts, FourAndKey, SoundKeys, SoundChoices, OrdinalsUnique;
    AttemptsCarryOver(db, db');
    FourCarryOver(db, db');
    KeysCarryOver(db, db');
  }

  lemma SmallEffectKeepsWellFormed(db: Tables, e: Effect)
    requires WellFormed(db) && Legal(db, e) && !Writes(e)
    ensures WellFormed(Apply(db, e))
  {
    match e
    case Nothing =>
    case AddUser(user) =>
      AttemptsCarryOver(db, db.(users := db.users + {user}));
      FourCarryOver(db, db.(users := db.users + {user}));
    case AddAttempt(a, row) =>
      AttemptAddedKeepsWellFormed(db, a, row);
    case SoftDelete(q, now) =>
      RowChangeKeepsWellFormed(db, q, db.questions[q].(deletedAt := Some(now)));
  }

  /** Every committed change keeps every question answerable: four choices, ordinals 0..3 used
      once each, one key among them, and every attempt's references intact. */
  lemma EffectKeepsWellFormed(db: Tables, e: Effect)
    requires WellFormed(db) && Legal(db, e)
    ensures WellFormed(Apply(db, e))
  {
    if Writes(e) {
      WriteKeepsChoices(db, e);
      WriteKeepsUnique(db, e);
      WriteKeepsKeys(db, e);
      WriteKeepsAttempts(db, e);
      WriteKeepsFour(db, e);
    } else {
      SmallEffectKeepsWellFormed(db, e);
    }
  }

  lemma {:induction false} SubsetSize<T>(a: set<T>, b: set<T>)
    requires a <= b
    ensures |a| <= |b|
  {
    assert b == a + (b - a);
  }

  lemma FourOrdinalsFill(used: set<int>, ordinal: int)
    requires |used| == 4 && (forall x | x in used :: 0 <= x <= 3) && 0 <= ordinal <= 3
    ensures ordinal in used
  {
    if ordinal !in used {
      var others := {0, 1, 2, 3} - {ordinal};
      assert |{0, 1, 2, 3}| == 4;
      assert others + {ordinal} == {0, 1, 2, 3};
      forall x | x in used ensures x in others {
        assert x in {0, 1, 2, 3};
      }
      SubsetSize(used, others);
    }
  }

  lemma {:induction false} OrdinalsCount(choices: map<Uuid, ChoiceRow>, cs: set<Uuid>)
    requires cs <= choices.Keys
    requires forall c, d | c in cs && d in cs && c != d :: choices[c].ordinal != choices[d].ordinal
    ensures |set c | c in cs :: choices[c].ordinal| == |cs|
  {
    if cs == {} {
      assert (set c | c in cs :: choices[c].ordinal) == {};
    } else {
      var c :| c in cs;
      var rest := cs - {c};
      OrdinalsCount(choices, rest);
      assert (set d | d in cs :: choices[d].ordinal)
          == (set d | d in rest :: choices[d].ordinal) + {choices[c].ordinal};
    }
  }

  /** Four choices with distinct ordinals in 0..3 use every ordinal: the count trigger, the
      unique index and the ordinal check together. */
  lemma EveryOrdinalOnce(db: Tables, q: Uuid, ordinal: int)
    requires SoundChoices(db.choices, db.questions.Keys) && OrdinalsUnique(db.choices)
    requires |ChoicesOf(db, q)| == 4 && 0 <= ordinal <= 3
    ensures exists c :: Belongs(db, c, q) && db.choices[c].ordinal == ordinal
  {
    var mine := ChoicesOf(db, q);
    OrdinalsCount(db.choices, mine);
    var used := set c | c in mine :: db.choices[c].ordinal;
    FourOrdinalsFill(used, ordinal);
    var c :| c in mine && db.choices[c].ordinal == ordinal;
    assert Belongs(db, c, q);
  }
}
