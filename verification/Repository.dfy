/** The Postgres repositories: the outcome of each call as a function of the committed tables,
    and the transactions and row loops as methods proved against those functions. */
module Repository {
  import opened Domain
  import opened Schema

  datatype Write = Write(effect: Effect, result: Result<Detail>)

  function DraftChoices(ids: seq<Uuid>, draft: Draft, n: nat): (cs: seq<Choice>)
    requires n <= |ids| == |draft.choices|
    ensures |cs| == n
    ensures forall i | 0 <= i < n :: cs[i] == Choice(Canonical(ids[i]), draft.choices[i], i)
  {
    seq(n, i requires 0 <= i < n => Choice(Canonical(ids[i]), draft.choices[i], i))
  }

  function DetailOf(id: IdText, ids: seq<Uuid>, draft: Draft, now: int): Detail
    requires |ids| == |draft.choices| && 0 <= draft.correctOrdinal < |ids|
  {
    Detail(id, draft.prompt, DraftChoices(ids, draft, |ids|), Canonical(ids[draft.correctOrdinal]), draft.explanation,
        now)
  }

  /** What a CreateQuestion transaction commits and answers, for any draft. `ids` is the id
      handed out for each inserted choice. */
  function CreateOutcome(db: Tables, author: string, draft: Draft, q: Uuid, ids: seq<Uuid>, now: int): Write
    requires |ids| == |draft.choices|
  {
    if author == "" then Write(Nothing, Err(Unauthenticated))
    else if author !in db.users || |ids| > 4 || !(0 <= draft.correctOrdinal < |ids|) then
      Write(Nothing, Err(InvalidArgument))
    else if |ids| < 4 then Write(Nothing, Err(Unclassified))
    else Write(AddQuestion(q, ids, author, draft, now), Ok(DetailOf(Canonical(q), ids, draft, now)))
  }

  /** What an UpdateQuestion transaction commits and answers, for any draft. */
  function UpdateOutcome(db: Tables, user: string, question: IdText, draft: Draft, ids: seq<Uuid>, now: int): Write
    requires |ids| == |draft.choices|
  {
    match PgCast(question)
    case None => Write(Nothing, Err(InvalidArgument))
    case Some(q) =>
      if !Live(db, q) || db.questions[q].author != user then Write(Nothing, Err(NotFound))
      else if Attempted(db, q) then Write(Nothing, Err(Internal))
      else if |ids| > 4 || !(0 <= draft.correctOrdinal < |ids|) then Write(Nothing, Err(InvalidArgument))
      else if |ids| < 4 then Write(Nothing, Err(Unclassified))
      else Write(ReplaceQuestion(q, ids, draft, now), Ok(DetailOf(question, ids, draft, now)))
  }

  /** For any draft whatever, validated or not, CreateQuestion commits only what the schema
      accepts and leaves the committed state well formed. */
  lemma CreateKeepsWellFormed(db: Tables, author: string, draft: Draft, q: Uuid, ids: seq<Uuid>, now: int)
    requires WellFormed(db) && |ids| == |draft.choices| && FreshChoices(db, ids) && q !in db.questions
    ensures Legal(db, CreateOutcome(db, author, draft, q, ids, now).effect)
    ensures WellFormed(Apply(db, CreateOutcome(db, author, draft, q, ids, now).effect))
  {
    hide WellFormed;
    EffectKeepsWellFormed(db, CreateOutcome(db, author, draft, q, ids, now).effect);
  }

  /** And so does UpdateQuestion. */
  lemma UpdateKeepsWellFormed(db: Tables, user: string, question: IdText, draft: Draft, ids: seq<Uuid>, now: int)
    requires WellFormed(db) && |ids| == |draft.choices| && FreshChoices(db, ids)
    ensures Legal(db, UpdateOutcome(db, user, question, draft, ids, now).effect)
    ensures WellFormed(Apply(db, UpdateOutcome(db, user, question, draft, ids, now).effect))
  {
    hide WellFormed;
    EffectKeepsWellFormed(db, UpdateOutcome(db, user, question, draft, ids, now).effect);
  }

  // ---------------------------------------------------------------- single-statement reads

  /** GetCorrectChoiceID. */
  function ReadKey(db: Tables, question: IdText): Result<IdText> {
    match PgCast(question)
    case None => Err(InvalidArgument)
    case Some(q) => if q in db.answerKeys then Ok(Canonical(db.answerKeys[q])) else Err(NotFound)
  }

  /** ChoiceBelongsToQuestion. */
  function ReadBelongs(db: Tables, question: IdText, choice: IdText): Result<bool> {
    match (PgCast(question), PgCast(choice))
    case (Some(q), Some(c)) => Ok(Belongs(db, c, q))
    case _ => Err(InvalidArgument)
  }

  /** GetQuestionAuthor: the author and whether the question is soft-deleted. */
  function ReadAuthor(db: Tables, question: IdText): Result<(string, bool)> {
    match PgCast(question)
    case None => Err(InvalidArgument)
    case Some(q) =>
      if q !in db.questions then Err(NotFound)
      else Ok((db.questions[q].author, db.questions[q].deletedAt.Some?))
  }

  /** The live row that GetQuizQuestion reads first; `author` narrows it as GetMyQuestion does. */
  function ReadLiveRow(db: Tables, question: IdText, author: Option<string>): Result<QuestionRow> {
    match PgCast(question)
    case None => Err(InvalidArgument)
    case Some(q) =>
      if Live(db, q) && (author.None? || db.questions[q].author == author.value) then Ok(db.questions[q])
      else Err(NotFound)
  }

  /** CreateAttempt: any failed cast or broken reference is an invalid argument. */
  function AttemptOutcome(db: Tables, user: string, question: IdText, choice: IdText, isCorrect: bool, a: Uuid,
      now: int)
    : (Effect, Result<IdText>)
  {
    if user == "" || question.Blank? || choice.Blank? then (Nothing, Err(InvalidArgument)) else
    match (PgCast(question), PgCast(choice))
    case (Some(q), Some(c)) =>
      var row := AttemptRow(user, q, c, isCorrect, now);
      if InsertAttempt(db, a, row).Some? then (AddAttempt(a, row), Ok(Canonical(a)))
      else (Nothing, Err(InvalidArgument))
    case _ => (Nothing, Err(InvalidArgument))
  }

  /** An attempt goes in exactly for a stored user and a choice of a stored question, both ids read
      by SQL; anything else is an invalid argument and stores nothing. */
  lemma AttemptIsStoredIff(db: Tables, user: string, question: IdText, choice: IdText, isCorrect: bool, a: Uuid,
      now: int)
    requires a !in db.attempts
    ensures var (effect, r) := AttemptOutcome(db, user, question, choice, isCorrect, a, now);
            if user != "" && user in db.users && PgCast(question).Some? && PgCast(choice).Some?
                && PgCast(question).value in db.questions && Belongs(db, PgCast(choice).value, PgCast(question).value)
            then
              && r == Ok(Canonical(a))
              && effect == AddAttempt(a, AttemptRow(user, PgCast(question).value, PgCast(choice).value, isCorrect, now))
            else r == Err(InvalidArgument) && effect == Nothing
  {
  }

  function AttemptsOf(db: Tables, user: string): set<Uuid> {
    set a | a in db.attempts && db.attempts[a].user == user
  }

  // ---------------------------------------------------------------- ordered rows

  /** `rows` lists `s` once each by `key` descending, ties in any order. */
  ghost predicate OrderedDesc(rows: seq<Uuid>, s: set<Uuid>, key: map<Uuid, int>)
    requires s <= key.Keys
  {
    && Distinct(rows)
    && (forall id :: id in rows <==> id in s)
    && (forall i, j | 0 <= i < j < |rows| :: key[rows[i]] >= key[rows[j]])
  }

  lemma {:induction false} DistinctSize(rows: seq<Uuid>, s: set<Uuid>)
    requires Distinct(rows) && forall id :: id in rows <==> id in s
    ensures |rows| == |s|
  {
    if |rows| > 0 {
      var last := rows[|rows| - 1];
      assert rows == rows[..|rows| - 1] + [last];
      DistinctSize(rows[..|rows| - 1], s - {last});
    } else {
      assert s == {};
    }
  }

  method Top(s: set<Uuid>, key: map<Uuid, int>) returns (top: Uuid)
    requires s != {} && s <= key.Keys
    ensures top in s && forall id | id in s :: key[top] >= key[id]
  {
    top :| top in s;
    var rest := s - {top};
    while rest != {}
      invariant top in s && rest <= s && forall id | id in s - rest :: key[top] >= key[id]
      decreases rest
    {
      var id :| id in rest;
      if key[id] > key[top] { top := id; }
      rest := rest - {id};
    }
  }

  /** ORDER BY key DESC. */
  method OrderDesc(s: set<Uuid>, key: map<Uuid, int>) returns (rows: seq<Uuid>)
    requires s <= key.Keys
    ensures OrderedDesc(rows, s, key)
  {
    var rest := s;
    rows := [];
    while rest != {}
      invariant rest <= s && OrderedDesc(rows, s - rest, key)
      invariant rest <= key.Keys && forall r | r in rows :: r in key && forall id | id in rest :: key[r] >= key[id]
      decreases rest
    {
      var top := Top(rest, key);
      assert top !in rows;
      rows := rows + [top];
      rest := rest - {top};
    }
    assert s - rest == s;
  }

  // ---------------------------------------------------------------- choice lists

  /** `c` shows the stored choice `db.choices[c.id]` of `q`. */
  ghost predicate Shows(choices: map<Uuid, ChoiceRow>, q: Uuid, c: Choice) {
    c.id.Canonical? && c.id.id in choices && choices[c.id.id] == ChoiceRow(q, c.text, c.ordinal)
  }

  /** `cs` are the choices of `q` by ascending ordinal. */
  ghost predicate IsChoiceList(db: Tables, q: Uuid, cs: seq<Choice>) {
    && |cs| == |ChoicesOf(db, q)|
    && (forall i | 0 <= i < |cs| :: Shows(db.choices, q, cs[i]))
    && (forall i, j | 0 <= i < j < |cs| :: cs[i].ordinal < cs[j].ordinal)
  }

  /** `question` is `q` as it is stored, live or not. */
  ghost predicate Shown(db: Tables, q: Uuid, question: Question) {
    && q in db.questions && IsChoiceList(db, q, question.choices)
    && var row := db.questions[q];
       question == Question(Canonical(q), row.prompt, question.choices, Coalesce(row.explanation))
  }

  lemma FourAscending(a: int, b: int, c: int, d: int)
    requires 0 <= a < b < c < d <= 3
    ensures a == 0 && b == 1 && c == 2 && d == 3
  {
  }

  /** In a well-formed state a choice list is four choices, the one at index i of ordinal i. */
  lemma ChoiceListOrdinals(db: Tables, q: Uuid, cs: seq<Choice>)
    requires SoundChoices(db.choices, db.questions.Keys) && |ChoicesOf(db, q)| == 4 && IsChoiceList(db, q, cs)
    ensures |cs| == 4 && cs[0].ordinal == 0 && cs[1].ordinal == 1 && cs[2].ordinal == 2 && cs[3].ordinal == 3
  {
    assert Shows(db.choices, q, cs[0]) && Shows(db.choices, q, cs[3]);
    FourAscending(cs[0].ordinal, cs[1].ordinal, cs[2].ordinal, cs[3].ordinal);
  }

  /** It names every choice of the question. */
  lemma ChoiceListCovers(db: Tables, q: Uuid, cs: seq<Choice>, c: Uuid)
    requires SoundChoices(db.choices, db.questions.Keys) && OrdinalsUnique(db.choices)
    requires |ChoicesOf(db, q)| == 4 && IsChoiceList(db, q, cs) && Belongs(db, c, q)
    ensures 0 <= db.choices[c].ordinal < |cs| && cs[db.choices[c].ordinal].id == Canonical(c)
  {
    ChoiceListOrdinals(db, q, cs);
    assert Shows(db.choices, q, cs[db.choices[c].ordinal]);
  }

  /** A well-formed state has one choice list per question. */
  lemma ChoiceListIsUnique(db: Tables, q: Uuid, cs: seq<Choice>, ds: seq<Choice>)
    requires WellFormed(db) && q in db.questions && IsChoiceList(db, q, cs) && IsChoiceList(db, q, ds)
    ensures cs == ds
  {
    ChoiceListOrdinals(db, q, cs);
    ChoiceListOrdinals(db, q, ds);
    forall i | 0 <= i < 4 ensures cs[i] == ds[i] {
      assert Shows(db.choices, q, cs[i]) && Shows(db.choices, q, ds[i]);
    }
  }

  /** Read straight after a committed write, the choices are the ones the write answered with. */
  lemma WrittenChoiceList(db: Tables, e: Effect)
    requires SoundChoices(db.choices, db.questions.Keys) && Legal(db, e) && Writes(e)
    ensures IsChoiceList(Apply(db, e), e.question, DraftChoices(e.ids, e.draft, 4))
  {
    WriteRewrites(db, e);
    WrittenChoices(db, e, e.question);
    forall i | 0 <= i < 4 ensures Shows(Apply(db, e).choices, e.question, DraftChoices(e.ids, e.draft, 4)[i]) {
      assert Apply(db, e).choices[e.ids[i]] == ChoiceRow(e.question, e.draft.choices[i], i);
    }
  }

  /** What GetMyQuestion may answer in one state. */
  ghost predicate IsMyQuestion(db: Tables, user: string, question: IdText, r: Result<Detail>) {
    match (ReadLiveRow(db, question, Some(user)), ReadKey(db, question))
    case (Err(code), _) => r == Err(code)
    case (_, Err(code)) => r == Err(code)
    case (Ok(row), Ok(key)) =>
      && r.Ok?
      && IsChoiceList(db, PgCast(question).value, r.value.choices)
      && r.value == Detail(question, row.prompt, r.value.choices, key, Coalesce(row.explanation), row.updatedAt)
  }

  lemma WriteReadBack(db: Tables, e: Effect, cs: seq<Choice>)
    requires WellFormed(db) && Legal(db, e) && Writes(e)
    requires IsChoiceList(Apply(db, e), e.question, cs)
    ensures cs == DraftChoices(e.ids, e.draft, 4)
  {
    EffectKeepsWellFormed(db, e);
    WrittenChoiceList(db, e);
    ChoiceListIsUnique(Apply(db, e), e.question, cs, DraftChoices(e.ids, e.draft, 4));
  }

  /** Create, then read: the author reads back exactly the detail the write answered with. */
  lemma CreateThenRead(db: Tables, author: string, draft: Draft, q: Uuid, ids: seq<Uuid>, now: int, r: Result<Detail>)
    requires WellFormed(db) && |ids| == |draft.choices| && FreshChoices(db, ids) && q !in db.questions
    requires var w := CreateOutcome(db, author, draft, q, ids, now);
             w.result.Ok? && IsMyQuestion(Apply(db, w.effect), author, Canonical(q), r)
    ensures r == CreateOutcome(db, author, draft, q, ids, now).result
  {
    hide WellFormed;
    var w := CreateOutcome(db, author, draft, q, ids, now);
    WriteReadBack(db, w.effect, r.value.choices);
  }

  /** Update, then read, with the id in the spelling the caller used. */
  lemma UpdateThenRead(db: Tables, user: string, question: IdText, draft: Draft, ids: seq<Uuid>, now: int,
      r: Result<Detail>)
    requires WellFormed(db) && |ids| == |draft.choices| && FreshChoices(db, ids)
    requires var w := UpdateOutcome(db, user, question, draft, ids, now);
             w.result.Ok? && IsMyQuestion(Apply(db, w.effect), user, question, r)
    ensures r == UpdateOutcome(db, user, question, draft, ids, now).result
  {
    hide WellFormed;
    var w := UpdateOutcome(db, user, question, draft, ids, now);
    WriteReadBack(db, w.effect, r.value.choices);
  }

  // ---------------------------------------------------------------- the connection pool

  /** One open transaction: the working copy of the tables, and the questions whose choices it
      inserted or deleted, which the deferred trigger looks at when it commits. */
  class Tx {
    var work: Tables
    var touched: set<Uuid>

    constructor (db: Tables)
      ensures work == db && touched == {}
    {
      work, touched := db, {};
    }
  }

  function ChoiceRead(choices: map<Uuid, ChoiceRow>, c: Uuid): Choice {
    if c in choices then Choice(Canonical(c), choices[c].text, choices[c].ordinal) else Choice(Blank, "", 0)
  }

  lemma ReadChoicesAscend(db: Tables, q: Uuid, rows: seq<Uuid>, key: map<Uuid, int>, cs: seq<Choice>)
    requires OrdinalsUnique(db.choices) && ChoicesOf(db, q) == key.Keys && OrderedDesc(rows, ChoicesOf(db, q), key)
    requires forall c | c in key :: key[c] == -db.choices[c].ordinal
    requires |rows| == |cs| == |ChoicesOf(db, q)|
             && forall k | 0 <= k < |cs| :: cs[k] == ChoiceRead(db.choices, rows[k])
    ensures IsChoiceList(db, q, cs)
  {
    forall i | 0 <= i < |cs| ensures Shows(db.choices, q, cs[i]) && rows[i] in key && cs[i].ordinal == -key[rows[i]] {
      assert rows[i] in ChoicesOf(db, q);
    }
    forall i, j | 0 <= i < j < |cs| ensures cs[i].ordinal < cs[j].ordinal {
      assert rows[i] in ChoicesOf(db, q) && rows[j] in ChoicesOf(db, q) && rows[i] != rows[j];
    }
  }

  /** The tables after the first `n` inserts of a draft's choices. */
  function Inserted(start: Tables, q: Uuid, ids: seq<Uuid>, labels: seq<string>, n: nat): Tables
    requires n <= |ids| && n <= |labels|
  {
    start.(choices := start.choices + NewChoices(q, ids, labels, n))
  }

  lemma NothingInserted(start: Tables, q: Uuid, ids: seq<Uuid>, labels: seq<string>)
    ensures Inserted(start, q, ids, labels, 0) == start
  {
    assert start.choices + map[] == start.choices;
  }

  lemma KeyUpsert(start: Tables, q: Uuid, ids: seq<Uuid>, labels: seq<string>, k: nat)
    requires k < |ids| == |labels| && Distinct(ids) && q in start.questions
    ensures UpsertAnswerKey(Inserted(start, q, ids, labels, |ids|), q, ids[k])
         == Some(Inserted(start, q, ids, labels, |ids|).(answerKeys := start.answerKeys[q := ids[k]]))
  {
    NewChoicesRows(q, ids, labels, |ids|);
  }

  lemma InsertedOrdinals(start: map<Uuid, ChoiceRow>, q: Uuid, ids: seq<Uuid>, labels: seq<string>, i: nat)
    requires i < |ids| == |labels| && Distinct(ids) && ChoicesIn(start, q) == {}
    requires forall k | 0 <= k < |ids| :: ids[k] !in start
    ensures ids[i] !in start + NewChoices(q, ids, labels, i)
    ensures forall d | d in ChoicesIn(start + NewChoices(q, ids, labels, i), q)
              :: (start + NewChoices(q, ids, labels, i))[d].ordinal < i
  {
    NewChoicesRows(q, ids, labels, i);
    var now := start + NewChoices(q, ids, labels, i);
    forall d | d in ChoicesIn(now, q) ensures now[d].ordinal < i {
      assert d !in ChoicesIn(start, q);
    }
  }

  /** The next insert goes through exactly while its ordinal is in range. */
  lemma NextInsert(start: Tables, q: Uuid, ids: seq<Uuid>, labels: seq<string>, i: nat)
    requires i < |ids| == |labels| && FreshChoices(start, ids) && ChoicesOf(start, q) == {} && q in start.questions
    ensures InsertChoice(Inserted(start, q, ids, labels, i), ids[i], q, labels[i], i)
         == if i <= 3 then Some(Inserted(start, q, ids, labels, i + 1)) else None
  {
    InsertedOrdinals(start.choices, q, ids, labels, i);
    assert (start.choices + NewChoices(q, ids, labels, i))[ids[i] := ChoiceRow(q, labels[i], i)]
        == start.choices + NewChoices(q, ids, labels, i + 1);
  }

  lemma InsertedCount(before: map<Uuid, ChoiceRow>, q: Uuid, ids: seq<Uuid>, labels: seq<string>)
    requires |ids| == |labels| && Distinct(ids) && ChoicesIn(before, q) == {}
    ensures |ChoicesIn(before + NewChoices(q, ids, labels, |ids|), q)| == |ids|
  {
    NewChoicesRows(q, ids, labels, |ids|);
    var now := before + NewChoices(q, ids, labels, |ids|);
    assert ids[..|ids|] == ids;
    forall c ensures c in ids <==> c in ChoicesIn(now, q) {
      assert c !in ChoicesIn(before, q);
    }
    DistinctSize(ids, ChoicesIn(now, q));
  }

  function Cleared(work: Tables, q: Uuid): (after: Tables)
    ensures ChoicesOf(after, q) == {}
  {
    work.(choices := work.choices - ChoicesOf(work, q), answerKeys := work.answerKeys - {q})
  }

  /** Refusing to delete an attempted choice is refusing to delete the choices of an attempted
      question. */
  lemma RestrictMeansAttempted(db: Tables, work: Tables, q: Uuid)
    requires SoundAttempts(db) && SoundKeys(db) && work == db.(questions := work.questions)
    ensures DeleteChoices(work, q).None? <==> Attempted(db, q)
    ensures DeleteChoices(work, q).Some? ==> DeleteChoices(work, q).value == Cleared(work, q)
  {
    forall a | a in db.attempts && db.attempts[a].question == q ensures db.attempts[a].choice in ChoicesOf(work, q) {
      assert SoundAttempt(db, db.attempts[a]);
    }
    forall k | k in db.answerKeys && k == q ensures db.answerKeys[k] in ChoicesOf(work, q) {
      assert Belongs(db, db.answerKeys[k], k);
    }
    if DeleteChoices(work, q).Some? {
      assert DeleteChoices(work, q).value.answerKeys == work.answerKeys - {q};
    }
  }

  /** Row update, delete, inserts and key upsert together are the committed replacement. */
  lemma ReplacementIsWhole(db: Tables, user: string, question: IdText, q: Uuid, draft: Draft, ids: seq<Uuid>, now: int,
      cleared: Tables)
    requires PgCast(question) == Some(q) && UpdateQuestionRow(db, q, user, draft, now).Some? && !Attempted(db, q)
    requires |ids| == |draft.choices| == 4 && Complete(draft) && FreshChoices(db, ids)
    requires cleared == Cleared(UpdateQuestionRow(db, q, user, draft, now).value, q)
    ensures var w := UpdateOutcome(db, user, question, draft, ids, now);
            && w == Write(ReplaceQuestion(q, ids, draft, now), Ok(DetailOf(question, ids, draft, now)))
            && Legal(db, w.effect)
            && Apply(db, w.effect) == Inserted(cleared, q, ids, draft.choices, 4).(
                 answerKeys := cleared.answerKeys[q := ids[draft.correctOrdinal]])
  {
    var key := ids[draft.correctOrdinal];
    assert db.answerKeys[q := key] == (db.answerKeys - {q})[q := key];
  }

  class Pool {
    /** The committed tables. */
    var db: Tables

    constructor (db: Tables)
      ensures this.db == db
    {
      this.db := db;
    }

    /** Commits the working copy, unless the deferred four-choices trigger refuses. */
    method Commit(tx: Tx) returns (ok: bool)
      modifies this
      ensures ok <==> FourChoicesEach(tx.work, tx.touched)
      ensures db == if ok then tx.work else old(db)
    {
      ok := FourChoicesEach(tx.work, tx.touched);
      if ok { db := tx.work; }
    }

    method InsertChoicesAndAnswerKey(tx: Tx, q: Uuid, draft: Draft, ids: seq<Uuid>)
        returns (r: Result<(seq<Choice>, IdText)>)
      requires q in tx.work.questions && ChoicesOf(tx.work, q) == {}
      requires |ids| == |draft.choices| && FreshChoices(tx.work, ids)
      modifies tx
      ensures r.Ok? <==> |ids| <= 4 && 0 <= draft.correctOrdinal < |ids|
      ensures r.Err? ==> r.code == InvalidArgument
      ensures r.Ok? ==>
                && r.value == (DraftChoices(ids, draft, |ids|), Canonical(ids[draft.correctOrdinal]))
                && tx.touched == old(tx.touched) + {q}
                && tx.work == Inserted(old(tx.work), q, ids, draft.choices, |ids|).(
                     answerKeys := old(tx.work.answerKeys)[q := ids[draft.correctOrdinal]])
    {
      hide InsertChoice, UpsertAnswerKey, NewChoices, Inserted, ChoicesOf, ChoicesIn;
      ghost var start := tx.work;
      assert Inserted(start, q, ids, draft.choices, 0) == start by { NothingInserted(start, q, ids, draft.choices); }
      var choices: seq<Choice> := [];
      var correct := Blank;
      for i := 0 to |draft.choices|
        invariant i <= 4 && tx.work == Inserted(start, q, ids, draft.choices, i)
        invariant tx.touched == old(tx.touched) + if i == 0 then {} else {q}
        invariant choices == DraftChoices(ids, draft, i)
        invariant correct == if 0 <= draft.correctOrdinal < i then Canonical(ids[draft.correctOrdinal]) else Blank
      {
        NextInsert(start, q, ids, draft.choices, i);
        var next := InsertChoice(tx.work, ids[i], q, draft.choices[i], i);
        if next.None? {
          return Err(InvalidArgument);
        }
        tx.work, tx.touched := next.value, tx.touched + {q};
        choices := choices + [Choice(Canonical(ids[i]), draft.choices[i], i)];
        if i == draft.correctOrdinal {
          correct := Canonical(ids[i]);
        }
      }
      if correct.Blank? {
        return Err(InvalidArgument);
      }
      KeyUpsert(start, q, ids, draft.choices, draft.correctOrdinal);
      var next := UpsertAnswerKey(tx.work, q, correct.id);
      if next.None? {
        return Err(InvalidArgument);
      }
      tx.work := next.value;
      return Ok((choices, correct));
    }

    method CreateQuestion(author: string, draft: Draft, q: Uuid, ids: seq<Uuid>, now: int) returns (r: Result<Detail>)
      requires SoundChoices(db.choices, db.questions.Keys)
      requires q !in db.questions && |ids| == |draft.choices| && FreshChoices(db, ids)
      modifies this
      ensures var w := CreateOutcome(old(db), author, draft, q, ids, now);
              Legal(old(db), w.effect) && db == Apply(old(db), w.effect) && r == w.result
    {
      if author == "" {
        return Err(Unauthenticated);
      }
      var tx := new Tx(db);
      match InsertQuestion(tx.work, q, author, draft, now) {
        case None =>
          return Err(InvalidArgument);
        case Some(next) =>
          tx.work := next;
      }
      assert ChoicesIn(db.choices, q) == {};
      var inserted := InsertChoicesAndAnswerKey(tx, q, draft, ids);
      if inserted.Err? {
        return Err(inserted.code);
      }
      InsertedCount(db.choices, q, ids, draft.choices);
      var committed := Commit(tx);
      if !committed {
        return Err(Unclassified);
      }
      return Ok(Detail(Canonical(q), draft.prompt, inserted.value.0, inserted.value.1, draft.explanation, now));
    }

    method UpdateQuestion(user: string, question: IdText, draft: Draft, ids: seq<Uuid>, now: int)
        returns (r: Result<Detail>)
      requires SoundAttempts(db) && SoundKeys(db)
      requires |ids| == |draft.choices| && FreshChoices(db, ids)
      modifies this
      ensures var w := UpdateOutcome(old(db), user, question, draft, ids, now);
              Legal(old(db), w.effect) && db == Apply(old(db), w.effect) && r == w.result
    {
      hide SoundAttempts, SoundKeys, Attempted;
      var tx := new Tx(db);
      var cast := PgCast(question);
      if cast.None? {
        return Err(InvalidArgument);
      }
      var q := cast.value;
      var updated := UpdateQuestionRow(tx.work, q, user, draft, now);
      if updated.None? {
        return Err(NotFound);
      }
      tx.work := updated.value;
      RestrictMeansAttempted(db, tx.work, q);
      var cleared := DeleteChoices(tx.work, q);
      if cleared.None? {
        return Err(Internal);
      }
      tx.touched := if ChoicesOf(tx.work, q) == {} then {} else {q};
      tx.work := cleared.value;
      var inserted := InsertChoicesAndAnswerKey(tx, q, draft, ids);
      if inserted.Err? {
        return Err(inserted.code);
      }
      InsertedCount(cleared.value.choices, q, ids, draft.choices);
      var committed := Commit(tx);
      if !committed {
        return Err(Unclassified);
      }
      ReplacementIsWhole(old(db), user, question, q, draft, ids, now, cleared.value);
      return Ok(Detail(question, draft.prompt, inserted.value.0, inserted.value.1, draft.explanation, now));
    }

    /** GetMyQuestion. */
    method GetMyQuestion(user: string, question: IdText) returns (r: Result<Detail>)
      requires OrdinalsUnique(db.choices)
      ensures IsMyQuestion(db, user, question, r)
      ensures match PgCast(question)
              case None => r == Err(InvalidArgument)
              case Some(q) =>
                if q in db.questions && db.questions[q].deletedAt.None? && db.questions[q].author == user
                    && q in db.answerKeys then
                  && r.Ok? && r.value.prompt == db.questions[q].prompt
                  && r.value.correctChoice == Canonical(db.answerKeys[q])
                else r == Err(NotFound)
    {
      var row := ReadLiveRow(db, question, Some(user));
      if row.Err? {
        return Err(row.code);
      }
      var choices := ListChoices(PgCast(question).value);
      var key := ReadKey(db, question);
      if key.Err? {
        return Err(key.code);
      }
      return Ok(Detail(question, row.value.prompt, choices, key.value, Coalesce(row.value.explanation),
          row.value.updatedAt));
    }

    method ListChoices(q: Uuid) returns (cs: seq<Choice>)
      requires OrdinalsUnique(db.choices)
      ensures IsChoiceList(db, q, cs)
    {
      var key := map c | c in ChoicesOf(db, q) :: -db.choices[c].ordinal;
      var rows := OrderDesc(ChoicesOf(db, q), key);
      DistinctSize(rows, ChoicesOf(db, q));
      cs := [];
      for i := 0 to |rows|
        invariant |cs| == i && forall k | 0 <= k < i :: cs[k] == ChoiceRead(db.choices, rows[k])
      {
        cs := cs + [ChoiceRead(db.choices, rows[i])];
      }
      ReadChoicesAscend(db, q, rows, key, cs);
    }
  }
}
