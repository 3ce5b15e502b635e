/** The quiz and history use cases as they run on the repositories, statement after statement. */
module Usecases {
  import opened Domain
  import opened Schema
  import opened Repository
  import opened QuizSelection
  import opened Requests
  import opened Quiz
  import opened Draws

  /** Stored questions, each once, the later created ones first. */
  ghost predicate NewestFirst(db: Tables, rows: seq<Uuid>) {
    && Distinct(rows)
    && (forall i | 0 <= i < |rows| :: rows[i] in db.questions)
    && forall i, j | 0 <= i < j < |rows| :: db.questions[rows[i]].createdAt >= db.questions[rows[j]].createdAt
  }

  /** What GetQuestion answers in one state with the digest number `n`: a default question if there
      is no stored one that it may serve; otherwise `rows` are those, and it is the one at `n`
      modulo their number. */
  ghost predicate IsServed(db: Tables, n: nat, previous: IdText, rows: seq<Uuid>, r: Result<Question>) {
    if !previous.Blank? && !GoParses(previous) then r == Err(InvalidArgument)
    else if rows == [] then r == Ok(DefaultFor(n, previous)) && forall q :: !MayServe(db, previous, q)
    else
      && NewestFirst(db, rows) && (forall q :: q in rows <==> MayServe(db, previous, q))
      && r.Ok? && IsStored(db, rows[n % |rows|], r.value)
  }

  lemma ListingIsNewestFirst(db: Tables, authors: Authors, previous: IdText, rows: seq<Uuid>)
    requires IsListing(db, authors, previous, rows)
    ensures NewestFirst(db, rows)
  {
    forall i | 0 <= i < |rows| ensures rows[i] in db.questions {
      assert rows[i] in Candidates(db, authors, previous);
    }
    hide Candidates;
    assert forall i | 0 <= i < |rows| :: CreatedAt(db)[rows[i]] == db.questions[rows[i]].createdAt;
  }

  lemma DrawnFrom(db: Tables, authors: Authors, previous: IdText, excluded: IdText, rows: seq<Uuid>)
    requires IsListing(db, authors, excluded, rows) && Candidates(db, authors, excluded) == Settled(db, previous)
    ensures NewestFirst(db, rows) && forall q :: q in rows <==> MayServe(db, previous, q)
  {
    hide Settled, MayServe, Candidates, NewestFirst;
    ListingIsNewestFirst(db, authors, excluded, rows);
    forall q ensures q in rows <==> MayServe(db, previous, q) {
      SettledOnRows(db, previous, q);
    }
  }

  /** The tables after SubmitAnswer: the user and the attempt are in exactly when it stored one. */
  ghost predicate IsAfterSubmit(db: Tables, db': Tables, user: string, question: IdText, choice: IdText, id: Uuid,
      now: int, r: Result<SubmitResult>) {
    if r.Ok? && !r.value.attempt.Blank? then
      && r.value.attempt == Canonical(id) && PgCast(question).Some? && PgCast(choice).Some?
      && db' == db.(
           users := db.users + {user},
           attempts := db.attempts[id := AttemptRow(user, PgCast(question).value, PgCast(choice).value,
               r.value.isCorrect, now)])
    else db' == db
  }

  class QuizUsecase {
    const pool: Pool
    /** The first eight bytes of the SHA-256 digest, as a number. */
    const digest: string -> nat

    constructor (pool: Pool, digest: string -> nat)
      ensures this.pool == pool && this.digest == digest
    {
      this.pool, this.digest := pool, digest;
    }

    function Seed(requestId: string): nat {
      digest(if requestId == "" then "no-request-id" else requestId)
    }

    method SubmitAnswer(user: string, question: IdText, choice: IdText, id: Uuid, now: int)
        returns (r: Result<SubmitResult>)
      requires SoundKeys(pool.db) && id !in pool.db.attempts
      modifies pool
      ensures VerdictIn(r) == VerdictOf(old(pool.db), user, question, choice)
      ensures IsAfterSubmit(old(pool.db), pool.db, user, question, choice, id, now, r)
    {
      if question.Blank? || choice.Blank? || !GoParses(question) || !GoParses(choice) {
        return Err(InvalidArgument);
      }
      var key := ReadKey(pool.db, question);
      if key.Err? {
        if key.code == NotFound && question in DefaultKeys {
          var correct := DefaultKeys[question];
          return Ok(SubmitResult(choice == correct, correct, Blank));
        }
        return Err(key.code);
      }
      hide DefaultKeys;
      var belongs := ReadBelongs(pool.db, question, choice);
      if belongs.Err? {
        return Err(belongs.code);
      }
      if !belongs.value {
        return Err(InvalidArgument);
      }
      var isCorrect := choice == key.value;
      var attemptId := Blank;
      if user != "" {
        pool.db := Apply(pool.db, AddUser(user));
        var (effect, attempt) := AttemptOutcome(pool.db, user, question, choice, isCorrect, id, now);
        match attempt
        case Err(code) => return Err(code);
        case Ok(stored) =>
          pool.db := Apply(pool.db, effect);
          attemptId := stored;
      }
      return Ok(SubmitResult(isCorrect, key.value, attemptId));
    }

    /** The three candidate queries: every live question that the author filter and the previous id
        leave, newest first. */
    method ListCandidates(authors: Authors, previous: IdText) returns (rows: seq<Uuid>)
      ensures NewestFirst(pool.db, rows)
      ensures forall q :: q in rows <==>
                && q in pool.db.questions && pool.db.questions[q].deletedAt.None?
                && (authors.SystemOnly? ==> pool.db.questions[q].author == "system")
                && (authors.NotSystem? ==> pool.db.questions[q].author != "system")
                && (previous.Blank? || Canonical(q) != previous)
      ensures IsListing(pool.db, authors, previous, rows)
    {
      rows := OrderDesc(Candidates(pool.db, authors, previous), CreatedAt(pool.db));
      ListingIsNewestFirst(pool.db, authors, previous, rows);
      hide NewestFirst;
    }

    method GetQuizQuestion(question: IdText) returns (r: Result<Question>)
      requires OrdinalsUnique(pool.db.choices)
      ensures match PgCast(question)
              case None => r == Err(InvalidArgument)
              case Some(q) => if Live(pool.db, q) then r.Ok? && IsStored(pool.db, q, r.value) else r == Err(NotFound)
    {
      var row := ReadLiveRow(pool.db, question, None);
      if row.Err? {
        return Err(row.code);
      }
      var q := PgCast(question).value;
      var choices := pool.ListChoices(q);
      return Ok(Question(Canonical(q), row.value.prompt, choices, Coalesce(row.value.explanation)));
    }

    method GetQuestion(requestId: string, previous: IdText) returns (r: Result<Question>, ghost rows: seq<Uuid>)
      requires OrdinalsUnique(pool.db.choices)
      ensures var n := digest(if requestId == "" then "no-request-id" else requestId);
              IsServed(pool.db, n, previous, rows, r)
    {
      hide IsListing, DefaultFor, IsStored, OrdinalsUnique, NewestFirst, MayServe;
      rows := [];
      if !previous.Blank? && !GoParses(previous) {
        return Err(InvalidArgument), rows;
      }
      var nonSystem := ListCandidates(NotSystem, previous);
      EmptyListing(pool.db, NotSystem, previous, nonSystem);
      var authors := if nonSystem == [] then SystemOnly else Everyone;
      var candidates := ListCandidates(authors, previous);
      EmptyListing(pool.db, authors, previous, candidates);
      if candidates == [] && !previous.Blank? {
        candidates := ListCandidates(authors, Blank);
        EmptyListing(pool.db, authors, Blank, candidates);
      }
      DefaultsAreDistinct();
      hide DefaultQuestions;
      ghost var excluded := if Candidates(pool.db, authors, previous) == {} then Blank else previous;
      DrawnFrom(pool.db, authors, previous, excluded, candidates);
      rows := candidates;
      if candidates == [] {
        r := SelectDefaultQuestion(DefaultQuestions, Seed(requestId), previous);
        assert r == Ok(DefaultFor(Seed(requestId), previous));
        return;
      }
      var selected := Pick(Seed(requestId), candidates);
      var found := GetQuizQuestion(Canonical(selected));
      match found
      case Ok(q) =>
        assert IsStored(pool.db, selected, q);
        return found, rows;
      case Err(code) =>
        if code == NotFound {
          r := SelectDefaultQuestion(DefaultQuestions, Seed(requestId), previous);
          return;
        }
        return found, rows;
    }
  }

  // ---------------------------------------------------------------- draft validation

  datatype Field = PromptField | ChoicesField | ChoiceField(index: nat) | OrdinalField

  predicate Faulty(draft: Draft, f: Field) {
    match f
    case PromptField => IsBlank(draft.prompt)
    case ChoicesField => |draft.choices| != 4
    case ChoiceField(i) => |draft.choices| == 4 && i < 4 && IsBlank(draft.choices[i])
    case OrdinalField => draft.correctOrdinal < 0 || draft.correctOrdinal > 3
  }

  lemma ValidMeansFaultless(draft: Draft)
    ensures ValidDraft(draft) <==> !exists f :: Faulty(draft, f)
  {
    if !exists f :: Faulty(draft, f) {
      assert !Faulty(draft, PromptField) && !Faulty(draft, ChoicesField) && !Faulty(draft, OrdinalField);
      forall i | 0 <= i < 4 ensures !IsBlank(draft.choices[i]) {
        assert !Faulty(draft, ChoiceField(i));
      }
    }
  }

  /** validateDraft: lists exactly the faulty fields, so it accepts exactly the valid drafts. */
  method ValidateDraft(draft: Draft) returns (violations: seq<Field>)
    ensures forall f :: f in violations <==> Faulty(draft, f)
    ensures violations == [] <==> ValidDraft(draft)
  {
    violations := [];
    if IsBlank(draft.prompt) {
      violations := violations + [PromptField];
    }
    if |draft.choices| != 4 {
      violations := violations + [ChoicesField];
    } else {
      for i := 0 to |draft.choices|
        invariant forall f :: f in violations <==>
                    (f.PromptField? && Faulty(draft, f)) || (f.ChoiceField? && f.index < i && Faulty(draft, f))
      {
        if IsBlank(draft.choices[i]) {
          violations := violations + [ChoiceField(i)];
        }
      }
    }
    if draft.correctOrdinal < 0 || draft.correctOrdinal > 3 {
      violations := violations + [OrdinalField];
    }
    assert violations == [] <==> !exists f :: f in violations by {
      if violations != [] { assert violations[0] in violations; }
    }
    ValidMeansFaultless(draft);
  }

  // ---------------------------------------------------------------- answer history

  function NormalizePageSize(pageSize: int): (limit: nat)
    ensures 1 <= limit <= 100
    ensures 1 <= pageSize <= 100 ==> limit == pageSize
    ensures pageSize <= 0 ==> limit == 20
    ensures pageSize > 100 ==> limit == 100
  {
    if pageSize <= 0 then 20 else if pageSize > 100 then 100 else pageSize
  }

  /** `attempts a JOIN questions q ON q.id = a.question_id WHERE a.user_id = user`. */
  function Joined(db: Tables, user: string): set<Uuid> {
    set a | a in db.attempts && db.attempts[a].user == user && db.attempts[a].question in db.questions
  }

  function AnsweredAt(db: Tables): map<Uuid, int> {
    map a | a in db.attempts :: db.attempts[a].answeredAt
  }

  /** `item` shows the stored attempt `a` of `user` with its question's prompt. */
  ghost predicate ShowsAttempt(db: Tables, user: string, a: Uuid, item: Attempt) {
    && a in db.attempts && db.attempts[a].user == user && db.attempts[a].question in db.questions
    && var row := db.attempts[a];
       item == Attempt(Canonical(a), Canonical(row.question), db.questions[row.question].prompt,
                       Canonical(row.choice), row.isCorrect, row.answeredAt)
  }

  /** `page` shows the first `limit` of `rows`, which are all the joined rows newest first. */
  ghost predicate IsPage(db: Tables, user: string, limit: nat, rows: seq<Uuid>, page: seq<Attempt>) {
    && OrderedDesc(rows, Joined(db, user), AnsweredAt(db))
    && |page| == (if limit < |rows| then limit else |rows|)
    && forall i | 0 <= i < |page| :: ShowsAttempt(db, user, rows[i], page[i])
  }

  /** ListMyAttempts, whose caller normalizes the page size. */
  method ListMyAttempts(pool: Pool, user: string, pageSize: int)
      returns (r: Result<seq<Attempt>>, ghost rows: seq<Uuid>)
    ensures r.Err? <==> user == ""
    ensures r.Err? ==> r.code == Unauthenticated
    ensures r.Ok? ==> IsPage(pool.db, user, NormalizePageSize(pageSize), rows, r.value)
  {
    rows := [];
    if user == "" {
      return Err(Unauthenticated), rows;
    }
    var limit := NormalizePageSize(pageSize);
    var db := pool.db;
    var found := OrderDesc(Joined(db, user), AnsweredAt(db));
    rows := found;
    var n := if limit < |found| then limit else |found|;
    var attempts: seq<Attempt> := [];
    for i := 0 to n
      invariant |attempts| == i && forall k | 0 <= k < i :: ShowsAttempt(db, user, found[k], attempts[k])
    {
      assert found[i] in Joined(db, user);
      var row := db.attempts[found[i]];
      attempts := attempts + [Attempt(Canonical(found[i]), Canonical(row.question), db.questions[row.question].prompt,
                                      Canonical(row.choice), row.isCorrect, row.answeredAt)];
    }
    return Ok(attempts), rows;
  }

  /** In a committed state the join drops nothing: a page holds min(limit, total) attempts of
      exactly this user in non-increasing time, none twice, and an attempt of the user that is
      not on the page is no newer than any that is. */
  lemma PageIsTheNewest(db: Tables, user: string, limit: nat, rows: seq<Uuid>, page: seq<Attempt>)
    requires SoundAttempts(db) && IsPage(db, user, limit, rows, page)
    ensures |page| == if limit < |AttemptsOf(db, user)| then limit else |AttemptsOf(db, user)|
    ensures forall i | 0 <= i < |page| :: page[i].id.Canonical? && ShowsAttempt(db, user, page[i].id.id, page[i])
    ensures forall i, j | 0 <= i < j < |page| :: page[i].answeredAt >= page[j].answeredAt && page[i].id != page[j].id
    ensures forall a | a in AttemptsOf(db, user) && (forall i | 0 <= i < |page| :: page[i].id != Canonical(a)) ::
              forall i | 0 <= i < |page| :: page[i].answeredAt >= db.attempts[a].answeredAt
  {
    assert Joined(db, user) == AttemptsOf(db, user) by {
      forall a | a in AttemptsOf(db, user) ensures a in Joined(db, user) {
        assert SoundAttempt(db, db.attempts[a]);
      }
    }
    hide SoundAttempts;
    DistinctSize(rows, Joined(db, user));
    forall i | 0 <= i < |page|
      ensures page[i].id == Canonical(rows[i]) && page[i].answeredAt == AnsweredAt(db)[rows[i]]
    {
      assert ShowsAttempt(db, user, rows[i], page[i]);
    }
    forall a | a in AttemptsOf(db, user) && (forall i | 0 <= i < |page| :: page[i].id != Canonical(a))
      ensures forall i | 0 <= i < |page| :: page[i].answeredAt >= db.attempts[a].answeredAt {
      var j :| 0 <= j < |rows| && rows[j] == a;
      assert j >= |page|;
    }
  }
}
