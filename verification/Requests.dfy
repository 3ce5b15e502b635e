/** Requests in flight. A use case is a program that stops between its database statements;
    each step runs one statement or one whole transaction on the committed tables. Any number
    of requests interleave with each other and with soft deletion. */
module Requests {
  import opened Domain
  import opened Schema
  import opened Repository
  import opened QuizSelection

  datatype SubmitResult = SubmitResult(isCorrect: bool, correctChoice: IdText, attempt: IdText)

  datatype SubmitPoint =
    | SubmitStart
    | KeyRead(correct: IdText)
    | Checked(correct: IdText)
    | UserEnsured(correct: IdText)

  datatype UpdatePoint = UpdateStart | Owned | UpdateReady

  datatype GetPoint =
    | GetStart
    | Listing(noUserQuestions: bool)
    | Lifting(noUserQuestions: bool)
    | Picked(picked: Uuid, lifted: bool)
    | RowRead(picked: Uuid, row: QuestionRow, lifted: bool)

  datatype Request =
    | Submit(user: string, question: IdText, choice: IdText, submit: SubmitPoint)
    | Create(user: string, draft: Draft, ready: bool)
    | Update(user: string, question: IdText, draft: Draft, update: UpdatePoint)
    | Get(seed: nat, previous: IdText, get: GetPoint)

  datatype Response =
    | Answered(answer: Result<SubmitResult>)
    | Written(detail: Result<Detail>)
    | Served(served: Result<Question>, lifted: bool)

  /** What the environment supplies to a step: ids from gen_random_uuid, the clock, and the
      order in which a query returned its rows. */
  datatype Env = Env(id: Uuid, ids: seq<Uuid>, now: int, rows: seq<Uuid>, choices: seq<Choice>)

  datatype Outcome =
    | Continue(effect: Effect, next: Request)
    | Finish(effect: Effect, response: Response)

  predicate Initial(r: Request) {
    match r
    case Submit(_, _, _, at) => at.SubmitStart?
    case Create(_, _, ready) => !ready
    case Update(_, _, _, at) => at.UpdateStart?
    case Get(_, _, at) => at.GetStart?
  }

  // ---------------------------------------------------------------- SubmitAnswer

  function Refused(code: Code): Outcome {
    Finish(Nothing, Answered(Err(code)))
  }

  function SubmitDefault(choice: IdText, correct: IdText): Outcome {
    Finish(Nothing, Answered(Ok(SubmitResult(choice == correct, correct, Blank))))
  }

  function SubmitStep(db: Tables, r: Request, env: Env): Outcome
    requires r.Submit?
  {
    match r.submit
    case SubmitStart =>
      if !GoParses(r.question) || !GoParses(r.choice) then Refused(InvalidArgument) else
      (match ReadKey(db, r.question)
       case Ok(key) => Continue(Nothing, r.(submit := KeyRead(key)))
       case Err(code) =>
         if code.NotFound? && r.question in DefaultKeys then SubmitDefault(r.choice, DefaultKeys[r.question])
         else Refused(code))
    case KeyRead(correct) =>
      (match ReadBelongs(db, r.question, r.choice)
       case Err(code) => Refused(code)
       case Ok(false) => Refused(InvalidArgument)
       case Ok(true) =>
         if r.user == "" then Finish(Nothing, Answered(Ok(SubmitResult(r.choice == correct, correct, Blank))))
         else Continue(Nothing, r.(submit := Checked(correct))))
    case Checked(correct) =>
      Continue(AddUser(r.user), r.(submit := UserEnsured(correct)))
    case UserEnsured(correct) =>
      var (effect, attempt) := AttemptOutcome(db, r.user, r.question, r.choice, r.choice == correct, env.id, env.now);
      Finish(effect, Answered(if attempt.Err? then Err(attempt.code)
                              else Ok(SubmitResult(r.choice == correct, correct, attempt.value))))
  }

  // ---------------------------------------------------------------- CreateQuestion and UpdateQuestion

  predicate ValidDraft(draft: Draft) {
    !IsBlank(draft.prompt) && Complete(draft) && forall i | 0 <= i < |draft.choices| :: !IsBlank(draft.choices[i])
  }

  function CreateStep(db: Tables, r: Request, env: Env): Outcome
    requires r.Create? && |env.ids| == |r.draft.choices|
  {
    if !r.ready then
      if r.user == "" then Finish(Nothing, Written(Err(Unauthenticated)))
      else if !ValidDraft(r.draft) then Finish(Nothing, Written(Err(InvalidArgument)))
      else Continue(AddUser(r.user), r.(ready := true))
    else
      var w := CreateOutcome(db, r.user, r.draft, env.id, env.ids, env.now);
      Finish(w.effect, Written(w.result))
  }

  function UpdateStep(db: Tables, r: Request, env: Env): Outcome
    requires r.Update? && |env.ids| == |r.draft.choices|
  {
    match r.update
    case UpdateStart =>
      if r.user == "" then Finish(Nothing, Written(Err(Unauthenticated)))
      else if !GoParses(r.question) || !ValidDraft(r.draft) then Finish(Nothing, Written(Err(InvalidArgument)))
      else
        (match ReadAuthor(db, r.question)
         case Err(code) => Finish(Nothing, Written(Err(code)))
         case Ok((author, deleted)) =>
           if deleted then Finish(Nothing, Written(Err(NotFound)))
           else if author != r.user then Finish(Nothing, Written(Err(PermissionDenied)))
           else Continue(Nothing, r.(update := Owned)))
    case Owned =>
      Continue(AddUser(r.user), r.(update := UpdateReady))
    case UpdateReady =>
      var w := UpdateOutcome(db, r.user, r.question, r.draft, env.ids, env.now);
      Finish(w.effect, Written(w.result))
  }

  // ---------------------------------------------------------------- GetQuestion

  datatype Authors = Everyone | SystemOnly | NotSystem

  /** The WHERE clause of the candidate query. */
  function Candidates(db: Tables, authors: Authors, previous: IdText): set<Uuid> {
    set q | q in db.questions && Live(db, q)
         && (authors.Everyone? || (authors.SystemOnly? <==> db.questions[q].author == "system"))
         && (previous.Blank? || Canonical(q) != previous)
  }

  function CreatedAt(db: Tables): map<Uuid, int> {
    map q | q in db.questions :: db.questions[q].createdAt
  }

  /** A possible answer of the candidate query: newest first. */
  ghost predicate IsListing(db: Tables, authors: Authors, previous: IdText, rows: seq<Uuid>) {
    OrderedDesc(rows, Candidates(db, authors, previous), CreatedAt(db))
  }

  function Serve(seed: nat, previous: IdText, lifted: bool): Outcome {
    Finish(Nothing, Served(Ok(DefaultFor(seed, previous)), lifted))
  }

  /** The query a GetQuestion is about to run at a listing point. */
  function QueryOf(at: GetPoint, previous: IdText): (Authors, IdText) {
    match at
    case Listing(none) => (if none then SystemOnly else Everyone, previous)
    case Lifting(none) => (if none then SystemOnly else Everyone, Blank)
    case _ => (NotSystem, previous)
  }

  function GetStep(db: Tables, r: Request, env: Env): Outcome
    requires r.Get?
  {
    match r.get
    case GetStart =>
      if !r.previous.Blank? && !GoParses(r.previous) then Finish(Nothing, Served(Err(InvalidArgument), false))
      else Continue(Nothing, r.(get := Listing(env.rows == [])))
    case Listing(none) =>
      if env.rows != [] then Continue(Nothing, r.(get := Picked(Pick(r.seed, env.rows), false)))
      else if !r.previous.Blank? then Continue(Nothing, r.(get := Lifting(none)))
      else Serve(r.seed, r.previous, false)
    case Lifting(_) =>
      if env.rows != [] then Continue(Nothing, r.(get := Picked(Pick(r.seed, env.rows), true)))
      else Serve(r.seed, r.previous, true)
    case Picked(q, lifted) =>
      (match ReadLiveRow(db, Canonical(q), None)
       case Ok(row) => Continue(Nothing, r.(get := RowRead(q, row, lifted)))
       case Err(code) =>
         if code.NotFound? then Serve(r.seed, r.previous, lifted) else Finish(Nothing, Served(Err(code), lifted)))
    case RowRead(q, row, lifted) =>
      Finish(Nothing, Served(Ok(Question(Canonical(q), row.prompt, env.choices, Coalesce(row.explanation))), lifted))
  }

  // ---------------------------------------------------------------- one step of one request

  function StepOf(db: Tables, r: Request, env: Env): (o: Outcome)
    requires (r.Create? || r.Update?) ==> |env.ids| == |r.draft.choices|
    ensures Shaped(db, o.effect)
  {
    match r
    case Submit(_, _, _, _) => SubmitStep(db, r, env)
    case Create(_, _, _) => CreateStep(db, r, env)
    case Update(_, _, _, _) => UpdateStep(db, r, env)
    case Get(_, _, _) => GetStep(db, r, env)
  }

  // ---------------------------------------------------------------- the world

  datatype Entry = Entry(request: Request, response: Response)

  /** The committed tables, the requests in flight, the finished requests in order with their
      responses, and for every stored attempt the text its choice was submitted as. */
  datatype World = World(db: Tables, requests: map<nat, Request>, log: seq<Entry>, spelled: map<Uuid, IdText>)

  datatype Action =
    | Start(rid: nat, request: Request)
    | Advance(rid: nat, env: Env)
    | Delete(question: Uuid, now: int)

  /** The uuids a request in flight names. */
  function Names(r: Request): set<Uuid> {
    match r
    case Submit(_, question, choice, _) => Spelled(question) + Spelled(choice)
    case Create(_, _, _) => {}
    case Update(_, question, _, _) => Spelled(question)
    case Get(_, previous, _) => Spelled(previous)
  }

  const DefaultIds: set<Uuid> := {
    0x1, 0x2, 0x3,
    0x1001, 0x1002, 0x1003, 0x1004,
    0x2001, 0x2002, 0x2003, 0x2004,
    0x3001, 0x3002, 0x3003, 0x3004}

  /** gen_random_uuid: an id of no row, of no request in flight and not one of the fixed ids of
      the fallback set, which are no random uuids. */
  ghost predicate Fresh(w: World, id: Uuid) {
    && id !in w.db.questions && id !in w.db.choices && id !in w.db.attempts
    && id !in DefaultIds
    && forall rid | rid in w.requests :: id !in Names(w.requests[rid])
  }

  ghost predicate Fits(w: World, r: Request, env: Env) {
    && Fresh(w, env.id)
    && Distinct(env.ids) && (forall i | 0 <= i < |env.ids| :: Fresh(w, env.ids[i]) && env.ids[i] != env.id)
    && ((r.Create? || r.Update?) ==> |env.ids| == |r.draft.choices|)
    && (r.Get? && !r.get.Picked? && !r.get.RowRead? ==>
          var (authors, previous) := QueryOf(r.get, r.previous); IsListing(w.db, authors, previous, env.rows))
    && (r.Get? && r.get.RowRead? ==> IsChoiceList(w.db, r.get.picked, env.choices))
  }

  ghost predicate Enabled(w: World, a: Action) {
    match a
    case Start(rid, r) => rid !in w.requests && Initial(r)
    case Advance(rid, env) => rid in w.requests && Fits(w, w.requests[rid], env)
    case Delete(q, _) => q in w.db.questions
  }

  ghost function Advanced(w: World, rid: nat, o: Outcome): World
    requires rid in w.requests && Shaped(w.db, o.effect)
  {
    var r := w.requests[rid];
    var spelled := if o.effect.AddAttempt? && r.Submit? then w.spelled[o.effect.attempt := r.choice] else w.spelled;
    match o
    case Continue(effect, next) => World(Apply(w.db, effect), w.requests[rid := next], w.log, spelled)
    case Finish(effect, response) =>
      World(Apply(w.db, effect), w.requests - {rid}, w.log + [Entry(r, response)], spelled)
  }

  ghost function Next(w: World, a: Action): World
    requires Enabled(w, a)
  {
    match a
    case Start(rid, r) => w.(requests := w.requests[rid := r])
    case Advance(rid, env) => Advanced(w, rid, StepOf(w.db, w.requests[rid], env))
    case Delete(q, now) => w.(db := Apply(w.db, SoftDelete(q, now)))
  }

  /** The actions happen one after the other, each enabled where it happens. */
  ghost predicate Runs(w: World, actions: seq<Action>)
    decreases |actions|
  {
    actions == [] || (Enabled(w, actions[0]) && Runs(Next(w, actions[0]), actions[1..]))
  }

  ghost function After(w: World, actions: seq<Action>): World
    requires Runs(w, actions)
    decreases |actions|
  {
    if actions == [] then w else After(Next(w, actions[0]), actions[1..])
  }

  /** A store without attempts and nothing in flight; the migrated database is one (`SeedIsStart`). */
  ghost predicate StartState(w: World) {
    && WellFormed(w.db)
    && w.db.attempts == map[] && w.requests == map[] && w.log == [] && w.spelled == map[]
  }
}
