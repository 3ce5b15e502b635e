# History quiz: a verified model

This project models the history-quiz service in Dafny and proves what it promises its users. It has
three parts.

**The question store and the requests that interleave on it** (`Domain`, `Spelling`, `Schema`,
`Repository`, `QuizSelection`, `Requests`, `Invariants`, `Timeline`, `Guarantees`, `Quiz`, `Serving`,
`Linearization`, `Fallback`, `Progress`, `Draws`, `Writing`, `Deviations`, `Scenarios`, `Mixture`,
`Alice`, `Usecases`).
`Schema` holds the five tables, one function per SQL statement with the constraints that the
migrations declare, and `Effect`, the changes that committed work can make. `Repository` has the
transactions as methods of a class `Pool` on a working copy of the tables, proved against outcome
functions. `Requests` turns `SubmitAnswer`, `CreateQuestion`, `UpdateQuestion` and `GetQuestion` into
programs that stop between their database statements; a run is any sequence of starts, single steps
and soft deletions, with any number of requests in flight. `Invariants` proves one invariant over all
runs, `Timeline` finds where in a run a request read or finished, `Guarantees`, `Serving` and
`Linearization` draw the consequences, and `Progress` shows that no request gets stuck. `Quiz` and
`Usecases` run the same use cases without interference, as lemmas and as the methods of a class.
`Draws` reads off the rows which questions can be drawn, `Writing` how a create or update is answered.
`Deviations`, `Mixture` and `Alice` have requests, runs and a database at which the answer surprises.

The key step is `Invariants.SubmitTracked`. A submission grades against a key that it read several
statements ago, while an update may have replaced every choice. The invariant says: as long as the
submitted choice still belongs to its question, the key read then is the key now. It survives an
update because the update deletes every choice and inserts ids that no request can have named, and
the last insert is refused when the choice is gone.

**The metrics collectors** (`Metrics`, `Collector`, `ClientMetrics`, `Text`). The Go collector shifts
a sample array in place; the TypeScript one makes new arrays. Both are proved to hold the last
samples of what was recorded, and both percentiles are the nearest-rank percentile.

**The sign-in of the web client** (`Base64Url`, `Base64Bits`, `Base64Forgiving`, `OidcCache`,
`Session`). The base64url codec, the two caches under any interleaving of fetches, and the session
cookie as a state machine.

## Assumptions

- `gen_random_uuid` gives an id that is in no row, that no request in flight names, and that is none
  of the fifteen fixed ids of the seeded questions (`Requests.Fresh`).
- An id is carried with its spelling (`Domain.IdText`): the text Postgres prints, another spelling
  that the Go parser accepts, or no uuid at all. Go compares text, SQL compares the uuid.
  Values that stand for no text (`Spelling.Proper` says which do) say nothing about the code.
- One SQL statement outside a transaction is one step, and so is a whole transaction: its row locks
  make it atomic against attempt inserts. `GetMyQuestion` and `GetQuestion` are not single
  snapshots; their parts are claimed to agree in one state, or as far as no update comes between.
- Soft deletion is a step of the environment: nothing in the repository sets `deleted_at`.
- The clock, the ids, the order in which a query returns equal rows, the SHA-256 digest, responses
  of the provider and random bytes are inputs. The clock need not be monotone.
- Latencies are whole microseconds. The floating-point rank is the rational rank ceil(19n/20); the
  error rate and the accuracy are exact quotients.
- One session cookie is used by one request after another.

## Where the code does not do what one would expect

- A right choice in another spelling that both parsers read, without hyphens or in braces, say, is
  stored, and answered, as wrong. `GradesAreCurrent`, `StatsAreTheHistory` and
  `GradeIsTrueIffCanonical` state exactly when a grade and a statistic are right;
  `OtherSpellingIsGradedWrong` gives the inputs. Upper case is one of them exactly for an id with a
  hexadecimal letter (`UpperCaseIsGradedWrongIffLetter`).
- A comment in the quiz service says that the exclusion of the previous question is lifted when it
  is the only one. If that only question was written by a user, the retry lists system questions
  only, and a default question is served: `RepeatsIffOnlySystemQuestion`, and at one database
  `AliceIsNotRepeated`.
- The previous question is excluded by its text: in another spelling it stays a candidate
  (`ExclusionIsByText`) and, if it is the only one, is served again (`OtherSpellingIsRepeated`).
- `GetQuizQuestion` reads a question in two statements. When an update commits between them, the
  old prompt and explanation are served over the new choices: a question that may never have been
  stored (`ServesWhatNeverWas`, `AliceIsMixedUp`). It is the stored one exactly if the last such
  update kept both texts (`ServedIsStoredIff`).
- A cache hit is always younger than one minute, but the caller whose own fetch takes longer gets an
  older value (`SlowFetchIsOld`); `FreshIffTimely` says exactly when everything handed out is fresh.

## Model

| member | source | states |
|---|---|---|
| Guarantees.GradesAreCurrent | backend/internal/usecase/quiz/service.go:109-140 | in every reachable state of every interleaving, a stored grade agrees with the question's current key exactly if the choice was submitted in canonical spelling or is not the key; its question and choice are there |
| Guarantees.StatsAreTheHistory | backend/internal/infrastructure/postgres/attempt_repository.go:100-130 | the total is the number of this user's submissions that answered with an attempt id; the correct count is the count by regrading against current keys exactly if every attempt that regrades as right was spelled canonically |
| Guarantees.AccuracyIsARatio | backend/internal/infrastructure/postgres/attempt_repository.go:100-130 | only an anonymous caller is refused; anybody else gets the number of their attempts, of the right ones, and an accuracy in 0..1 that times the total is the correct count, 0 without attempts |
| Linearization.SubmissionsAreLinearizable | backend/internal/usecase/quiz/service.go:95-167 | every finished SubmitAnswer of every run, signed in or anonymous, refused or answered, of a stored question or a default one, answered with the verdict of the one state in which its last statement ran |
| Guarantees.RefusedIffReplaced | backend/internal/usecase/quiz/service.go:120-146 | whatever ran since the key was read, the attempt insert of a signed-in submission and the choice check of an anonymous one refuse it exactly if its choice does not belong any more, and otherwise answer with the key of that very state |
| Guarantees.HistoryIsPreserved | backend/db/migrations/20251225233000_init.sql:76-81 | between any two states of a run, a stored attempt stays as stored and its question keeps author, prompt, explanation, choices and key |
| Guarantees.AttemptFreezesQuestion | backend/internal/infrastructure/postgres/question_repository.go:192-240 | the same from any state that satisfies the invariant |
| Guarantees.LaterUpdatesFail | backend/internal/infrastructure/postgres/question_repository.go:217-219 | once a run holds an attempt on a question, every update of it that finishes later, begun before or after, in any spelling that SQL reads and with any draft, is answered with an error |
| Guarantees.LaterUpdatesChangeNothing | backend/internal/infrastructure/postgres/tx.go:13-28 | and no step that such an update takes from then on changes any of the five tables |
| Guarantees.ContentIsTheAuthors | backend/internal/usecase/question/service.go:56-72 | between any two states of a run a question keeps its author, and its content changes only if its author committed an update on the way, while it was live and unattempted |
| Guarantees.StepContent | backend/internal/infrastructure/postgres/question_repository.go:196-216 | one step changes a question only as such an update, and then to exactly that request's draft |
| Writing.UpdatesAreAnswered | backend/internal/usecase/question/service.go:42-73 | every finished update of every run, read off the rows its first and last step found: PermissionDenied exactly for a live question of another author, NotFound exactly for an absent or deleted one or one deleted before the commit, Internal exactly for an attempted one, Unauthenticated and InvalidArgument exactly for an anonymous caller and a bad id or draft; otherwise the row, choices and key it commits |
| Writing.CreatesAreAnswered | backend/internal/usecase/question/service.go:28-39 | every finished create of every run is refused exactly for an empty user or a draft with a faulty field, and otherwise stores one new question of its author: the draft's texts, four labels in order, the key at its ordinal |
| Writing.CreateAlone | backend/internal/usecase/question/service.go:28-39 | run alone from any well-formed state it ends so, with its author among the users; a refused one changes nothing |
| Guarantees.GetQuestionAlwaysServes | backend/internal/usecase/quiz/service.go:40-92 | a finished GetQuestion refused nothing but a malformed previous id, never ended in NotFound, and repeated the previous question only through the retry; it served a default question, or one whose row one of its steps read, live, in a state of the run and whose four choices a later step of it listed there |
| Serving.ServedIsStoredIff | backend/internal/infrastructure/postgres/question_repository.go:86-110 | what it served is the question as stored where its choices were listed exactly if no update came between the two reads, or the last one that did kept prompt and explanation |
| Serving.ShownIffSameTexts | backend/internal/infrastructure/postgres/question_repository.go:86-110 | a row read in one state over choices listed in another is the question as stored in the second exactly if prompt and explanation read the same in both |
| Serving.ServedThroughUpdate | backend/internal/infrastructure/postgres/question_repository.go:192-240 | through an update, it is the question as stored where its choices were listed exactly if the last draft kept prompt and explanation, and through one update only it is never the question as it was when its row was read |
| Serving.ServedFitsTogether | backend/internal/infrastructure/postgres/question_repository.go:86-110 | without an update between the reads it is the question as stored in both states |
| Mixture.ServesWhatNeverWas | backend/internal/infrastructure/postgres/question_repository.go:86-110 | from any start state with one live question, for any draft of its author with another prompt, there is a run that serves a question which no state of the run has stored |
| Alice.AliceIsMixedUp | backend/internal/infrastructure/postgres/question_repository.go:86-110 | such a run at a concrete database: her first prompt over the choices of her second draft |
| Serving.ServedStaysAnswerable | backend/internal/usecase/quiz/service.go:109-147 | a stored question that was served can be answered in every later state, deleted or not, as long as its author commits no update: no choice is refused and exactly one is right |
| Serving.ServedGoesStale | backend/internal/usecase/quiz/service.go:120-126 | after one update each of the choices it was served with is refused |
| Invariants.NextKeepsInv | backend/internal/usecase/quiz/service.go:109-140 | every enabled action keeps the whole invariant: well-formed tables, tracked requests, true grades, counted attempts, sound answers |
| Invariants.RunKeepsInv | backend/internal/infrastructure/postgres/tx.go:13-28 | so does every run |
| Invariants.TrackedThroughWrite | backend/internal/infrastructure/postgres/question_repository.go:217-224 | a question write, here or elsewhere, keeps it true that a named choice which still belongs means an unchanged key |
| Invariants.StoredMeansInserted | backend/internal/usecase/quiz/service.go:128-167 | a step inserts an attempt of a user exactly if it finishes a submission of that user whose response carries an attempt id |
| Invariants.FitsIsUnforeseen | backend/internal/infrastructure/postgres/question_repository.go:371-395 | no write in flight hands out an id that another request names |
| Progress.CanFinish | backend/internal/usecase/quiz/service.go:38-167 | from every state that satisfies the invariant any request in flight can be run to its answer, in at most five enabled steps of its own |
| Progress.StepsAreBounded | backend/internal/usecase/question/service.go:27-73 | in every run a request takes no more own steps than it had left, at most five, whether it finishes on the way or not and whatever the others do |
| Progress.CanRunAlone | backend/internal/usecase/quiz/service.go:38-167 | in every well-formed state a request can be run without interference, so the claims about one state are about actual runs |
| Schema.EffectKeepsWellFormed | backend/db/migrations/20251225233000_init.sql:37-109 | every committed change keeps all references, four choices and one own key per question |
| Schema.EveryOrdinalOnce | backend/db/migrations/20251225233000_init.sql:41-47 | four choices with the ordinal check and the unique index use every ordinal in 0..3 |
| Schema.WrittenChoices | backend/internal/infrastructure/postgres/question_repository.go:217-224 | a committed write gives its question exactly the fresh choices and leaves every other question's alone |
| Repository.CreateKeepsWellFormed | backend/internal/infrastructure/postgres/question_repository.go:149-190 | for any draft whatever, what CreateQuestion commits is accepted by the schema and leaves it well formed |
| Repository.UpdateKeepsWellFormed | backend/internal/infrastructure/postgres/question_repository.go:192-240 | for any draft, user and spelling, so does UpdateQuestion |
| Repository.Pool.CreateQuestion | backend/internal/infrastructure/postgres/question_repository.go:149-190 | statement by statement the transaction commits and answers as the outcome function says: all or nothing, a draft of fewer than four choices failing at commit |
| Repository.Pool.UpdateQuestion | backend/internal/infrastructure/postgres/question_repository.go:192-240 | the same for the update, whose delete fails exactly for an attempted question |
| Repository.Pool.InsertChoicesAndAnswerKey | backend/internal/infrastructure/postgres/question_repository.go:367-413 | succeeds exactly for at most four labels with the correct ordinal among them; the labels become rows in order and the key is the one at that ordinal |
| Repository.Pool.Commit | backend/internal/infrastructure/postgres/tx.go:13-28 | the working copy becomes the committed tables exactly if every touched question has four choices; otherwise they stay |
| Repository.Pool.GetMyQuestion | backend/internal/infrastructure/postgres/question_repository.go:242-282 | in one state: InvalidArgument for an id that SQL does not read, NotFound unless the question is there, live, the caller's and keyed, and otherwise its texts, choices by ordinal and key |
| Repository.Pool.ListChoices | backend/internal/infrastructure/postgres/question_repository.go:337-363 | all choices of the question, each once, by ascending ordinal |
| Repository.CreateThenRead | backend/internal/infrastructure/postgres/question_repository.go:149-282 | read straight after a create, the detail is exactly the one the create answered with, an empty explanation included |
| Repository.UpdateThenRead | backend/internal/infrastructure/postgres/question_repository.go:192-282 | the same after an update, for any castable spelling of the id |
| Repository.ChoiceListIsUnique | backend/internal/infrastructure/postgres/question_repository.go:337-363 | in a well-formed state a question has one choice list |
| Repository.RestrictMeansAttempted | backend/db/migrations/20251225233000_init.sql:60-81 | the delete of a question's choices is refused exactly if the question was attempted, and otherwise takes the key with it |
| Repository.AttemptIsStoredIff | backend/internal/infrastructure/postgres/attempt_repository.go:27-54 | an attempt is stored exactly for a stored user and a choice of a stored question in castable spellings; anything else is InvalidArgument and stores nothing |
| Repository.OrderDesc | backend/internal/infrastructure/postgres/attempt_repository.go:73 | every row once, in descending order of the key |
| Quiz.SubmitAloneVerdict | backend/internal/usecase/quiz/service.go:95-147 | in one state the steps of SubmitAnswer end in the verdict read off the tables: refusal code, grade, shown key, stored or not |
| Quiz.GradeIsTrueIffCanonical | backend/internal/usecase/quiz/service.go:128 | comparing texts grades as comparing ids exactly if the choice is spelled canonically or is not the key |
| Quiz.OtherSpellingIsGradedWrong | backend/internal/usecase/quiz/service.go:128 | for every question, its right choice written without hyphens or in braces is accepted and graded wrong, and graded right in its canonical text |
| Quiz.UpperCaseIsGradedWrongIffLetter | backend/internal/usecase/quiz/service.go:128 | in upper case it is graded wrong exactly if its id has a hexadecimal letter |
| Spelling.SeededHasNoLetter | backend/db/migrations/20251225233000_init.sql:131 | the seeded right choice 1001 has none, so its upper-case text is its canonical one |
| Spelling.ComparingTextsIsComparing | backend/internal/usecase/quiz/service.go:128 | for every text and every 128-bit id, comparing the text with the canonical one is comparing the values that stand for them here |
| Quiz.GetAlone | backend/internal/usecase/quiz/service.go:40-92 | in one state GetQuestion serves a live question of the settled candidate set as it is stored, prompt, explanation and choices, or a default one if that set is empty |
| Draws.DrawsOnlyThese | backend/internal/usecase/quiz/service.go:50-91 | on the question rows: while another question of a user is live, any other live question may be served, the system's included; otherwise another one of the system, otherwise the previous one if it is the system's; nothing else is, and a default question exactly if there is none of these |
| Draws.EachIsDrawn | backend/internal/usecase/quiz/service.go:198-215 | each question that may be served is the one served for some digest and order of equal rows |
| Quiz.RepeatsIffOnlySystemQuestion | backend/internal/usecase/quiz/service.go:50-91 | with a canonical previous id the same question comes back exactly if it is the only live one and its author is "system" |
| Quiz.ExclusionIsByText | backend/internal/infrastructure/postgres/question_repository.go:39-63 | the previous question is kept out of the candidates exactly if its id is spelled canonically or it is no candidate anyway |
| Deviations.LoneUserQuestionIsNotRepeated | backend/internal/usecase/quiz/service.go:65-80 | where the only live question was written by a user, asking for another one gets a default question |
| Deviations.OtherSpellingIsRepeated | backend/internal/infrastructure/postgres/question_repository.go:39-63 | where one question is live, naming it in another spelling as the previous one gets it served again, whoever wrote it |
| Alice.AliceIsNotRepeated | backend/internal/usecase/quiz/service.go:65-80 | at a concrete database, the migrated one with a question of alice and the seeded ones deleted, asking for another question than hers gets a default one |
| Alice.AliceIsRepeatedInBraces | backend/internal/infrastructure/postgres/question_repository.go:39-63 | there, naming hers in braces gets it served again |
| Alice.AliceIsReached | backend/db/migrations/20251225233000_init.sql:111-163 | a run from the migrated database gets to that one |
| Quiz.ServedIsAnswerable | backend/internal/usecase/quiz/service.go:77-91 | of the four choices of whatever GetQuestion serves none is refused in that state and exactly one is graded correct, for stored and default questions, if the rows with default ids are absent or as seeded |
| Fallback.RunKeepsDefaults | backend/internal/usecase/quiz/default_questions.go:7-47 | over every run in which nobody updates as the user "system", the rows with default ids stay absent or as seeded |
| Fallback.ServedIsAnswerableInRuns | backend/internal/usecase/quiz/service.go:109-147 | so in every state of such a run whatever is served can be answered |
| Fallback.SeedIsStart | backend/db/migrations/20251225233000_init.sql:111-163 | the migrated database is a start state with the default rows as the fallback set has them |
| QuizSelection.SelectDefaultQuestion | backend/internal/usecase/quiz/service.go:170-197 | the loops filter, pick and find exactly the fallback question; the last return is never reached |
| QuizSelection.DefaultFor | backend/internal/usecase/quiz/service.go:170-197 | the default set always yields a question other than the previous one |
| QuizSelection.DefaultsAreDistinct | backend/internal/usecase/quiz/default_questions.go:7-41 | no two default questions share an id |
| QuizSelection.Pick | backend/internal/usecase/quiz/service.go:201-215 | the picked index is in range |
| Usecases.QuizUsecase.SubmitAnswer | backend/internal/usecase/quiz/service.go:95-147 | answers with the verdict of the state it started in, and adds the user and one attempt row exactly when it answers with an attempt id; otherwise no table changes |
| Usecases.QuizUsecase.GetQuestion | backend/internal/usecase/quiz/service.go:40-92 | a malformed previous id is InvalidArgument; otherwise, of all the questions that may be served, newest first, the one at the digest of the request id (or of "no-request-id") modulo their number, as stored; a default one exactly if there is none |
| Usecases.QuizUsecase.GetQuizQuestion | backend/internal/infrastructure/postgres/question_repository.go:86-110 | a live question as stored, NotFound for one that is not live, InvalidArgument for an id that is no uuid |
| Usecases.QuizUsecase.ListCandidates | backend/internal/infrastructure/postgres/question_repository.go:39-84 | exactly the live questions of the asked authors other than the previous one, each once, by descending creation time |
| Usecases.ValidateDraft | backend/internal/usecase/question/service.go:106-131 | lists exactly the faulty fields, and none exactly for a valid draft |
| Usecases.ListMyAttempts | backend/internal/infrastructure/postgres/attempt_repository.go:56-98 | the first rows of the user's joined attempts in descending time, up to the normalized limit |
| Usecases.PageIsTheNewest | backend/internal/usecase/user/service.go:22-34 | the join drops nothing: a page has min(limit, total) distinct attempts of this user in non-increasing time, and none left out is newer |
| Usecases.NormalizePageSize | backend/internal/usecase/user/service.go:45-53 | the limit is in 1..100: the request if that is, 20 for none, 100 for more |
| Collector.Collector.RecordRPC | backend/internal/infrastructure/observability/collector.go:56-78 | the call is logged under its normalized name, as a failure unless its code is 0, with a latency m such that 1000 m is its nanoseconds without the last part of a microsecond, toward zero; each window stays the last samples of its method, and the counters count its calls and failures |
| Collector.Collector.Snapshot | backend/internal/infrastructure/observability/collector.go:81-131 | exactly the recorded methods, strictly sorted, with their counts, rate and percentile; counts sum to the number of calls; nothing changes |
| Collector.Collector.constructor | backend/internal/infrastructure/observability/collector.go:44-53 | starts empty, with the default window where the given one is not positive |
| Collector.AppendLatencySample | backend/internal/infrastructure/observability/collector.go:149-161 | appending to the slice, behind it in its array, in a larger array or by the in-place shift, leaves what the functional append of the TypeScript collector returns; the result keeps the array or shares none |
| Collector.CalculateP95 | backend/internal/infrastructure/observability/collector.go:164-181 | the Go form agrees with the TypeScript form on every sample sequence |
| Collector.MethodNameIsTrimmed | backend/internal/infrastructure/observability/collector.go:134-140 | a blank name is "unknown", any other loses the space at its ends and no more |
| Domain.GoSpaceIsWhiteSpace | backend/internal/infrastructure/observability/collector.go:135 | what counts as space there is the 25 code points of the Unicode property White_Space |
| Collector.SnapshotTotals | backend/internal/infrastructure/observability/collector.go:107-121 | a snapshot of all recorded names accounts for every call once |
| Collector.SortByNameSorts | backend/internal/infrastructure/observability/collector.go:123-125 | distinct names come out strictly ascending |
| Collector.NameLessIff | backend/internal/infrastructure/observability/collector.go:123-125 | a name comes first exactly if, behind what the two share in front, it ends or goes on with the smaller character |
| Metrics.AppendKeepsLast | client/app/services/observability.server.ts:253-265 | appending to the window of the last n gives the window of the last n |
| Metrics.WindowSnoc | client/app/services/observability.server.ts:236-250 | one more call counts into the window of its own name and no other |
| Metrics.P95IsNearestRank | client/app/services/observability.server.ts:268-276 | the percentile is the only sample with at least ceil(19n/20) samples at most it and fewer below it |
| Metrics.P95IsOrderFree | client/app/services/observability.server.ts:268-276 | it does not depend on the order of the samples |
| Metrics.ClampsNeverFire | backend/internal/infrastructure/observability/collector.go:173-180 | for a non-empty window both index computations give the rank minus one, and no clamp acts |
| ClientMetrics.MetricStore.RecordMetric | client/app/services/observability.server.ts:236-250 | each window is the last 512 samples under its key, with its counters |
| ClientMetrics.MetricStore.GetMetricSnapshots | client/app/services/observability.server.ts:139-167 | one entry per key with its decoded scope and name, counts, rate and percentile |
| ClientMetrics.DecodeUndoesKey | client/app/services/observability.server.ts:142-144 | a key decodes to "grpc" or "http" and the name it was made of, colons in the name included |
| ClientMetrics.KeysAreInjective | client/app/services/observability.server.ts:237 | different metrics never share a window |
| ClientMetrics.NormalizeIsSegmentwise | client/app/services/observability.server.ts:221-233 | any path becomes its non-empty parts in order, dynamic ones as ":id" and static ones as they are; a path without any becomes "/" |
| ClientMetrics.NormalizeIsIdempotent | client/app/services/observability.server.ts:221-233 | a normalized path has no dynamic segment and is its own normal form |
| ClientMetrics.DynamicIff | client/app/services/observability.server.ts:6-7 | a segment is replaced exactly if it fits the 36-character pattern for uuids, character class by character class, or is a non-empty text of digits |
| Base64Url.DecodeUndoesEncode | client/app/services/oidc.server.ts:422-440 | decoding the encoding of any byte sequence gives it back |
| Base64Url.EncodeIsInjective | client/app/services/oidc.server.ts:434-440 | different bytes have different encodings |
| Base64Url.EncodingShape | client/app/services/oidc.server.ts:434-440 | only symbols of section 5 of RFC 4648, ceil(4n/3) of them, never 1 mod 4 |
| Base64Bits.SymbolsAreTheBits | client/app/services/oidc.server.ts:434-440 | group by group the symbols spell the 24 bits of the bytes, as section 4 of RFC 4648 says |
| Base64Bits.EncodedSymbol | client/app/services/oidc.server.ts:434-440 | each symbol of an encoding is the one that the table in section 5 of RFC 4648 gives for its six bits of the three bytes |
| Base64Forgiving.DecodesIff | client/app/services/oidc.server.ts:422-431 | exactly when a text decodes, whitespace and padding in it included: its core consists of symbols of either alphabet, has not length 1 mod 4, and no `=` follows it or the one or two that fill up a multiple of four |
| Base64Forgiving.DecodesTo | client/app/services/oidc.server.ts:422-431 | and to what: 3n/4 bytes of a core of n symbols, each the eight bits that its group of four symbols has in that place; bits that fill up no byte are dropped |
| Base64Url.EncodeBase64Url | client/app/services/oidc.server.ts:434-440 | the loop over the byte array computes the encoding |
| Base64Url.DecodeBase64UrlBytes | client/app/services/oidc.server.ts:422-431 | the loop fills a fresh array with the decoded bytes, and fails exactly where the decoder does |
| OidcCache.HitsAreFresh | client/app/services/oidc.server.ts:160-197 | under any interleaving of lookups and responses a returned value was accepted from a response of this run, to a fetch that a lookup of its key began, and a cached one comes from a fetch begun less than 60000 ms before |
| OidcCache.FreshIffTimely | client/app/services/oidc.server.ts:160-197 | everything a run hands out is younger than one lifetime exactly if every accepted response arrived that soon after its fetch began |
| OidcCache.SlowFetchIsOld | client/app/services/oidc.server.ts:327-351 | a fetch of a whole lifetime gives its own caller an older value, and stores an entry that is expired on arrival |
| OidcCache.ArrivedIsServed | client/app/services/oidc.server.ts:161-195 | in any state, an accepted answer is what lookups of its key get exactly until 60000 ms after its fetch began; other keys are served as before |
| OidcCache.KeyListsAreNonEmpty | client/app/services/oidc.server.ts:341-350 | in every interleaving every key list stored or handed out is non-empty, and one handed out was received in the run |
| OidcCache.DocumentsWereReceived | client/app/services/oidc.server.ts:176-196 | in every interleaving a discovery document handed out was received whole in the run, by a fetch for the issuer that was asked |
| OidcCache.DocumentsAreWhole | client/app/services/oidc.server.ts:176-191 | a discovery response is accepted exactly if it carries all four texts, and then each lands in its member |
| OidcCache.RefusedIsNeverStored | client/app/services/oidc.server.ts:172-184 | every value in the cache after any run was accepted from a response of that run, to a fetch of its key |
| OidcCache.TtlCache.Lookup | client/app/services/oidc.server.ts:161-166 | serves the answer that arrived last for the key, exactly while its fetch began less than 60000 ms ago |
| OidcCache.TtlCache.Arrive | client/app/services/oidc.server.ts:192-195 | an accepted answer becomes its key's last arrival, however old its fetch, and every key keeps holding its last arrival; a refused one changes nothing |
| OidcCache.FindJwkByKid | client/app/services/oidc.server.ts:316-324 | the first key of the asked id, or the first key if none is asked for; fails exactly if there is none |
| Session.SignedInThroughOwnLogin | client/app/routes/auth.callback.tsx:41-115 | whoever is signed in at the end of any run got there by a callback that answered a login begun earlier in that run: its state and its signed nonce are the ones drawn there, and its claims were unexpired, of the issuer, for this client and with the subject that is signed in |
| Session.CallbackSignsInIff | client/app/routes/auth.callback.tsx:41-95 | a callback signs in exactly if it has no error, a code, the pending state, and claims that name a subject, the issuer, the client, the pending nonce and an expiry less than 30 seconds past; it then leaves exactly that subject, the token and nothing pending |
| Session.ValidateIdTokenClaims | client/app/services/oidc.server.ts:354-376 | check by check, accepts exactly these claims and otherwise fails with 401 |
| Session.RunIsCoherent | client/app/services/session.server.ts:111-177 | in every run the four pending fields are all present and readable or all absent |
| Session.OneStep | client/app/routes/auth.callback.tsx:41-115 | every callback outcome clears the pending login; the user id changes only by a matching callback or by a logout that posts the session's own token, the token only from none to issued or by such a logout |
| Session.LoginsNeedBegins | client/app/services/session.server.ts:72-77 | in every run there are at most as many completed logins as begun ones |
| Session.LoginCompletes | client/app/routes/auth.callback.tsx:85-95 | a login begun and answered with unexpired claims of the issuer, for the client, for its state and nonce, signs in the trimmed subject and leaves nothing pending |
| Session.OtherLoginIsRefused | client/app/routes/auth.callback.tsx:76-83 | an answer to a login with other state or nonce bytes leaves the user id alone |
| Session.TokenIsConstant | client/app/services/session.server.ts:137-150 | in a run in which no logout goes through an issued token never changes, whatever forged posts were refused |
| Session.PendingReadsBack | client/app/services/session.server.ts:163-170 | a login just stored reads back with the state, nonce and code verifier that it drew, each in its place, and its trimmed redirect path |
| Session.JsSpaceIsWhiteSpace | client/app/services/session.server.ts:86-93 | what `trim` takes off here is those without the next line character, and the byte order mark |
| Session.SessionCookie.HandleCallback | client/app/routes/auth.callback.tsx:41-115 | every branch ends in the state the machine says; it redirects exactly for a callback that signs in, to the sanitized path of that login, and otherwise shows 400 for a missing code or state, the status of a failed exchange, or 401 |
| Session.SessionCookie.HandleLogin | client/app/routes/login.tsx:17-65 | every branch ends in the state the machine says; a signed-in user is redirected exactly to a text with one slash in front and no second, or else sees the page and holds a token; anybody else is sent to the provider with what was drawn pending, or shown the failure with nothing changed |
| Session.SessionCookie.HandleLogout | client/app/routes/login.tsx:68-81 | the session is emptied exactly if the posted token is the session's and the intent is logout; without the token the answer is 403, with another intent 400 |
| Session.SessionCookie.CreateUserSession | client/app/services/session.server.ts:180-190 | refuses a blank user id without a change; otherwise clears the pending login and stores the trimmed id |
| Session.SessionCookie.EnsureCsrfToken | client/app/services/session.server.ts:137-150 | returns the token that the session holds afterwards, and keeps one that is there |
| Session.SanitizeRedirectTo | client/app/services/auth.server.ts:13-23 | a text with one slash in front and no second is kept, anything else becomes the fallback |
| Text.TrimIsTrimmed | backend/internal/infrastructure/observability/collector.go:135 | trimming takes space off both ends, and no more than space |
| Text.TrimmedIsUnique | backend/internal/infrastructure/observability/collector.go:135 | no other text is a trimmed form of it |

## Left out

- gRPC and protobuf, interceptors, adapters, React and Remix rendering, forms, status and message tables: field copying.
- Signature verification, SHA-256, random generation, HTTP and JSON parsing: inputs of the steps that use them.
- Database and connection failures, and the codes they lead to.
- Isolation below the step: locks, snapshots inside one transaction, a commit whose answer is lost.
- `ListMyQuestions` and the argument checks of the question use case's `GetMyQuestion`: a filter and an order that `ListMyAttempts` shows in harder form.
- Texts that Postgres refuses, such as those holding a NUL, and the 32-bit width of ordinals and page sizes: no value here reaches it.
- Counters of the Go collector are unbounded here; at 2^64 calls they would wrap around.
- The mutex of the Go collector: its methods are atomic here. A nil collector and the collection time are not modelled.
- Collector.SortInPlace: takes the sorted order from a function; how the library sorts is not modelled.
- Repository.OrderDesc: ties come in some order; the database's choice is not modelled beyond that.
- Rounding of error rates, accuracies and latencies in milliseconds.
- ClientMetrics.MetricStore.GetMetricSnapshots: does not model the final sort, because `localeCompare` depends on the locale.
- Session.SessionCookie.HandleCallback: keeps of a failure page only its status, and a failure outside the sign-in errors has whatever status the exchange is given; messages and retry links are not modelled.
- Session.SanitizeRedirectTo: says which texts are kept, not where a browser goes with them; browsers read a backslash there as a slash.
- Concurrent tabs: two requests that carry the same cookie overwrite each other's changes. Cookie signing, expiry and secrets.
- An identity token whose `sub` is no text, or whose `exp` is no whole number.
- Page tokens, which are always empty, logging, timers, environment parsing, deployment.
