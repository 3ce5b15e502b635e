/** What GetQuestion serves when updates come between its two reads, and how long it stays good. */
module Serving {
  import opened Domain
  import opened Schema
  import opened Repository
  import opened Requests
  import opened Invariants
  import opened Timeline
  import opened Guarantees
  import opened Quiz

  // ---------------------------------------------------------------- updates between two states

  /** No action from `n` on and before `m` commits an update of `q`. */
  ghost predicate NoUpdateBetween(w0: World, actions: seq<Action>, q: Uuid, n: nat, m: nat)
    requires Runs(w0, actions) && m <= |actions|
  {
    forall k | n <= k < m :: !OwnUpdate(At(w0, actions, k), actions[k], q)
  }

  /** Action `k` is the last of them that does. */
  ghost predicate IsLastUpdate(w0: World, actions: seq<Action>, q: Uuid, n: nat, m: nat, k: nat)
    requires Runs(w0, actions) && m <= |actions|
  {
    && n <= k < m && OwnUpdate(At(w0, actions, k), actions[k], q)
    && NoUpdateBetween(w0, actions, q, k + 1, m)
  }

  lemma {:induction false} LastUpdate(w0: World, actions: seq<Action>, q: Uuid, n: nat, m: nat) returns (k: nat)
    requires Runs(w0, actions) && m <= |actions| && !NoUpdateBetween(w0, actions, q, n, m)
    ensures IsLastUpdate(w0, actions, q, n, m, k)
    decreases m
  {
    hide At, Runs, OwnUpdate;
    if OwnUpdate(At(w0, actions, m - 1), actions[m - 1], q) {
      k := m - 1;
    } else {
      k := LastUpdate(w0, actions, q, n, m - 1);
    }
  }

  predicate Keyed(db: Tables, q: Uuid) {
    q in db.questions && q in db.answerKeys
  }

  /** Without an update of it a question's content stays as it is. */
  lemma {:induction false} ContentStays(w0: World, actions: seq<Action>, q: Uuid, n: nat, m: nat)
    requires StartState(w0) && Runs(w0, actions) && n <= m <= |actions| && Keyed(At(w0, actions, n).db, q)
    requires NoUpdateBetween(w0, actions, q, n, m)
    ensures Keyed(At(w0, actions, m).db, q)
    ensures ContentOf(At(w0, actions, m).db, q) == ContentOf(At(w0, actions, n).db, q)
    decreases m
  {
    hide At, Runs, OwnUpdate, StartState, Inv, Enabled, Next, ContentOf, RevisedTo;
    if n < m {
      ContentStays(w0, actions, q, n, m - 1);
      InvAt(w0, actions, m - 1);
      StepAt(w0, actions, m - 1);
      StepContent(At(w0, actions, m - 1), actions[m - 1], q);
    }
  }

  lemma KeyedWhereStored(w0: World, actions: seq<Action>, q: Uuid, n: nat)
    requires StartState(w0) && Runs(w0, actions) && n <= |actions| && q in At(w0, actions, n).db.questions
    ensures Keyed(At(w0, actions, n).db, q) && WellFormed(At(w0, actions, n).db)
  {
    InvAt(w0, actions, n);
    hide At, Runs, StartState;
  }

  lemma OwnUpdateEffect(w: World, a: Action, q: Uuid)
    requires Enabled(w, a) && OwnUpdate(w, a, q)
    ensures var r := w.requests[a.rid];
            && StepOf(w.db, r, a.env).effect == ReplaceQuestion(q, a.env.ids, r.draft, a.env.now)
            && Next(w, a).db == Apply(w.db, StepOf(w.db, r, a.env).effect)
  {
    hide Attempted, IsBlank;
  }

  lemma ReplaceCommits(db: Tables, e: Effect)
    requires e.ReplaceQuestion? && Legal(db, e) && SoundChoices(db.choices, db.questions.Keys)
    ensures var db' := Apply(db, e);
            && Keyed(db', e.question) && ChoicesOf(db', e.question) !! ChoicesOf(db, e.question)
            && db'.questions[e.question].prompt == e.draft.prompt
            && db'.questions[e.question].explanation == NullIfEmpty(e.draft.explanation)
  {
    WrittenChoices(db, e, e.question);
    hide SoundChoices;
  }

  /** An update commits its draft, under choices none of which the question had before. */
  lemma OwnUpdateCommits(w: World, a: Action, q: Uuid)
    requires Inv(w) && Enabled(w, a) && OwnUpdate(w, a, q)
    ensures var db', draft := Next(w, a).db, w.requests[a.rid].draft;
            && Keyed(db', q) && ChoicesOf(db', q) !! ChoicesOf(w.db, q)
            && db'.questions[q].prompt == draft.prompt && db'.questions[q].explanation == NullIfEmpty(draft.explanation)
  {
    var r := w.requests[a.rid];
    OwnUpdateEffect(w, a, q);
    StepIsLegal(w, r, a.env);
    assert SoundChoices(w.db.choices, w.db.questions.Keys);
    hide StepOf, Fits, Inv, Next, OwnUpdate, SoundChoices, Enabled;
    ReplaceCommits(w.db, StepOf(w.db, r, a.env).effect);
  }

  // ---------------------------------------------------------------- served and stored

  lemma SameContentShows(db: Tables, db': Tables, q: Uuid, cs: seq<Choice>)
    requires Keyed(db, q) && Keyed(db', q)
    requires ContentOf(db, q) == ContentOf(db', q) && IsChoiceList(db', q, cs)
    ensures IsChoiceList(db, q, cs)
    ensures db.questions[q].prompt == db'.questions[q].prompt
            && db.questions[q].explanation == db'.questions[q].explanation
  {
    assert ContentOf(db, q).choices.Keys == ChoicesOf(db, q) && ContentOf(db', q).choices.Keys == ChoicesOf(db', q);
    forall i | 0 <= i < |cs| ensures Shows(db.choices, q, cs[i]) {
      assert Shows(db'.choices, q, cs[i]) && cs[i].id.id in ContentOf(db', q).choices;
      assert ContentOf(db, q).choices[cs[i].id.id] == db'.choices[cs[i].id.id];
    }
  }

  /** Two rows that read the same. */
  predicate SameTexts(a: QuestionRow, b: QuestionRow) {
    a.prompt == b.prompt && Coalesce(a.explanation) == Coalesce(b.explanation)
  }

  predicate KeepsTexts(draft: Draft, row: QuestionRow) {
    draft.prompt == row.prompt && draft.explanation == Coalesce(row.explanation)
  }

  /** `question` is put together from the row of `q` in one state and its choices in another. */
  ghost predicate ReadFrom(db: Tables, db': Tables, q: Uuid, question: Question) {
    && Keyed(db, q) && Keyed(db', q) && |ChoicesOf(db', q)| == 4 && IsChoiceList(db', q, question.choices)
    && var row := db.questions[q];
       question == Question(Canonical(q), row.prompt, question.choices, Coalesce(row.explanation))
  }

  /** It is the question as stored where its choices were listed exactly if the texts there are the
      ones that were read. */
  lemma ShownIffSameTexts(db: Tables, db': Tables, q: Uuid, question: Question)
    requires ReadFrom(db, db', q, question)
    ensures Shown(db', q, question) <==> SameTexts(db'.questions[q], db.questions[q])
  {
    hide IsChoiceList;
  }

  lemma NotShownWithoutChoices(db: Tables, db': Tables, q: Uuid, question: Question)
    requires ReadFrom(db, db', q, question) && ChoicesOf(db', q) !! ChoicesOf(db, q)
    ensures !Shown(db, q, question)
  {
    var c := question.choices[0];
    assert Shows(db'.choices, q, c);
    var id := c.id.id;
    assert id in ChoicesOf(db', q);
    assert Shown(db, q, question) ==> Shows(db.choices, q, c);
    assert Shows(db.choices, q, c) ==> id in ChoicesOf(db, q);
  }

  lemma ShownInBoth(db: Tables, db': Tables, q: Uuid, question: Question)
    requires ReadFrom(db, db', q, question) && ContentOf(db, q) == ContentOf(db', q)
    ensures Shown(db, q, question) && Shown(db', q, question)
  {
    hide ContentOf, IsChoiceList;
    SameContentShows(db, db', q, question.choices);
  }

  lemma SameContentTexts(db: Tables, db': Tables, q: Uuid)
    requires Keyed(db, q) && Keyed(db', q) && ContentOf(db, q) == ContentOf(db', q)
    ensures ChoicesOf(db, q) == ChoicesOf(db', q)
    ensures db.questions[q].prompt == db'.questions[q].prompt
            && db.questions[q].explanation == db'.questions[q].explanation
  {
    assert ContentOf(db, q).choices.Keys == ChoicesOf(db, q) && ContentOf(db', q).choices.Keys == ChoicesOf(db', q);
  }

  /** The stored question that an entry picked, and what it served. */
  function PickedIn(e: Entry): Uuid {
    if e.request.Get? && e.request.get.RowRead? then e.request.get.picked else 0
  }

  function ServedIn(e: Entry): Question {
    if e.response.Served? && e.response.served.Ok? then e.response.served.value else Question(Blank, "", [], "")
  }

  lemma PickedIsStored(w: World, r: Request, rid: nat)
    requires Inv(w) && rid in w.requests && w.requests[rid] == r && r.Get? && r.get.RowRead?
    ensures r.get.picked in w.db.questions
  {
    assert Tracked(w.db, w.requests[rid]);
  }

  lemma ServedIsReadFrom(w0: World, actions: seq<Action>, i: nat, rid: nat, n: nat, m: nat)
    requires StartState(w0) && Runs(w0, actions) && ServedFrom(w0, actions, i, rid, n, m)
    ensures var e := After(w0, actions).log[i];
            n < m <= |actions| && ReadFrom(At(w0, actions, n).db, At(w0, actions, m).db, PickedIn(e), ServedIn(e))
  {
    var e := After(w0, actions).log[i];
    InvAt(w0, actions, m);
    var wn, wm := At(w0, actions, n), At(w0, actions, m);
    hide Runs, StartState, Inv, IsChoiceList, Held;
    KeyedWhereStored(w0, actions, PickedIn(e), n);
    PickedIsStored(wm, e.request, rid);
    hide At;
    KeyedWhereStored(w0, actions, PickedIn(e), m);
    hide Inv, IsChoiceList, OrdinalsUnique, SoundAttempts, SoundKeys, SoundChoices, AuthorsExist;
  }

  // ---------------------------------------------------------------- updates between the two reads

  /** Without an update between the two reads, what was served is the question as stored in both
      states. */
  lemma ServedFitsTogether(w0: World, actions: seq<Action>, i: nat, rid: nat, n: nat, m: nat)
    requires StartState(w0) && Runs(w0, actions) && ServedFrom(w0, actions, i, rid, n, m)
    requires NoUpdateBetween(w0, actions, PickedIn(After(w0, actions).log[i]), n, m)
    ensures var e := After(w0, actions).log[i];
            && Shown(At(w0, actions, n).db, PickedIn(e), ServedIn(e))
            && Shown(At(w0, actions, m).db, PickedIn(e), ServedIn(e))
  {
    var e := After(w0, actions).log[i];
    ServedIsReadFrom(w0, actions, i, rid, n, m);
    hide At, Runs, StartState, ServedFrom, NoUpdateBetween, ContentOf, Shown, PickedIn, ServedIn;
    assert Keyed(At(w0, actions, n).db, PickedIn(e));
    hide ReadFrom;
    ContentStays(w0, actions, PickedIn(e), n, m);
    ShownInBoth(At(w0, actions, n).db, At(w0, actions, m).db, PickedIn(e), ServedIn(e));
  }

  /** The update at `k` is the last before the choices were listed. */
  lemma UpdatedTexts(w0: World, actions: seq<Action>, q: Uuid, n: nat, m: nat, k: nat)
    requires StartState(w0) && Runs(w0, actions) && m <= |actions| && IsLastUpdate(w0, actions, q, n, m, k)
    ensures var draft, db := At(w0, actions, k).requests[actions[k].rid].draft, At(w0, actions, m).db;
            && Keyed(db, q) && db.questions[q].prompt == draft.prompt
            && Coalesce(db.questions[q].explanation) == draft.explanation
            && ChoicesOf(db, q) !! ChoicesOf(At(w0, actions, k).db, q)
  {
    InvAt(w0, actions, k);
    StepAt(w0, actions, k);
    hide At, Runs, StartState, Inv, Enabled, Next, ContentOf, ChoicesIn, NoUpdateBetween;
    OwnUpdateCommits(At(w0, actions, k), actions[k], q);
    hide OwnUpdate;
    ContentStays(w0, actions, q, k + 1, m);
    SameContentTexts(At(w0, actions, k + 1).db, At(w0, actions, m).db, q);
  }

  /** Through an update, the last one before its choices were listed: what was served is the
      question as stored there exactly if that draft kept the texts that were read; and if no other
      update came before it, it is not the question as it was stored when it was read. */
  lemma ServedThroughUpdate(w0: World, actions: seq<Action>, i: nat, rid: nat, n: nat, m: nat, k: nat)
    requires StartState(w0) && Runs(w0, actions) && ServedFrom(w0, actions, i, rid, n, m)
    requires IsLastUpdate(w0, actions, PickedIn(After(w0, actions).log[i]), n, m, k)
    ensures var e := After(w0, actions).log[i]; var q := PickedIn(e);
            && q in At(w0, actions, n).db.questions
            && (Shown(At(w0, actions, m).db, q, ServedIn(e)) <==>
                KeepsTexts(At(w0, actions, k).requests[actions[k].rid].draft, At(w0, actions, n).db.questions[q]))
            && (NoUpdateBetween(w0, actions, q, n, k) ==> !Shown(At(w0, actions, n).db, q, ServedIn(e)))
  {
    var e := After(w0, actions).log[i];
    var q := PickedIn(e);
    ServedIsReadFrom(w0, actions, i, rid, n, m);
    hide At, Runs, StartState, ServedFrom, OwnUpdate, ContentOf, IsChoiceList, ChoicesIn, Shown, NoUpdateBetween;
    hide PickedIn, ServedIn;
    UpdatedTexts(w0, actions, q, n, m, k);
    ShownIffSameTexts(At(w0, actions, n).db, At(w0, actions, m).db, q, ServedIn(e));
    if NoUpdateBetween(w0, actions, q, n, k) {
      ContentStays(w0, actions, q, n, k);
      SameContentTexts(At(w0, actions, n).db, At(w0, actions, k).db, q);
      NotShownWithoutChoices(At(w0, actions, n).db, At(w0, actions, m).db, q, ServedIn(e));
    }
  }

  /** The last update before the choices were listed, if there is one, kept the texts read. */
  ghost predicate LastUpdateKeptTexts(w0: World, actions: seq<Action>, q: Uuid, n: nat, m: nat)
    requires Runs(w0, actions) && n <= m <= |actions|
  {
    q in At(w0, actions, n).db.questions &&
    forall k: nat | IsLastUpdate(w0, actions, q, n, m, k) ::
      KeepsTexts(At(w0, actions, k).requests[actions[k].rid].draft, At(w0, actions, n).db.questions[q])
  }

  lemma LastUpdateIsUnique(w0: World, actions: seq<Action>, q: Uuid, n: nat, m: nat, j: nat, k: nat)
    requires Runs(w0, actions) && m <= |actions|
    requires IsLastUpdate(w0, actions, q, n, m, j) && IsLastUpdate(w0, actions, q, n, m, k)
    ensures j == k
  {
    hide At, Runs, OwnUpdate;
  }

  /** Both together: what was served is the question as stored where its choices were listed,
      exactly if no update came between the reads or the last one kept the texts. */
  lemma ServedIsStoredIff(w0: World, actions: seq<Action>, i: nat, rid: nat, n: nat, m: nat)
    requires StartState(w0) && Runs(w0, actions) && ServedFrom(w0, actions, i, rid, n, m) && n <= m <= |actions|
    ensures var e := After(w0, actions).log[i];
            Shown(At(w0, actions, m).db, PickedIn(e), ServedIn(e)) <==>
              LastUpdateKeptTexts(w0, actions, PickedIn(e), n, m)
  {
    var q := PickedIn(After(w0, actions).log[i]);
    ServedIsReadFrom(w0, actions, i, rid, n, m);
    assert q in At(w0, actions, n).db.questions;
    hide At, Runs, StartState, ServedFrom, Shown, KeepsTexts, ReadFrom, PickedIn, ServedIn, OwnUpdate;
    if NoUpdateBetween(w0, actions, q, n, m) {
      ServedFitsTogether(w0, actions, i, rid, n, m);
    } else {
      hide NoUpdateBetween;
      var k := LastUpdate(w0, actions, q, n, m);
      ServedThroughUpdate(w0, actions, i, rid, n, m, k);
      forall j: nat | IsLastUpdate(w0, actions, q, n, m, j) ensures j == k {
        LastUpdateIsUnique(w0, actions, q, n, m, j, k);
      }
    }
  }

  // ---------------------------------------------------------------- answering it later

  /** A stored question that was served stays answerable in every later state, deleted or not, as
      long as its author commits no update: no choice is refused, and exactly one is right. */
  lemma ServedStaysAnswerable(w0: World, actions: seq<Action>, i: nat, rid: nat, n: nat, m: nat, j: nat, user: string)
    requires StartState(w0) && Runs(w0, actions) && ServedFrom(w0, actions, i, rid, n, m) && m <= j <= |actions|
    requires NoUpdateBetween(w0, actions, PickedIn(After(w0, actions).log[i]), m, j)
    ensures exists k :: Answerable(At(w0, actions, j).db, user, ServedIn(After(w0, actions).log[i]), k)
  {
    var e := After(w0, actions).log[i];
    var q := PickedIn(e);
    ServedIsReadFrom(w0, actions, i, rid, n, m);
    hide At, Runs, StartState, ServedFrom, NoUpdateBetween, ContentOf, PickedIn, ServedIn, Answerable;
    ContentStays(w0, actions, q, m, j);
    KeyedWhereStored(w0, actions, q, j);
    SameContentShows(At(w0, actions, j).db, At(w0, actions, m).db, q, ServedIn(e).choices);
    hide WellFormed, IsChoiceList;
    StoredIsAnswerable(At(w0, actions, j).db, user, ServedIn(e), q);
  }

  lemma GoneIsRefused(db: Tables, db': Tables, q: Uuid, question: Question, user: string, c: nat)
    requires Keyed(db', q) && question.id == Canonical(q) && IsChoiceList(db, q, question.choices)
    requires c < |question.choices| && ChoicesOf(db', q) !! ChoicesOf(db, q)
    ensures VerdictOf(db', user, question.id, question.choices[c].id) == Err(InvalidArgument)
  {
    assert Shows(db.choices, q, question.choices[c]);
    var id := question.choices[c].id.id;
    assert id in ChoicesOf(db, q);
    assert Belongs(db', id, q) ==> id in ChoicesOf(db', q);
  }

  /** After one update none of its choices is accepted any more. */
  lemma ServedGoesStale(w0: World, actions: seq<Action>, i: nat, rid: nat, n: nat, m: nat, j: nat, k: nat, user: string,
      c: nat)
    requires StartState(w0) && Runs(w0, actions) && ServedFrom(w0, actions, i, rid, n, m) && m <= j <= |actions|
    requires var q := PickedIn(After(w0, actions).log[i]);
             IsLastUpdate(w0, actions, q, m, j, k) && NoUpdateBetween(w0, actions, q, m, k)
    requires c < |ServedIn(After(w0, actions).log[i]).choices|
    ensures var question := ServedIn(After(w0, actions).log[i]);
            VerdictOf(At(w0, actions, j).db, user, question.id, question.choices[c].id) == Err(InvalidArgument)
  {
    var e := After(w0, actions).log[i];
    var q := PickedIn(e);
    ServedIsReadFrom(w0, actions, i, rid, n, m);
    hide At, Runs, StartState, ServedFrom, NoUpdateBetween, OwnUpdate, ContentOf, PickedIn, ServedIn, ChoicesIn;
    hide IsChoiceList;
    UpdatedTexts(w0, actions, q, m, j, k);
    ContentStays(w0, actions, q, m, k);
    SameContentTexts(At(w0, actions, m).db, At(w0, actions, k).db, q);
    GoneIsRefused(At(w0, actions, m).db, At(w0, actions, j).db, q, ServedIn(e), user, c);
  }
}
