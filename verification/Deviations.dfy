/** Requests that the quiz does not answer as one would expect. */
module Deviations {
  import opened Domain
  import opened Schema
  import opened Requests
  import opened Quiz

  /** A question that a user wrote and that is the only live one is not served again: the retry
      lists system questions only, so a default question follows. */
  lemma LoneUserQuestionIsNotRepeated(db: Tables, q: Uuid, seed: nat, envs: seq<Env>)
    requires OnlyLive(db, q) && db.questions[q].author != "system"
    requires |envs| == 5 && AloneFits(db, Get(seed, Canonical(q), GetStart), envs)
    ensures ServesDefault(db, Alone(db, Get(seed, Canonical(q), GetStart), envs), seed, Canonical(q))
  {
    GetAlone(db, seed, Canonical(q), envs);
    assert Settled(db, Canonical(q)) == {} by {
      assert Candidates(db, NotSystem, Canonical(q)) == {} && Candidates(db, SystemOnly, Canonical(q)) == {};
      assert Candidates(db, SystemOnly, Blank) == {};
    }
  }

  /** The only live question is served again at once to a client that names it in another spelling,
      whoever wrote it. */
  lemma OtherSpellingIsRepeated(db: Tables, q: Uuid, castable: bool, text: string, seed: nat, envs: seq<Env>)
    requires OnlyLive(db, q)
    requires |envs| == 5 && AloneFits(db, Get(seed, Variant(q, castable, text), GetStart), envs)
    ensures ServesStored(db, Alone(db, Get(seed, Variant(q, castable, text), GetStart), envs), q)
  {
    var previous := Variant(q, castable, text);
    GetAlone(db, seed, previous, envs);
    assert q in Candidates(db, if db.questions[q].author == "system" then SystemOnly else NotSystem, previous);
    assert db.questions[q].author != "system" ==> q in Candidates(db, Everyone, previous);
    assert db.questions[q].author == "system" ==> Candidates(db, NotSystem, previous) == {};
    assert Settled(db, previous) == {q};
  }
}
