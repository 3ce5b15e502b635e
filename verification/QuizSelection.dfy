/** The fallback question set and the deterministic pick. */
module QuizSelection {
  import opened Domain

  const DefaultQuestions: seq<Question> := [
    Question(Canonical(0x1), "古代ローマの首都はどこ？", [
      Choice(Canonical(0x1001), "ローマ", 0),
      Choice(Canonical(0x1002), "アテネ", 1),
      Choice(Canonical(0x1003), "カルタゴ", 2),
      Choice(Canonical(0x1004), "アレクサンドリア", 3)], "ローマは古代ローマの中心都市として知られる。"),
    Question(Canonical(0x2), "中世ヨーロッパで十字軍が向かった主な目的地は？", [
      Choice(Canonical(0x2001), "エルサレム（聖地）", 0),
      Choice(Canonical(0x2002), "カイロ", 1),
      Choice(Canonical(0x2003), "コンスタンティノープル", 2),
      Choice(Canonical(0x2004), "ロンドン", 3)], "十字軍は主にエルサレムなど聖地の奪還を目的とした。"),
    Question(Canonical(0x3), "大航海時代にインド航路を開拓した人物は？", [
      Choice(Canonical(0x3001), "コロンブス", 0),
      Choice(Canonical(0x3002), "マゼラン", 1),
      Choice(Canonical(0x3003), "ヴァスコ・ダ・ガマ", 2),
      Choice(Canonical(0x3004), "クック", 3)], "ヴァスコ・ダ・ガマは喜望峰を回ってインドへ到達した。")]

  /** Looked up by the text of the question id. */
  const DefaultKeys: map<IdText, IdText> := map[
    Canonical(0x1) := Canonical(0x1001),
    Canonical(0x2) := Canonical(0x2001),
    Canonical(0x3) := Canonical(0x3003)]

  /** The pick: `seed` is the 64-bit number made of the digest of the request id. */
  function Pick<T>(seed: nat, candidates: seq<T>): (t: T)
    requires candidates != []
    ensures t in candidates
  {
    candidates[seed % |candidates|]
  }

  /** `questions` without the ones of id `previous`, in order. */
  function Except(questions: seq<Question>, previous: IdText): (qs: seq<Question>)
    ensures forall q :: q in qs <==> q in questions && q.id != previous
  {
    if questions == [] then []
    else if questions[0].id == previous then Except(questions[1..], previous)
    else [questions[0]] + Except(questions[1..], previous)
  }

  lemma {:induction false} ExceptSnoc(questions: seq<Question>, q: Question, previous: IdText)
    ensures Except(questions + [q], previous) == Except(questions, previous) + if q.id == previous then [] else [q]
  {
    if questions == [] {
      assert [q][1..] == [];
    } else {
      assert (questions + [q])[1..] == questions[1..] + [q];
      ExceptSnoc(questions[1..], q, previous);
    }
  }

  /** What is served from a fallback set: one question other than `previous` if there is one. */
  function Fallback(questions: seq<Question>, seed: nat, previous: IdText): (r: Result<Question>)
    ensures r.Ok? ==> r.value in questions
    ensures r.Err? ==> questions == [] && r.code == NotFound
    ensures r.Ok? && (exists q :: q in questions && q.id != previous) ==> r.value.id != previous
  {
    if questions == [] then Err(NotFound) else
    var others := Except(questions, previous);
    Ok(Pick(seed, if others == [] then questions else others))
  }

  /** The default set always has a question other than the previous one. */
  function DefaultFor(seed: nat, previous: IdText): (q: Question)
    ensures q in DefaultQuestions && q.id != previous
    ensures Fallback(DefaultQuestions, seed, previous) == Ok(q)
  {
    assert DefaultQuestions[0].id == Canonical(0x1) && DefaultQuestions[1].id == Canonical(0x2);
    Fallback(DefaultQuestions, seed, previous).value
  }

  ghost predicate DistinctIds(qs: seq<Question>) {
    forall i, j | 0 <= i < j < |qs| :: qs[i].id != qs[j].id
  }

  lemma DefaultsAreDistinct()
    ensures DistinctIds(DefaultQuestions)
  {
  }

  lemma ExceptTake(questions: seq<Question>, i: nat, previous: IdText)
    requires i < |questions|
    ensures Except(questions[..i + 1], previous)
         == Except(questions[..i], previous) + if questions[i].id == previous then [] else [questions[i]]
  {
    assert questions[..i + 1] == questions[..i] + [questions[i]];
    ExceptSnoc(questions[..i], questions[i], previous);
  }

  lemma {:induction false} ExceptKeepsDistinct(questions: seq<Question>, previous: IdText)
    requires DistinctIds(questions)
    ensures DistinctIds(Except(questions, previous))
  {
    if questions != [] {
      ExceptKeepsDistinct(questions[1..], previous);
      forall q | q in Except(questions[1..], previous) ensures q.id != questions[0].id {
        var i :| 0 <= i < |questions[1..]| && questions[1..][i] == q;
        assert questions[i + 1] == q;
      }
    }
  }

  /** selectDefaultQuestion: filters, collects the ids, picks one and finds its question. */
  method SelectDefaultQuestion(defaults: seq<Question>, seed: nat, previous: IdText) returns (r: Result<Question>)
    requires DistinctIds(defaults)
    ensures r == Fallback(defaults, seed, previous)
  {
    assert Except(defaults[..0], previous) == [];
    hide Except;
    if defaults == [] {
      return Err(NotFound);
    }
    var candidates: seq<Question> := [];
    for i := 0 to |defaults|
      invariant candidates == Except(defaults[..i], previous)
    {
      ExceptTake(defaults, i, previous);
      if defaults[i].id != previous {
        candidates := candidates + [defaults[i]];
      }
    }
    assert defaults[..|defaults|] == defaults;
    ExceptKeepsDistinct(defaults, previous);
    if candidates == [] {
      candidates := defaults;
    }
    var ids: seq<IdText> := [];
    for i := 0 to |candidates|
      invariant |ids| == i && forall k | 0 <= k < i :: ids[k] == candidates[k].id
    {
      ids := ids + [candidates[i].id];
    }
    var selected := Pick(seed, ids);
    assert candidates[seed % |candidates|].id == selected;
    for i := 0 to |candidates|
      invariant forall k | 0 <= k < i :: candidates[k].id != selected
    {
      if candidates[i].id == selected {
        return Ok(candidates[i]);
      }
    }
    assert false;
    r := Err(NotFound);
  }
}
