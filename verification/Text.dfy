/** Trimming, for any idea of what counts as space: Go and JavaScript differ on it. */
module Text {
  predicate AllSpace(s: string, space: char -> bool) {
    forall i | 0 <= i < |s| :: space(s[i])
  }

  function TrimStart(s: string, space: char -> bool): string {
    if s != "" && space(s[0]) then TrimStart(s[1..], space) else s
  }

  function TrimEnd(s: string, space: char -> bool): string {
    if s != "" && space(s[|s| - 1]) then TrimEnd(s[..|s| - 1], space) else s
  }

  function Trim(s: string, space: char -> bool): string {
    TrimEnd(TrimStart(s, space), space)
  }

  /** `s` is `r` with space before and after it, and `r` itself begins and ends without. */
  ghost predicate IsTrimmed(s: string, r: string, space: char -> bool) {
    && (r != "" ==> !space(r[0]) && !space(r[|r| - 1]))
    && exists before, after :: s == before + r + after && AllSpace(before, space) && AllSpace(after, space)
  }

  lemma {:induction false} TrimStartTakes(s: string, space: char -> bool) returns (before: string)
    ensures var r := TrimStart(s, space);
            s == before + r && AllSpace(before, space) && (r != "" ==> !space(r[0]))
  {
    before := "";
    if s != "" && space(s[0]) {
      var rest := TrimStartTakes(s[1..], space);
      before := [s[0]] + rest;
    }
  }

  lemma {:induction false} TrimEndTakes(s: string, space: char -> bool) returns (after: string)
    ensures var r := TrimEnd(s, space);
            s == r + after && AllSpace(after, space) && (r != "" ==> !space(r[|r| - 1]))
  {
    after := "";
    if s != "" && space(s[|s| - 1]) {
      var rest := TrimEndTakes(s[..|s| - 1], space);
      after := rest + [s[|s| - 1]];
    }
  }

  /** Trimming takes the space at both ends and no more. */
  lemma TrimIsTrimmed(s: string, space: char -> bool)
    ensures IsTrimmed(s, Trim(s, space), space)
  {
    var left, r := TrimStart(s, space), Trim(s, space);
    var before := TrimStartTakes(s, space);
    var after := TrimEndTakes(left, space);
    assert s == before + r + after;
    if r != "" {
      assert r[0] == left[0];
    }
  }

  lemma TrimFacts(s: string, space: char -> bool)
    ensures var r := Trim(s, space);
            && (r != "" ==> !space(r[0]) && !space(r[|r| - 1]))
            && (s != "" && !space(s[0]) ==> r != "")
            && (s != "" && !space(s[0]) && !space(s[|s| - 1]) ==> r == s)
  {
    TrimIsTrimmed(s, space);
    if s != "" && !space(s[0]) {
      var after := TrimEndTakes(s, space);
    }
  }

  lemma BlankIff(before: string, r: string, after: string, space: char -> bool)
    requires AllSpace(before, space) && AllSpace(after, space) && (r != "" ==> !space(r[0]))
    ensures r == "" <==> AllSpace(before + r + after, space)
  {
    if r != "" {
      assert (before + r + after)[|before|] == r[0];
    }
  }

  /** The ends of a trimmed form lie within any other. */
  lemma EndsInside(b0: string, r: string, a0: string, b1: string, t: string, a1: string, space: char -> bool)
    requires b0 + r + a0 == b1 + t + a1 && AllSpace(b1, space) && AllSpace(a1, space)
    requires r != "" && t != "" && !space(r[0]) && !space(r[|r| - 1])
    ensures |b1| <= |b0| && |b0| + |r| <= |b1| + |t|
  {
    var s := b0 + r + a0;
    assert forall i | 0 <= i < |b1| :: s[i] == b1[i];
    assert forall i | |b1| + |t| <= i < |s| :: s[i] == a1[i - |b1| - |t|];
    assert s[|b0|] == r[0] && s[|b0| + |r| - 1] == r[|r| - 1];
  }

  lemma TrimmedAgree(s: string, r: string, t: string, space: char -> bool)
    requires IsTrimmed(s, r, space) && IsTrimmed(s, t, space)
    ensures r == t
  {
    hide Trim;
    var b0, a0 :| s == b0 + r + a0 && AllSpace(b0, space) && AllSpace(a0, space);
    var b1, a1 :| s == b1 + t + a1 && AllSpace(b1, space) && AllSpace(a1, space);
    BlankIff(b0, r, a0, space);
    BlankIff(b1, t, a1, space);
    if r != "" {
      EndsInside(b0, r, a0, b1, t, a1, space);
      EndsInside(b1, t, a1, b0, r, a0, space);
      assert r == s[|b0|..|b0| + |r|] && t == s[|b1|..|b1| + |t|];
    }
  }

  /** Nothing else is: a text has one trimmed form. */
  lemma TrimmedIsUnique(s: string, r: string, space: char -> bool)
    requires IsTrimmed(s, r, space)
    ensures r == Trim(s, space)
  {
    TrimIsTrimmed(s, space);
    TrimmedAgree(s, r, Trim(s, space), space);
  }
}
