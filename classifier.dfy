/**
 * The personality classifier: ten answer codes are tallied, the code with
 * the highest count wins a left-fold comparison over the tally's keys, and
 * the winner is resolved to its descriptor.
 *
 * The tally is a JavaScript object literal, so it is modelled as the pair of
 * its key list (`Object.keys` order) and its count map. For keys that are
 * plain strings (see `Js.IsPlainKey`) that order is the order in which each
 * code was first seen, which is `Distinct(answers)` below.
 */
module Classifier {
  import opened Js

  datatype TypeDescriptor = TypeDescriptor(title: string, description: string, tmi: string)

  /** What `calculateResult` returns: the winning code and its descriptor fields. */
  datatype Classification = Classification(typeCode: string, title: string, description: string, tmi: string)

  /**
   * The two ways `calculateResult` throws: `reduce` without a seed on an
   * empty key list, and destructuring the `undefined` that an unknown code
   * looks up.
   */
  datatype ClassifyError = NoAnswers | UnknownType(code: string)

  /** The eight personality codes, in the table's order. */
  const TypeCodes: seq<string> := ["A1", "A2", "B1", "B2", "C1", "C2", "D1", "D2"]

  const TypeDescriptions: map<string, TypeDescriptor> := map[
    "A1" := TypeDescriptor(
      "과민 내성형",
      "감정에 매우 민감하고 쉽게 상처받으며, 사소한 일도 오래 곱씹는 편입니다. 자책을 자주 하며, 타인의 시선에 예민합니다.",
      "기분 나쁜 날엔 일단 씻고 누움. 말은 못 해도 마음속으로는 100줄 다 썼음."),
    "A2" := TypeDescriptor(
      "방어형 내성",
      "속으로 감정을 삼키며 티 내지 않으려 합니다. 표현 대신 회피하거나 혼자 삭이며, 조용히 물러나는 경향이 강합니다.",
      "아무 일 없는 척 잘함. 근데 밤에 불 끄면 눈물 나옴. 이불과 대화함."),
    "B1" := TypeDescriptor(
      "거리두기형 회피",
      "감정적으로 불편한 상황을 피하려는 경향이 있습니다. 문제를 정면으로 마주하기보다는 자연스레 멀어지려 합니다.",
      "마상 입으면 말 줄어듦. 아무 말 안 하는 게 화났다는 신호임."),
    "B2" := TypeDescriptor(
      "단절형 회피",
      "감정 소모를 꺼려하며, 갈등 상황에서 빠르게 관계를 끊거나 차단하는 성향을 보입니다.",
      "감정 소비는 낭비라고 생각함. 연락 안 받고 조용히 이별 중일 수도 있음."),
    "C1" := TypeDescriptor(
      "논리형 무시",
      "감정보다 이성을 우선시하며, 감정 표현이나 공감을 다소 불필요하게 느끼기도 합니다. 상황을 객관적으로 분석하려는 성향입니다.",
      "감정 얘기 나올 땐 자동 로그아웃. 머릿속에선 이미 다음 일정 생각 중."),
    "C2" := TypeDescriptor(
      "무관심형 무시",
      "감정에 큰 관심을 두지 않고, 상대방의 반응이나 감정을 신경 쓰지 않으려는 쿨한 태도를 보입니다.",
      "누가 뭐라 해도 '그럴 수도 있지'로 넘김. 근데 진짜 별생각 없긴 함."),
    "D1" := TypeDescriptor(
      "순간 폭발형",
      "감정을 쌓아두지 않고 바로 표현하는 성향입니다. 감정에 솔직하지만 때로는 격해지기 쉽습니다.",
      "욱하면 말부터 튀어나옴. 싸우고 나서 ‘아 그때 왜 그랬지…’ 후폭풍 옴."),
    "D2" := TypeDescriptor(
      "감정 축적형",
      "겉으로는 표현하지 않다가 참다 참다 폭발하는 성향입니다. 감정을 오래 쌓아두는 편입니다.",
      "참다 참다 뚜껑 열림. 그동안 감정 다 저장돼 있다가 폭발함.")
  ]

  /** The table has exactly the eight codes, and none of them is an array index or inherited name. */
  lemma TypeCodesAreTableKeys()
    ensures |TypeCodes| == 8
    ensures forall c :: c in TypeCodes <==> c in TypeDescriptions
    ensures forall c :: c in TypeCodes ==> IsPlainKey(c)
  {
    forall c | c in TypeCodes ensures IsPlainKey(c) {
      assert !IsDigit(c[0]);
    }
  }

  predicate AllDistinct(s: seq<string>) {
    forall i, j :: 0 <= i < j < |s| ==> s[i] != s[j]
  }

  /** The distinct elements of `s`, each at the position of its first occurrence. */
  function Distinct(s: seq<string>): (d: seq<string>)
    ensures AllDistinct(d)
    ensures forall x :: x in d <==> x in s
    ensures |d| <= |s|
    decreases |s|
  {
    if s == [] then []
    else
      var p := Distinct(s[..|s| - 1]);
      var x := s[|s| - 1];
      if x in p then p else p + [x]
  }

  /** Index of the first occurrence of `x` in `s`. */
  function FirstIndex(s: seq<string>, x: string): (i: nat)
    requires x in s
    ensures i < |s| && s[i] == x && x !in s[..i]
    decreases |s|
  {
    if x in s[..|s| - 1] then FirstIndex(s[..|s| - 1], x) else |s| - 1
  }

  /** How often `x` occurs in `s`. */
  function Occurrences(s: seq<string>, x: string): nat {
    multiset(s)[x]
  }

  /** The tally of `calculateResult`: each answer mapped to its number of occurrences. */
  function Tally(answers: seq<string>): (counts: map<string, nat>)
    ensures forall x :: x in counts <==> x in answers
    ensures forall x :: x in counts ==> counts[x] == Occurrences(answers, x) && counts[x] > 0
  {
    map x | x in answers :: multiset(answers)[x]
  }

  /** How one more answer changes the tally. */
  lemma TallySnoc(p: seq<string>, x: string)
    ensures Tally(p + [x]) == if x in p then Tally(p)[x := Tally(p)[x] + 1] else Tally(p)[x := 1]
  {
    var s := p + [x];
    assert multiset(s) == multiset(p) + multiset{x};
    var t := Tally(p);
    var u := if x in p then t[x := t[x] + 1] else t[x := 1];
    assert forall y :: y in s <==> y in p || y == x;
    assert Tally(s).Keys == u.Keys;
    forall y | y in u ensures Tally(s)[y] == u[y] {
      if y == x {
        assert multiset(s)[x] == multiset(p)[x] + 1;
      } else {
        assert multiset(s)[y] == multiset(p)[y];
      }
    }
  }

  /** How one more answer changes the key list. */
  lemma DistinctSnoc(p: seq<string>, x: string)
    ensures Distinct(p + [x]) == if x in p then Distinct(p) else Distinct(p) + [x]
  {
    assert (p + [x])[..|p|] == p;
  }

  /** Sum of `counts` over `keys`. */
  function SumOver(keys: seq<string>, counts: map<string, nat>): nat
    requires forall k :: k in keys ==> k in counts
    decreases |keys|
  {
    if keys == [] then 0 else SumOver(keys[..|keys| - 1], counts) + counts[keys[|keys| - 1]]
  }

  /**
   * The `reduce` of `calculateResult`, a left fold over the key list that
   * keeps the accumulator only when its count is strictly greater.
   */
  function Reduce(keys: seq<string>, counts: map<string, nat>): (winner: string)
    requires |keys| > 0
    requires forall k :: k in keys ==> k in counts
    ensures winner in keys
    ensures forall k :: k in keys ==> counts[k] <= counts[winner]
    decreases |keys|
  {
    if |keys| == 1 then keys[0]
    else
      var a := Reduce(keys[..|keys| - 1], counts);
      var b := keys[|keys| - 1];
      if counts[a] > counts[b] then a else b
  }

  /**
   * The fold's tie-break: among keys with the winning count, the winner is
   * the LAST one; every key after it in the list has a strictly smaller count.
   */
  lemma {:induction false} ReduceKeepsLastMaximum(keys: seq<string>, counts: map<string, nat>)
    requires |keys| > 0
    requires forall k :: k in keys ==> k in counts
    requires AllDistinct(keys)
    ensures forall i, j :: 0 <= i < j < |keys| && keys[i] == Reduce(keys, counts) ==> counts[keys[j]] < counts[keys[i]]
  {
    if |keys| > 1 {
      var p := keys[..|keys| - 1];
      ReduceKeepsLastMaximum(p, counts);
      var a := Reduce(p, counts);
      var b := keys[|keys| - 1];
      forall i, j | 0 <= i < j < |keys| && keys[i] == Reduce(keys, counts)
        ensures counts[keys[j]] < counts[keys[i]]
      {
        assert keys[i] != b;
        assert keys[i] == a && counts[a] > counts[b];
        if j < |keys| - 1 {
          assert p[i] == keys[i] && p[j] == keys[j];
        }
      }
    }
  }

  /** Distinct codes appear in `Distinct(s)` in the order of their first occurrences. */
  lemma {:induction false} DistinctFollowsFirstOccurrence(s: seq<string>)
    ensures forall i, j :: 0 <= i < j < |Distinct(s)| ==> FirstIndex(s, Distinct(s)[i]) < FirstIndex(s, Distinct(s)[j])
    decreases |s|
  {
    if s != [] {
      var p := s[..|s| - 1];
      var x := s[|s| - 1];
      DistinctFollowsFirstOccurrence(p);
      var d := Distinct(s);
      var dp := Distinct(p);
      forall y | y in p ensures FirstIndex(s, y) == FirstIndex(p, y) { }
      forall i, j | 0 <= i < j < |d| ensures FirstIndex(s, d[i]) < FirstIndex(s, d[j]) {
        assert d[i] in dp;
        if j < |dp| {
          assert d[i] == dp[i] && d[j] == dp[j];
        } else {
          assert d[j] == x && x !in p;
        }
      }
    }
  }

  /** Adding one to a key that occurs once in `keys` adds one to the sum. */
  lemma {:induction false} SumOverBump(keys: seq<string>, counts: map<string, nat>, x: string)
    requires forall k :: k in keys ==> k in counts
    requires AllDistinct(keys) && x in keys
    ensures SumOver(keys, counts[x := counts[x] + 1]) == SumOver(keys, counts) + 1
    decreases |keys|
  {
    var p := keys[..|keys| - 1];
    var last := keys[|keys| - 1];
    if last == x {
      assert x !in p;
      SumOverUnchanged(p, counts, x, counts[x] + 1);
    } else {
      SumOverBump(p, counts, x);
    }
  }

  /** Updating a key that is not in `keys` does not change the sum. */
  lemma {:induction false} SumOverUnchanged(keys: seq<string>, counts: map<string, nat>, x: string, v: nat)
    requires forall k :: k in keys ==> k in counts
    requires x !in keys
    ensures SumOver(keys, counts[x := v]) == SumOver(keys, counts)
    decreases |keys|
  {
    if keys != [] {
      SumOverUnchanged(keys[..|keys| - 1], counts, x, v);
    }
  }

  /**
   * Adding a key with count one at the end of `keys` adds one to the sum.
   */
  lemma SumOverAppendNew(keys: seq<string>, counts: map<string, nat>, x: string)
    requires forall k :: k in keys ==> k in counts
    requires x !in keys
    ensures SumOver(keys + [x], counts[x := 1]) == SumOver(keys, counts) + 1
  {
    assert (keys + [x])[..|keys|] == keys;
    SumOverUnchanged(keys, counts, x, 1);
  }

  /**
   * The specification of `calculateResult`: the winner of the fold over the
   * tally, resolved through the descriptor table.
   */
  function Classify(answers: seq<string>): (r: Result<Classification, ClassifyError>)
    ensures answers == [] <==> r == Err(NoAnswers)
    ensures r.Ok? ==> r.value.typeCode in answers && r.value.typeCode in TypeDescriptions
    ensures r.Ok? ==>
              && r.value.title == TypeDescriptions[r.value.typeCode].title
              && r.value.description == TypeDescriptions[r.value.typeCode].description
              && r.value.tmi == TypeDescriptions[r.value.typeCode].tmi
  {
    if answers == [] then Err(NoAnswers)
    else
      var winner := Reduce(Distinct(answers), Tally(answers));
      if winner in TypeDescriptions then
        var d := TypeDescriptions[winner];
        Ok(Classification(winner, d.title, d.description, d.tmi))
      else Err(UnknownType(winner))
  }

  /**
   * `w` wins by plurality with the source's tie-break: it occurs in
   * `answers`, no code occurs more often, and every other code that occurs
   * as often was first seen earlier than `w`.
   */
  ghost predicate IsLatestPlurality(answers: seq<string>, w: string) {
    && w in answers
    && (forall x :: x in answers ==> Occurrences(answers, x) <= Occurrences(answers, w))
    && (forall x :: x in answers && x != w && Occurrences(answers, x) == Occurrences(answers, w) ==>
          FirstIndex(answers, x) < FirstIndex(answers, w))
  }

  /**
   * The fold's winner is exactly the plurality code whose first occurrence
   * comes latest; no other code has that property.
   */
  lemma WinnerIsLatestPlurality(answers: seq<string>, w: string)
    requires answers != []
    ensures IsLatestPlurality(answers, w) <==> w == Reduce(Distinct(answers), Tally(answers))
  {
    var d := Distinct(answers);
    var counts := Tally(answers);
    var r := Reduce(d, counts);
    ReduceKeepsLastMaximum(d, counts);
    DistinctFollowsFirstOccurrence(answers);
    assert IsLatestPlurality(answers, r) by {
      forall x | x in answers && x != r && Occurrences(answers, x) == Occurrences(answers, r)
        ensures FirstIndex(answers, x) < FirstIndex(answers, r)
      {
        assert x in d && r in d;
        var i :| 0 <= i < |d| && d[i] == r;
        var j :| 0 <= j < |d| && d[j] == x;
        assert counts[d[j]] == counts[d[i]];
        assert j < i;
      }
    }
    if IsLatestPlurality(answers, w) {
      assert Occurrences(answers, w) == Occurrences(answers, r);
    }
  }

  /** The result of a successful classification, in terms of the answers alone. */
  lemma ClassifyIsLatestPlurality(answers: seq<string>)
    requires Classify(answers).Ok?
    ensures IsLatestPlurality(answers, Classify(answers).value.typeCode)
  {
    WinnerIsLatestPlurality(answers, Classify(answers).value.typeCode);
  }

  /** The counts of the tally add up to the number of answers. */
  lemma {:induction false} TallySumsToLength(answers: seq<string>)
    ensures SumOver(Distinct(answers), Tally(answers)) == |answers|
    decreases |answers|
  {
    if answers != [] {
      var p, x := answers[..|answers| - 1], answers[|answers| - 1];
      TallySumsToLength(p);
      SplitLast(answers);
      TallySumSnoc(answers, p, x);
    }
  }

  /** A non-empty sequence is its prefix followed by its last element. */
  lemma SplitLast(s: seq<string>)
    requires s != []
    ensures s == s[..|s| - 1] + [s[|s| - 1]]
  {
  }

  /** One more answer adds one to the sum of the counts. */
  lemma TallySumSnoc(answers: seq<string>, p: seq<string>, x: string)
    requires answers == p + [x]
    requires SumOver(Distinct(p), Tally(p)) == |p|
    ensures SumOver(Distinct(answers), Tally(answers)) == |answers|
  {
    var tp, dp := Tally(p), Distinct(p);
    TallySnoc(p, x);
    DistinctSnoc(p, x);
    if x in p {
      SumOverBump(dp, tp, x);
    } else {
      SumOverAppendNew(dp, tp, x);
    }
  }

  /**
   * When one code has a strictly greater count than every other, any
   * reordering of the answers yields the same classification.
   */
  lemma PermutationInvariantUnderUniqueMaximum(answers: seq<string>, shuffled: seq<string>, w: string)
    requires multiset(answers) == multiset(shuffled)
    requires w in answers
    requires forall x :: x in answers && x != w ==> Occurrences(answers, x) < Occurrences(answers, w)
    ensures Classify(answers) == Classify(shuffled)
  {
    assert forall x :: x in answers <==> x in shuffled by {
      forall x ensures x in answers <==> x in shuffled {
        assert x in answers <==> x in multiset(answers);
        assert x in shuffled <==> x in multiset(shuffled);
      }
    }
    UniqueMaximumWins(answers, w);
    UniqueMaximumWins(shuffled, w);
  }

  /** When every answer is one of the eight codes, classification succeeds. */
  lemma ClassifyOfCodesSucceeds(answers: seq<string>)
    requires answers != []
    requires forall a :: a in answers ==> a in TypeCodes
    ensures Classify(answers).Ok?
  {
    TypeCodesAreTableKeys();
  }

  /** The distinct answers of `A1, B2, A1, B2` in first-seen order. */
  lemma DistinctOfTie(s: seq<string>)
    requires s == ["A1", "B2", "A1", "B2"]
    ensures Distinct(s) == ["A1", "B2"]
  {
    var s1, s2, s3 := s[..1], s[..2], s[..3];
    assert s1[..0] == [] && s2[..1] == s1 && s3[..2] == s2 && s[..3] == s3;
    assert Distinct(s1) == ["A1"];
    assert Distinct(s2) == ["A1", "B2"];
    assert Distinct(s3) == ["A1", "B2"];
  }

  /** On `A1, B2, A1, B2` the two codes tie and the fold picks the later first-seen one, `B2`. */
  lemma TieFoldsToLaterFirstOccurrence(s: seq<string>)
    requires s == ["A1", "B2", "A1", "B2"]
    ensures Reduce(Distinct(s), Tally(s)) == "B2"
  {
    DistinctOfTie(s);
    var counts := Tally(s);
    assert multiset(s)["A1"] == 2 && multiset(s)["B2"] == 2;
    assert counts["A1"] == counts["B2"];
    assert ["A1", "B2"][..1] == ["A1"];
  }

  /** So `A1, B2, A1, B2` is classified as `B2`. */
  lemma TieGoesToLaterFirstOccurrence(s: seq<string>)
    requires s == ["A1", "B2", "A1", "B2"]
    ensures Classify(s).Ok? && Classify(s).value.typeCode == "B2"
  {
    TieFoldsToLaterFirstOccurrence(s);
    TypeCodesAreTableKeys();
  }

  /** A code that occurs strictly more often than every other code wins, whatever the order. */
  lemma UniqueMaximumWins(answers: seq<string>, w: string)
    requires w in answers
    requires forall x :: x in answers && x != w ==> Occurrences(answers, x) < Occurrences(answers, w)
    ensures Reduce(Distinct(answers), Tally(answers)) == w
  {
    assert IsLatestPlurality(answers, w);
    WinnerIsLatestPlurality(answers, w);
  }

  /** A code in the table that strictly outnumbers every other answer is the classification. */
  lemma UniqueMaximumClassifies(answers: seq<string>, w: string)
    requires w in answers && w in TypeDescriptions
    requires forall x :: x in answers && x != w ==> Occurrences(answers, x) < Occurrences(answers, w)
    ensures Classify(answers).Ok? && Classify(answers).value.typeCode == w
  {
    UniqueMaximumWins(answers, w);
  }

  /** The counts of a ten-answer list with five `A1`. */
  lemma MajorityCounts(s: seq<string>)
    requires s == ["A1", "A1", "A1", "B2", "B2", "C1", "D1", "A1", "A2", "A1"]
    ensures "A1" in s && Occurrences(s, "A1") == 5
    ensures forall x :: x in s && x != "A1" ==> Occurrences(s, x) <= 2
  {
    var m := multiset(s);
    assert m["A1"] == 5;
    assert m["B2"] == 2 && m["C1"] == 1 && m["D1"] == 1 && m["A2"] == 1;
    assert forall x :: x in s ==> x == "A1" || x == "B2" || x == "C1" || x == "D1" || x == "A2";
  }

  /** Five `A1` against at most two of anything else: `A1` wins. */
  lemma ClearMajorityWins(s: seq<string>)
    requires s == ["A1", "A1", "A1", "B2", "B2", "C1", "D1", "A1", "A2", "A1"]
    ensures Classify(s).Ok? && Classify(s).value.typeCode == "A1"
  {
    MajorityCounts(s);
    UniqueMaximumClassifies(s, "A1");
  }

  /**
   * The counting loop of `calculateResult`: fills the count object in place,
   * one answer at a time. `keys` is the object's key order.
   */
  method CountAnswers(answers: seq<string>) returns (keys: seq<string>, countMap: map<string, nat>)
    ensures keys == Distinct(answers)
    ensures countMap == Tally(answers)
  {
    keys := [];
    countMap := map[];
    for i := 0 to |answers|
      invariant keys == Distinct(answers[..i])
      invariant countMap == Tally(answers[..i])
    {
      var answer := answers[i];
      SplitLast(answers[..i + 1]);
      assert answers[..i + 1][..i] == answers[..i];
      TallySnoc(answers[..i], answer);
      DistinctSnoc(answers[..i], answer);
      if answer in countMap {
        countMap := countMap[answer := countMap[answer] + 1];
      } else {
        keys := keys + [answer];
        countMap := countMap[answer := 1];
      }
    }
    assert answers[..|answers|] == answers;
  }

  /**
   * `calculateResult`: the counting loop, then the fold picks the winner and
   * the table supplies its descriptor. Keys must behave as in an
   * insertion-ordered map for the object's key order to be first-seen order.
   */
  method CalculateResult(answers: seq<string>) returns (r: Result<Classification, ClassifyError>)
    requires forall a :: a in answers ==> IsPlainKey(a)
    ensures r == Classify(answers)
  {
    var keys, countMap := CountAnswers(answers);
    if keys == [] {
      return Err(NoAnswers);
    }
    var finalType := Reduce(keys, countMap);
    if finalType !in TypeDescriptions {
      return Err(UnknownType(finalType));
    }
    var d := TypeDescriptions[finalType];
    r := Ok(Classification(finalType, d.title, d.description, d.tmi));
  }
}
