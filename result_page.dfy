/**
 * The result page: on mount it keeps or creates the visitor's uuid, reads the
 * ten stored answers, classifies them once all ten are present, and renders
 * the classification with the reaction image of its type.
 */
module ResultPage {
  import opened Js
  import opened Storage
  import opened Quiz
  import opened Classifier

  datatype Reaction = Reaction(img: string, quote: string)

  const ReactionGifs: map<string, Reaction> := map[
    "A1" := Reaction("/gifs/a1.gif", "감정은 사소해도 치명적... 머릿속에서 떠나지 않아🥺"),
    "A2" := Reaction("/gifs/a2.gif", "혼자 조용히 넘기려 했지만... 마음속 파도는 여전해🌊"),
    "B1" := Reaction("/gifs/b1.gif", "감정이 복잡할 땐 거리두기! 피하면 편해요✌️"),
    "B2" := Reaction("/gifs/b2.gif", "갈등은 끊어내는 게 제일 깔끔하죠🔪"),
    "C1" := Reaction("/gifs/c1.gif", "감정보다 이성이 먼저! 공감보다 논리🧠"),
    "C2" := Reaction("/gifs/c2.gif", "쿨한 무심함. 감정? 신경 안 씀😎"),
    "D1" := Reaction("/gifs/d1.gif", "말 안 하면 터져요! 지금 바로 표현하는 편🔥"),
    "D2" := Reaction("/gifs/d2.gif", "참다가 폭발! 그동안 쌓인 감정이 퐁!💥")
  ]

  const LoadingText: string := "결과를 불러오는 중...1"

  /**
   * The answers the page collects from slots Q1..Qn: the truthy stored
   * values, in ascending question order.
   */
  function StagedAnswers(items: map<string, string>, n: nat): (answers: seq<string>)
    ensures |answers| <= n
    ensures forall a :: a in answers ==> a != ""
  {
    if n == 0 then []
    else
      var value := Get(items, QuestionKey(n));
      StagedAnswers(items, n - 1) + if Truthy(value) then [value.value] else []
  }

  /** Every slot Q1..Qn holds a non-empty value. */
  predicate AllSlotsFilled(items: map<string, string>, n: nat) {
    forall i :: 1 <= i <= n ==> Truthy(Get(items, QuestionKey(i)))
  }

  /** The length gate: n answers are collected exactly when all n slots are filled. */
  lemma {:induction false} StagedAnswersFull(items: map<string, string>, n: nat)
    ensures |StagedAnswers(items, n)| == n <==> AllSlotsFilled(items, n)
  {
    if n > 0 {
      StagedAnswersFull(items, n - 1);
      var prev := StagedAnswers(items, n - 1);
      if |StagedAnswers(items, n)| == n {
        assert |prev| == n - 1 && Truthy(Get(items, QuestionKey(n)));
        assert AllSlotsFilled(items, n);
      }
      if AllSlotsFilled(items, n) {
        assert AllSlotsFilled(items, n - 1);
      }
    }
  }

  /** On a full answer set, answer i - 1 is the value stored for question i. */
  lemma {:induction false} StagedAnswersInOrder(items: map<string, string>, n: nat)
    requires AllSlotsFilled(items, n)
    ensures |StagedAnswers(items, n)| == n
    ensures forall i :: 1 <= i <= n ==> StagedAnswers(items, n)[i - 1] == items[QuestionKey(i)]
  {
    if n > 0 {
      assert AllSlotsFilled(items, n - 1);
      StagedAnswersInOrder(items, n - 1);
      var prev := StagedAnswers(items, n - 1);
      var all := StagedAnswers(items, n);
      assert Truthy(Get(items, QuestionKey(n)));
      assert all == prev + [items[QuestionKey(n)]];
      forall i | 1 <= i <= n ensures all[i - 1] == items[QuestionKey(i)] {
        if i < n {
          assert all[i - 1] == prev[i - 1];
        }
      }
    }
  }

  /** Every collected answer is the value stored in one of the slots Q1..Qn. */
  lemma {:induction false} StagedAnswersFromSlots(items: map<string, string>, n: nat)
    ensures forall k :: 0 <= k < |StagedAnswers(items, n)| ==>
              exists i :: 1 <= i <= n && Get(items, QuestionKey(i)) == Some(StagedAnswers(items, n)[k])
  {
    if n > 0 {
      StagedAnswersFromSlots(items, n - 1);
      var prev := StagedAnswers(items, n - 1);
      var all := StagedAnswers(items, n);
      forall k | 0 <= k < |all|
        ensures exists i :: 1 <= i <= n && Get(items, QuestionKey(i)) == Some(all[k])
      {
        if k < |prev| {
          var i :| 1 <= i <= n - 1 && Get(items, QuestionKey(i)) == Some(prev[k]);
          assert all[k] == prev[k];
          assert 1 <= i <= n && Get(items, QuestionKey(i)) == Some(all[k]);
        } else {
          assert Get(items, QuestionKey(n)) == Some(all[k]);
        }
      }
    } else {
      assert StagedAnswers(items, n) == [];
    }
  }

  /** Slots other than Q1..Qn do not matter to the collected answers. */
  lemma {:induction false} StagedAnswersIgnoreOtherKeys(items: map<string, string>, key: string, v: string, n: nat)
    requires forall i :: 1 <= i <= n ==> QuestionKey(i) != key
    ensures StagedAnswers(items[key := v], n) == StagedAnswers(items, n)
  {
    if n > 0 {
      StagedAnswersIgnoreOtherKeys(items, key, v, n - 1);
    }
  }

  /** The answer-collection loop of the mount effect. */
  method CollectAnswers(ls: LocalStorage) returns (answers: seq<string>)
    ensures answers == StagedAnswers(ls.items, 10)
  {
    answers := [];
    for i := 1 to 11
      invariant answers == StagedAnswers(ls.items, i - 1)
    {
      var value := ls.GetItem(QuestionKey(i));
      if Truthy(value) {
        answers := answers + [value.value];
      }
    }
  }

  /**
   * `localStorage.getItem("uuid") || crypto.randomUUID()`: the stored uuid
   * when it is non-empty, otherwise the fresh one; never empty while the
   * fresh one is not.
   */
  function KeptUuid(items: map<string, string>, freshUuid: string): (uuid: string)
    ensures Truthy(Get(items, "uuid")) ==> uuid == items["uuid"]
    ensures !Truthy(Get(items, "uuid")) ==> uuid == freshUuid
    ensures uuid != "" <==> Truthy(Get(items, "uuid")) || freshUuid != ""
  {
    var stored := Get(items, "uuid");
    if Truthy(stored) then stored.value else freshUuid
  }

  /**
   * A stored uuid survives the effect, a missing or empty one is replaced by
   * the fresh one, and once the effect has run a second run keeps it.
   */
  lemma UuidKeptOrCreated(items: map<string, string>, fresh1: string, fresh2: string)
    requires fresh1 != ""
    ensures Truthy(Get(items, "uuid")) ==> KeptUuid(items, fresh1) == items["uuid"]
    ensures !Truthy(Get(items, "uuid")) ==> KeptUuid(items, fresh1) == fresh1
    ensures KeptUuid(items["uuid" := KeptUuid(items, fresh1)], fresh2) == KeptUuid(items, fresh1)
  {
  }

  /**
   * What the effect leaves in the `result` state cell, given the store it
   * reads and the previous result: a full set of ten answers that classifies
   * replaces it with that classification, and anything else leaves it.
   */
  function EffectResult(items: map<string, string>, previous: Option<Classification>): (r: Option<Classification>)
    ensures AllSlotsFilled(items, 10) && Classify(StagedAnswers(items, 10)).Ok? ==>
              r == Some(Classify(StagedAnswers(items, 10)).value)
    ensures r != previous ==>
              && AllSlotsFilled(items, 10) && Classify(StagedAnswers(items, 10)).Ok?
              && r == Some(Classify(StagedAnswers(items, 10)).value)
  {
    StagedAnswersFull(items, 10);
    var answers := StagedAnswers(items, 10);
    if |answers| == 10 && Classify(answers).Ok? then Some(Classify(answers).value) else previous
  }

  /** On a full set of stored type codes, every collected answer is a type code. */
  lemma StagedCodesAreCodes(items: map<string, string>)
    requires AllSlotsFilled(items, 10)
    requires forall i :: 1 <= i <= 10 ==> items[QuestionKey(i)] in TypeCodes
    ensures |StagedAnswers(items, 10)| == 10
    ensures forall a :: a in StagedAnswers(items, 10) ==> a in TypeCodes
  {
    StagedAnswersInOrder(items, 10);
    var answers := StagedAnswers(items, 10);
    forall a | a in answers ensures a in TypeCodes {
      var k :| 0 <= k < 10 && answers[k] == a;
      assert answers[(k + 1) - 1] == items[QuestionKey(k + 1)];
    }
  }

  /**
   * The classifier runs only on a full answer set, which is never empty; ten
   * stored type codes always classify, and the result becomes their
   * classification whatever it was before.
   */
  lemma EffectClassifiesFullAnswerSets(items: map<string, string>, previous: Option<Classification>)
    ensures !AllSlotsFilled(items, 10) ==> EffectResult(items, previous) == previous
    ensures AllSlotsFilled(items, 10) ==> Classify(StagedAnswers(items, 10)) != Err(NoAnswers)
    ensures AllSlotsFilled(items, 10) && (forall i :: 1 <= i <= 10 ==> items[QuestionKey(i)] in TypeCodes) ==>
              && Classify(StagedAnswers(items, 10)).Ok?
              && EffectResult(items, previous) == Some(Classify(StagedAnswers(items, 10)).value)
  {
    StagedAnswersFull(items, 10);
    if AllSlotsFilled(items, 10) && (forall i :: 1 <= i <= 10 ==> items[QuestionKey(i)] in TypeCodes) {
      StagedCodesAreCodes(items);
      ClassifyOfCodesSucceeds(StagedAnswers(items, 10));
    }
  }

  /** "uuid" is not a question key. */
  lemma UuidIsNotAQuestionKey()
    ensures forall i: nat :: QuestionKey(i) != "uuid"
  {
  }

  /**
   * The effect's second half: `calculateResult` runs only on the ten answers
   * of a full store; its classification replaces the previous result, and a
   * throw leaves it.
   */
  method ClassifyWhenFull(ghost items: map<string, string>, answers: seq<string>, previous: Option<Classification>)
    returns (result: Option<Classification>, thrown: Option<ClassifyError>)
    requires answers == StagedAnswers(items, 10)
    requires |answers| == 10 ==> forall a :: a in answers ==> IsPlainKey(a)
    ensures result == EffectResult(items, previous)
    ensures thrown.Some? <==> AllSlotsFilled(items, 10) && Classify(answers).Err?
  {
    StagedAnswersFull(items, 10);
    result, thrown := previous, None;
    if |answers| == 10 {
      var r := CalculateResult(answers);
      match r {
        case Ok(c) => result := Some(c);
        case Err(e) => thrown := Some(e);
      }
    }
  }

  /** The effect's first half: `localStorage.setItem("uuid", getItem("uuid") || crypto.randomUUID())`. */
  method StoreUuid(ls: LocalStorage, freshUuid: string) returns (uuid: string)
    modifies ls
    ensures uuid == KeptUuid(old(ls.items), freshUuid)
    ensures ls.items == old(ls.items)["uuid" := uuid]
  {
    var stored := ls.GetItem("uuid");
    uuid := if Truthy(stored) then stored.value else freshUuid;
    ls.SetItem("uuid", uuid);
  }

  /** The page's `result` state cell and its mount effect. */
  class ResultView {
    var result: Option<Classification>

    constructor ()
      ensures result == None
    {
      result := None;
    }

    /**
     * The mount effect: keeps or creates the uuid, then classifies the stored
     * answers when all ten are present. `freshUuid` stands for the value of
     * `crypto.randomUUID()`; `thrown` is the error `calculateResult` throws,
     * which leaves `result` as it was.
     */
    method MountEffect(ls: LocalStorage, freshUuid: string) returns (thrown: Option<ClassifyError>)
      requires freshUuid != ""
      requires |StagedAnswers(ls.items, 10)| == 10 ==> forall a :: a in StagedAnswers(ls.items, 10) ==> IsPlainKey(a)
      modifies ls, this
      ensures ls.items == old(ls.items)["uuid" := KeptUuid(old(ls.items), freshUuid)]
      ensures result == EffectResult(old(ls.items), old(result))
      ensures thrown.Some? <==> AllSlotsFilled(old(ls.items), 10) && Classify(StagedAnswers(old(ls.items), 10)).Err?
    {
      var uuid := StoreUuid(ls, freshUuid);
      UuidIsNotAQuestionKey();
      StagedAnswersIgnoreOtherKeys(old(ls.items), "uuid", uuid, 10);
      var answers := CollectAnswers(ls);
      result, thrown := ClassifyWhenFull(old(ls.items), answers, result);
    }
  }

  /**
   * What the page shows: the loading line, or the result with the path of its
   * type's reaction image when the type has one (the quote is not drawn).
   */
  datatype View =
    | Loading(text: string)
    | ResultCard(title: string, description: string, tmi: string, reactionImg: Option<string>)

  function Render(result: Option<Classification>): (v: View)
    ensures result.None? <==> v == Loading(LoadingText)
    ensures result.Some? ==> v.ResultCard? && v.title == result.value.title
                             && v.description == result.value.description && v.tmi == result.value.tmi
    ensures result.Some? && result.value.typeCode in ReactionGifs ==> v.reactionImg == Some(ReactionGifs[result.value.typeCode].img)
    ensures result.Some? && result.value.typeCode !in ReactionGifs ==> v.reactionImg == None
  {
    match result
    case None => Loading(LoadingText)
    case Some(c) =>
      ResultCard(c.title, c.description, c.tmi,
                 if c.typeCode in ReactionGifs then Some(ReactionGifs[c.typeCode].img) else None)
  }

  /** Every type the classifier can return has a reaction image, so one is always shown. */
  lemma ReactionShownForEveryType(answers: seq<string>)
    requires Classify(answers).Ok?
    ensures Render(Some(Classify(answers).value)).reactionImg == Some(ReactionGifs[Classify(answers).value.typeCode].img)
  {
  }
}
