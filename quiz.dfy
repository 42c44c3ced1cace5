/**
 * The quiz pages' helpers: drawing a random question from a key's pool, and
 * recording a choice before moving on to the next page.
 */
module Quiz {
  import opened Js
  import opened Storage

  /** A storage key of the form "Q" followed by a decimal numeral. */
  predicate IsQuestionKey(k: string) {
    |k| >= 2 && k[0] == 'Q' && IsDigits(k[1..])
  }

  /** The storage key of question `n`, as in `Q${n}`. */
  function QuestionKey(n: nat): (k: string)
    ensures IsQuestionKey(k)
  {
    assert ("Q" + Decimal(n))[1..] == Decimal(n);
    "Q" + Decimal(n)
  }

  /**
   * `parseInt(questionKey.replace("Q", ""))`: the first "Q" of a question key
   * is its leading character, so what is parsed is the numeral after it.
   * The key is the key of the number read exactly when its numeral has no
   * leading zero: "Q01" is read as 1 but is not question 1's key.
   */
  function QuestionNumber(k: string): (n: nat)
    requires IsQuestionKey(k)
    ensures n == ParseDigits(k[1..])
    ensures QuestionKey(n) == k <==> k[1] != '0' || |k| == 2
  {
    var digits := k[1..];
    if digits[0] != '0' || |digits| == 1 then
      DecimalOfParseDigits(digits);
      assert k == "Q" + digits;
      ParseDigits(digits)
    else
      assert QuestionKey(ParseDigits(digits))[1..] == Decimal(ParseDigits(digits));
      ParseDigits(digits)
  }

  /** A key with a leading zero is read as the number after it, but is not that question's key. */
  lemma LeadingZeroKeyReadsAsItsNumber(k: string)
    requires k == "Q01"
    ensures IsQuestionKey(k) && QuestionNumber(k) == 1 && QuestionKey(1) != k
  {
    assert k[1..] == "01";
    assert "01"[..1] == "0";
  }

  /** Reading the number back out of a question's key gives the question. */
  lemma QuestionNumberOfKey(n: nat)
    ensures QuestionNumber(QuestionKey(n)) == n
  {
    assert QuestionKey(n)[1..] == Decimal(n);
    ParseDecimal(n);
  }

  /** Different questions are stored under different keys. */
  lemma QuestionKeyInjective(m: nat, n: nat)
    requires QuestionKey(m) == QuestionKey(n)
    ensures m == n
  {
    QuestionNumberOfKey(m);
    QuestionNumberOfKey(n);
  }

  /** The page that `handleChoice` navigates to after the question stored under `k`. */
  function NextPage(k: string): (page: string)
    requires IsQuestionKey(k)
    ensures page == "/result" <==> QuestionNumber(k) == 10
  {
    var current := QuestionNumber(k);
    if current == 10 then "/result"
    else
      var p := "/quiz/q" + Decimal(current + 1);
      assert p[1] != "/result"[1];
      p
  }

  /** After question 10 comes the result page; after question n ≠ 10, the page of question n + 1. */
  lemma NextPageAfterQuestion(n: nat)
    ensures NextPage(QuestionKey(n)) == if n == 10 then "/result" else "/quiz/q" + Decimal(n + 1)
  {
    QuestionNumberOfKey(n);
  }

  /**
   * `handleChoice`: stores the choice under the question's key, changing no
   * other key, and returns the page the browser is sent to.
   */
  method HandleChoice(ls: LocalStorage, questionKey: string, choiceType: string) returns (nextPage: string)
    requires IsQuestionKey(questionKey)
    modifies ls
    ensures ls.items == old(ls.items)[questionKey := choiceType]
    ensures nextPage == NextPage(questionKey)
  {
    ls.SetItem(questionKey, choiceType);
    var current := QuestionNumber(questionKey);
    nextPage := if current == 10 then "/result" else "/quiz/q" + Decimal(current + 1);
  }

  /** `Math.floor(random * len)` for a `Math.random()` sample `random` in [0, 1). */
  function RandomIndex(random: real, len: nat): (i: nat)
    requires 0.0 <= random < 1.0 && len > 0
    ensures i < len
  {
    var x := random * len as real;
    assert 0.0 <= x < len as real by {
      assert random * len as real < 1.0 * len as real;
    }
    x.Floor as nat
  }

  /**
   * `getRandomQuestionByKey`: `null` when the key has no pool or an empty
   * one; otherwise the pool's element at a random index.
   */
  function GetRandomQuestionByKey<Q>(questions: map<string, seq<Q>>, key: string, random: real): (q: Option<Q>)
    requires 0.0 <= random < 1.0
    ensures q.None? <==> key !in questions || |questions[key]| == 0
    ensures q.Some? ==> q.value in questions[key]
  {
    if key !in questions || |questions[key]| == 0 then None
    else
      var pool := questions[key];
      Some(pool[RandomIndex(random, |pool|)])
  }
}
