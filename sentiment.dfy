/**
 * The keyword mood classifier of the console sales bot
 * (`infer_psychological_state`): a message is positive when it contains one
 * of the positive keywords, otherwise negative when it contains one of the
 * negative keywords, otherwise neutral. Matching is Python's `word in message`:
 * case-sensitive containment of a contiguous substring.
 */
module Sentiment {

  const PositiveLabel: string := "positive"
  const NegativeLabel: string := "negative"
  const NeutralLabel: string := "neutral"

  const PositiveKeywords: seq<string> := ["love", "like", "enjoy"]
  const NegativeKeywords: seq<string> := ["hate", "dislike", "bad"]

  /** `word` appears in `text` starting at index `i`. */
  ghost predicate OccursAt(word: string, text: string, i: int)
  {
    0 <= i && i + |word| <= |text| && text[i..i + |word|] == word
  }

  /** `word` appears somewhere in `text` as a contiguous substring. */
  ghost predicate Occurs(word: string, text: string)
  {
    exists i :: OccursAt(word, text, i)
  }

  /** Some positive keyword occurs in the message. */
  ghost predicate HasPositive(message: string)
  {
    Occurs("love", message) || Occurs("like", message) || Occurs("enjoy", message)
  }

  /** Some negative keyword occurs in the message. */
  ghost predicate HasNegative(message: string)
  {
    Occurs("hate", message) || Occurs("dislike", message) || Occurs("bad", message)
  }

  /** Shifting an occurrence by the first character of the text. */
  lemma OccursShift(word: string, text: string)
    requires |text| > 0
    ensures Occurs(word, text) <==> (OccursAt(word, text, 0) || Occurs(word, text[1..]))
  {
    if Occurs(word, text) {
      var i :| OccursAt(word, text, i);
      if i > 0 {
        assert text[1..][i - 1..i - 1 + |word|] == text[i..i + |word|];
        assert OccursAt(word, text[1..], i - 1);
      }
    }
    if Occurs(word, text[1..]) {
      var i :| OccursAt(word, text[1..], i);
      assert text[1..][i..i + |word|] == text[i + 1..i + 1 + |word|];
      assert OccursAt(word, text, i + 1);
    }
  }

  /** Python's `word in text` on strings. */
  function Contains(text: string, word: string): (found: bool)
    decreases |text|
  {
    if |text| < |word| then false
    else if text[..|word|] == word then true
    else Contains(text[1..], word)
  }

  /** `Contains` is exactly substring occurrence. */
  lemma {:induction false} ContainsIsOccurs(text: string, word: string)
    ensures Contains(text, word) <==> Occurs(word, text)
    decreases |text|
  {
    if |text| < |word| {
      forall i ensures !OccursAt(word, text, i) { }
    } else if text[..|word|] == word {
      assert OccursAt(word, text, 0);
    } else {
      OccursShift(word, text);
      ContainsIsOccurs(text[1..], word);
    }
  }

  /** Python's `any(word in text for word in keywords)`. */
  function AnyContained(keywords: seq<string>, text: string): (found: bool)
  {
    if keywords == [] then false
    else Contains(text, keywords[0]) || AnyContained(keywords[1..], text)
  }

  /** `any` over a keyword list is true exactly when one of the keywords occurs. */
  lemma {:induction false} AnyContainedIsSomeOccurs(keywords: seq<string>, text: string)
    ensures AnyContained(keywords, text) <==> exists j :: 0 <= j < |keywords| && Occurs(keywords[j], text)
  {
    if keywords != [] {
      ContainsIsOccurs(text, keywords[0]);
      AnyContainedIsSomeOccurs(keywords[1..], text);
      assert forall j :: 1 <= j < |keywords| ==> keywords[j] == keywords[1..][j - 1];
    }
  }

  /** `infer_psychological_state`: always one of the three labels. */
  function InferPsychologicalState(message: string): (state: string)
    ensures state == PositiveLabel || state == NegativeLabel || state == NeutralLabel
  {
    if AnyContained(PositiveKeywords, message) then PositiveLabel
    else if AnyContained(NegativeKeywords, message) then NegativeLabel
    else NeutralLabel
  }

  /**
   * The label in terms of the keywords: positive keywords take priority over
   * negative ones, and neutral means that no keyword occurs.
   */
  lemma InferMatchesKeywords(message: string)
    ensures var state := InferPsychologicalState(message);
      && (state == PositiveLabel <==> HasPositive(message))
      && (state == NegativeLabel <==> !HasPositive(message) && HasNegative(message))
      && (state == NeutralLabel <==> !HasPositive(message) && !HasNegative(message))
  {
    AnyContainedIsSomeOccurs(PositiveKeywords, message);
    AnyContainedIsSomeOccurs(NegativeKeywords, message);
    assert PositiveKeywords[0] == "love" && PositiveKeywords[1] == "like" && PositiveKeywords[2] == "enjoy";
    assert NegativeKeywords[0] == "hate" && NegativeKeywords[1] == "dislike" && NegativeKeywords[2] == "bad";
  }

  /** Containment is not word matching: "unlikely" contains "like". */
  lemma UnlikelyIsPositive()
    ensures InferPsychologicalState("unlikely") == PositiveLabel
  {
  }

  /** Matching is case-sensitive: "LOVE" contains no keyword. */
  lemma UpperCaseIsNeutral()
    ensures InferPsychologicalState("LOVE") == NeutralLabel
  {
    var text := "LOVE";
    forall word, i | OccursAt(word, text, i) && |word| >= 3
      ensures word[0] in "LOV"
    {
      assert word[0] == text[i];
    }
    assert "love"[0] !in "LOV" && "like"[0] !in "LOV" && "enjoy"[0] !in "LOV";
    assert "hate"[0] !in "LOV" && "dislike"[0] !in "LOV" && "bad"[0] !in "LOV";
    InferMatchesKeywords(text);
  }

  /** A positive keyword wins even when a negative keyword is present too. */
  lemma PositiveTakesPriority(message: string)
    requires HasPositive(message) && HasNegative(message)
    ensures InferPsychologicalState(message) == PositiveLabel
  {
    InferMatchesKeywords(message);
  }

  /**
   * "dislike" contains "like", so a message with the negative keyword
   * "dislike" is always classified positive.
   */
  lemma DislikeIsPositive(message: string)
    requires Occurs("dislike", message)
    ensures InferPsychologicalState(message) == PositiveLabel
  {
    var i :| OccursAt("dislike", message, i);
    assert message[i + 3..i + 7] == message[i..i + 7][3..7];
    assert OccursAt("like", message, i + 3);
    InferMatchesKeywords(message);
  }
}
