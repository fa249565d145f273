/**
 * app/emotion_detection.py: the crisis keyword detector. The transformers
 * emotion classifier is an input of the chatbot, not part of this module.
 */
module EmotionDetection {
  import opened Text

  /** `SUICIDE_KEYWORDS`, in the source's order; the fourth is not lower-case. */
  const SuicideKeywords: seq<string> :=
    ["kill myself", "end it all", "suicidal", "I want to die", "self-harm", "can't go on", "hurt myself"]

  /**
   * `detect_suicidal_intent(text)`: true exactly when some keyword occurs in
   * the lower-cased text. The loop's early return only stops the search.
   */
  function DetectSuicidalIntent(text: string): (r: bool)
    ensures r <==> exists i :: 0 <= i < |SuicideKeywords| && Contains(Lower(text), SuicideKeywords[i])
  {
    AnyOccurs(SuicideKeywords, Lower(text))
  }

  /** The result depends on the text only through its lower-case form. */
  lemma DetectIgnoresCase(a: string, b: string)
    requires Lower(a) == Lower(b)
    ensures DetectSuicidalIntent(a) == DetectSuicidalIntent(b)
  {
  }

  /** Upper-case letters in the input do not hide a lower-case keyword. */
  lemma DetectsShoutedKeyword(text: string)
    requires text == "I will KILL MYSELF"
    ensures DetectSuicidalIntent(text)
  {
    var lowered := Lower(text);
    var k := SuicideKeywords[0];
    forall j | 0 <= j < |k| ensures lowered[7 + j] == k[j] {
      assert lowered[7 + j] == LowerChar(text[7 + j]);
    }
    assert lowered[7..7 + |k|] == k;
    assert OccursAt(lowered, k, 7);
  }

  /** The keyword "I want to die" holds an upper-case 'I', and lower-cased text never does. */
  lemma MixedCaseKeywordNeverMatches(text: string)
    ensures !Contains(Lower(text), SuicideKeywords[3])
  {
    NoUpperKeywordInLowered(text, SuicideKeywords[3], 0);
  }

  /**
   * Each keyword other than "I want to die" holds one of the letters k, l, s,
   * c, h, so text without those letters contains none of them.
   */
  lemma KeywordsNeedLetters(s: string)
    requires 'k' !in s && 'l' !in s && 's' !in s && 'c' !in s && 'h' !in s
    ensures forall i :: 0 <= i < |SuicideKeywords| && i != 3 ==> !Contains(s, SuicideKeywords[i])
  {
    var missing := ['k', 'l', 's', 'I', 's', 'c', 'h'];
    forall i | 0 <= i < |SuicideKeywords| && i != 3
      ensures !Contains(s, SuicideKeywords[i])
    {
      assert missing[i] in SuicideKeywords[i];
      if Contains(s, SuicideKeywords[i]) {
        ContainsOnlyCharsOf(s, SuicideKeywords[i], missing[i]);
      }
    }
  }

  /** So the phrase that keyword was meant to catch goes undetected, in any case. */
  lemma WantToDieUndetected(text: string)
    requires Lower(text) == "i want to die"
    ensures !DetectSuicidalIntent(text)
  {
    var lowered := Lower(text);
    assert lowered == "i want to die";
    assert 'k' !in lowered && 'l' !in lowered && 's' !in lowered && 'c' !in lowered && 'h' !in lowered;
    MixedCaseKeywordNeverMatches(text);
    KeywordsNeedLetters(lowered);
  }

  lemma EmptyUndetected()
    ensures !DetectSuicidalIntent("")
  {
    forall i | 0 <= i < |SuicideKeywords|
      ensures !Contains(Lower(""), SuicideKeywords[i])
    {
      assert |SuicideKeywords[i]| > 0;
    }
  }

  /** Text around a detected message keeps it detected. */
  lemma DetectMonotone(p: string, t: string, s: string)
    requires DetectSuicidalIntent(t)
    ensures DetectSuicidalIntent(p + t + s)
  {
    var i :| 0 <= i < |SuicideKeywords| && Contains(Lower(t), SuicideKeywords[i]);
    LowerConcat(p, t);
    LowerConcat(p + t, s);
    ContainsInContext(Lower(p), Lower(t), Lower(s), SuicideKeywords[i]);
  }

  /** Scanning the keywords in any other order gives the same answer. */
  lemma DetectIndependentOfOrder(keywords: seq<string>, text: string)
    requires multiset(keywords) == multiset(SuicideKeywords)
    ensures AnyOccurs(keywords, Lower(text)) == DetectSuicidalIntent(text)
  {
    var lowered := Lower(text);
    if AnyOccurs(keywords, lowered) {
      var i :| 0 <= i < |keywords| && Contains(lowered, keywords[i]);
      assert keywords[i] in multiset(SuicideKeywords);
      var j :| 0 <= j < |SuicideKeywords| && SuicideKeywords[j] == keywords[i];
    }
    if DetectSuicidalIntent(text) {
      var j :| 0 <= j < |SuicideKeywords| && Contains(lowered, SuicideKeywords[j]);
      assert SuicideKeywords[j] in multiset(keywords);
      var i :| 0 <= i < |keywords| && keywords[i] == SuicideKeywords[j];
    }
  }
}
