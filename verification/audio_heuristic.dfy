/**
 * The rule-based check of whether an STT transcript looks like a person asking for
 * help: rejections first (too short, blank, engine noise tokens, one repeated
 * character, no letter/digit/space at all), then distress keywords, then a length and
 * Hangul fallback.
 */
module AudioHeuristic {
  import opened JavaText

  const DistressKeywords: seq<string> := [
    "살려", "살려주세요",
    "도와", "도와주세요",
    "구해", "구해주세요",
    "여기", "여기요",
    "사람", "사람 있어",
    "죽겠", "못 움직", "숨이", "숨막", "위험", "불", "불났", "여기", "헬프",
    "help", "으악", "아악", "으", "악"
  ]

  const NoisePatterns: seq<string> := [
    "<noise>", "<unk>", "<unitelligible>",
    "음성 인식 실패", "들리지", "알 수 없음"
  ]

  const MinSentenceLength: int := 6

  predicate ContainsAny(s: string, words: seq<string>) {
    exists k | 0 <= k < |words| :: Contains(s, words[k])
  }

  /** The characters the regex `.` does not match in Java's default mode. */
  predicate IsLineTerminator(c: char) {
    c == '\n' || c == '\r' || c == '\U{85}' || c == '\U{2028}' || c == '\U{2029}'
  }

  /** `s.matches("(.)\\1{2,}")`: the whole string is one character, other than a line terminator, three or more times. */
  predicate RepeatedChar(s: string) {
    |s| >= 3 && !IsLineTerminator(s[0]) && forall i :: 0 <= i < |s| ==> s[i] == s[0]
  }

  /** A precomposed Hangul syllable, U+AC00 to U+D7A3 (the range `가-힣`). */
  predicate IsHangulSyllable(c: char) {
    '\U{AC00}' <= c <= '\U{D7A3}'
  }

  /** The class `[가-힣A-Za-z0-9\s]`. */
  predicate InSpeechClass(c: char) {
    IsHangulSyllable(c) || ('A' <= c <= 'Z') || ('a' <= c <= 'z') || ('0' <= c <= '9') || IsRegexSpace(c)
  }

  /** `s.replaceAll("[가-힣A-Za-z0-9\\s]", "")`. */
  function RemoveSpeechClass(s: string): (r: string)
    ensures |r| <= |s|
    ensures forall i :: 0 <= i < |r| ==> !InSpeechClass(r[i])
  {
    if s == [] then []
    else if InSpeechClass(s[0]) then RemoveSpeechClass(s[1..])
    else [s[0]] + RemoveSpeechClass(s[1..])
  }

  /** `containsHangul`. */
  predicate ContainsHangul(s: string) {
    exists i | 0 <= i < |s| :: IsHangulSyllable(s[i])
  }

  /** A trimmed transcript that passes every rejection. */
  predicate PassesRejections(s: string) {
    && s != []
    && !ContainsAny(ToLowerAscii(s), NoisePatterns)
    && !RepeatedChar(s)
    && |RemoveSpeechClass(s)| != |s|
  }

  predicate HasKeyword(s: string) {
    ContainsAny(s, DistressKeywords) || ContainsAny(RemoveRegexSpace(s), DistressKeywords)
  }

  /**
   * `isHumanLikeSpeech` (the lower-casing for the noise check covers ASCII letters only).
   * Both length thresholds count UTF-16 units, as `String.length()` does.
   */
  function IsHumanLikeSpeech(stt: string): (r: bool)
    ensures Utf16Length(stt) < 2 ==> !r
    ensures (forall i :: 0 <= i < |stt| ==> IsTrimmable(stt[i])) ==> !r
    ensures ContainsAny(ToLowerAscii(Trim(stt)), NoisePatterns) ==> !r
    ensures RepeatedChar(Trim(stt)) ==> !r
    ensures (forall i :: 0 <= i < |Trim(stt)| ==> !InSpeechClass(Trim(stt)[i])) ==> !r
    ensures r ==> HasKeyword(Trim(stt)) || (Utf16Length(Trim(stt)) >= MinSentenceLength && ContainsHangul(Trim(stt)))
  {
    if Utf16Length(stt) < 2 then false
    else
      var s := Trim(stt);
      SpeechClassLength(s);
      if s == [] then false
      else if ContainsAny(ToLowerAscii(s), NoisePatterns) then false
      else if RepeatedChar(s) then false
      else if |RemoveSpeechClass(s)| == |s| then false
      else if HasKeyword(s) then true
      else Utf16Length(s) >= MinSentenceLength && ContainsHangul(s)
  }

  // ----- properties -----

  /** Nothing is removed exactly when no character is in the class. */
  lemma {:induction false} SpeechClassLength(s: string)
    ensures |RemoveSpeechClass(s)| == |s| <==> forall i :: 0 <= i < |s| ==> !InSpeechClass(s[i])
  {
    if s != [] {
      SpeechClassLength(s[1..]);
      if forall i :: 0 <= i < |s[1..]| ==> !InSpeechClass(s[1..][i]) {
        forall i | 0 <= i < |s| && !InSpeechClass(s[0])
          ensures !InSpeechClass(s[i])
        {
          if i > 0 { assert s[i] == s[1..][i - 1]; }
        }
      } else {
        var i :| 0 <= i < |s[1..]| && InSpeechClass(s[1..][i]);
        assert InSpeechClass(s[i + 1]);
      }
    }
  }

  /** Once every rejection is passed, a keyword in either form decides true. */
  lemma KeywordAccepts(stt: string)
    requires Utf16Length(stt) >= 2 && PassesRejections(Trim(stt)) && HasKeyword(Trim(stt))
    ensures IsHumanLikeSpeech(stt)
  {
  }

  /** Without a keyword, the answer is exactly "six or more UTF-16 units, with a Hangul syllable". */
  lemma FallbackRule(stt: string)
    requires Utf16Length(stt) >= 2 && PassesRejections(Trim(stt)) && !HasKeyword(Trim(stt))
    ensures IsHumanLikeSpeech(stt) <==> Utf16Length(Trim(stt)) >= MinSentenceLength && ContainsHangul(Trim(stt))
  {
  }

  /** An engine noise token in the trimmed, lower-cased text rejects the transcript. */
  lemma NoiseRejects(stt: string)
    requires ContainsAny(ToLowerAscii(Trim(stt)), NoisePatterns)
    ensures !IsHumanLikeSpeech(stt)
  {
  }

  /** A word cannot occur in a text that lacks one of its characters. */
  lemma AbsentChar(s: string, t: string, j: int)
    requires 0 <= j < |t| && t[j] !in s
    ensures !Contains(s, t)
  {
  }

  /** For NoiseBeatsKeyword: the example holds the noise token `<noise>`. */
  lemma NoiseExampleFacts(s: string)
    requires s == "<noise> 살려"
    ensures ContainsAny(ToLowerAscii(s), NoisePatterns)
  {
    assert ToLowerAscii("<noise> 살려") == "<noise> 살려";
    assert OccursAt(s, NoisePatterns[0], 0);
  }

  /** For NoiseBeatsKeyword: the example also holds the keyword "살려". */
  lemma NoiseExampleKeyword(s: string)
    requires s == "<noise> 살려"
    ensures ContainsAny(s, DistressKeywords)
  {
    assert s[8..10] == DistressKeywords[0];
    assert OccursAt(s, DistressKeywords[0], 8);
  }

  /** Engine noise wins over a distress keyword in the same transcript. */
  lemma NoiseBeatsKeyword(s: string)
    requires s == "<noise> 살려"
    ensures HasKeyword(Trim(s)) && !IsHumanLikeSpeech(s)
  {
    TrimKeeps(s);
    NoiseExampleFacts(s);
    NoiseExampleKeyword(s);
    NoiseRejects(s);
  }

  /** For SpacedPleaAccepted: the spaced plea passes every rejection. */
  lemma SpacedPleaPasses(s: string)
    requires s == "살 려 주세요"
    ensures PassesRejections(s)
  {
    assert ToLowerAscii("살 려 주세요") == "살 려 주세요";
    forall k | 0 <= k < |NoisePatterns|
      ensures !Contains(s, NoisePatterns[k])
    {
      AbsentChar(s, NoisePatterns[k], 0);
    }
    assert s[1] != s[0];
    assert InSpeechClass(s[0]);
    SpeechClassLength(s);
  }

  /** For SpacedPleaAccepted: without its spaces the plea holds "살려". */
  lemma SpacedPleaKeyword(s: string)
    requires s == "살 려 주세요"
    ensures ContainsAny(RemoveRegexSpace(s), DistressKeywords)
  {
    assert RemoveRegexSpace("살 려 주세요") == "살려주세요";
    assert OccursAt(RemoveRegexSpace(s), DistressKeywords[0], 0);
  }

  /** A plea split by spaces is recognised through the space-free form. */
  lemma SpacedPleaAccepted(s: string)
    requires s == "살 려 주세요"
    ensures IsHumanLikeSpeech(s)
  {
    TrimKeeps(s);
    SpacedPleaPasses(s);
    SpacedPleaKeyword(s);
    KeywordAccepts(s);
  }

  predicate UpperOrSpace(s: string) {
    forall i :: 0 <= i < |s| ==> 'A' <= s[i] <= 'Z' || s[i] == ' '
  }

  /** Every keyword starts with a Hangul syllable or a lower-case letter. */
  lemma UpperCaseHasNoKeyword(s: string)
    requires UpperOrSpace(s)
    ensures !ContainsAny(s, DistressKeywords)
  {
    forall k | 0 <= k < |DistressKeywords|
      ensures !Contains(s, DistressKeywords[k])
    {
      var c := DistressKeywords[k][0];
      assert !('A' <= c <= 'Z' || c == ' ');
      AbsentChar(s, DistressKeywords[k], 0);
    }
  }

  /** For UpperCaseHelpRejected: "HELP ME" has no keyword in either form and no Hangul. */
  lemma UpperCaseFacts(s: string)
    requires s == "HELP ME"
    ensures !HasKeyword(s) && !ContainsHangul(s)
  {
    UpperCaseHasNoKeyword(s);
    RemoveKeepsUpper(s);
    UpperCaseHasNoKeyword(RemoveRegexSpace(s));
  }

  /** Removing spaces keeps a string of capitals and spaces in that form. */
  lemma {:induction false} RemoveKeepsUpper(s: string)
    requires UpperOrSpace(s)
    ensures UpperOrSpace(RemoveRegexSpace(s))
  {
    if s != [] {
      RemoveKeepsUpper(s[1..]);
    }
  }

  /** Without a keyword and without Hangul nothing is accepted, whatever the length. */
  lemma NoKeywordNoHangulRejected(stt: string)
    requires !HasKeyword(Trim(stt)) && !ContainsHangul(Trim(stt))
    ensures !IsHumanLikeSpeech(stt)
  {
  }

  /** The keyword test is case-sensitive: an upper-case "HELP ME" is not a plea, and without Hangul not a sentence. */
  lemma UpperCaseHelpRejected(s: string)
    requires s == "HELP ME"
    ensures !IsHumanLikeSpeech(s)
  {
    TrimKeeps(s);
    UpperCaseFacts(s);
    NoKeywordNoHangulRejected(s);
  }

  /** One Hangul syllable followed by characters beyond U+FFFF. */
  predicate HangulThenSupplementary(s: string) {
    |s| > 0 && s[0] == '가' && forall i :: 1 <= i < |s| ==> IsSupplementary(s[i])
  }

  /** Every keyword and noise token starts with a character such a string lacks. */
  lemma {:induction false} SupplementaryHasNoWord(s: string)
    requires HangulThenSupplementary(s)
    ensures !ContainsAny(s, DistressKeywords) && !ContainsAny(s, NoisePatterns)
  {
    forall k | 0 <= k < |DistressKeywords|
      ensures !Contains(s, DistressKeywords[k])
    {
      var c := DistressKeywords[k][0];
      assert c != '가' && !IsSupplementary(c);
      AbsentChar(s, DistressKeywords[k], 0);
    }
    forall k | 0 <= k < |NoisePatterns|
      ensures !Contains(s, NoisePatterns[k])
    {
      var c := NoisePatterns[k][0];
      assert c != '가' && !IsSupplementary(c);
      AbsentChar(s, NoisePatterns[k], 0);
    }
  }

  /** For SupplementaryCountsTwice: the example passes the rejections and has no keyword. */
  lemma EmojiExampleFacts(s: string)
    requires s == "가\U{1F600}\U{1F600}\U{1F600}"
    ensures PassesRejections(s) && !HasKeyword(s) && ContainsHangul(s)
  {
    assert ToLowerAscii(s) == s;
    RemoveRegexSpaceKeeps(s);
    SupplementaryHasNoWord(s);
    assert s[1] != s[0];
    assert InSpeechClass(s[0]);
    SpeechClassLength(s);
  }

  /** For SupplementaryCountsTwice: four characters, seven UTF-16 units. */
  lemma EmojiExampleLength(s: string)
    requires s == "가\U{1F600}\U{1F600}\U{1F600}"
    ensures |s| == 4 && Utf16Length(s) == 7
  {
    assert s == ['가'] + ['\U{1F600}'] + ['\U{1F600}'] + ['\U{1F600}'];
    assert Utf16Length(['\U{1F600}']) == 2;
    Utf16LengthAppend(['가'], ['\U{1F600}']);
    Utf16LengthAppend(['가'] + ['\U{1F600}'], ['\U{1F600}']);
    Utf16LengthAppend(['가'] + ['\U{1F600}'] + ['\U{1F600}'], ['\U{1F600}']);
  }

  /**
   * Four characters, but seven UTF-16 units: the sentence fallback counts each emoji twice,
   * so a Hangul syllable and three emoji are accepted as speech.
   */
  lemma SupplementaryCountsTwice(s: string)
    requires s == "가\U{1F600}\U{1F600}\U{1F600}"
    ensures |Trim(s)| < MinSentenceLength && IsHumanLikeSpeech(s)
  {
    TrimKeeps(s);
    EmojiExampleFacts(s);
    EmojiExampleLength(s);
    FallbackRule(s);
  }
}
