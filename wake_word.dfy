/**
 * The wake-word matcher (`WakeWordDetector`): a pure classifier of transcripts.
 * `detect` lower-cases and strips the transcript, accepts it when it starts
 * with the wake word (no word-boundary check), otherwise when the wake word
 * occurs as a whole word (regex `\bword\b`), in which case only the leftmost
 * occurrence is cut out; otherwise it rejects and hands the transcript back
 * untouched. `is_silence` is an independent length test.
 */
module WakeWord {
  import opened Wrappers
  import opened PyText

  const DefaultWakeWord := "griot"
  const DefaultConfidenceThreshold: real := 0.7
  const DefaultMinLength := 2

  /** A `WakeWordDetector`; both fields are set once, by `NewDetector`. */
  datatype Detector = Detector(wakeWord: string, confidenceThreshold: real)

  /** What `detect` returns: `(wake_word_detected, cleaned_text)`. */
  datatype Detection = Detection(detected: bool, cleaned: string)

  /** `WakeWordDetector(wake_word, confidence_threshold)`: the wake word is kept in lower case. */
  function NewDetector(wakeWord: string, confidenceThreshold: real): (d: Detector)
    ensures NoUpper(d.wakeWord)
    ensures |d.wakeWord| == |wakeWord| && Lower(d.wakeWord) == Lower(wakeWord)
    ensures NoUpper(wakeWord) ==> d.wakeWord == wakeWord
    ensures d.confidenceThreshold == confidenceThreshold
  {
    Detector(Lower(wakeWord), confidenceThreshold)
  }

  /** The text `detect` actually examines: `text.lower().strip()`. */
  function Normalized(text: string): string {
    Strip(Lower(text))
  }

  /** The regex `\bw\b` (with `w` escaped, so literal) matches `s` at position `i`. */
  predicate WholeWordAt(s: string, w: string, i: nat) {
    i + |w| <= |s| && s[i..i + |w|] == w && Boundary(s, i) && Boundary(s, i + |w|)
  }

  /** `re.search(r'\bw\b', s)`: the leftmost position at or after `from` where the pattern matches. */
  function FindWholeWord(s: string, w: string, from: nat): (r: Option<nat>)
    decreases |s| + 1 - from
    ensures r.Some? ==> from <= r.value && WholeWordAt(s, w, r.value)
    ensures r.Some? ==> forall j :: from <= j < r.value ==> !WholeWordAt(s, w, j)
    ensures r.None? ==> forall j :: from <= j ==> !WholeWordAt(s, w, j)
  {
    if from > |s| then None
    else if WholeWordAt(s, w, from) then Some(from)
    else FindWholeWord(s, w, from + 1)
  }

  /** `re.search` reports exactly the leftmost position where the pattern matches. */
  lemma FindWholeWordLeftmost(s: string, w: string, i: nat)
    requires WholeWordAt(s, w, i)
    requires forall j: nat :: j < i ==> !WholeWordAt(s, w, j)
    ensures FindWholeWord(s, w, 0) == Some(i)
  {
  }

  /** `detect(text)`. */
  function Detect(d: Detector, text: string): (r: Detection)
    ensures !r.detected ==> r.cleaned == text
  {
    var t := Normalized(text);
    if StartsWith(t, d.wakeWord) then
      Detection(true, Strip(t[|d.wakeWord|..]))
    else
      match FindWholeWord(t, d.wakeWord, 0)
      case Some(i) => Detection(true, Strip(t[..i] + t[i + |d.wakeWord|..]))
      case None => Detection(false, text)
  }

  /** `is_silence(text, min_length)`. */
  function IsSilence(text: string, minLength: int): bool {
    |Strip(text)| < minLength
  }

  lemma StripKeepsNoUpper(s: string)
    requires NoUpper(s)
    ensures NoUpper(Strip(s))
  {
    var a, b := StripBounds(s);
  }

  /** Cutting `[i, j)` out of the normalized text and stripping leaves lower-case, stripped text. */
  lemma CutNormalized(text: string, i: nat, j: nat)
    requires i <= j <= |Normalized(text)|
    ensures NoUpper(Strip(Normalized(text)[j..])) && IsStripped(Strip(Normalized(text)[j..]))
    ensures NoUpper(Strip(Normalized(text)[..i] + Normalized(text)[j..]))
    ensures IsStripped(Strip(Normalized(text)[..i] + Normalized(text)[j..]))
  {
    var t := Normalized(text);
    StripKeepsNoUpper(Lower(text));
    StripKeepsNoUpper(t[j..]);
    StripKeepsNoUpper(t[..i] + t[j..]);
    var _, _ := StripBounds(t[j..]);
    var _, _ := StripBounds(t[..i] + t[j..]);
  }

  /** The second branch of `detect`, once `re.search` has reported position `i`. */
  lemma DetectAtMatch(d: Detector, text: string, i: nat)
    requires !StartsWith(Normalized(text), d.wakeWord)
    requires FindWholeWord(Normalized(text), d.wakeWord, 0) == Some(i)
    ensures Detect(d, text) == Detection(true, Strip(Normalized(text)[..i] + Normalized(text)[i + |d.wakeWord|..]))
  {
  }

  // ---------------------------------------------------------------------------
  // Properties of `detect`
  // ---------------------------------------------------------------------------

  /**
   * A transcript that starts with the wake word is accepted and what follows
   * the wake word, stripped, is returned: there is no word-boundary check here.
   */
  lemma DetectPrefix(d: Detector, text: string)
    requires StartsWith(Normalized(text), d.wakeWord)
    ensures Detect(d, text) == Detection(true, Strip(Normalized(text)[|d.wakeWord|..]))
  {
  }

  /**
   * Otherwise, the leftmost whole-word occurrence of the wake word is cut out:
   * the text around it is kept as it is, spacing included, and only the two
   * ends of the result are stripped.
   */
  lemma DetectLeftmost(d: Detector, text: string, i: nat)
    requires !StartsWith(Normalized(text), d.wakeWord)
    requires WholeWordAt(Normalized(text), d.wakeWord, i)
    requires forall j: nat :: j < i ==> !WholeWordAt(Normalized(text), d.wakeWord, j)
    ensures Detect(d, text) == Detection(true, Strip(Normalized(text)[..i] + Normalized(text)[i + |d.wakeWord|..]))
  {
    FindWholeWordLeftmost(Normalized(text), d.wakeWord, i);
    DetectAtMatch(d, text, i);
  }

  /**
   * The wake word is detected exactly when the normalized transcript starts
   * with it or contains it as a whole word; anything else, the wake word only
   * inside a longer word included, is rejected.
   */
  lemma DetectIff(d: Detector, text: string)
    ensures Detect(d, text).detected <==>
      StartsWith(Normalized(text), d.wakeWord) || exists i: nat :: WholeWordAt(Normalized(text), d.wakeWord, i)
  {
    var t := Normalized(text);
    if !StartsWith(t, d.wakeWord) {
      match FindWholeWord(t, d.wakeWord, 0)
      case Some(i) => DetectAtMatch(d, text, i);
      case None =>
    }
  }

  /** On a hit the returned text is lower-case and has no whitespace at either end. */
  lemma DetectHitNormalized(d: Detector, text: string)
    requires Detect(d, text).detected
    ensures NoUpper(Detect(d, text).cleaned) && IsStripped(Detect(d, text).cleaned)
  {
    var t := Normalized(text);
    if StartsWith(t, d.wakeWord) {
      PrefixHitNormalized(d, text);
    } else {
      match FindWholeWord(t, d.wakeWord, 0)
      case Some(i) => MatchHitNormalized(d, text, i);
      case None =>
    }
  }

  lemma PrefixHitNormalized(d: Detector, text: string)
    requires StartsWith(Normalized(text), d.wakeWord)
    ensures NoUpper(Detect(d, text).cleaned) && IsStripped(Detect(d, text).cleaned)
  {
    DetectPrefix(d, text);
    RestHitNormalized(Detect(d, text), text, |d.wakeWord|);
  }

  lemma RestHitNormalized(r: Detection, text: string, j: nat)
    requires j <= |Normalized(text)|
    requires r.cleaned == Strip(Normalized(text)[j..])
    ensures NoUpper(r.cleaned) && IsStripped(r.cleaned)
  {
    CutNormalized(text, j, j);
  }

  lemma MatchHitNormalized(d: Detector, text: string, i: nat)
    requires !StartsWith(Normalized(text), d.wakeWord)
    requires FindWholeWord(Normalized(text), d.wakeWord, 0) == Some(i)
    ensures NoUpper(Detect(d, text).cleaned) && IsStripped(Detect(d, text).cleaned)
  {
    DetectAtMatch(d, text, i);
    CutHitNormalized(Detect(d, text), text, i, i + |d.wakeWord|);
  }

  lemma CutHitNormalized(r: Detection, text: string, i: nat, j: nat)
    requires i <= j <= |Normalized(text)|
    requires r.cleaned == Strip(Normalized(text)[..i] + Normalized(text)[j..])
    ensures NoUpper(r.cleaned) && IsStripped(r.cleaned)
  {
    CutNormalized(text, i, j);
  }

  /** `confidence_threshold` is never read: two detectors with the same wake word agree everywhere. */
  lemma DetectIgnoresThreshold(d: Detector, e: Detector, text: string)
    requires d.wakeWord == e.wakeWord
    ensures Detect(d, text) == Detect(e, text)
  {
  }

  /**
   * `detect` has no minimum-length short-circuit; still, a transcript that is
   * silence for a length at most the wake word's cannot contain it.
   */
  lemma SilenceNeverWakes(d: Detector, text: string, minLength: int)
    requires IsSilence(text, minLength) && minLength <= |d.wakeWord|
    ensures !Detect(d, text).detected
  {
    StripLower(text);
  }

  /** With the default `min_length` of 2, no silent transcript wakes the "griot" detector. */
  lemma DefaultSilenceNeverWakes(text: string)
    requires IsSilence(text, DefaultMinLength)
    ensures !Detect(NewDetector(DefaultWakeWord, DefaultConfidenceThreshold), text).detected
  {
    SilenceNeverWakes(NewDetector(DefaultWakeWord, DefaultConfidenceThreshold), text, DefaultMinLength);
  }

  // ---------------------------------------------------------------------------
  // Properties of `is_silence`
  // ---------------------------------------------------------------------------

  /** Whitespace around a transcript does not change whether it is silence. */
  lemma SilencePadding(p: string, text: string, q: string, minLength: int)
    requires AllSpace(p) && AllSpace(q)
    ensures IsSilence(p + text + q, minLength) == IsSilence(text, minLength)
  {
    var a, b := StripBounds(text);
    var r := text[a..b];
    assert text == text[..a] + r + text[b..];
    assert p + text + q == (p + text[..a]) + r + (text[b..] + q);
    AllSpaceAppend(p, text[..a]);
    AllSpaceAppend(text[b..], q);
    StripPadded(p + text[..a], r, text[b..] + q);
  }

  /** With `min_length` 1, silence is exactly "nothing but whitespace". */
  lemma SilenceAtOneIsBlank(text: string)
    ensures IsSilence(text, 1) <==> AllSpace(text)
  {
    if AllSpace(text) {
      assert text == text + [] + [];
      StripPadded(text, [], []);
    } else {
      var k :| 0 <= k < |text| && !IsSpace(text[k]);
      var a, b := StripBounds(text);
      assert text[k] == (text[..a] + text[a..b] + text[b..])[k];
    }
  }

  /** A larger minimum length can only turn more transcripts into silence. */
  lemma SilenceMonotone(text: string, m: int, n: int)
    requires m <= n && IsSilence(text, m)
    ensures IsSilence(text, n)
  {
  }

  // ---------------------------------------------------------------------------
  // The detector the realtime endpoint uses, on concrete transcripts
  // ---------------------------------------------------------------------------

  /** The prefix test is not word-bounded: "Griots are" is accepted and leaves "s are". */
  lemma GriotsAreExample()
    ensures Detect(NewDetector(DefaultWakeWord, DefaultConfidenceThreshold), "Griots are")
         == Detection(true, "s are")
  {
    var d := NewDetector(DefaultWakeWord, DefaultConfidenceThreshold);
    assert d.wakeWord == "griot";
    assert Lower("Griots are") == "griots are";
    assert Normalized("Griots are") == "griots are";
    assert "griots are"[5..] == "s are";
  }

  /**
   * A wake word in the middle is cut out with the spaces around it left in
   * place, and a comma next to it is kept.
   */
  lemma MidSentenceExample()
    ensures Detect(NewDetector(DefaultWakeWord, DefaultConfidenceThreshold), "Hi, Griot, go")
         == Detection(true, "hi, , go")
  {
    var d := NewDetector(DefaultWakeWord, DefaultConfidenceThreshold);
    var text, t := "Hi, Griot, go", "hi, griot, go";
    assert d.wakeWord == "griot";
    MidSentenceMatch(text, t);
    DetectLeftmost(d, text, 4);
    MidSentenceRest(t);
  }

  lemma MidSentenceMatch(text: string, t: string)
    requires text == "Hi, Griot, go" && t == "hi, griot, go"
    ensures Normalized(text) == t
    ensures !StartsWith(t, "griot") && WholeWordAt(t, "griot", 4)
    ensures forall j: nat :: j < 4 ==> !WholeWordAt(t, "griot", j)
  {
    MidSentenceNormalized(text, t);
    assert t[0] != 'g';
    assert t[4..9] == "griot";
    forall j: nat | j < 4 ensures !WholeWordAt(t, "griot", j) {
      assert t[j] != 'g';
      assert t[j..j + 5][0] == t[j];
    }
  }

  lemma MidSentenceNormalized(text: string, t: string)
    requires text == "Hi, Griot, go" && t == "hi, griot, go"
    ensures Normalized(text) == t
  {
    assert Lower(text) == t;
    assert Strip(t) == t;
  }

  lemma MidSentenceRest(t: string)
    requires t == "hi, griot, go"
    ensures Strip(t[..4] + t[9..]) == "hi, , go"
  {
    var rest := t[..4] + t[9..];
    assert rest == "hi, , go";
    assert Strip(rest) == rest;
  }

  /** Only one occurrence is removed: a repeated wake word survives in the result. */
  lemma RepeatedWakeWordExample()
    ensures Detect(NewDetector(DefaultWakeWord, DefaultConfidenceThreshold), "griot griot tell me")
         == Detection(true, "griot tell me")
  {
    var d := NewDetector(DefaultWakeWord, DefaultConfidenceThreshold);
    var t := "griot griot tell me";
    assert d.wakeWord == "griot";
    RepeatedNormalized(t);
    DetectPrefix(d, t);
    RepeatedRest(t);
  }

  lemma RepeatedNormalized(t: string)
    requires t == "griot griot tell me"
    ensures Normalized(t) == t && StartsWith(t, "griot")
  {
    assert Lower(t) == t;
    assert Strip(t) == t;
  }

  lemma RepeatedRest(t: string)
    requires t == "griot griot tell me"
    ensures Strip(t[5..]) == "griot tell me"
  {
    assert t[5..] == " griot tell me";
    assert Strip(" griot tell me") == "griot tell me";
  }

  /** The wake word inside a longer word that does not start the text is not detected. */
  lemma EmbeddedWakeWordExample()
    ensures Detect(NewDetector(DefaultWakeWord, DefaultConfidenceThreshold), "agriot")
         == Detection(false, "agriot")
  {
    var d := NewDetector(DefaultWakeWord, DefaultConfidenceThreshold);
    var t := "agriot";
    assert d.wakeWord == "griot";
    assert Lower(t) == t;
    assert Normalized(t) == t;
    assert !StartsWith(t, d.wakeWord) by { assert t[0] != 'g'; }
    forall j: nat ensures !WholeWordAt(t, d.wakeWord, j) {
      if j == 1 {
        assert !Boundary(t, 1);
      } else if j == 0 {
        assert t[0..5][0] != 'g';
      }
    }
    DetectIff(d, t);
  }

  /** The transcript of the end-to-end wake scenario is detected (by the prefix test). */
  lemma WhatTimeIsItWakes()
    ensures Detect(NewDetector(DefaultWakeWord, DefaultConfidenceThreshold), "griot what time is it").detected
  {
    var d := NewDetector(DefaultWakeWord, DefaultConfidenceThreshold);
    var text := "griot what time is it";
    assert d.wakeWord == "griot";
    assert Lower(text) == text;
    assert Strip(text) == text;
    assert StartsWith(text, "griot");
  }
}
