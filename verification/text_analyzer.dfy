/** `TextAnalyzer`: naive lexical statistics of a transcript.  Sentences are
    the pieces of the text between occurrences of ". ", words are the
    whitespace-separated tokens, and a sentence counts as dialogue when it
    holds a double or a single quote. */
module TextAnalyzer {
  import opened Common
  import opened Text

  /** A transcription as the pipeline passes it around: `None` for Python's
      `None`, otherwise a dictionary whose "text" entry holds the transcript. */
  type Transcription = Option<map<string, string>>

  /** Python's truthiness of the transcription dictionary. */
  predicate IsTruthy(t: Transcription)
  {
    t.Some? && t.value != map[]
  }

  datatype TextAnalysis = TextAnalysis(
    wordCount: nat,
    sentenceCount: nat,
    avgSentenceLength: real,
    dialogueSentences: nat,
    dialogueRatio: real)

  /** `_get_empty_analysis`. */
  const EmptyAnalysis: TextAnalysis := TextAnalysis(0, 0, 0.0, 0, 0.0)

  const SentenceBreak: string := ". "

  predicate IsDialogue(sentence: string)
  {
    '"' in sentence || '\'' in sentence
  }

  /** The number of dialogue sentences: none exactly when no sentence holds
      a quote, all exactly when every sentence does. */
  function CountDialogue(sentences: seq<string>): (n: nat)
    ensures n <= |sentences|
    ensures n == 0 <==> forall i :: 0 <= i < |sentences| ==> !IsDialogue(sentences[i])
    ensures n == |sentences| <==> forall i :: 0 <= i < |sentences| ==> IsDialogue(sentences[i])
  {
    if sentences == [] then 0
    else
      var rest := CountDialogue(sentences[1..]);
      assert forall i :: 1 <= i < |sentences| ==> sentences[i] == sentences[1..][i - 1];
      (if IsDialogue(sentences[0]) then 1 else 0) + rest
  }

  /** `r` is the share `part` makes up of `whole`. */
  predicate IsShare(r: real, part: nat, whole: nat)
  {
    0.0 <= r && r * whole as real == part as real
  }

  /** `part / whole` for a positive whole; a part no larger than the whole
      gives a share of at most 1. */
  function Ratio(part: nat, whole: nat): (r: real)
    requires whole > 0
    ensures IsShare(r, part, whole)
    ensures part <= whole ==> r <= 1.0
  {
    RatioBounds(part, whole);
    part as real / whole as real
  }

  lemma RatioBounds(part: nat, whole: nat)
    requires whole > 0
    ensures var r := part as real / whole as real;
            r * whole as real == part as real && 0.0 <= r && (part <= whole ==> r <= 1.0)
  {
    var r := part as real / whole as real;
    assert r * whole as real == part as real;
    if r > 1.0 {
      assert r * whole as real > 1.0 * whole as real;
    }
  }

  /** `_analyze_dialogue_markers`: the dialogue count and its share of the
      sentences (the split always yields at least one piece). */
  function DialogueMarkers(text: string): (r: (nat, real))
    ensures var count := |Split(text, SentenceBreak)|;
            r.0 == CountDialogue(Split(text, SentenceBreak)) <= count && r.1 <= 1.0 && IsShare(r.1, r.0, count)
  {
    var sentences := Split(text, SentenceBreak);
    var n := CountDialogue(sentences);
    (n, Ratio(n, |sentences|))
  }

  /** `analyze_text`: the all-zero analysis for a falsy transcription or one
      without "text"; otherwise the statistics of its text. */
  function AnalyzeText(t: Transcription): (a: TextAnalysis)
    ensures !IsTruthy(t) || "text" !in t.value ==> a == EmptyAnalysis
    ensures IsTruthy(t) && "text" in t.value ==>
              var text := t.value["text"];
              && a.sentenceCount == |Split(text, SentenceBreak)| >= 1
              && a.wordCount == |Words(text)| <= |text|
              && IsShare(a.avgSentenceLength, a.wordCount, a.sentenceCount)
              && a.dialogueSentences == CountDialogue(Split(text, SentenceBreak)) <= a.sentenceCount
              && a.dialogueRatio <= 1.0
              && IsShare(a.dialogueRatio, a.dialogueSentences, a.sentenceCount)
  {
    if !IsTruthy(t) || "text" !in t.value then EmptyAnalysis
    else
      var text := t.value["text"];
      var sentences := Split(text, SentenceBreak);
      var words := Words(text);
      WordsPartition(text);
      var markers := DialogueMarkers(text);
      TextAnalysis(|words|, |sentences|, Ratio(|words|, |sentences|), markers.0, markers.1)
  }

  /** The sentences are the pieces of the text between the breaks: joined
      back with ". " they give the text, and none holds a break. */
  lemma SentencesPartitionText(text: string)
    ensures Join(Split(text, SentenceBreak), SentenceBreak) == text
    ensures forall s :: s in Split(text, SentenceBreak) ==> !Contains(s, SentenceBreak)
  {
    SplitJoin(text, SentenceBreak);
  }

  /** The leftmost occurrence of `sub` at or after `from` is at `k`. */
  lemma {:induction false} FindAt(s: string, sub: string, from: nat, k: nat)
    requires from <= k && OccursAt(s, sub, k)
    requires forall j :: from <= j < k ==> !OccursAt(s, sub, j)
    ensures FindFrom(s, sub, from) == Some(k)
    decreases k - from
  {
    if from < k {
      FindAt(s, sub, from + 1, k);
    }
  }

  /** Even an empty text counts one sentence. */
  lemma EmptyTextOneSentence()
    ensures AnalyzeText(Some(map["text" := ""])) == TextAnalysis(0, 1, 0.0, 0, 0.0)
  {
    var m := map["text" := ""];
    assert "text" in m;
    assert Split("", SentenceBreak) == [""];
    assert Words("") == [];
  }

  lemma DialogueExampleSplit()
    ensures Split("He said \"hi\". She left.", SentenceBreak) == ["He said \"hi\"", "She left."]
  {
    var first, rest := "He said \"hi\"", "She left.";
    var text := first + SentenceBreak + rest;
    assert text == "He said \"hi\". She left.";
    DialogueExampleBreak();
    DialogueExampleNoBreak();
    AroundSeparator(first, SentenceBreak, rest);
    SplitOnce(text, SentenceBreak, 12);
  }

  lemma AroundSeparator(a: string, sep: string, b: string)
    ensures (a + sep + b)[..|a|] == a && (a + sep + b)[|a| + |sep|..] == b
  {
    var t := a + sep + b;
    assert forall i :: 0 <= i < |a| ==> t[..|a|][i] == a[i];
    assert forall i :: 0 <= i < |b| ==> t[|a| + |sep|..][i] == b[i];
  }

  /** A text with one separator splits into the two sides of it. */
  lemma SplitOnce(s: string, sep: string, k: nat)
    requires |sep| > 0 && FindFrom(s, sep, 0) == Some(k)
    requires FindFrom(s[k + |sep|..], sep, 0).None?
    ensures Split(s, sep) == [s[..k], s[k + |sep|..]]
  {
  }

  lemma DialogueExampleBreak()
    ensures FindFrom("He said \"hi\". She left.", SentenceBreak, 0) == Some(12)
  {
    var text := "He said \"hi\". She left.";
    forall j | 0 <= j < 12 ensures !OccursAt(text, SentenceBreak, j) {
      FirstCharMismatch(text, SentenceBreak, j);
    }
    assert OccursAt(text, SentenceBreak, 12);
    FindAt(text, SentenceBreak, 0, 12);
  }

  lemma DialogueExampleNoBreak()
    ensures FindFrom("She left.", SentenceBreak, 0).None?
  {
    var rest := "She left.";
    forall j: nat | j < 8 ensures !OccursAt(rest, SentenceBreak, j) {
      FirstCharMismatch(rest, SentenceBreak, j);
    }
  }

  lemma DialogueExampleCount()
    ensures CountDialogue(["He said \"hi\"", "She left."]) == 1
  {
    var first: string, rest: string := "He said \"hi\"", "She left.";
    assert first[8] == '"';
    assert IsDialogue(first);
    assert !IsDialogue(rest) by {
      assert forall i :: 0 <= i < |rest| ==> rest[i] != '"' && rest[i] != '\'';
    }
    assert [first, rest][1..] == [rest];
    assert [rest][1..] == [];
  }

  /** `He said "hi". She left.` has two sentences, one of them dialogue. */
  lemma DialogueExample()
    ensures var a := AnalyzeText(Some(map["text" := "He said \"hi\". She left."]));
            a.sentenceCount == 2 && a.dialogueSentences == 1 && a.dialogueRatio == 0.5
  {
    var text := "He said \"hi\". She left.";
    var t: Transcription := Some(map["text" := text]);
    assert "text" in t.value && t.value["text"] == text;
    assert t.value != map[];
    assert IsTruthy(t);
    DialogueExampleSplit();
    DialogueExampleCount();
    var a := AnalyzeText(t);
    assert a.sentenceCount == 2 && a.dialogueSentences == 1;
    assert a.dialogueRatio * 2.0 == 1.0;
  }
}
