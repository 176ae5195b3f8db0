/**
 * voice_translate.py: a fixed English/Hiligaynon table looked up with the
 * input lowercased but the keys as written, the language label passed
 * through, the recording loop that gathers chunks until the queue times out,
 * and the branch of the main loop that turns a recognised text and its label
 * into the lines printed.
 */
module VoiceTranslate {
  import opened Wrappers
  import opened Text
  import opened Dict
  import opened Audio

  const NotFound := "Translation not found"

  /** `TRANSLATION_DICT`, a literal with ten distinct keys. */
  const TranslationDict: map<string, string> := map[
    "hello" := "kumusta",
    "goodbye" := "paalam",
    "thank you" := "salamat",
    "how are you" := "kamusta ka",
    "I love you" := "ginahigugma ta ka",
    "kumusta" := "hello",
    "paalam" := "goodbye",
    "salamat" := "thank you",
    "kamusta ka" := "how are you",
    "ginahigugma ta ka" := "I love you"
  ]

  /** `detect_language`: the classifier's label unchanged, or "unknown" when it raised. */
  function DetectLanguage(classified: Option<string>): (tag: string)
    ensures classified.Some? ==> tag == classified.value
    ensures classified.None? ==> tag == "unknown"
  {
    match classified
    case None => "unknown"
    case Some(lang) => lang
  }

  /** `translate_text`: the entry for the lowercased input, or the not-found message. */
  function Translate(text: string): (r: string)
    ensures r == NotFound || r in TranslationDict.Values
  {
    Get(TranslationDict, Lower(text), NotFound)
  }

  /** Any spelling whose lowercase form is a key gets that key's entry. */
  lemma TranslateLowered(text: string)
    requires Lower(text) in TranslationDict
    ensures Translate(text) == TranslationDict[Lower(text)]
  {
  }

  /** A shouted greeting is found: "HELLO" lowers to the key "hello". */
  lemma ShoutedHello()
    ensures Translate("HELLO") == "kumusta"
  {
    assert Lower("HELLO") == "hello";
  }

  /** The table is symmetric: each phrase maps to one that maps back to it. */
  lemma TableSymmetric()
    ensures forall k :: k in TranslationDict ==>
              TranslationDict[k] in TranslationDict && TranslationDict[TranslationDict[k]] == k
  {
    assert TranslationDict.Keys == {"hello", "goodbye", "thank you", "how are you", "I love you",
                                    "kumusta", "paalam", "salamat", "kamusta ka", "ginahigugma ta ka"};
    forall k | k in TranslationDict
      ensures TranslationDict[k] in TranslationDict && TranslationDict[TranslationDict[k]] == k
    {
      assert k in TranslationDict.Keys;
    }
  }

  /** The table's English phrases and its Hiligaynon phrases. */
  const EnglishPhrases: set<string> := {"hello", "goodbye", "thank you", "how are you", "I love you"}
  const HiligaynonPhrases: set<string> := {"kumusta", "paalam", "salamat", "kamusta ka", "ginahigugma ta ka"}

  /** Five distinct phrases on each side, no phrase on both. */
  lemma PhraseSets()
    ensures |EnglishPhrases| == 5 && |HiligaynonPhrases| == 5
    ensures EnglishPhrases !! HiligaynonPhrases
  {
    forall k | k in EnglishPhrases
      ensures k !in HiligaynonPhrases
    {
    }
  }

  /** The literal has ten entries: five English phrases and their five Hiligaynon counterparts as keys. */
  lemma TableHasTenEntries()
    ensures TranslationDict.Keys == EnglishPhrases + HiligaynonPhrases
    ensures |TranslationDict| == 10
  {
    PhraseSets();
    assert TranslationDict.Keys == EnglishPhrases + HiligaynonPhrases;
  }

  /** A lowercased input that is not a key, as written, is not found. */
  lemma MissingKeyNotFound(text: string)
    requires Lower(text) !in TranslationDict
    ensures Translate(text) == NotFound
  {
  }

  /** Only the key "I love you" maps to "ginahigugma ta ka". */
  lemma OnlyLoveKeyGivesGinahigugma(k: string)
    requires k in TranslationDict && TranslationDict[k] == "ginahigugma ta ka"
    ensures k == "I love you"
  {
    assert k in TranslationDict.Keys;
  }

  /**
   * The key "I love you" holds a capital and a lowercased input never does, so
   * no input reaches it: nothing ever translates to "ginahigugma ta ka".
   */
  lemma LoveKeyUnreachable(text: string)
    ensures Translate(text) != "ginahigugma ta ka"
  {
    var s := Lower(text);
    if s in TranslationDict && TranslationDict[s] == "ginahigugma ta ka" {
      OnlyLoveKeyGivesGinahigugma(s);
      assert false;
    }
  }

  /** No key starts with a lowercase "i". */
  lemma NoKeyStartsWithLowerI(k: string)
    requires k in TranslationDict
    ensures k != [] && k[0] != 'i'
  {
    assert k in TranslationDict.Keys;
  }

  /** In particular "I love you" itself is not found: its lowercase form starts with "i". */
  lemma LoveKeyNotFound()
    ensures Translate("I love you") == NotFound
  {
    var u := Lower("I love you");
    assert u[0] == 'i';
    if u in TranslationDict {
      NoKeyStartsWithLowerI(u);
      assert false;
    }
  }

  /** A key without capitals is reached by its own spelling. */
  lemma TranslateLowercaseKey(k: string)
    requires k in TranslationDict
    requires forall i :: 0 <= i < |k| ==> !IsUpper(k[i])
    ensures Translate(k) == TranslationDict[k]
  {
    LowerFixesLowercase(k);
  }

  /**
   * A key whose spelling and translation are both free of capitals
   * translates back to itself.
   */
  lemma RoundTrip(k: string)
    requires k in TranslationDict
    requires forall i :: 0 <= i < |k| ==> !IsUpper(k[i])
    requires forall i :: 0 <= i < |TranslationDict[k]| ==> !IsUpper(TranslationDict[k][i])
    ensures Translate(Translate(k)) == k
  {
    TableSymmetric();
    TranslateLowercaseKey(k);
    TranslateLowercaseKey(TranslationDict[k]);
  }

  /** "hello" goes to "kumusta" and back. */
  lemma HelloRoundTrip()
    ensures Translate(Translate("hello")) == "hello"
  {
    RoundTrip("hello");
  }

  /** "kumusta" goes to "hello" and back. */
  lemma KumustaRoundTrip()
    ensures Translate(Translate("kumusta")) == "kumusta"
  {
    RoundTrip("kumusta");
  }

  /** "goodbye" goes to "paalam" and back. */
  lemma GoodbyeRoundTrip()
    ensures Translate(Translate("goodbye")) == "goodbye"
  {
    RoundTrip("goodbye");
  }

  /** "paalam" goes to "goodbye" and back. */
  lemma PaalamRoundTrip()
    ensures Translate(Translate("paalam")) == "paalam"
  {
    RoundTrip("paalam");
  }

  /** "thank you" goes to "salamat" and back. */
  lemma ThankYouRoundTrip()
    ensures Translate(Translate("thank you")) == "thank you"
  {
    RoundTrip("thank you");
  }

  /** "salamat" goes to "thank you" and back. */
  lemma SalamatRoundTrip()
    ensures Translate(Translate("salamat")) == "salamat"
  {
    RoundTrip("salamat");
  }

  /** "how are you" goes to "kamusta ka" and back. */
  lemma HowAreYouRoundTrip()
    ensures Translate(Translate("how are you")) == "how are you"
  {
    RoundTrip("how are you");
  }

  /** "kamusta ka" goes to "how are you" and back. */
  lemma KamustaKaRoundTrip()
    ensures Translate(Translate("kamusta ka")) == "kamusta ka"
  {
    RoundTrip("kamusta ka");
  }

  /** "ginahigugma ta ka" translates to "I love you", which is then not found. */
  lemma LoveRoundTripBreaks()
    ensures Translate("ginahigugma ta ka") == "I love you"
    ensures Translate(Translate("ginahigugma ta ka")) == NotFound
  {
    TranslateLowercaseKey("ginahigugma ta ka");
    LoveKeyNotFound();
  }

  /**
   * The chunks `queue.get` returns before its first timeout, in order; an
   * exhausted sequence of polls stands for a queue that stays empty.
   */
  function ChunksBeforeTimeout(polls: seq<Poll>): (cs: seq<Chunk>)
    ensures |cs| <= |polls|
    ensures forall k :: 0 <= k < |cs| ==> polls[k] == Got(cs[k])
    ensures |cs| < |polls| ==> polls[|cs|] == Timeout
  {
    if polls == [] || polls[0] == Timeout then []
    else [polls[0].chunk] + ChunksBeforeTimeout(polls[1..])
  }

  /** The bytes of the chunks, one after another. */
  function Concat(cs: seq<Chunk>): seq<byte> {
    if cs == [] then [] else Concat(cs[..|cs| - 1]) + cs[|cs| - 1]
  }

  /** The recording loop of `recognize_speech`: append each chunk to the buffer until a poll times out. */
  method RecordUntilTimeout(polls: seq<Poll>) returns (audio: seq<byte>)
    ensures audio == Concat(ChunksBeforeTimeout(polls))
  {
    ghost var cs := ChunksBeforeTimeout(polls);
    audio := [];
    var i := 0;
    while i < |polls| && polls[i].Got?
      invariant 0 <= i <= |cs|
      invariant audio == Concat(cs[..i])
      decreases |polls| - i
    {
      assert cs[..i + 1][..i] == cs[..i];
      audio := audio + polls[i].chunk;
      i := i + 1;
    }
    assert cs[..i] == cs;
  }

  /**
   * The module-level `KaldiRecognizer`, as every buffer handed to
   * `AcceptWaveform` since it was built, in order: the one state its answers
   * can depend on. Every pass of `main` feeds this same object.
   */
  class Recognizer {
    var fed: seq<seq<byte>>

    /** Import time: nothing fed yet. */
    constructor ()
      ensures fed == []
    {
      fed := [];
    }

    /** `AcceptWaveform`: one more buffer for the same recogniser. */
    method AcceptWaveform(audio: seq<byte>)
      modifies this
      ensures fed == old(fed) + [audio]
    {
      fed := fed + [audio];
    }
  }

  /**
   * `recognize_speech` after the prompts: record, hand the whole buffer to the
   * global recogniser once, and read its text. `transcribe` stands for
   * `Result()` parsed as JSON with `text` looked up, given all the audio the
   * recogniser has been fed, this pass's buffer last.
   */
  method RecognizeSpeech(r: Recognizer, polls: seq<Poll>, transcribe: seq<seq<byte>> -> string)
    returns (text: string)
    modifies r
    ensures r.fed == old(r.fed) + [Concat(ChunksBeforeTimeout(polls))]
    ensures text == transcribe(r.fed)
  {
    var audio := RecordUntilTimeout(polls);
    r.AcceptWaveform(audio);
    text := transcribe(r.fed);
  }

  const ToHiligaynon := "Translated to Hiligaynon: "
  const ToEnglish := "Translated to English: "
  const Undetected := "Could not detect language."

  /**
   * One pass of the main loop after recognition: the lines printed for the
   * recognised `text`, with `classified` the classifier's answer for it.
   */
  function Report(text: string, classified: Option<string>): (lines: seq<string>)
    ensures text == "" <==> lines == []
    ensures |lines| <= 2
  {
    if text == "" then []
    else
      var tag := DetectLanguage(classified);
      ["Recognized: " + text] +
      if tag == "en" then [ToHiligaynon + Translate(text)]
      else if tag == "tl" then [ToEnglish + Translate(text)]
      else [Undetected]
  }

  /**
   * Empty text prints nothing. Otherwise the text is echoed and "en" and "tl"
   * print the same lookup under their two headings, while any other label, or
   * a classifier error, prints that the language was not detected.
   */
  lemma ReportBranches(text: string, classified: Option<string>)
    ensures text == "" ==> Report(text, classified) == []
    ensures text != "" ==> |Report(text, classified)| == 2 && Report(text, classified)[0] == "Recognized: " + text
    ensures text != "" && classified == Some("en") ==> Report(text, classified)[1] == ToHiligaynon + Translate(text)
    ensures text != "" && classified == Some("tl") ==> Report(text, classified)[1] == ToEnglish + Translate(text)
    ensures text != "" && classified != Some("en") && classified != Some("tl") ==>
              Report(text, classified)[1] == Undetected
  {
  }

  /** The printed lines of successive passes, in order. */
  function Transcript(passes: seq<(string, Option<string>)>): (lines: seq<string>)
    ensures |lines| <= 2 * |passes|
  {
    if passes == [] then []
    else Transcript(passes[..|passes| - 1]) + Report(passes[|passes| - 1].0, passes[|passes| - 1].1)
  }

  /** `main`'s endless loop over a finite run of recognised texts and their classifications. */
  method MainLoop(passes: seq<(string, Option<string>)>) returns (lines: seq<string>)
    ensures lines == Transcript(passes)
  {
    lines := [];
    var i := 0;
    while i < |passes|
      invariant 0 <= i <= |passes|
      invariant lines == Transcript(passes[..i])
    {
      assert passes[..i + 1][..i] == passes[..i];
      var (text, classified) := passes[i];
      lines := lines + Report(text, classified);
      i := i + 1;
    }
    assert passes[..i] == passes;
  }
}
