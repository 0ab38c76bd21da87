/**
 * The chat helpers (src/services/aiChatbotService.js): how `sendChatMessage`
 * shapes its reply and suggestions from the outcome of the model call, and
 * `detectLanguage`, which classifies text by Unicode block.
 * The `generateContent` call is a function parameter.
 */
module AiChatbotService {
  import opened Wrappers

  const Apology := "I'm sorry, I couldn't generate a response."
  const UnavailablePrefix := "Sorry, the AI service is currently unavailable. "

  /** The assistant's instructions, sent ahead of the user's message. */
  const SystemPrompt := "You are KisanMitra, a helpful Indian farming assistant. \n- Goal: Provide concise, accurate advice on crops, soil, pests, and weather.\n- Tone: Helpful, empathetic, and professional.\n- Formatting Rules:\n  1. Use ONLY plain text. DO NOT use stars (*), asterisks, or underscores for bolding or lists.\n  2. Add a full empty line between each point or paragraph for better spacing.\n  3. Keep the language extremely simple for farmers to understand.\n  4. Maximum 5 points per response."

  /** Suggested follow-up questions in English. */
  const SuggestionsEn: seq<string> := [
      "\U{1F33E} How to prepare soil?",
      "\U{1F331} Best seeds",
      "\U{1F6E1}\U{FE0F} Pest control",
      "\U{2601}\U{FE0F} Weather"
    ]

  /** Suggested follow-up questions in Hindi. */
  const SuggestionsHi: seq<string> := [
      "\U{1F33E} मिट्टी कैसे तैयार करें?",
      "\U{1F331} बेहतर बीज",
      "\U{1F6E1}\U{FE0F} कीट नियंत्रण",
      "\U{2601}\U{FE0F} मौसम"
    ]

  /** Suggested follow-up questions in Telugu. */
  const SuggestionsTe: seq<string> := [
      "\U{1F33E} మట్టిని ఎలా సిద్ధం చేయాలి?",
      "\U{1F331} ఉత్తమ విత్తనాలు",
      "\U{1F6E1}\U{FE0F} తెగులు నివారణ",
      "\U{2601}\U{FE0F} మార్పులు"
    ]

  /** What `generateContent` is asked: the system instructions and the user's message. */
  datatype ChatRequest = ChatRequest(systemPrompt: string, message: string)

  /** The call either resolves with a response whose `text` may be absent, or throws an error whose `message` may be absent. */
  datatype GenerateOutcome = Generated(text: Option<string>) | Threw(message: Option<string>)

  /** The object `sendChatMessage` resolves with. */
  datatype ChatReply = ChatReply(reply: string, suggestions: seq<string>)

  /** `suggestionsDict[uiLanguage] || suggestionsDict.en`, over the dictionary's own keys. */
  function Suggestions(uiLanguage: string): (r: seq<string>)
    ensures |r| == 4
    ensures r == SuggestionsEn || r == SuggestionsHi || r == SuggestionsTe
    ensures uiLanguage != "hi" && uiLanguage != "te" ==> r == SuggestionsEn
  {
    if uiLanguage == "en" then SuggestionsEn
    else if uiLanguage == "hi" then SuggestionsHi
    else if uiLanguage == "te" then SuggestionsTe
    else SuggestionsEn
  }

  /** The result of `sendChatMessage` once the model call has an outcome. */
  function ShapeReply(outcome: GenerateOutcome, uiLanguage: string): (r: ChatReply)
    ensures |r.reply| > 0
    ensures r.suggestions == [] <==> outcome.Threw?
  {
    match outcome
    case Generated(text) =>
      var reply := if text.Some? && text.value != "" then text.value else Apology;
      ChatReply(reply, Suggestions(uiLanguage))
    case Threw(message) =>
      var detail := if message.Some? && message.value != "" then message.value else "";
      ChatReply(UnavailablePrefix + detail, [])
  }

  /**
   * `sendChatMessage`, with `generateContent` as a parameter: the model is asked
   * the user's message under the system instructions; the call never throws,
   * always has a reply, and has suggestions exactly when the model answered.
   */
  function SendChatMessage(message: string, uiLanguage: string, generate: ChatRequest -> GenerateOutcome): (r: ChatReply)
    ensures |r.reply| > 0
    ensures r.suggestions == [] <==> generate(ChatRequest(SystemPrompt, message)).Threw?
    ensures generate(ChatRequest(SystemPrompt, message)).Generated? ==> r.suggestions == Suggestions(uiLanguage)
  {
    ShapeReply(generate(ChatRequest(SystemPrompt, message)), uiLanguage)
  }

  /**
   * On success the suggestions are the four for the interface language, and
   * any language other than `en`, `hi` and `te` gets the English ones.
   */
  lemma SuggestionsByLanguage(uiLanguage: string)
    ensures |Suggestions(uiLanguage)| == 4
    ensures uiLanguage == "hi" ==> Suggestions(uiLanguage) == SuggestionsHi
    ensures uiLanguage == "te" ==> Suggestions(uiLanguage) == SuggestionsTe
    ensures uiLanguage != "hi" && uiLanguage != "te" ==> Suggestions(uiLanguage) == SuggestionsEn
  {
  }

  /**
   * A successful call replies with the model's text when there is some, and
   * with the apology when it is absent or empty; the reply is never empty.
   */
  lemma ReplyOnSuccess(text: Option<string>, uiLanguage: string)
    ensures text.Some? && text.value != "" ==> ShapeReply(Generated(text), uiLanguage).reply == text.value
    ensures text.None? || text.value == "" ==> ShapeReply(Generated(text), uiLanguage).reply == Apology
    ensures ShapeReply(Generated(text), uiLanguage).suggestions == Suggestions(uiLanguage)
    ensures |ShapeReply(Generated(text), uiLanguage).reply| > 0
  {
  }

  /**
   * A failed call still resolves: the reply is the apology prefix followed by
   * the error's message, or by nothing when it has none, and there are no
   * suggestions, whatever the interface language.
   */
  lemma ReplyOnError(message: Option<string>, uiLanguage: string)
    ensures var r := ShapeReply(Threw(message), uiLanguage);
      && r.suggestions == []
      && UnavailablePrefix <= r.reply
      && (message.Some? ==> r.reply == UnavailablePrefix + message.value)
      && (message.None? ==> r.reply == UnavailablePrefix)
    ensures ShapeReply(Threw(message), uiLanguage) == ShapeReply(Threw(message), "en")
  {
    var r := ShapeReply(Threw(message), uiLanguage);
    if message.Some? && message.value == "" {
      assert UnavailablePrefix + message.value == UnavailablePrefix;
    }
  }

  /** Whatever the outcome, the reply is non-empty and the suggestions are four or none. */
  lemma ReplyNeverEmpty(outcome: GenerateOutcome, uiLanguage: string)
    ensures |ShapeReply(outcome, uiLanguage).reply| > 0
    ensures |ShapeReply(outcome, uiLanguage).suggestions| == (if outcome.Generated? then 4 else 0)
  {
    SuggestionsByLanguage(uiLanguage);
  }

  // ------------------------------------------------------------ detection

  /** The Devanagari block, U+0900 to U+097F. */
  predicate IsDevanagari(c: char) {
    '\U{0900}' <= c <= '\U{097F}'
  }

  /** The Telugu block, U+0C00 to U+0C7F. */
  predicate IsTelugu(c: char) {
    '\U{0C00}' <= c <= '\U{0C7F}'
  }

  /** The test of a one-character-class regex: some character of `s` is in the block `[lo-hi]`. */
  function HasCharIn(s: string, lo: char, hi: char): (r: bool)
    ensures r <==> exists i :: 0 <= i < |s| && lo <= s[i] <= hi
  {
    if |s| == 0 then false
    else if lo <= s[0] <= hi then true
    else
      var r := HasCharIn(s[1..], lo, hi);
      assert forall i :: 1 <= i < |s| ==> s[i] == s[1..][i - 1];
      r
  }

  /** `detectLanguage`: Devanagari first, then Telugu, otherwise English. */
  function DetectLanguage(text: string): (r: string)
    ensures r == "hi" || r == "te" || r == "en"
    ensures r == "en" ==> forall i :: 0 <= i < |text| ==> !IsDevanagari(text[i]) && !IsTelugu(text[i])
  {
    if HasCharIn(text, '\U{0900}', '\U{097F}') then "hi"
    else if HasCharIn(text, '\U{0C00}', '\U{0C7F}') then "te"
    else "en"
  }

  /**
   * The language is Hindi exactly when some character is Devanagari, Telugu
   * exactly when none is and some character is Telugu, English otherwise;
   * the answer is always one of the three.
   */
  lemma DetectLanguageByBlock(text: string)
    ensures DetectLanguage(text) == "hi" <==> exists i :: 0 <= i < |text| && IsDevanagari(text[i])
    ensures DetectLanguage(text) == "te" <==>
      (forall i :: 0 <= i < |text| ==> !IsDevanagari(text[i])) && exists i :: 0 <= i < |text| && IsTelugu(text[i])
    ensures DetectLanguage(text) == "en" <==>
      forall i :: 0 <= i < |text| ==> !IsDevanagari(text[i]) && !IsTelugu(text[i])
    ensures DetectLanguage(text) in {"hi", "te", "en"}
  {
  }

  /** Text made of ASCII characters only, the empty text included, is English. */
  lemma AsciiIsEnglish(text: string)
    requires forall i :: 0 <= i < |text| ==> text[i] < '\U{0080}'
    ensures DetectLanguage(text) == "en"
  {
    DetectLanguageByBlock(text);
  }

  /** Appending Telugu to Hindi text leaves it Hindi: Devanagari is checked first. */
  lemma MixedTextIsHindi(hindi: string, telugu: string)
    requires DetectLanguage(hindi) == "hi"
    ensures DetectLanguage(hindi + telugu) == "hi"
    ensures DetectLanguage(telugu + hindi) == "hi"
  {
    DetectLanguageByBlock(hindi);
    var i :| 0 <= i < |hindi| && IsDevanagari(hindi[i]);
    assert (hindi + telugu)[i] == hindi[i];
    assert (telugu + hindi)[|telugu| + i] == hindi[i];
    DetectLanguageByBlock(hindi + telugu);
    DetectLanguageByBlock(telugu + hindi);
  }
}
