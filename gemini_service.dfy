/**
 * The vision diagnosis service (src/services/geminiService.js): the API-key
 * gate, the prompt, the request it posts, how the HTTP outcome becomes a
 * result or an error, and the parse of the model's free-text answer.
 * The `fetch` call is a function parameter; the image reader's output is an input.
 */
module GeminiService {
  import opened Wrappers
  import opened JsString
  import opened LabelRegex

  const ApiKeyPlaceholder := "your_gemini_api_key_here"
  const NotConfiguredMessage := "Gemini API key not configured. Please add VITE_GEMINI_API_KEY to your .env file"
  const NoResponseMessage := "No response from Gemini Vision API"
  const UnknownErrorDetail := "Unknown error"
  const DefaultMimeType := "image/jpeg"
  const AnalysisMethod := "gemini_vision"
  const HealthyPlantName := "Healthy Cotton Plant"
  const DefaultConfidence: real := 0.85
  const MaxOutputTokens: nat := 8192

  const StatusPattern := Pattern("Disease Status:", Text)
  const DiseasePattern := Pattern("Specific Disease:", Text)
  const ConfidencePattern := Pattern("Confidence:", Digits)

  /**
   * A one-value index for the template. It describes nothing in the service:
   * it only keeps the long literal below from being unfolded where no proof needs it.
   */
  datatype Crop = Cotton

  /** The fixed instruction template sent with every image of the crop. */
  function BasePrompt(crop: Crop): string {
    match crop
    case Cotton => @"You are an expert agricultural pathologist. Analyze this cotton plant and provide COMPLETE treatment details with exact medications and dosages.

FORMAT (No asterisks/dashes in content):

Disease Status: [Healthy/Diseased]
Specific Disease: [Name]
Confidence: [0-100]%


🔍 Visual Assessment
Describe symptoms: spots, color, size, location, texture.


🦠 Disease Details
Name disease, pathogen type, how it spreads.


📊 Severity: [Mild/Moderate/Severe]


💊 TREATMENT (MUST COMPLETE ALL 3 OPTIONS)

OPTION 1: [Product Name - e.g., Mancozeb 75% WP]
Active Ingredient: [Chemical]
Dosage: [X grams per liter OR X kg per acre]
Mix: [How to prepare]
Apply: [Spray method, timing]
Frequency: [Every X days, X times]
Duration: [X weeks]
Water: [Liters per acre]
Cost: [Rs. X-Y per acre]

OPTION 2: [Product Name - e.g., Copper Oxychloride]
Active Ingredient: [Chemical]
Dosage: [Exact amount]
Mix: [Preparation]
Apply: [Method]
Frequency: [Schedule]
Duration: [Period]
Cost: [Price]

OPTION 3: [Product Name - e.g., Carbendazim]
Active Ingredient: [Chemical]
Dosage: [Exact amount]
Mix: [Preparation]
Apply: [Method]
Frequency: [Schedule]
Cost: [Price]

ORGANIC OPTIONS:

1. [Natural remedy]: [Ingredients with amounts], [Preparation], [Application]
2. [Second remedy]: [Details]

IMMEDIATE ACTIONS:
1. [Action]
2. [Action]
3. [Action]


🛡️ Prevention
1. [Practice]
2. [Practice]
3. [Practice]
4. [Practice]


📈 Recovery
Time: [X weeks]
Yield Impact: [Percentage]
Success Rate: [Percentage]


⚠️ Warnings
[Critical notes]


CRITICAL: Complete ALL treatment options with REAL Indian product names and EXACT dosages. Do not stop until all sections are complete."
  }

  const HindiSuffix := "\n\nहिंदी में पूरा जवाब दें। सभी दवाओं के नाम और मात्रा बताएं।"
  const TeluguSuffix := "\n\nతెలుగులో పూర్తి సమాధానం ఇవ్వండి। అన్ని మందుల వివరాలు ఇవ్వండి।"

  // ---------------------------------------------------------------- prompt

  /** The language instruction appended for a language tag, empty for any other tag. */
  function LanguageSuffix(language: string): string {
    if language == "hi" then HindiSuffix
    else if language == "te" then TeluguSuffix
    else ""
  }

  /**
   * The branch of `buildVisionPrompt` applied to a template. Whatever the
   * template, the prompt starts with it and the rest is the language's
   * instruction: the Hindi or Telugu one for `hi` and `te`, nothing for every other tag.
   */
  function WithLanguage(template: string, language: string): (r: string)
    ensures template <= r
    ensures r[|template|..] == LanguageSuffix(language)
    ensures language != "hi" && language != "te" ==> r == template
  {
    var suffix := LanguageSuffix(language);
    assert (template + suffix)[|template|..] == suffix;
    if language == "hi" then template + HindiSuffix
    else if language == "te" then template + TeluguSuffix
    else template
  }

  /** `buildVisionPrompt`: the cotton template followed by the language's request, if any. */
  function BuildVisionPrompt(language: string): string {
    WithLanguage(BasePrompt(Cotton), language)
  }

  // ----------------------------------------------------------------- parse

  /** The three fields `parseVisionResponse` extracts. */
  datatype VisionFields = VisionFields(disease: string, confidence: real, isHealthy: bool)

  /**
   * `parseVisionResponse`: three independent extractions, each with its own
   * fallback; it never fails. The plant is only called healthy when a status
   * field was found, a name other than the healthy-plant name mentions neither
   * "none" nor "healthy", and the confidence is never negative.
   */
  function ParseVisionResponse(text: string): (r: VisionFields)
    ensures r.isHealthy ==> Capture(text, StatusPattern).Some?
    ensures r.disease != HealthyPlantName ==>
      !Includes(ToLowerAscii(r.disease), "none") && !Includes(ToLowerAscii(r.disease), "healthy")
    ensures r.confidence >= 0.0
  {
    var status := match Capture(text, StatusPattern)
      case Some(c) => ToLowerAscii(Trim(c))
      case None => "";
    assert !OccursAt("", "healthy", 0);
    var isHealthy := Includes(status, "healthy");
    var captured := match Capture(text, DiseasePattern)
      case Some(c) => Trim(c)
      case None => "";
    var disease :=
      if Includes(ToLowerAscii(captured), "none") || Includes(ToLowerAscii(captured), "healthy")
      then HealthyPlantName
      else captured;
    var confidence := match Capture(text, ConfidencePattern)
      case Some(c) => DecimalValue(c) as real / 100.0
      case None => DefaultConfidence;
    VisionFields(disease, confidence, isHealthy)
  }

  /** The disease-name rule applied to a raw capture (before trimming). */
  function NormalizedDisease(capture: string): string {
    if Includes(ToLowerAscii(capture), "none") || Includes(ToLowerAscii(capture), "healthy")
    then HealthyPlantName
    else Trim(capture)
  }

  lemma WordsHaveNoSpace()
    ensures forall k :: 0 <= k < |"healthy"| ==> !IsSpace("healthy"[k])
    ensures forall k :: 0 <= k < |"none"| ==> !IsSpace("none"[k])
  {
  }

  /**
   * Healthiness: with no status field it is false; otherwise it is whether the
   * first status capture, lower-cased, contains "healthy" (trimming does not matter).
   */
  lemma ParseStatus(text: string)
    ensures NoMatch(text, StatusPattern) ==> !ParseVisionResponse(text).isHealthy
    ensures forall p: nat, s: nat, e: nat :: IsFirstMatch(text, StatusPattern, p, s, e) ==>
      (e <= |text| && (ParseVisionResponse(text).isHealthy <==> Includes(ToLowerAscii(text[s..e]), "healthy")))
  {
    FirstMatchCorrect(text, StatusPattern);
    FindFromCorrect(text, StatusPattern, 0);
    WordsHaveNoSpace();
    match Capture(text, StatusPattern)
    case None =>
      assert !Includes("", "healthy");
    case Some(c) =>
      IncludesLowerTrim(c, "healthy");
  }

  /**
   * Disease name: "" with no disease field; otherwise "Healthy Cotton Plant" when
   * the first capture mentions "none" or "healthy" in any case, else the trimmed capture.
   */
  lemma ParseDisease(text: string)
    ensures NoMatch(text, DiseasePattern) ==> ParseVisionResponse(text).disease == ""
    ensures forall p: nat, s: nat, e: nat :: IsFirstMatch(text, DiseasePattern, p, s, e) ==>
      (e <= |text| && ParseVisionResponse(text).disease == NormalizedDisease(text[s..e]))
  {
    FirstMatchCorrect(text, DiseasePattern);
    FindFromCorrect(text, DiseasePattern, 0);
    WordsHaveNoSpace();
    match Capture(text, DiseasePattern)
    case None =>
      assert !Includes("", "none") && !Includes("", "healthy");
    case Some(c) =>
      IncludesLowerTrim(c, "healthy");
      IncludesLowerTrim(c, "none");
  }

  /** Confidence: exactly 0.85 with no confidence field, otherwise the captured percentage over 100. */
  lemma ParseConfidence(text: string)
    ensures NoMatch(text, ConfidencePattern) ==> ParseVisionResponse(text).confidence == 0.85
    ensures forall p: nat, s: nat, e: nat :: IsFirstMatch(text, ConfidencePattern, p, s, e) ==>
      (e <= |text| && AllDigits(text[s..e])
       && ParseVisionResponse(text).confidence == DecimalValue(text[s..e]) as real / 100.0)
    ensures ParseVisionResponse(text).confidence >= 0.0
  {
    FirstMatchCorrect(text, ConfidencePattern);
    FindFromCorrect(text, ConfidencePattern, 0);
  }

  /** A labelled line as the pattern expects it: `**<label> <value>**` and a newline. */
  function FieldLine(pat: Pattern, v: string): string {
    Opening(pat) + v + "**\n"
  }

  /**
   * The three labelled lines in bold, as the patterns require:
   * `**Disease Status: <status>**`, `**Specific Disease: <disease>**`,
   * `**Confidence: <percent>%**`. The prompt itself shows these labels without
   * asterisks; see `NoStarGivesDefaults` for what plain labels parse to.
   */
  function RenderFields(status: string, disease: string, percent: nat): string {
    FieldLine(StatusPattern, status) + FieldLine(DiseasePattern, disease)
      + (Opening(ConfidencePattern) + NumberToString(percent) + "%**")
  }

  /** A field value the text pattern captures whole: non-empty, no `*` or newline, not starting with whitespace. */
  predicate IsFieldValue(v: string) {
    |v| > 0 && !IsSpace(v[0]) && forall i :: 0 <= i < |v| ==> v[i] != '*' && v[i] != '\n'
  }

  /** The rendered status value is what the status pattern captures. */
  lemma RenderedStatusCapture(status: string, disease: string, percent: nat)
    requires IsFieldValue(status)
    ensures Capture(RenderFields(status, disease, percent), StatusPattern) == Some(status)
  {
    var rest := FieldLine(DiseasePattern, disease) + (Opening(ConfidencePattern) + NumberToString(percent) + "%**");
    var t := RenderFields(status, disease, percent);
    var after := "**\n" + rest;
    assert t == Opening(StatusPattern) + status + after;
    assert t == "" + Opening(StatusPattern) + status + after;
    var e := |Opening(StatusPattern)| + |status|;
    assert t[e] == '*' && t[e + 1] == '*';
    CaptureOfField(t, StatusPattern, "", status, after);
  }

  /** The characters of a labelled line: `**`, the label, a space, the value, `**` and a newline. */
  lemma FieldLineShape(other: Pattern, v: string)
    requires |other.heading| > 0
    requires forall i :: 0 <= i < |other.heading| ==> other.heading[i] != '*'
    requires forall i :: 0 <= i < |v| ==> v[i] != '*'
    ensures var line := FieldLine(other, v);
      && |line| == |other.heading| + |v| + 6
      && line[0] == '*' && line[1] == '*' && line[2] == other.heading[0]
      && (forall i :: 2 <= i < |line| - 3 ==> line[i] != '*')
      && line[|line| - 3] == '*' && line[|line| - 2] == '*' && line[|line| - 1] == '\n'
  {
    var line := FieldLine(other, v);
    var name := other.heading + " ";
    assert line == "**" + name + v + "**\n";
    forall i | 2 <= i < |line| - 3 ensures line[i] != '*' {
      if i < 2 + |name| {
        assert line[i] == name[i - 2];
      } else {
        assert line[i] == v[i - 2 - |name|];
      }
    }
  }

  /**
   * A labelled line of another pattern holds no label of this one: its only
   * `**` pairs are followed by its own label and by the newline.
   */
  lemma NoLabelInLine(t: string, pat: Pattern, before: string, other: Pattern, v: string, after: string)
    requires t == before + FieldLine(other, v) + after
    requires |pat.heading| > 0 && pat.heading[0] != '\n' && |other.heading| > 0
    requires FoldCase(other.heading[0]) != FoldCase(pat.heading[0])
    requires forall i :: 0 <= i < |other.heading| ==> other.heading[i] != '*'
    requires forall i :: 0 <= i < |v| ==> v[i] != '*'
    requires forall p': nat :: p' < |before| ==> !LabelAt(t, pat.heading, p')
    ensures forall p': nat :: p' < |before| + |FieldLine(other, v)| ==> !LabelAt(t, pat.heading, p')
  {
    var line := FieldLine(other, v);
    FieldLineShape(other, v);
    var b := |before|;
    var n := |line|;
    forall i | 0 <= i < n ensures t[b + i] == line[i] { }
    NoLabelWithoutStar(t, pat.heading, b + 2, b + n - 3);
    assert FoldCase(t[b + 2]) != FoldCase(pat.heading[0]);
    assert !LabelAt(t, pat.heading, b);
    assert !LabelAt(t, pat.heading, b + 1);
    assert t[b + n - 1] == '\n' && FoldCase('\n') != FoldCase(pat.heading[0]);
    assert !LabelAt(t, pat.heading, b + n - 3);
    assert !LabelAt(t, pat.heading, b + n - 2);
    assert !LabelAt(t, pat.heading, b + n - 1);
  }

  /** The rendered disease value is what the disease pattern captures: the status line holds no such label. */
  lemma RenderedDiseaseCapture(status: string, disease: string, percent: nat)
    requires IsFieldValue(status) && IsFieldValue(disease)
    ensures Capture(RenderFields(status, disease, percent), DiseasePattern) == Some(disease)
  {
    var line1 := FieldLine(StatusPattern, status);
    var rest := Opening(ConfidencePattern) + NumberToString(percent) + "%**";
    var t := RenderFields(status, disease, percent);
    NoLabelInLine(t, DiseasePattern, "", StatusPattern, status, FieldLine(DiseasePattern, disease) + rest);
    var after := "**\n" + rest;
    assert t == line1 + Opening(DiseasePattern) + disease + after;
    var e := |line1| + |Opening(DiseasePattern)| + |disease|;
    assert t[e] == '*' && t[e + 1] == '*';
    CaptureOfField(t, DiseasePattern, line1, disease, after);
  }

  /** The rendered percentage is what the confidence pattern captures: no earlier line holds that label. */
  lemma RenderedConfidenceCapture(status: string, disease: string, percent: nat)
    requires IsFieldValue(status) && IsFieldValue(disease)
    ensures Capture(RenderFields(status, disease, percent), ConfidencePattern) == Some(NumberToString(percent))
  {
    var line1 := FieldLine(StatusPattern, status);
    var line2 := FieldLine(DiseasePattern, disease);
    var d := NumberToString(percent);
    var last := Opening(ConfidencePattern) + d + "%**";
    var t := RenderFields(status, disease, percent);
    NoLabelInLine(t, ConfidencePattern, "", StatusPattern, status, line2 + last);
    NoLabelInLine(t, ConfidencePattern, line1, DiseasePattern, disease, last);
    assert t == (line1 + line2) + Opening(ConfidencePattern) + d + "%**";
    var e := |line1 + line2| + |Opening(ConfidencePattern)| + |d|;
    assert t[e] == '%' && t[e + 1] == '*' && t[e + 2] == '*';
    CaptureOfField(t, ConfidencePattern, line1 + line2, d, "%**");
  }

  lemma RenderedHealthy(status: string, disease: string, percent: nat)
    requires IsFieldValue(status)
    ensures ParseVisionResponse(RenderFields(status, disease, percent)).isHealthy
         == Includes(ToLowerAscii(status), "healthy")
  {
    WordsHaveNoSpace();
    RenderedStatusCapture(status, disease, percent);
    IncludesLowerTrim(status, "healthy");
  }

  lemma RenderedDisease(status: string, disease: string, percent: nat)
    requires IsFieldValue(status) && IsFieldValue(disease)
    ensures ParseVisionResponse(RenderFields(status, disease, percent)).disease == NormalizedDisease(disease)
  {
    WordsHaveNoSpace();
    RenderedDiseaseCapture(status, disease, percent);
    IncludesLowerTrim(disease, "healthy");
    IncludesLowerTrim(disease, "none");
  }

  lemma RenderedConfidence(status: string, disease: string, percent: nat)
    requires IsFieldValue(status) && IsFieldValue(disease)
    ensures ParseVisionResponse(RenderFields(status, disease, percent)).confidence == percent as real / 100.0
  {
    RenderedConfidenceCapture(status, disease, percent);
    DecimalValueOfNumberToString(percent);
  }

  /**
   * Independence of the three extractions: each parsed field of a rendered answer
   * depends only on its own labelled value, and the percentage is read back exactly.
   */
  lemma ParseRenderedFields(status: string, disease: string, percent: nat)
    requires IsFieldValue(status) && IsFieldValue(disease)
    ensures ParseVisionResponse(RenderFields(status, disease, percent))
         == VisionFields(NormalizedDisease(disease), percent as real / 100.0,
                         Includes(ToLowerAscii(status), "healthy"))
  {
    RenderedHealthy(status, disease, percent);
    RenderedDisease(status, disease, percent);
    RenderedConfidence(status, disease, percent);
  }

  /** "Unhealthy" is a field value whose lower case contains "healthy". */
  lemma UnhealthyWord()
    ensures IsFieldValue("Unhealthy") && Includes(ToLowerAscii("Unhealthy"), "healthy")
  {
    assert OccursAt(ToLowerAscii("Unhealthy"), "healthy", 2);
  }

  /** A status of "Unhealthy" counts as healthy, because it contains "healthy". */
  lemma UnhealthyStatusCountsAsHealthy(disease: string, percent: nat)
    requires IsFieldValue(disease)
    ensures ParseVisionResponse(RenderFields("Unhealthy", disease, percent)).isHealthy
  {
    UnhealthyWord();
    RenderedHealthy("Unhealthy", disease, percent);
  }

  /** "None detected" is a field value whose lower case contains "none". */
  lemma NoneDetectedWord()
    ensures IsFieldValue("None detected") && Includes(ToLowerAscii("None detected"), "none")
  {
    assert OccursAt(ToLowerAscii("None detected"), "none", 0);
  }

  /** "None detected" as the disease becomes "Healthy Cotton Plant". */
  lemma NoneDetectedIsHealthyPlant(status: string, percent: nat)
    requires IsFieldValue(status)
    ensures ParseVisionResponse(RenderFields(status, "None detected", percent)).disease == HealthyPlantName
  {
    NoneDetectedWord();
    RenderedDisease(status, "None detected", percent);
  }

  /** The percentage is not clamped: 150% gives a confidence above 1. */
  lemma ConfidenceNotClamped(status: string, disease: string)
    requires IsFieldValue(status) && IsFieldValue(disease)
    ensures ParseVisionResponse(RenderFields(status, disease, 150)).confidence == 1.5
  {
    RenderedConfidence(status, disease, 150);
  }

  /**
   * Text in which no `*` occurs, such as the three fields written as the
   * prompt shows them, `Disease Status: Diseased` and so on, parses to the
   * three fallbacks: no name, confidence 0.85, not healthy.
   */
  lemma NoStarGivesDefaults(text: string)
    requires forall i :: 0 <= i < |text| ==> text[i] != '*'
    ensures ParseVisionResponse(text) == VisionFields("", DefaultConfidence, false)
  {
    NoLabelWithoutStar(text, StatusPattern.heading, 0, |text|);
    NoLabelWithoutStar(text, DiseasePattern.heading, 0, |text|);
    NoLabelWithoutStar(text, ConfidencePattern.heading, 0, |text|);
    ParseStatus(text);
    ParseDisease(text);
    ParseConfidence(text);
  }

  // ------------------------------------------------------------- analysis

  /** The image file handed to the analysis: its declared type and what the file reader produced. */
  datatype ImageFile = ImageFile(mimeType: string, read: ReadOutcome)

  /**
   * The file reader either loads the file as a data URL or fails. A failure
   * rejects with the reader's error event, which has no `message` of its own:
   * `cause` stands for whatever message the environment attaches to it.
   */
  datatype ReadOutcome = DataUrl(url: string) | ReadError(cause: string)

  /** What the analysis posts: the key in the query, the prompt, the inline image and the token limit. */
  datatype VisionRequest = VisionRequest(
    apiKey: string, prompt: string, mimeType: string, imageData: string, maxOutputTokens: nat)

  /**
   * The body of a response as the code reads it: either not JSON at all, or
   * JSON in which `error.message` and `candidates[0].content.parts[0].text`
   * may each be absent.
   */
  datatype ResponseBody =
    | Unreadable(cause: string)
    | Json(errorMessage: Option<string>, candidateText: Option<string>)

  /** The outcome of the `fetch` call: rejected, or a response with a status and a body. */
  datatype FetchOutcome = NetworkError(cause: string) | Received(status: nat, body: ResponseBody)

  /** Why the analysis throws. */
  datatype VisionError =
    | NotConfigured
    | ReadFailed(cause: string)
    | MissingImageData
    | TransportFailed(cause: string)
    | HttpError(status: nat, detail: string)
    | MalformedBody(cause: string)
    | EmptyResponse
  {
    /** The message of the thrown error; a rejection from the reader, `fetch` or `json()` keeps its own. */
    function Message(): string {
      match this
      case NotConfigured => NotConfiguredMessage
      case ReadFailed(cause) => cause
      // The wording of this TypeError is the V8 engine's; other engines word it differently.
      case MissingImageData => "Cannot read properties of undefined (reading 'length')"
      case TransportFailed(cause) => cause
      case HttpError(status, detail) => "Gemini API error: " + NumberToString(status) + " - " + detail
      case MalformedBody(cause) => cause
      case EmptyResponse => NoResponseMessage
    }
  }

  /** The object `analyzePlantImageWithGemini` resolves with. */
  datatype VisionResult = VisionResult(
    success: bool, disease: string, confidence: real, isHealthy: bool, fullAnalysis: string, analysisMethod: string)

  /** `response.ok`: a status in the range 200 to 299. */
  predicate IsOkStatus(status: nat) {
    200 <= status <= 299
  }

  /** `isGeminiConfigured`: exactly three keys are refused, no key, the empty key and the placeholder. */
  predicate IsGeminiConfigured(key: Option<string>)
    ensures IsGeminiConfigured(key) <==> key != None && key != Some("") && key != Some(ApiKeyPlaceholder)
  {
    key.Some? && key.value != "" && key.value != ApiKeyPlaceholder
  }

  /**
   * `fileToBase64WithoutPrefix` followed by the use of its result: a reader
   * failure rejects, and a data URL without a comma yields `undefined`, whose
   * `length` is then read and throws.
   */
  function ImageData(read: ReadOutcome): (r: Result<string, VisionError>)
    ensures r.Ok? <==> read.DataUrl? && ',' in read.url
    ensures r.Ok? ==> ',' !in r.value
    ensures read.ReadError? ==> r == Err(ReadFailed(read.cause))
    ensures read.DataUrl? && ',' !in read.url ==> r == Err(MissingImageData)
  {
    match read
    case ReadError(cause) => Err(ReadFailed(cause))
    case DataUrl(url) =>
      match SecondCommaField(url)
      case None => Err(MissingImageData)
      case Some(data) => Ok(data)
  }

  /** The request built for a configured key and a prompt: image data, and type with its default. */
  function PrepareRequest(apiKey: string, file: ImageFile, prompt: string): (r: Result<VisionRequest, VisionError>)
    ensures r.Err? ==> r.error.ReadFailed? || r.error.MissingImageData?
    ensures r.Ok? ==>
      && r.value.apiKey == apiKey && r.value.prompt == prompt
      && r.value.mimeType != "" && r.value.maxOutputTokens == MaxOutputTokens
      && ',' !in r.value.imageData
  {
    match ImageData(file.read)
    case Err(e) => Err(e)
    case Ok(data) =>
      var mimeType := if file.mimeType != "" then file.mimeType else DefaultMimeType;
      Ok(VisionRequest(apiKey, prompt, mimeType, data, MaxOutputTokens))
  }

  /** The provider's error message when there is a non-empty one, else "Unknown error". */
  function ErrorDetail(body: ResponseBody): (r: string)
    ensures r != ""
    ensures r == UnknownErrorDetail || (body.Json? && body.errorMessage == Some(r))
  {
    match body
    case Unreadable(_) => UnknownErrorDetail
    case Json(message, _) =>
      if message.Some? && message.value != "" then message.value else UnknownErrorDetail
  }

  /** The handling of the `fetch` outcome: status check, body read, text extraction, result record. */
  function InterpretResponse(outcome: FetchOutcome): (r: Result<VisionResult, VisionError>)
    ensures r.Err? ==> !r.error.NotConfigured? && !r.error.ReadFailed? && !r.error.MissingImageData?
    ensures r.Ok? ==>
      && r.value.success && r.value.analysisMethod == AnalysisMethod
      && r.value.fullAnalysis != "" && r.value.confidence >= 0.0
  {
    match outcome
    case NetworkError(cause) => Err(TransportFailed(cause))
    case Received(status, body) =>
      if !IsOkStatus(status) then Err(HttpError(status, ErrorDetail(body)))
      else
        match body
        case Unreadable(cause) => Err(MalformedBody(cause))
        case Json(_, text) =>
          if text.None? || text.value == "" then Err(EmptyResponse)
          else
            var fields := ParseVisionResponse(text.value);
            Ok(VisionResult(true, fields.disease, fields.confidence, fields.isHealthy, text.value, AnalysisMethod))
  }

  /** `analyzePlantImageWithGemini`, with `fetch` as a parameter: the steps below with the language's prompt. */
  function AnalyzePlantImage(
    key: Option<string>, file: ImageFile, language: string, fetch: VisionRequest -> FetchOutcome
  ): (r: Result<VisionResult, VisionError>)
    ensures !IsGeminiConfigured(key) ==> r == Err(NotConfigured)
  {
    AnalyzeWithPrompt(key, file, BuildVisionPrompt(language), fetch)
  }

  /**
   * The steps of the analysis for a given prompt: the key gate, the request,
   * the `fetch` call and the handling of its outcome. Building the prompt cannot
   * fail, so where it happens among these steps does not change the outcome.
   */
  function AnalyzeWithPrompt(
    key: Option<string>, file: ImageFile, prompt: string, fetch: VisionRequest -> FetchOutcome
  ): (r: Result<VisionResult, VisionError>)
    ensures !IsGeminiConfigured(key) ==> r == Err(NotConfigured)
    ensures IsGeminiConfigured(key) && ImageData(file.read).Err? ==> r == Err(ImageData(file.read).error)
    ensures IsGeminiConfigured(key) && ImageData(file.read).Ok? ==>
      var mimeType := if file.mimeType != "" then file.mimeType else DefaultMimeType;
      r == InterpretResponse(fetch(VisionRequest(key.value, prompt, mimeType, ImageData(file.read).value, MaxOutputTokens)))
  {
    if key.None? || key.value == "" || key.value == ApiKeyPlaceholder then Err(NotConfigured)
    else
      match PrepareRequest(key.value, file, prompt)
      case Err(e) => Err(e)
      case Ok(request) => InterpretResponse(fetch(request))
  }

  /**
   * `testGeminiConnection`, with the probe `fetch` as a parameter from the key
   * to its outcome: false without a usable key and for a rejected probe (the
   * rejection is caught), otherwise `response.ok`.
   */
  function TestGeminiConnection(key: Option<string>, probe: string -> FetchOutcome): (r: bool)
    ensures r <==> IsGeminiConfigured(key) && probe(key.value).Received? && IsOkStatus(probe(key.value).status)
  {
    if !IsGeminiConfigured(key) then false
    else
      match probe(key.value)
      case NetworkError(_) => false
      case Received(status, _) => IsOkStatus(status)
  }

  /**
   * The gate at the top of the analysis agrees with `isGeminiConfigured`: the
   * analysis fails as not configured exactly when the key is missing, empty or
   * the placeholder, whatever the file, the prompt and whatever `fetch` would
   * answer; with a usable key the outcome is the one of the request it sends.
   */
  lemma KeyGate(key: Option<string>, file: ImageFile, prompt: string, fetch: VisionRequest -> FetchOutcome)
    ensures AnalyzeWithPrompt(key, file, prompt, fetch) == Err(NotConfigured) <==> !IsGeminiConfigured(key)
    ensures IsGeminiConfigured(key) && PrepareRequest(key.value, file, prompt).Err? ==>
      AnalyzeWithPrompt(key, file, prompt, fetch) == Err(PrepareRequest(key.value, file, prompt).error)
    ensures IsGeminiConfigured(key) && PrepareRequest(key.value, file, prompt).Ok? ==>
      AnalyzeWithPrompt(key, file, prompt, fetch) == InterpretResponse(fetch(PrepareRequest(key.value, file, prompt).value))
  {
    if IsGeminiConfigured(key) {
      var prepared := PrepareRequest(key.value, file, prompt);
      if prepared.Ok? {
        ResponseErrors(fetch(prepared.value));
      }
    }
  }

  /** The errors of the response stage are the transport, status, body and empty-text ones. */
  lemma ResponseErrors(outcome: FetchOutcome)
    ensures InterpretResponse(outcome).Err? ==>
      var e := InterpretResponse(outcome).error;
      e.TransportFailed? || e.HttpError? || e.MalformedBody? || e.EmptyResponse?
  {
  }

  /**
   * The request: it exists exactly when the reader produced a data URL with a
   * comma; it carries the key, the prompt, the file's type or `image/jpeg` when
   * that is empty, the 8192-token limit, and comma-free image data. Otherwise
   * the reader's failure or the missing data is the error.
   */
  lemma PreparedRequest(apiKey: string, file: ImageFile, prompt: string)
    ensures PrepareRequest(apiKey, file, prompt).Ok? <==> file.read.DataUrl? && ',' in file.read.url
    ensures file.read.ReadError? ==> PrepareRequest(apiKey, file, prompt) == Err(ReadFailed(file.read.cause))
    ensures file.read.DataUrl? && ',' !in file.read.url ==> PrepareRequest(apiKey, file, prompt) == Err(MissingImageData)
    ensures PrepareRequest(apiKey, file, prompt).Ok? ==>
      var request := PrepareRequest(apiKey, file, prompt).value;
      && request.apiKey == apiKey
      && request.prompt == prompt
      && request.mimeType != ""
      && (file.mimeType == "" ==> request.mimeType == DefaultMimeType)
      && (file.mimeType != "" ==> request.mimeType == file.mimeType)
      && request.maxOutputTokens == 8192
      && ',' !in request.imageData
  {
  }

  /** The payload of a data URL `<header>,<payload>` is what is sent as the image data. */
  lemma DataUrlPayloadSent(apiKey: string, mimeType: string, header: string, payload: string, prompt: string)
    requires ',' !in header && ',' !in payload
    ensures PrepareRequest(apiKey, ImageFile(mimeType, DataUrl(header + "," + payload)), prompt).Ok?
    ensures PrepareRequest(apiKey, ImageFile(mimeType, DataUrl(header + "," + payload)), prompt).value.imageData == payload
  {
    SecondCommaFieldOfJoin(header, payload, "");
  }

  /**
   * A response whose status is not in 200..299 fails with a message that
   * names the status and the provider's message, or "Unknown error" when there
   * is none, whatever the body holds otherwise.
   */
  lemma HttpFailure(status: nat, body: ResponseBody)
    requires !IsOkStatus(status)
    ensures InterpretResponse(Received(status, body)) == Err(HttpError(status, ErrorDetail(body)))
    ensures Includes(InterpretResponse(Received(status, body)).error.Message(), NumberToString(status))
    ensures body.Json? && body.errorMessage.Some? && body.errorMessage.value != "" ==>
      Includes(InterpretResponse(Received(status, body)).error.Message(), body.errorMessage.value)
    ensures body.Unreadable? || body.errorMessage.None? || body.errorMessage.value == "" ==>
      Includes(InterpretResponse(Received(status, body)).error.Message(), UnknownErrorDetail)
  {
    var s := NumberToString(status);
    var d := ErrorDetail(body);
    var m := "Gemini API error: " + s + " - " + d;
    assert m == "Gemini API error: " + s + (" - " + d);
    IncludesMiddle("Gemini API error: ", s, " - " + d);
    assert m == "Gemini API error: " + s + " - " + d + "";
    IncludesMiddle("Gemini API error: " + s + " - ", d, "");
  }

  /** A successful status with no text, or empty text, fails with "No response from Gemini Vision API". */
  lemma EmptyResponseFails(status: nat, errorMessage: Option<string>, text: Option<string>)
    requires IsOkStatus(status)
    ensures InterpretResponse(Received(status, Json(errorMessage, text))).Err?
        <==> text.None? || text.value == ""
    ensures text.None? || text.value == "" ==>
      InterpretResponse(Received(status, Json(errorMessage, text))).error.Message() == NoResponseMessage
  {
  }

  /**
   * The analysis succeeds exactly for a successful status with JSON holding
   * non-empty text; the result then carries `success`, the method name, the
   * text verbatim and the three parsed fields.
   */
  lemma SuccessResult(outcome: FetchOutcome)
    ensures InterpretResponse(outcome).Ok? <==>
      outcome.Received? && IsOkStatus(outcome.status) && outcome.body.Json?
      && outcome.body.candidateText.Some? && outcome.body.candidateText.value != ""
    ensures InterpretResponse(outcome).Ok? ==>
      var text := outcome.body.candidateText.value;
      var result := InterpretResponse(outcome).value;
      && result.success
      && result.analysisMethod == "gemini_vision"
      && result.fullAnalysis == text
      && result.disease == ParseVisionResponse(text).disease
      && result.confidence == ParseVisionResponse(text).confidence
      && result.isHealthy == ParseVisionResponse(text).isHealthy
  {
  }

  /** A failed `fetch` and an unreadable successful body are passed on as they are. */
  lemma RejectionsPropagate(outcome: FetchOutcome)
    ensures outcome.NetworkError? ==> InterpretResponse(outcome) == Err(TransportFailed(outcome.cause))
    ensures outcome.Received? && IsOkStatus(outcome.status) && outcome.body.Unreadable? ==>
      InterpretResponse(outcome) == Err(MalformedBody(outcome.body.cause))
  {
  }
}
