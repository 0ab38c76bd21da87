# KisanConnect service core in Dafny

A model of the small decision-making core of the KisanConnect farming assistant:

- the **vision diagnosis service** (`src/services/geminiService.js`): the API-key gate,
  the prompt with its language request, the request built from the image, how the HTTP
  outcome becomes a result or an error, and `parseVisionResponse`, which pulls the
  disease status, the disease name and the confidence out of the model's free text with
  three regular expressions;
- the **chat helpers** (`src/services/aiChatbotService.js`): how `sendChatMessage`
  shapes its reply and suggestions from the outcome of the model call, and
  `detectLanguage`, which classifies text by Unicode block;
- the **mock OTP endpoints** (`src/api/mockApi.js`): `sendOTP` and `verifyOTP`.

Every operation is pure, so the model is functions over datatypes with lemmas about them.
The network and SDK calls (`fetch`, `generateContent`) are function parameters, the file
reader's output is an input, and `Date.now()` is a `now: nat` parameter.

Modules:

| file | module | what it holds |
|---|---|---|
| `wrappers.dfy` | `Wrappers` | `Option` and `Result` |
| `js_string.dfy` | `JsString` | the JavaScript string operations the core uses: `trim`, `toLowerCase` on ASCII, `includes`, number formatting, `parseInt` of a digit run, `split(',')[1]` |
| `label_regex.dfy` | `LabelRegex` | the three field regexes `/\*\*Label:\s*(group)\*\*/i` under `String.prototype.match`: a declarative definition of a match and of the first match, and a backtracking search proved to find exactly that match |
| `gemini_service.dfy` | `GeminiService` | prompt, response parsing, key gate, request and response handling |
| `ai_chatbot_service.dfy` | `AiChatbotService` | reply shaping, suggestions, language detection |
| `mock_api.dfy` | `MockApi` | the OTP mock |

Regular-expression semantics modelled: `match` without the global flag reports the
leftmost start position at which the pattern matches; at that position the greedy `\s*`
takes the most whitespace that still lets the rest match (so `**Disease Status:   **`
captures its last space); the capture then
runs to the end of its character run. Under the `i` flag without `u`, no non-ASCII
character folds onto an ASCII one, and `\s` and `trim` use the full ECMAScript whitespace
and line-terminator set.

Where the prompt's format and the parsing code differ, the model follows the code:

- the prompt asks for `Confidence: [0-100]%` (`src/services/geminiService.js:122`), yet
  the code divides the captured integer by 100 without clamping it, so
  `**Confidence: 150%**` gives 1.5 (`GeminiService.ConfidenceNotClamped`);
- the prompt offers `Disease Status: [Healthy/Diseased]` (`src/services/geminiService.js:120`),
  yet the code tests whether the lower-cased status contains `healthy`, so a status of
  `Unhealthy` counts as healthy (`GeminiService.UnhealthyStatusCountsAsHealthy`);
- the prompt shows its labels without asterisks and asks for none
  (`src/services/geminiService.js:118-122`), yet the patterns only match labels in bold,
  `**Label: value**`, so an answer in exactly the prompt's format, or any answer without
  a `*`, parses to no disease name, confidence 0.85 and not healthy
  (`GeminiService.NoStarGivesDefaults`).

## Model

| member | source | states |
|---|---|---|
| JsString.Trim | src/services/geminiService.js:210 | `trim` removes exactly the leading and trailing whitespace: the result is a slice of the input with only whitespace outside it, and it neither starts nor ends with whitespace |
| JsString.ToLowerAscii | src/services/geminiService.js:210 | `toLowerCase` keeps the length and lower-cases each ASCII capital, character by character |
| JsString.IncludesLowerTrim | src/services/geminiService.js:210-211 | for a word without whitespace, whether the lower-cased trimmed text contains it is the same as whether the lower-cased untrimmed text does |
| JsString.NumberToString | src/services/geminiService.js:65 | the decimal form of a number is non-empty, all digits and has no leading zero |
| JsString.DecimalValueOfNumberToString | src/services/geminiService.js:224 | `parseInt` of the decimal form of `n` is `n`: formatting and parsing are inverse |
| JsString.DecimalValue | src/services/geminiService.js:224 | `parseInt` ignores leading zeros: a digit run starting with `0` has the value of the run without it |
| JsString.IndexOf | src/services/geminiService.js:104 | the reported index is the first occurrence of the character, and there is none exactly when the character does not occur |
| JsString.SecondCommaField | src/services/geminiService.js:104 | `split(',')[1]` is undefined exactly when the text has no comma, and never contains a comma |
| JsString.SecondCommaFieldOfJoin | src/services/geminiService.js:104 | for comma-free parts, `split(',')[1]` of `head,field` or `head,field,tail` is `field` |
| LabelRegex.TryGroupCorrect | src/services/geminiService.js:209 | backtracking over `\s*` finds the largest group start whose group closes, and reports nothing when no start closes |
| LabelRegex.TryAtCorrect | src/services/geminiService.js:209 | the attempt at one start index finds the greedy match there, and nothing when the pattern cannot match there |
| LabelRegex.FindFromCorrect | src/services/geminiService.js:209 | the scan from an index returns the first start at or after it where the pattern matches, greedy in its whitespace, and nothing when there is none |
| LabelRegex.FirstMatchCorrect | src/services/geminiService.js:209 | `match` reports nothing exactly when no match exists, and reports `(p, s, e)` exactly when it is the leftmost, greedy match |
| LabelRegex.FirstMatch | src/services/geminiService.js:209-223 | what `match` reports is the leftmost, greedy match, and `null` is reported only when the pattern matches nowhere |
| LabelRegex.Capture | src/services/geminiService.js:214 | a captured group is non-empty and made only of the group's characters (no `*`, no newline; digits for confidence) |
| LabelRegex.FirstMatchAt | src/services/geminiService.js:223 | a match with no label before it and a non-space group start is the first match, and its group is the capture |
| LabelRegex.CaptureOfField | src/services/geminiService.js:214 | a field written as `**Label: value` and closed properly, with no earlier label, captures exactly `value` |
| GeminiService.WithLanguage | src/services/geminiService.js:115-202 | `buildVisionPrompt` is this applied to the cotton template: the prompt starts with the template, the rest is the Hindi request for `hi`, the Telugu request for `te` and nothing for any other language |
| GeminiService.ParseVisionResponse | src/services/geminiService.js:207-231 | parsing never fails; the plant is called healthy only when a status field was found; a name other than `Healthy Cotton Plant` mentions neither `none` nor `healthy` in any case; the confidence is never negative |
| GeminiService.ParseStatus | src/services/geminiService.js:209-211 | with no status field `isHealthy` is false; otherwise it is whether the first capture, lower-cased, contains `healthy` |
| GeminiService.ParseDisease | src/services/geminiService.js:214-220 | with no disease field the name is empty; otherwise it is `Healthy Cotton Plant` when the first capture mentions `none` or `healthy` in any case, and the trimmed capture otherwise |
| GeminiService.ParseConfidence | src/services/geminiService.js:223-224 | with no confidence field the confidence is exactly 0.85; otherwise it is the captured digits' value over 100; it is never negative |
| GeminiService.ParseRenderedFields | src/services/geminiService.js:207-231 | parsing three labelled lines gives back each line's own value: the status decides `isHealthy`, the disease the name, the percentage the confidence exactly; no field depends on another |
| GeminiService.RenderedHealthy | src/services/geminiService.js:209-211 | in a rendered answer, `isHealthy` depends on the status value alone |
| GeminiService.RenderedDisease | src/services/geminiService.js:214-220 | in a rendered answer, the name depends on the disease value alone |
| GeminiService.RenderedConfidence | src/services/geminiService.js:223-224 | in a rendered answer, the confidence is the percentage over 100 whatever the other two values |
| GeminiService.UnhealthyStatusCountsAsHealthy | src/services/geminiService.js:211 | a status of `Unhealthy` yields `isHealthy` true |
| GeminiService.NoneDetectedIsHealthyPlant | src/services/geminiService.js:218-219 | a disease of `None detected` yields the name `Healthy Cotton Plant` |
| GeminiService.ConfidenceNotClamped | src/services/geminiService.js:224 | a confidence of 150% yields 1.5 |
| GeminiService.NoStarGivesDefaults | src/services/geminiService.js:209-224 | text without any `*`, the prompt's own plain-label format included, parses to no name, confidence 0.85 and not healthy |
| GeminiService.IsGeminiConfigured | src/services/geminiService.js:237-239 | exactly three keys are refused: no key, the empty key and the placeholder `your_gemini_api_key_here` |
| GeminiService.TestGeminiConnection | src/services/geminiService.js:245-274 | the connection is reported working exactly for a usable key whose probe resolved with a status in 200..299; without a key, and for a rejected probe, it is false rather than an error |
| GeminiService.AnalyzeWithPrompt | src/services/geminiService.js:15-94 | without a usable key the analysis fails as not configured; then a reader failure or missing data is the error; otherwise the outcome is the handling of what `fetch` answers to the request carrying the key, the prompt, the file's type or `image/jpeg`, the image data and the 8192-token limit |
| GeminiService.AnalyzePlantImage | src/services/geminiService.js:15-29 | without a usable key the analysis fails as not configured, before the image is read or the prompt built |
| GeminiService.ImageData | src/services/geminiService.js:99-110 | the image data exists exactly for a data URL with a comma and is then comma-free; a reader failure rejects with its cause, and a data URL without a comma is the missing-data error |
| GeminiService.PrepareRequest | src/services/geminiService.js:23-26 | the request carries the key, the prompt, a non-empty image type, the 8192-token limit and comma-free image data; it fails only with the reader or missing-data errors |
| GeminiService.ErrorDetail | src/services/geminiService.js:63-65 | the detail of an HTTP error is never empty: the provider's own message, or `Unknown error` |
| GeminiService.InterpretResponse | src/services/geminiService.js:60-93 | the response stage never fails with a key or reader error; a result has `success`, method `gemini_vision`, non-empty full text and a non-negative confidence |
| GeminiService.KeyGate | src/services/geminiService.js:17-19 | the analysis fails as not configured exactly when `isGeminiConfigured` is false, whatever the file and the `fetch` answer; with a usable key the outcome is that of the request it sends |
| GeminiService.PreparedRequest | src/services/geminiService.js:23-24 | the request exists exactly for a data URL with a comma; it carries the key, the prompt, the file's type or `image/jpeg` when that is empty, the 8192-token limit and comma-free image data; a reader failure or missing data is the error otherwise |
| GeminiService.DataUrlPayloadSent | src/services/geminiService.js:104 | the payload after the comma of a data URL is the image data sent |
| GeminiService.HttpFailure | src/services/geminiService.js:62-66 | a status outside 200..299 fails with a message containing the status and the provider's message, or `Unknown error` when there is none |
| GeminiService.EmptyResponseFails | src/services/geminiService.js:71-75 | with a successful status, absent or empty text fails with `No response from Gemini Vision API`, and only then |
| GeminiService.SuccessResult | src/services/geminiService.js:80-89 | the analysis succeeds exactly for a successful status with non-empty text; the result has `success` true, method `gemini_vision`, the text verbatim and the parsed fields |
| GeminiService.ResponseErrors | src/services/geminiService.js:62-75 | the response stage fails only with the transport, status, body and empty-text errors |
| GeminiService.RejectionsPropagate | src/services/geminiService.js:90-93 | a rejected `fetch` and an unreadable successful body are rethrown unchanged |
| AiChatbotService.Suggestions | src/services/aiChatbotService.js:33-41 | there are always four suggestions, from one of the three lists, and the English ones for any language other than `hi` and `te` |
| AiChatbotService.ShapeReply | src/services/aiChatbotService.js:39-48 | the reply is never empty, and the suggestions are empty exactly when the model call threw |
| AiChatbotService.SendChatMessage | src/services/aiChatbotService.js:20-50 | the model is asked the user's message under the system instructions; the call never throws, always replies, and offers the interface language's suggestions exactly when the model answered |
| AiChatbotService.SuggestionsByLanguage | src/services/aiChatbotService.js:33-41 | the suggestions are the four for `hi`, `te` or `en`, and the English ones for any other language |
| AiChatbotService.ReplyOnSuccess | src/services/aiChatbotService.js:39-41 | on success the reply is the model's text when non-empty and the apology otherwise, with the language's suggestions |
| AiChatbotService.ReplyOnError | src/services/aiChatbotService.js:43-48 | on error the reply is the unavailability prefix followed by the error's message or nothing, the suggestions are empty, and the interface language does not matter |
| AiChatbotService.ReplyNeverEmpty | src/services/aiChatbotService.js:39-48 | the reply is never empty, and there are four suggestions on success and none on error |
| AiChatbotService.HasCharIn | src/services/aiChatbotService.js:58-59 | a one-class regex test is true exactly when some character lies in the block |
| AiChatbotService.DetectLanguage | src/services/aiChatbotService.js:57-63 | the answer is `hi`, `te` or `en`, and `en` only for text with no Devanagari and no Telugu character |
| AiChatbotService.DetectLanguageByBlock | src/services/aiChatbotService.js:57-63 | `hi` exactly when some character is Devanagari; `te` exactly when none is and some is Telugu; `en` exactly when neither occurs; nothing else is returned |
| AiChatbotService.AsciiIsEnglish | src/services/aiChatbotService.js:62 | ASCII text, the empty text included, is `en` |
| AiChatbotService.MixedTextIsHindi | src/services/aiChatbotService.js:60 | text with Devanagari stays `hi` whatever is added before or after it |
| MockApi.SendOtp | src/api/mockApi.js:3-9 | sending succeeds and reports the code `1234` |
| MockApi.VerifyOtp | src/api/mockApi.js:11-23 | verification succeeds exactly for `1234`; a token is issued exactly on success and starts with `mock_token_` |
| MockApi.SendOtpAlwaysSucceeds | src/api/mockApi.js:3-9 | sending always succeeds with the code `1234`, whatever the phone |
| MockApi.VerifyOtpAcceptsOnlyMockOtp | src/api/mockApi.js:11-23 | verification succeeds exactly for `1234`, does not depend on the phone; a failure says `Invalid OTP` with no token, a success carries a `mock_token_` token |
| MockApi.SendThenVerify | src/api/mockApi.js:7-12 | verifying the code that sending returned for the same phone succeeds |
| MockApi.TokenCarriesTime | src/api/mockApi.js:16 | the token's digits after the prefix are the issue time, so tokens issued at different times differ |

## Left out

- The HTTP request itself (URL, headers, JSON body, `temperature` 0.7 and `topP` 0.95): the request is a record of the key, prompt, image type, image data and token limit, and `fetch` is a function from it to an outcome.
- The probe request of `testGeminiConnection` (its URL, headers and `Hello` body): the probe is a function from the key to a fetch outcome.
- The `FileReader` and base64 encoding: the reader's outcome (a data URL or a failure) is an input; only `split(',')[1]` on it is modelled.
- Logging (`console.log`, `console.error`).
- The `GoogleGenAI` client and the model name: `generateContent` is a function parameter whose outcome is either a response with optional text or a thrown error with an optional message.
- `Date.now()`: the time is the `now` parameter of `MockApi.VerifyOtp`.
- The fixtures `detectDisease`, `fetchWeather` and `getNews` in `src/api/mockApi.js`: constant data.
- GeminiService.BasePrompt: the template is indexed by a one-value `Crop` type so that the long literal is only expanded where a proof needs it; the prompt properties are proved for any template.
- JsString.ToLowerAscii: lower-cases ASCII letters only. For the words looked for (`healthy`, `none`) this makes no difference: the only non-ASCII characters whose lower case contains an ASCII letter are U+0130 (to `i` and a combining dot) and U+212A (to `k`), and neither letter occurs in those words.
- JsString.DecimalValue: `parseInt` is exact on unbounded integers; above 2^53 the source's number rounds.
- GeminiService.ParseVisionResponse: the confidence is an exact rational, where the source computes a floating-point quotient.
- GeminiService.IsGeminiConfigured: a boolean, where the source returns `undefined` or `""` for a missing or empty key and a boolean otherwise; callers only test its truthiness.
- GeminiService.AnalyzePlantImage: its contract states only the key gate; the later steps are stated on `GeminiService.AnalyzeWithPrompt`, which it calls with the language's prompt, because a proof that unfolds the prompt's long literal exceeds the proof budget.
- GeminiService.VisionError: the message of the missing-data error is the V8 engine's wording of the `TypeError`, which other engines word differently; a reader failure rejects with the reader's error event, which has no `message` of its own, so its `cause` is a stand-in.
- AiChatbotService.Suggestions: only the dictionary's own keys `en`, `hi` and `te`; inherited keys such as `constructor` are not modelled.
- GeminiService.ResponseBody: the provider's `error.message` and the candidate text are taken as strings when present; values of other JSON types are not modelled.
