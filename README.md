# Imagen client core in Dafny

This project models the two pieces of logic in the browser client of a
remote image-generation API:

- **The configuration builder** (`js/config/imagen.js`). `getConfig` reads
  the user's settings from `localStorage` and builds the request
  configuration. A setting that is missing or falsy under JavaScript's `||`
  gets its default. Each safety threshold is looked up in a table whose
  own keys are `"0"` to `"3"`. Here `localStorage` is a `map<string, string>`
  and `getConfig` is the pure function `ImagenConfig.GetConfig`. That
  function uses the corrected threshold lookup `ImagenConfig.ThresholdFor`;
  the lookup as written is `ImagenConfig.ThresholdAsWritten` (see Findings).
- **The image exchange and the send cycle** (`js/imagen.js`).
  - `generateImage` builds a fixed request body for the prompt. It then
    checks the response in order: the HTTP status, the candidates, the
    first candidate's content and parts, and an inline-data part. The
    result is either the base64 data or the exact message of the error
    thrown. This is the pure function `ImagenApi.GenerateImage` over a
    `Result`.
  - `handleSendMessage` and `displayGeneratedImage` are methods of the
    class `ImagenSession.ImagenManager`. They update the input field, the
    transcript and the single "currently streaming" message slot of a
    `ChatManager`.

The JavaScript built-ins the code relies on are modelled in `JsText`:

- `String.prototype.trim`, over the WhiteSpace and LineTerminator code
  points of ECMA-262.
- The global `parseInt` with no radix (section 19.2.5 of ECMA-262): white
  space, sign, the `0x` prefix, and the longest digit prefix.
- `String(null)` and `String(n)` for integers.

The network call is an input of type `HttpOutcome`: a rejected `fetch`, or a
status with a parsed JSON body or a JSON syntax error. `response.ok` is a
status from 200 to 299. `parseFloat` is a function parameter.

Files:

- `wrappers.dfy`: `Option` and `Result`.
- `js_text.dfy`: the JavaScript string built-ins.
- `api_types.dfy`: text parts, safety settings, and the category and
  threshold names.
- `imagen_config.dfy`: `getConfig`, and the threshold lookup as written.
- `imagen_api.dfy`: the request body and the response checks.
- `imagen_session.dfy`: `ChatManager` and `ImagenManager`.

Two behaviours of the code worth knowing:

- **The HTTP error message.** A failed status throws the server's message
  with the prefix `"API Error: "`, so a 429 whose error message is
  `"quota exceeded"` rejects with `"API Error: quota exceeded"`
  (js/imagen.js:87). `ImagenApi.QuotaExceededScenario` proves this.
- **A second `startModelMessage`.** js/chat/chat-manager.js is not part of
  this model, so what it does when a message is already open is not known
  here. With one send cycle at a time, js/imagen.js never starts a model
  message while one is open: `displayGeneratedImage` checks the slot first
  (js/imagen.js:30-35), and every send cycle finalizes its message
  (js/imagen.js:127). `ChatManager.StartModelMessage` is modelled, as a
  choice, to reuse the open message in that case.

## Model

| member | source | states |
|---|---|---|
| ImagenConfig.ThresholdForSpec | js/config/imagen.js:7-12 | "0", "1", "2" and "3" each give BLOCK_NONE, BLOCK_ONLY_HIGH, BLOCK_MEDIUM_AND_ABOVE and BLOCK_LOW_AND_ABOVE respectively, and only that stored value does; anything else gives HARM_BLOCK_THRESHOLD_UNSPECIFIED. This includes a missing key, "4" and "01". |
| ImagenConfig.ThresholdFor | js/config/imagen.js:37-53 | No `ensures` of its own: the corrected threshold lookup, specified by `ThresholdForSpec` and compared with the code as written by `ThresholdAsWrittenAgrees`. |
| ImagenConfig.IntSetting | js/config/imagen.js:19-20 | The setting is either the default or the integer `parseInt` reads from the stored text (or from "null" when the key is missing). Any non-zero integer read is kept. It is never 0 when the default is not 0. |
| ImagenConfig.FloatSetting | js/config/imagen.js:17-18 | The setting is either the default or the number `parseFloat` reads from the stored text. Any non-zero number read is kept. It is never 0 when the default is not 0. |
| ImagenConfig.SystemInstructionText | js/config/imagen.js:26-30 | The system instruction is either the default text or exactly the stored text. |
| ImagenConfig.GetConfig | js/config/imagen.js:14-56 | The model name, candidate count 1, no stop sequences, modalities Text and Image, "text/plain" and no function declarations are fixed. Temperature, top_p, top_k and maxOutputTokens are never 0. The system instruction has one part. There are five safety settings, and setting i pairs category i with the threshold looked up from category i's own storage key. |
| ImagenConfig.SafetySettingsFrom | js/config/imagen.js:34-55 | One safety setting per table entry, in table order. Each threshold is looked up from that entry's key alone. |
| ImagenConfig.IntSettingDefaults | js/config/imagen.js:19-20 | A missing integer setting, or one whose text after white space starts with neither a sign nor a digit, gives the default. |
| ImagenConfig.IntSettingStoredInteger | js/config/imagen.js:19-20 | Stored text of the form white space, integer n, non-digit rest gives n, or the default when n is 0. |
| ImagenConfig.TopKSetting | js/config/imagen.js:19 | top_k is 40 when the key is absent. A stored integer n gives n, and a stored "0" gives 40. |
| ImagenConfig.MaxOutputTokensSetting | js/config/imagen.js:20 | maxOutputTokens is 8192 when the key is absent. A stored integer n gives n, and a stored "0" gives 8192. |
| ImagenConfig.FloatSettingsFallback | js/config/imagen.js:17-18 | temperature and top_p keep a non-zero parsed value. They fall back to 1.0 and 0.95 on NaN or zero, and on a missing key when "null" parses to NaN. |
| ImagenConfig.SystemInstructionFallback | js/config/imagen.js:26-30 | The instruction text is the stored text when it is non-empty. Otherwise, including for an empty stored string, it is the default text. |
| ImagenConfig.SafetyCategoryOrder | js/config/imagen.js:34-55 | There are exactly five safety settings, in the order harassment, dangerous content, sexually explicit, hate speech, civic integrity. |
| ImagenConfig.SafetySettingReadsOwnKey | js/config/imagen.js:37-53 | Safety setting i is the same for any two storages that agree on category i's key, whatever else they hold. |
| ImagenConfig.GetConfigReadsOnlyConsumedKeys | js/config/imagen.js:14-56 | `getConfig` is deterministic and reads only its ten keys: two storages that agree on them give equal configurations. |
| ImagenConfig.SafetySettingsAgree | js/config/imagen.js:34-55 | Two storages that agree on a table's keys give the same safety settings. |
| ImagenConfig.ThresholdAsWritten | js/config/imagen.js:37 | The lookup as written is never undefined. A stored level naming any of the twelve `Object.prototype` members gives that inherited member, which is truthy and so is kept instead of the sentinel. |
| ImagenConfig.ThresholdAsWrittenLeaksPrototype | js/config/imagen.js:37 | A stored level "toString" gives the inherited function, not the threshold the corrected lookup gives. |
| ImagenConfig.ThresholdAsWrittenAgrees | js/config/imagen.js:7-12 | Apart from the twelve inherited names, the lookup as written equals the corrected lookup. |
| ImagenApi.ExtractImage | js/imagen.js:90-105 | No `ensures` of its own: the checks of a parsed body with an OK status, specified by `ExtractImageSpec`, `NoCandidatesFailsFirst`, `OnlyFirstCandidateMatters` and `TextPartsAreSkipped`. |
| ImagenApi.GenerateImage | js/imagen.js:76-109 | No `ensures` of its own: `generateImage` over the settled exchange, specified by `HttpErrorIsNeverImage`, `UnreadableBodyFails`, `NetworkFailureFails` and, for an OK status with a parsed body, `ExtractImageSpec`. |
| ImagenApi.RequestUrl | js/imagen.js:41 | The URL is the fixed endpoint followed by the API key, or by the text "null" when no key is stored. |
| ImagenApi.ImageRequestFor | js/imagen.js:43-74 | The body has one content turn with role "user" and a single text part equal to the prompt. The sampling parameters are fixed at 0.4 / 32 / 1 / 2048, and there are four safety settings. |
| ImagenApi.ImageRequestSafety | js/imagen.js:56-73 | All four safety settings are BLOCK_MEDIUM_AND_ABOVE. Their categories are pairwise distinct, and none is civic integrity. |
| ImagenApi.PromptRoundTrip | js/imagen.js:44-49 | The prompt is read back from the body built for it. |
| ImagenApi.HttpErrorMessage | js/imagen.js:85-88 | The thrown message of a failed status starts with "API Error: ". |
| ImagenApi.FindInline | js/imagen.js:100 | `find` returns the first part that carries inline data, or none when no part does. |
| ImagenApi.HttpErrorIsNeverImage | js/imagen.js:85-88 | A status outside 200-299 is always an error. The message is "API Error: " + the server's message when that is non-empty, and "API Error: HTTP error! status: " + the status otherwise. |
| ImagenApi.NoCandidatesFailsFirst | js/imagen.js:91-93 | A successful status with missing or empty candidates gives "No candidates in response", whatever else the body holds. |
| ImagenApi.OnlyFirstCandidateMatters | js/imagen.js:95-98 | Only candidates[0] is consulted. |
| ImagenApi.ExtractImageSpec | js/imagen.js:91-105 | Both directions of each case: "No candidates in response" exactly when candidates are missing or empty. "Invalid response structure" exactly when the first candidate lacks content or parts, or has empty parts. "No image data in response" exactly when there are parts and none has inline data. An image exactly when some part has inline data, and then it is the data of the first such part. |
| ImagenApi.UnreadableBodyFails | js/imagen.js:85-90 | A body that is not JSON fails with the parse error, whatever the status. |
| ImagenApi.NetworkFailureFails | js/imagen.js:77-83 | A rejected `fetch` fails with its own error. |
| ImagenApi.TextPartsAreSkipped | js/imagen.js:100-105 | Leading parts without inline data are skipped. |
| ImagenApi.SingleInlinePartScenario | js/imagen.js:90-105 | A status 200 body with one inline part "AAAA" gives the image "AAAA". |
| ImagenApi.QuotaExceededScenario | js/imagen.js:85-88 | A 429 whose error message is "quota exceeded" fails with "API Error: quota exceeded". |
| ImagenSession.ImageSrc | js/imagen.js:23 | The image `src` is the "data:image/png;base64," prefix followed by the data. |
| ImagenSession.DataUrlRoundTrip | js/imagen.js:23 | The payload read back from the data URL is the data it was built from. |
| ImagenSession.ReplyArtifact | js/imagen.js:120-126 | The reply is an image container exactly on success, and then its data URL holds the image data. On failure it is the text "Error: " followed by the error message. |
| ImagenSession.ChatManager.constructor | js/imagen.js:6 | A new chat has an empty transcript and an empty slot. |
| ImagenSession.ChatManager.AddUserMessage | js/imagen.js:117 | One sealed user message holding the text is appended. The slot is unchanged. |
| ImagenSession.ChatManager.StartModelMessage | js/imagen.js:118 | An empty open model message is appended and fills the slot. A message that is already open is reused, and nothing changes. |
| ImagenSession.ChatManager.AppendToStreamingMessage | js/imagen.js:30-35 | Exactly one artifact is added at the end of the open message, and no other message changes. |
| ImagenSession.ChatManager.UpdateStreamingMessage | js/imagen.js:125 | Exactly one text fragment is added to the open message. |
| ImagenSession.ChatManager.FinalizeStreamingMessage | js/imagen.js:127 | The open message is sealed and the slot is emptied. With the slot already empty, nothing changes. |
| ImagenSession.ImagenManager.constructor | js/imagen.js:5-9 | The API key is read once from storage. The transcript starts empty with no message open. |
| ImagenSession.ImagenManager.DisplayGeneratedImage | js/imagen.js:21-38 | One image container with the data URL is appended to the open message. If no message is open, a model message is started first and holds only that container. |
| ImagenSession.ImagenManager.HandleSendMessage | js/imagen.js:112-129 | Input that trims to nothing changes nothing and sends nothing. Otherwise the field is clear and the user message and an open model message are in place when the request for the trimmed text is sent. The cycle ends with one sealed model message holding the image or the error line, and an empty slot on both paths. |
| ImagenSession.ImagenManager.Send | js/imagen.js:116-128 | One cycle for non-blank text: the request, the state when the request is sent, and the final transcript of user message plus sealed reply. |
| ImagenSession.ImagenManager.BeginSend | js/imagen.js:116-118 | The field is cleared, one user message is appended, and one open model message is appended into the slot. |
| ImagenSession.ImagenManager.SettleSend | js/imagen.js:120-128 | try/catch/finally: the reply artifact is appended to the open message, which is then sealed. The slot is empty on both paths. |
| JsText.Trim | js/imagen.js:113 | The trimmed text neither starts nor ends with white space. It is empty exactly when the input is all white space. |
| JsText.TrimIsInfix | js/imagen.js:113 | The trimmed text is one stretch of the input, with only white space on both sides of it. |
| JsText.TrimKeepsTrimmed | js/imagen.js:113 | Text with no white space at either end is its own trim. |
| JsText.ParseInt | js/config/imagen.js:19-20 | No `ensures` of its own: the global `parseInt` with no radix, specified by `ParseIntReadsInteger`, `ParseIntReadsDigits`, `ParseIntReadsPlusDigits`, `ParseIntReadsMinusDigits`, `ParseIntReadsHex` and `ParseIntNonNumeric`. |
| JsText.IntToString | js/imagen.js:87 | No `ensures` of its own: `String(n)` for the status code, specified by `DecimalDigitsReadBack` and read back by `ParseIntReadsInteger`. |
| JsText.ParseIntReadsInteger | js/config/imagen.js:19-20 | `parseInt` reads back any integer written in decimal, after white space and before a non-digit ("12px" gives 12). |
| JsText.ParseIntReadsDigits | js/config/imagen.js:19-20 | Any run of decimal digits, leading zeros included, is read after white space and before a non-digit ("007" gives 7), unless the text starts with "0x". |
| JsText.ParseIntReadsPlusDigits | js/config/imagen.js:19-20 | The same run of digits after a plus sign is read unchanged ("+5" gives 5). |
| JsText.ParseIntReadsMinusDigits | js/config/imagen.js:19-20 | The same run of digits after a minus sign is read negated (" -012" gives -12). |
| JsText.ParseIntReadsHex | js/config/imagen.js:19-20 | After the "0x" or "0X" prefix the hexadecimal digits are read (" 0x20" gives 32). |
| JsText.ParseIntNonNumeric | js/config/imagen.js:19-20 | `parseInt` is NaN when the text after white space starts with neither a sign nor a digit ("", "null", "abc"). |
| JsText.DecimalDigitsReadBack | js/imagen.js:87 | The decimal text of a status code is a non-empty digit string, without a leading zero, that reads back as the code. |

## Left out

- server.js: a static file server over a library not shown; it holds no client logic.
- `fetch`, reading the JSON body and `console.error`: the settled exchange is the input `HttpOutcome`, and logging has no effect on the result.
- The DOM: element creation, class names, `setupUI`, event listeners, `DOMContentLoaded` and `scrollToBottom`. A message holds abstract artifacts, text fragments and image containers, and only the image's `src` is kept.
- `ChatManager` rendering: js/chat/chat-manager.js is not part of this model. Only the transcript and slot transitions that js/imagen.js relies on are modelled.
- ImagenSession.ChatManager.StartModelMessage: what js/chat/chat-manager.js does when a message is already open is not known here; reusing it is a modelling choice, and js/imagen.js never reaches that case.
- `getApiUrl`: nothing in the modelled code calls it.
- Concurrency: overlapping sends and the event loop are not modelled. One send cycle runs to completion, with the field frozen from the moment it is read.
- JSON values that are not objects: the typed datatypes cannot express them, so the following are not modelled. A `null` body, candidate or part throws a `TypeError` (js/imagen.js:86-87, 91, 95, 100). A number, string or boolean has no fields: as a body it fails with "API Error: HTTP error! status: …" (js/imagen.js:87) or "No candidates in response" (js/imagen.js:91), as a candidate with "Invalid response structure" (js/imagen.js:95-97), and as a part it is skipped by `find` (js/imagen.js:100). A non-empty string `parts` throws a `TypeError`, because strings have no `find`. Part and inline-data fields are absent or well-typed here.
- An inline-data part without a `data` field: the image data is always a string here.
- ImagenConfig.FloatSetting: `parseFloat` is a function parameter, not a floating-point parser. Values are reals, so nothing is claimed about rounding.
- JsText.ParseIntReadsInteger: integers are unbounded. Rounding of integers beyond 2^53, and `Infinity` for very long digit strings, are not modelled.
- ImagenConfig.GetConfig: uses the corrected lookup `ThresholdFor`. For a stored level naming an `Object.prototype` member, the code as written yields that member instead (see Findings and `ThresholdAsWritten`).
- JsText.Trim: strings are sequences of code points. UTF-16 surrogate pairs are not distinguished.

## Findings

| source | as written | input that shows it | evidently intended | confidence | as-written member | corrected member |
|---|---|---|---|---|---|---|
| js/config/imagen.js:37 | `thresholds[localStorage.getItem(k)] \|\| "HARM_BLOCK_THRESHOLD_UNSPECIFIED"` looks the stored level up on a plain object literal, so it also finds the twelve `Object.prototype` members. These are truthy and bypass the fallback. | a stored level "toString" (also "constructor", "valueOf", "__proto__", …) | only "0" to "3" select a level, and everything else gives HARM_BLOCK_THRESHOLD_UNSPECIFIED | high; not executed | ImagenConfig.ThresholdAsWrittenLeaksPrototype | ImagenConfig.ThresholdForSpec |
