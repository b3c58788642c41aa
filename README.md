# Health AI Assistant — a verified model of the ask flow

The app is a one-page health form. It covers three parts of that flow:

- **The form controller, `app/page.js`.** The page holds six fields: name, age, gender, pincode, issue and duration. It also holds a map of error messages, the text of the last reply and a busy flag.
  - `validate` tests every field on its own.
  - `handleChange` edits one field.
  - `handleSubmit` validates the form, posts it to `/api/ask` and stores the reply.
  - `handleReset` clears the form.
  - The response panel shows a progress note, the reply, or a placeholder.
- **The ask route, `app/api/ask/route.js`.** It destructures `name`, `age`, `gender`, `pincode` and `message` from the JSON body. It fills those into a fixed prompt template and sends one chat-completion request to the provider, with a system message and the prompt as the user message. It answers `{ reply }` with status 200 on every path: the model's content, an apology when there is no content, or a server-error sentence when anything throws.
- **The reply renderer, `components/AIResponse.js`.** It shows nothing for an empty text. Otherwise it cuts the text into paragraphs at "\n\n". Each paragraph becomes one block:
  - a header, when the paragraph starts with "# ";
  - a bullet list, when it starts with "- " or "* ", with one item per line and at most one bullet stripped from each line;
  - otherwise the paragraph itself.

The Dafny modules follow those files:

| file | module | contents |
|---|---|---|
| `wrappers.dfy` | `Wrappers` | `Option` |
| `js_string.dfy` | `JsString` | The JavaScript string operations the code calls: `startsWith`, `split` with a string separator, `replace` with a string pattern, and `trim`. `Join` is the inverse `split` is proved against. |
| `ask_page.dfy` | `AskPage` | The field tests, the error collection of `validate`, the panel text, the posted body, and the class `AskPage`. The class holds the page state; its handlers are methods. |
| `ai_response.dfy` | `AiResponse` | The renderer, as a function from the text to a sequence of blocks. |
| `ask_route.dfy` | `AskRoute` | The prompt template, the outbound request, the reply selection and the whole handler. It also reads a prompt back into its fields, as the partner of the template. |
| `submission.dfy` | `Submission` | How the posted form meets the route. It holds both halves of the finding below. |

Submit is asynchronous in the page. The model splits it into two atomic steps:

- `StartSubmit` validates the form. If the form is valid, it raises the busy flag, clears the reply and returns the form to post.
- `CompleteSubmit` stores what came back and drops the busy flag. It takes either `Answered(reply)` or `Failed`.

The buttons are disabled while busy (app/page.js:264, app/page.js:271). So `StartSubmit` and `HandleReset` require that the page is not busy, and `CompleteSubmit` requires that it is.

Some behaviour of the code is easy to miss:

- Age need not be an integer: `Number()` of the text only has to lie in 1..120, so "1.5" passes.
- Gender and duration pass whenever they are non-empty; their values are not checked.
- The route falls back to the apology when the content is absent and also when it is the empty string.
- The route answers 200 on every path, errors included.
- The prompt does not include `duration`, and it reads the symptoms from `message`, not from `issue`; see the finding below.
- The page shows the reply as plain text in its panel (app/page.js:287-289); it does not use `AIResponse`.

## Model

| member | source | states |
|---|---|---|
| JsString.StartsWithIff | components/AIResponse.js:18 | A text starts with a prefix exactly when it is that prefix followed by some rest. |
| JsString.Split | components/AIResponse.js:12 | A split always has at least one piece; its content is pinned down by `SplitJoin`, `SplitLeftmost` and `JoinSplit`. |
| JsString.SplitJoin | components/AIResponse.js:12 | Joining the pieces of a split with the separator gives back the original text. |
| JsString.SplitLeftmost | components/AIResponse.js:12 | No piece of a split contains the separator, and each cut is at the leftmost occurrence: no occurrence of the separator starts inside a piece and runs on into the separator that follows it. |
| JsString.JoinSplit | components/AIResponse.js:12 | Any non-empty piece sequence cut at leftmost occurrences is the split of its own join. So the split is the only such decomposition of a text. |
| JsString.ReplaceFirst | components/AIResponse.js:21 | When the string starts with the pattern, that leading occurrence is replaced and the rest is kept. When the pattern does not occur, the string is unchanged. |
| JsString.ReplaceFirstAt | components/AIResponse.js:21 | Wherever the first occurrence of the pattern lies, the result is the text before it, then the replacement, then the text after it. |
| JsString.TrimStart | app/page.js:53 | The result is a suffix of the input and the part removed in front of it is all whitespace. It is empty exactly when the input is all whitespace, and otherwise it starts with a non-whitespace character. |
| JsString.TrimEnd | app/page.js:53 | The result is a prefix of the input and the part removed after it is all whitespace. It is empty exactly when the input is all whitespace, and otherwise it ends with a non-whitespace character. |
| JsString.Trim | app/page.js:53 | The trimmed text is empty exactly when the input consists only of whitespace, using ECMAScript's WhiteSpace and LineTerminator set. |
| AskPage.Form.Set | app/page.js:68 | The named field takes the new value, and every other field keeps its value. |
| AskPage.CompareWithBound | app/page.js:54 | The comparisons `LessThan` and `GreaterThan` follow JavaScript: NaN is neither below nor above a bound, and any other number is below it, above it or equal to it, exactly one of the three. |
| AskPage.ErrorMessagesDistinct | app/page.js:53-61 | Every field's error message is non-empty, and no two fields share one. |
| AskPage.BlankRejected | app/page.js:53 | The name and issue test rejects a value exactly when it is whitespace only. An empty value is whitespace only. |
| AskPage.AgeRejected | app/page.js:54-55 | Age is rejected exactly when it is empty, or `Number()` of it is not finite, or its value lies outside 1..120. NaN and the infinities fall on the right side of each comparison, and in-range fractions pass. |
| AskPage.DigitRunIff | app/page.js:57 | `DigitRun`, the anchored digit pattern, matches exactly the strings of that many characters, all of them '0'..'9'. |
| AskPage.PincodeRejected | app/page.js:57-58 | The pincode is rejected exactly when it is not six characters long, all digits. |
| AskPage.Flag | app/page.js:53-61 | One step of the error collection: the tested field is added, with its own message, exactly when it was rejected. Every earlier entry keeps its value, and a map holding only fields' own messages still does. |
| AskPage.RecordErrors | app/page.js:52-61 | The six steps in the page's order: each field is in the map exactly when its verdict was a rejection, and every entry is its field's own message. |
| AskPage.CollectErrors | app/page.js:52-61 | The collected map holds exactly the fields that fail their test, each with its own message. All six fields are tested, with no short-circuit, so a failing field never hides another one. |
| AskPage.NoErrorsIffAllAcceptable | app/page.js:62-63 | The key count is zero exactly when the map is empty, which happens exactly when every field passes. |
| AskPage.PanelText | app/page.js:287-289 | While busy, the panel shows "Processing your input...". Otherwise it shows the response, or the placeholder when the response is empty. It is never blank. |
| AskPage.FormBody | app/page.js:77 | The posted object has exactly the keys name, age, gender, pincode, issue and duration, each holding that field of the form, and no `message` key. |
| AskPage.AskPage.constructor | app/page.js:27-37 | Initially all six fields are empty, there are no errors and no response, and the page is not busy. |
| AskPage.AskPage.Validate | app/page.js:51-64 | The error map is replaced by the failing fields with their messages, so stale errors never survive. The result is true exactly when that map is empty, which happens exactly when every field passes. |
| AskPage.AskPage.HandleChange | app/page.js:66-70 | Only the named field changes, and only its error is cleared. Every other field and error is unchanged, and no error becomes stale. |
| AskPage.AskPage.StartSubmit | app/page.js:72-75 | An invalid form sends nothing and leaves the busy flag and the response as they were. A valid form is returned for posting, with no errors, the busy flag raised and the response cleared. |
| AskPage.AskPage.CompleteSubmit | app/page.js:76-83 | The busy flag drops. The response becomes the server's reply, or "Something went wrong. Please try again." on a transport failure. |
| AskPage.AskPage.HandleReset | app/page.js:86-97 | All six fields are emptied and the errors and response are cleared. The busy flag is outside the method's frame, so it is left untouched. |
| AiResponse.ListParagraphIff | components/AIResponse.js:27 | `IsListParagraph` holds exactly for a paragraph whose first character is '-' or '*' and whose second is a space. |
| AiResponse.MarkerOf | components/AIResponse.js:28 | The marker is "", "- " or "* ", and it is a prefix of the line. It is empty exactly when the line starts with neither "- " nor "* ". |
| AiResponse.StripListMarker | components/AIResponse.js:28 | The line is its marker followed by the item. At most one bullet is removed, and a line without a bullet is kept verbatim. |
| AiResponse.StripListMarkers | components/AIResponse.js:28 | There is one item per line, in order, and each line is its marker followed by its item. |
| AiResponse.Classify | components/AIResponse.js:18-42 | A paragraph is a header exactly when it starts with "# ". It is a list exactly when it does not start with "# " but starts with "- " or "* ". Otherwise it is a verbatim paragraph. The block shows the paragraph: a header's text is the paragraph without "# ", and a list has one item per line with at most one bullet removed. |
| AiResponse.ShowsUnique | components/AIResponse.js:18-42 | At most one block shows a given paragraph. So the three cases are disjoint and the classification is exact. |
| AiResponse.Paragraphs | components/AIResponse.js:12 | There is at least one paragraph, the paragraphs joined with "\n\n" give back the text, and each cut is at the first blank line. |
| AiResponse.ClassifyAll | components/AIResponse.js:16 | There is one block per paragraph, in the same order, and each block shows its paragraph. |
| AiResponse.Render | components/AIResponse.js:8-47 | The output is empty exactly when the text is empty. Otherwise there is one block per "\n\n"-paragraph, in order, and each block shows its paragraph. |
| AiResponse.RenderFaithful | components/AIResponse.js:8-47 | Any block sequence that shows the paragraphs of a text one by one is the rendering of that text. So the rendering is determined by the text alone, and the paragraphs join back to it. |
| AiResponse.EmptyGuardMatters | components/AIResponse.js:9 | Without the emptiness guard, the empty text would still show one empty paragraph. With it, nothing is shown. |
| AskRoute.Lookup | app/api/ask/route.js:4 | A field present in the body gives its value. An absent field is interpolated as "undefined". |
| AskRoute.Destructure | app/api/ask/route.js:4 | Each of name, age, gender, pincode and message takes the body's value under its own key, or "undefined" when the key is absent. |
| AskRoute.ReadPromptBuild | app/api/ask/route.js:6-21 | The prompt `BuildPrompt` fills in holds name, age, gender, pincode and message, in that order, in their places in the fixed template. Reading the prompt back gives the five values again, provided the four one-line details hold no line break. |
| AskRoute.BuildPromptInjective | app/api/ask/route.js:6-21 | Different one-line details or different messages always give different prompts. |
| AskRoute.PostIgnoresOtherFields | app/api/ask/route.js:4 | Two bodies that agree on the five read fields give the same outbound request, and so the same reply for the same provider answer. Other fields, such as `issue` and `duration`, change nothing. |
| AskRoute.Outbound | app/api/ask/route.js:30-42 | The request names the model "openrouter/auto" and has exactly two messages: the fixed system message first, then a user message whose content is the prompt. |
| AskRoute.RequestFor | app/api/ask/route.js:30-42 | The request for a body names the model and has exactly two messages: the fixed system message, then a user message. |
| AskRoute.RequestCarriesFields | app/api/ask/route.js:4-42 | The user message's prompt, read back, gives the body's name, age, gender, pincode and message, each "undefined" when absent, provided the four details hold no line break. |
| AskRoute.SelectReply | app/api/ask/route.js:48-53 | The reply is never empty. A thrown error gives "Something went wrong on the server.". A present, non-empty content is passed on unchanged. A missing or empty content gives the apology. |
| AskRoute.Post | app/api/ask/route.js:1-55 | Every path answers status 200 with a non-empty reply. A malformed body gives the server-error reply, and a well-formed body gives the reply selected from the provider's answer to the request built from it. |
| Submission.IssueAndDurationIgnored | app/api/ask/route.js:4 | For every posted form the route's `message` is "undefined", and forms that differ only in issue or duration send the same request, and so get the same reply for the same provider answer. |
| Submission.SymptomsNeverReachPrompt | app/api/ask/route.js:4-21 | The prompt built from the posted form, read back, has the form's four details and "undefined" as its symptoms. |
| Submission.CorrectedFormBody | app/page.js:77 | The corrected body carries the symptom text under `message`, and it keeps every field of the posted form. |
| Submission.CorrectedPromptCarriesSymptoms | app/api/ask/route.js:4-21 | With the corrected body, the prompt read back gives the form's name, age, gender, pincode and issue text. |
| Submission.PanelShowsServerReply | app/page.js:287-289 | Once stored, every reply the route can give is shown as it is. It is never replaced by the placeholder, unless the model's own content is the placeholder sentence. |

## Left out

- JSX markup, Tailwind classes, framer-motion animation, the icons, `InputWrapper` and `components/Spinner.js`: presentation only. The renderer's blocks stand for the `<h2>`, `<ul>`/`<li>` and `<p>` elements.
- Dark mode and its `localStorage` load and save (app/page.js:38-49): browser storage, independent of the form.
- The network:
  - The page's `axios.post` is the hand-off between `StartSubmit`, which returns the form to post, and `CompleteSubmit`, which takes the outcome.
  - The route's `fetch` and `response.json()` are the `provider` function parameter, from the outbound request to `Threw` or the parsed content.
  - `req.json()` is the `RequestBody` value, `Malformed` when it throws.
- The API key from `process.env`, the request headers and the `console` logging: environment and logging only.
- Async timing and React's batched setters: submit is two atomic steps with nothing between them.
- `Number()` is a parameter of the page, `number: string -> JsNumber`. Its parsing rules are not modelled, and a finite value is an exact real with no double rounding.
- JSON values other than strings in the request body: the body is a map from strings to strings.
- Provider content other than a string (a number, an array, an object): the parsed content is an optional string.
- AskPage.AskPage.HandleChange: the page writes `undefined` under the changed field's key. The model removes the key instead. Both render the same and both count as no error, but `Object.keys` would still list the key.
- AskPage.AskPage.Validate: the error map is the only state it changes. React's deferred `setErrors` is taken as immediate.

## Findings

| source | as written | input that shows it | evidently intended | confidence | as-written member | corrected member |
|---|---|---|---|---|---|---|
| app/page.js:77 with app/api/ask/route.js:4 | The page posts the whole form, which keeps the symptom text under `issue`. The route destructures `message`, so the prompt's "Symptoms:" section is always "undefined". The symptom text and the duration never reach the model. | Any valid form, e.g. name "A", age "30", gender "male", pincode "560001", issue "fever", duration "1-3 days": the prompt reads "Symptoms:\nundefined". | The symptom text appears in the prompt's "Symptoms:" section: the body carries it under `message`, or the route reads `issue`. | not executed | Submission.SymptomsNeverReachPrompt | Submission.CorrectedPromptCarriesSymptoms |
