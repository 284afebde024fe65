# Image Identifier page: a verified model of its client-side state machine

The `Home` page of the Image Identifier lets a user pick an image file, reads it into a data URI,
sends that URI to the `analyzeImage` flow, and shows the objects, people and scenes it returns,
or an error. This project models the page's state machine: the held `imageDataUri`, the `State`
record `{analysisResult, isLoading, error}`, and the six events that change them.

- `js_string.dfy`, module `JsString`: JavaScript's `startsWith`, used to check the `data:image/` prefix.
- `analyze_image.dfy`, module `AnalyzeImage`: the `AnalyzeImageOutput` record (three lists of labels).
- `page_model.dfy`, module `PageModel`: the page as a value. `Step` gives the page after one event:
  file chosen, read finished, read failed, analyze clicked, analysis resolved, analysis rejected.
  `Run` applies a sequence of events. `Inv` is what holds between events. It is proved to hold
  after every run from the initial page.
- `home.dfy`, module `Home`: the component as a class. The two state hooks are mutable fields.
  There is one method per handler, and each applies the handler's `setState` / `setImageDataUri`
  calls in source order. Each method is proved to perform `Step` on the modelled page. Its
  contract also spells out the new value of every field.

Asynchronous completions are events that carry their outcome:
- the FileReader's string or failure;
- the resolved `AnalyzeImageOutput`, or the thrown value.

A ghost field `inFlight` records which operation is pending. A completion is delivered only
for that operation (`Deliverable`), and a new operation supersedes the old one. The class also
keeps a ghost `history` of handled events. Its object invariant says that the page is exactly
`Run(Initial, history)`.

## Model

| member | source | states |
|---|---|---|
| JsString.StartsWith | src/app/page.tsx:42 | `startsWith` holds iff the prefix fits in the string and equals the string's first characters |
| PageModel.ImageDataUriAccepted | src/app/page.tsx:42 | every string beginning with `data:image/` passes the image check; `data:text/plain;base64,AAAA` does not |
| PageModel.AnalysisErrorText | src/app/page.tsx:102-106 | the error line after a failed analysis starts with `Analysis failed: `; the thrown message (or the fixed unknown-error text) can be read back after the prefix; it differs from both file-error messages |
| PageModel.HasResults | src/app/page.tsx:126-129 | results are reported iff the output is not the one with all three lists empty |
| PageModel.AnalyzeEnabledIff | src/app/page.tsx:240 | between events, the button is enabled iff an image is held and nothing is pending; a click then resets the state to loading and starts an analysis |
| PageModel.GuardedClickIsNoOp | src/app/page.tsx:76-83 | a click with no truthy image URI (null or empty) leaves the whole page unchanged |
| PageModel.InitialInv | src/app/page.tsx:22-23 | the initial page `{null, false, null}` with no image satisfies the invariant |
| PageModel.StepPreservesInv | src/app/page.tsx:27-116 | every deliverable event preserves the invariant: result and error are never both set; loading iff an operation is pending; a held URI is always an image data URI; a result is shown only with an image held |
| PageModel.RunPreservesInv | src/app/page.tsx:27-116 | the invariant holds after any deliverable sequence of events |
| PageModel.TraceExtend | src/app/page.tsx:27-116 | handling one more event extends a run by exactly one `Step` |
| PageModel.ReachableExclusive | src/app/page.tsx:23-116 | from the initial page, no sequence of events shows a result and an error together, and the spinner runs exactly while an operation is pending |
| Home.Home.constructor | src/app/page.tsx:22-23 | a fresh page holds no image and the state `{null, false, null}` |
| Home.Home.HandleFileChange | src/app/page.tsx:27-37 | with a file: result and error cleared, loading set, image dropped, a read pending; without one: nothing changes |
| Home.Home.OnLoadEnd | src/app/page.tsx:40-58 | a non-image string sets `{null, false, "Invalid file type. Please upload an image."}` and no image is held; an image data URI is held exactly and loading stops, with error and result unchanged |
| Home.Home.OnReadError | src/app/page.tsx:59-70 | loading stops and the error becomes "Failed to read the file."; result (none) and image are unchanged |
| Home.Home.HandleAnalyzeClick | src/app/page.tsx:75-88 | without an image, nothing changes and no request is made; otherwise the state becomes `{null, true, null}` and the held URI is the request |
| Home.Home.OnAnalysisResolved | src/app/page.tsx:88-116 | the state becomes `{output, false, null}`; the image is unchanged |
| Home.Home.OnAnalysisRejected | src/app/page.tsx:100-116 | the state becomes `{null, false, "Analysis failed: " + message}`; the image is unchanged |
| Home.Home.IsAnalyzeDisabled | src/app/page.tsx:240 | the button is enabled iff an image is held and no operation is pending |

## Left out

- The `analyzeImage` flow (src/ai/flows/analyze-image.ts) is left out except for its output record. It consists of declarative schemas plus a prompt to an external vision model. It does no MIME check of its own and does not fill in missing lists, so the model has no input validation or output normalisation.
- Toast notifications and `console.error` are left out: they produce output but change no state.
- The hidden file input's click forwarding (`handleUploadClick`) is left out, as are all JSX rendering and styling.
- The FileReader, `readAsDataURL` and the `await` are not modelled as such. Their outcomes are the parameters of the completion events.
- Overlapping operations are left out. A completion is delivered only for the operation that is currently pending. The page has no generation counter or cancellation, so in a real browser a superseded analysis can still settle. For example, it can reject after a newer analysis resolved, and the page would then show a result and an error together. The invariant is proved only for non-overlapping runs.
- The browser also fires `loadend` after `error`. This is not modelled: a read ends with exactly one of the two callbacks.
- React's batching of functional updates is not modelled: each `setState` is an immediate field assignment, applied in source order.
- The optional chaining in `hasResults` (`objects?.length`) is not modelled: in the record, the three lists are always present.
- `reader.result` is taken to be a string. It is never null when `loadend` follows a successful read.
