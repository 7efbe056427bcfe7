# AI image editor front end: history, data URLs and uploads

This project models the local logic of a browser front end that lets a user upload an
image, give natural-language edit instructions and browse a linear history of edited
versions. The image editing and the instruction rewriting happen in a remote service.
Three pieces of logic run locally, and each is modelled here:

- **Edit history** (`editor.dfy`, module `Editor`). This is the state of the editor
  component: `history` (a list of entries with id, instruction label and image data URL),
  `currentIndex`, `isLoading`, `prompt` and `error`. The pure functions `AfterSeed`,
  `AfterSelect`, `AfterPromptChange` and `AfterGenerate` describe the four handlers as
  transitions on a `State` value. The class `EditorSession` keeps the same five values
  as mutable fields. Each of its methods is proved to perform exactly the matching
  transition. `Generate` is one atomic step. It takes the prompt-refining function and
  the remote editor as parameters: refinement is a total `string -> string` function,
  and the editor is a function from an `EditRequest` to an `EditOutcome` (a payload, or
  an error with a message).
- **Data-URL parser** (`image_utils.dfy`, module `ImageUtils`). `parseDataUrl` splits on
  `,` the way JavaScript's `split` does and demands exactly two pieces. It takes the
  media type from the leftmost match of the lazy pattern `:(.*?);`, where `.` does not
  match a line terminator, and uses `image/png` when there is no match or the captured
  group is empty. `RoundTrip` proves that a base64 data URL `data:<m>;base64,<p>`
  (RFC 2397, section 3) parses back to `p` and `m` when `m` is non-empty and has no `;`,
  `,` or line break, and `p` has no comma. Such an `m` is a bare type/subtype without
  parameters, and base64 never contains a comma. Other URLs that RFC 2397 allows do not
  round-trip. Parameters after the media type are dropped, because the group stops at the
  first `;`. An empty media type gives `image/png`. A payload with a comma is rejected.
- **Upload decision** (`image_uploader.dfy`, module `ImageUploader`). `handleFileChange`
  either does nothing, rejects a non-`image/` type, or acts on the outcome of the file
  read, which is passed in. The `onImageUpload` callback is recorded as the sequence of
  arguments it has been called with. `DroppedFile` and `ChosenFile` pick the first file.

`wrappers.dfy` holds `Option` (the source's `null`) and `Result` (a thrown error).

### Behaviour of the source worth knowing
- The seeding effect runs whenever a non-empty `initialImage` arrives. It replaces the
  whole history with one `"Original"` entry, whatever the history held before.
- `parseDataUrl` throws `Invalid data URL` inside `handleGenerate`'s `try`. That message
  becomes the visible error, and history and cursor stay as they were.
- Until the seeding effect has run, the history is empty and `history[currentIndex]` is
  `undefined`. A generate in that state fails inside the `try` with the engine's
  TypeError. The model records that failure with V8's message text (`MissingEntryMessage`).
- A generated entry's image is `data:image/png;base64,` followed by the returned payload.
  The media type is always `image/png`, whatever the service produced.

## Model

| member | source | states |
|---|---|---|
| `ImageUtils.Split` | utils/imageUtils.ts:12 | `split(',')` gives one piece more than there are commas; no piece contains the separator; joining the pieces with it gives back the input |
| `ImageUtils.SplitOnce` | utils/imageUtils.ts:12 | a comma-free header, one comma and a comma-free payload split into exactly `[header, payload]` |
| `ImageUtils.SplitNone` | utils/imageUtils.ts:12 | a string without the separator splits into itself alone |
| `ImageUtils.SemicolonFrom` | utils/imageUtils.ts:16 | the lazy `(.*?);` tail finds the first `;` with no line terminator before it, and when it finds none, every later `;` has a `;` or a line break before it |
| `ImageUtils.FindMatch` | utils/imageUtils.ts:16 | the result is the leftmost `:`…`;` match of `:(.*?);`; no earlier position matches; no result means no match anywhere |
| `ImageUtils.MatchEndUnique` | utils/imageUtils.ts:16 | once the `:` is fixed, the match can end at only one `;` |
| `ImageUtils.MediaTypeOf` | utils/imageUtils.ts:16 | the media type is never empty, and it is `image/png` when the header has no match |
| `ImageUtils.MediaTypeOfMatch` | utils/imageUtils.ts:16 | with a leftmost match at p…q, the media type is `header[p+1..q]`, or `image/png` when that group is empty |
| `ImageUtils.EmptyGroupDefaults` | utils/imageUtils.ts:16 | `data:;base64,<p>` parses to payload `p` with media type `image/png` |
| `ImageUtils.ParseDataUrl` | utils/imageUtils.ts:11-19 | parsing fails exactly when the URL does not have exactly one comma, and then the error is `Invalid data URL`; a parsed media type is never empty |
| `ImageUtils.ParseOfParts` | utils/imageUtils.ts:12-18 | `header + "," + payload` parses to the undecoded payload (possibly empty) and to a media type that depends on the header only |
| `ImageUtils.AcceptedUrlHasParts` | utils/imageUtils.ts:12-18 | every accepted URL has one comma at some index i; the payload is the text after it and the media type comes from the text before it |
| `ImageUtils.RoundTrip` | utils/imageUtils.ts:11-19 | for a non-empty media type m without `;`, `,` or line break and a payload p without `,`, `data:m;base64,p` parses to `(p, m)` |
| `Editor.ErrorText` | components/Editor.tsx:62 | the displayed error is the failure's message when that is non-empty, and exactly `An unexpected error occurred.` when it is empty; it is never empty |
| `Editor.AfterSeed` | components/Editor.tsx:26-36 | a non-empty initial image gives a history of exactly one `"Original"` entry with that image and cursor 0; an empty one changes nothing; busy flag, prompt and error are untouched |
| `Editor.AfterSelect` | components/Editor.tsx:76-77 | selecting an existing position moves the cursor there and changes nothing else |
| `Editor.AfterPromptChange` | components/Editor.tsx:20-22 | the text area or a voice transcript replaces the prompt and nothing else |
| `Editor.Attempt` | components/Editor.tsx:43-48 | a missing current entry fails with the TypeError; an unparsable image fails with `Invalid data URL`; otherwise the editor gets the parsed payload, the parsed media type and the refined prompt, and its answer decides success or failure |
| `Editor.AfterGenerate` | components/Editor.tsx:38-66 | with an empty prompt or while busy nothing changes; otherwise the busy flag ends false; on success entries 0..currentIndex are kept, the redo tail is dropped, one entry labelled with the raw prompt and imaged `data:image/png;base64,` + payload is appended, the cursor moves to it (length currentIndex+2), the prompt is cleared and the error is null; on failure history, cursor and prompt are kept and the error is the non-empty message |
| `Editor.CursorStaysInRange` | components/Editor.tsx:26-77 | seeding, selecting, typing and generating all keep the cursor inside the history |
| `Editor.PngEntryParses` | components/Editor.tsx:53 | an entry built from a comma-free payload parses back to that payload with media type `image/png` |
| `Editor.EditAtLatest` | components/Editor.tsx:50-58 | with the cursor on the last entry, a successful edit appends exactly one entry labelled with the submitted text, and the cursor is on the new last entry, whose image parses again |
| `Editor.EditsAtLatest` | components/Editor.tsx:38-66 | N successful submissions from the last entry keep the old entries and append N entries whose labels and ids follow the submissions in order |
| `Editor.SuccessiveEdits` | components/Editor.tsx:26-66 | after seeding, N successful edits with no selection give N+1 entries, the cursor at N, and the `"Original"` entry first |
| `Editor.SelectThenEdit` | components/Editor.tsx:56-58 | selecting entry i and then editing successfully gives length i+2 and cursor i+1 whatever the former length; entries 0..i are kept |
| `Editor.FailedEditKeepsHistory` | components/Editor.tsx:59-65 | a failed edit keeps the history length and cursor, keeps the prompt, sets a non-empty error and ends not busy |
| `Editor.BranchReplacesRedoTail` | components/Editor.tsx:50-58 | seed A, edit to B, select the original and edit to C: the history is the A entry and the C entry, the B entry is gone, and the cursor is 1 |
| `Editor.EditorSession.constructor` | components/Editor.tsx:14-18 | the initial state: empty history, cursor 0, not busy, empty prompt, no error |
| `Editor.EditorSession.Seed` | components/Editor.tsx:26-36 | the fields undergo exactly `AfterSeed`, and the cursor stays in range |
| `Editor.EditorSession.Select` | components/Editor.tsx:77 | the fields undergo exactly `AfterSelect` |
| `Editor.EditorSession.SetPrompt` | components/Editor.tsx:20-22 | the fields undergo exactly `AfterPromptChange` |
| `Editor.EditorSession.Generate` | components/Editor.tsx:38-66 | the step-by-step handler (guard, busy, clear error, try, catch, finally) leaves the fields exactly as `AfterGenerate` says |
| `ImageUploader.AfterFileChange` | components/ImageUploader.tsx:13-27 | no file: no change and no callback; a type not starting with `image/`: error `Please select a valid image file.` and no callback; a successful read: one callback with the read result and the error cleared; a failed read: error `Failed to read the image file.` and no callback |
| `ImageUploader.CallbackOnlyOnSuccess` | components/ImageUploader.tsx:19-25 | the callback log only grows, by at most one call, and grows exactly when an image file was read successfully |
| `ImageUploader.ErrorClearedIffUploaded` | components/ImageUploader.tsx:15-25 | once a file was handed in, the error is null afterwards exactly when the callback ran |
| `ImageUploader.DroppedFile` | components/ImageUploader.tsx:35 | a drop yields a file exactly when the list is non-empty, and then it is the first one |
| `ImageUploader.ChosenFile` | components/ImageUploader.tsx:59 | the input yields a file exactly when its list exists and is non-empty, and then it is the first one |
| `ImageUploader.OnlyFirstFileCounts` | components/ImageUploader.tsx:33-36 | files after the first do not change the outcome of a drop or a choice |
| `ImageUploader.Uploader.constructor` | components/ImageUploader.tsx:11 | no error and no callback calls at first |
| `ImageUploader.Uploader.HandleFileChange` | components/ImageUploader.tsx:13-27 | the early-return branches leave error and callback log exactly as `AfterFileChange` says |
| `ImageUploader.Uploader.Drop` | components/ImageUploader.tsx:33-37 | a drop handles the first dropped file, or nothing |
| `ImageUploader.Uploader.Choose` | components/ImageUploader.tsx:59 | a choice handles the first chosen file, or nothing |

## Left out
- The remote service (services/geminiService.ts). `refinePrompt` never throws because it falls back to the raw instruction, so it is an arbitrary total function parameter. `editImage` is an arbitrary function from request to outcome. Their network behaviour is not modelled.
- `fileToBase64` (utils/imageUtils.ts:2-9) is FileReader I/O. Its outcome is a parameter of the uploader model.
- Entry ids come from `crypto.randomUUID()`. Here they are opaque parameters, and nothing is claimed about their uniqueness.
- Asynchrony. `handleGenerate` is one atomic step over the state at its start. The busy value `true` held while the requests are outstanding is set and cleared inside that step. Events that arrive meanwhile (a history click, a transcript) are not interleaved.
- App.tsx (a render switch), all JSX, CSS, icons, and the voice-recognition hook, which is not part of this model. A transcript is modelled only as `SetPrompt`.
- Regular expressions in general. Only the one pattern `:(.*?);` is modelled, as a string search.
- Strings are sequences of Unicode scalar values, not UTF-16 code units. This does not change any result here: every character searched for (`,` `:` `;` `\n` `\r` U+2028 U+2029) is one UTF-16 code unit.
- ImageUploader.Uploader.HandleFileChange: assumes `onImageUpload` returns normally. If it threw, the source's `catch` would set the read-failure message after the callback had run.
- A file is reduced to its claimed type, because the decision looks at nothing else.
