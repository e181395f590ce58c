# Flashcard dashboard — a Dafny model

This project models the logic of the flashcard generator's dashboard page
(`app/dashboard/page.tsx`). The user pastes notes, a generation endpoint
turns them into a titled set of question/answer cards, the page shows them as
flip cards, and it can export them as CSV or JSON. Four pieces are modelled:

- **CSV export** (`Csv`). `toCsv` and its `esc` helper: a `Question,Answer`
  header and one record per card, every field quoted with inner quotes doubled
  (the quoting rule of section 2 of RFC 4180). A reader for exactly this
  dialect stands beside the encoder, so the round trip can be proved: reading
  the export gives back the header and each card's question and answer.
- **Export file name** (`Export`). `title.replace(/\s+/g, "-").toLowerCase()`
  plus `.csv` or `.json`, and what each download carries. Both downloads are
  refused while there are no cards.
- **Generation** (`Response`, `Dashboard`). `generate` and `reset` over the
  page state (notes, count, style, mode, loading, error, title, cards,
  transcript). The token lookup, `fetch` and `res.json()` are an `Outcome`
  parameter. The endpoint's JSON body is read leniently. `generate` is split
  at its `await` into `Submit` (the click) and `Finish` (the call settles),
  because other handlers can run between the two. `Dashboard.DashboardPage`
  holds the state as fields, and each of its methods is proved equal to a
  step function on the `State` datatype. The lemmas are stated about those
  step functions.
- **Flip card** (`FlipCard`). The `flipped` flag, the face text, the face
  background, the copy text and the first four tags.

`Text` holds the string helpers: ASCII whitespace and trimming, `join`,
`map`, ASCII lower-casing and decimal rendering.

Three behaviours of the code worth knowing, all modelled as written:

- A reply with a 2xx status is a success even when its body has an `error`
  member (`page.tsx:127-140`). Only a non-2xx status reads `error`.
- Cards are listed with their position as the key (`page.tsx:415-416`). So
  the card at a position keeps its `flipped` flag when a new set arrives
  (`FlipCard.FlipCardView.Rerender`). It is not reset.
- The card count is not clamped to 3..50 (`page.tsx:236-239`). Those bounds
  are only hints on the input, and `Number` of the input's text may be
  fractional, or 0 for an empty input; the count is therefore a `real`.

## Model

| member | source | states |
|---|---|---|
| `Text.Trim` | app/dashboard/page.tsx:104 | the trimmed notes neither start nor end with whitespace |
| `Text.TrimIsSlice` | app/dashboard/page.tsx:104 | trimming keeps one contiguous slice of the notes |
| `Text.TrimDropsSpace` | app/dashboard/page.tsx:104 | what trimming drops before and after that slice is whitespace only |
| `Text.TrimEmptyIff` | app/dashboard/page.tsx:104-105 | the notes trim to nothing exactly when they are all whitespace |
| `Text.TrimIdempotent` | app/dashboard/page.tsx:104 | trimming twice is trimming once |
| `Text.Lower` | app/dashboard/page.tsx:309 | lower-casing maps each of `A`-`Z` to its lower-case letter and keeps every other character, so no upper-case letter is left and no whitespace is added |
| `Text.DecimalRoundTrip` | app/dashboard/page.tsx:138 | the printed card count reads back as the count and has no leading zero |
| `Csv.Esc` | app/dashboard/page.tsx:26 | a quoted field starts and ends with a double quote |
| `Csv.EscRoundTrip` | app/dashboard/page.tsx:26 | removing the outer quotes and collapsing each `""` gives back the original text |
| `Csv.EscOfUnescape` | app/dashboard/page.tsx:26 | any text that unquotes is exactly the quoting of its value, so every inner quote stands in a doubled pair |
| `Csv.EscInjective` | app/dashboard/page.tsx:26 | different texts quote to different fields |
| `Csv.Table` | app/dashboard/page.tsx:27 | the rows are the header then, for each card in order, its question and answer |
| `Csv.RecordOfPair` | app/dashboard/page.tsx:28 | a two-field record is the two quoted fields joined by a comma |
| `Csv.CsvRecords` | app/dashboard/page.tsx:27-28 | there are `|cards| + 1` records: record 0 is `"Question","Answer"` and record i+1 is `esc(q_i) + "," + esc(a_i)` |
| `Csv.ToCsv` | app/dashboard/page.tsx:25-29 | the export always starts with the header record and is exactly that record for no cards |
| `Csv.ToCsvRoundTrip` | app/dashboard/page.tsx:25-29 | reading the export as quoted-field CSV gives exactly the header and each card's question and answer, whatever quotes, commas or line feeds they hold |
| `Csv.ToCsvIgnoresTags` | app/dashboard/page.tsx:27 | card lists that agree on questions and answers export identically, so tags never reach the CSV |
| `Export.HyphenateNoSpace` | app/dashboard/page.tsx:309 | the slug has no whitespace and is no longer than the title |
| `Export.SlugOfNoSpace` | app/dashboard/page.tsx:309 | a title without whitespace is its own slug |
| `Export.SlugIdempotent` | app/dashboard/page.tsx:309 | slugging a slug changes nothing |
| `Export.SlugOfSpaceRun` | app/dashboard/page.tsx:309 | a whole run of whitespace becomes a single hyphen |
| `Export.SlugAppend` | app/dashboard/page.tsx:309 | slugging distributes over a split after a non-space character |
| `Export.ExportName` | app/dashboard/page.tsx:309-323 | the file name is the lower-cased slug of the title plus the extension; it has no whitespace and no upper-case letter, and ends in `.csv` or `.json` |
| `Export.ExportNameOfPlain` | app/dashboard/page.tsx:309-323 | a title with neither whitespace nor capitals is the file name unchanged, extension added |
| `Export.Export` | app/dashboard/page.tsx:305-331 | no download without cards; otherwise the derived name, with CSV text that reads back as the card table, or the JSON object holding the title and the full cards |
| `Response.Interpret` | app/dashboard/page.tsx:113-150 | only an `ok` reply whose title converts succeeds, with the normalised title and cards; no token fails with "Please log in again.", a thrown error with its message, a non-`ok` reply with its `error` member or "Failed to generate", an `ok` reply with an unconvertible title with the TypeError's message |
| `Response.ToTextFailsIff` | app/dashboard/page.tsx:127-129 | `String(v)` throws exactly when `v` is, or is an array holding at any depth, an object with its own `toString` member |
| `Response.FailedReplyMessage` | app/dashboard/page.tsx:127 | a failed reply with an `error` member fails with that member as a string, or with the TypeError's message when it cannot be converted |
| `Response.InterpretEncoded` | app/dashboard/page.tsx:129-130 | a well-formed reply is taken exactly as sent |
| `Response.InterpretLenient` | app/dashboard/page.tsx:129-130 | an `ok` reply yields a set exactly when its title is missing, null or convertible, and otherwise fails with the TypeError's message; a missing or null title becomes "Flashcards", otherwise the stringified title; the cards are the `flashcards` array, or none when that member is missing or not an array |
| `Response.ToTextExamples` | app/dashboard/page.tsx:129 | string titles are kept, numbers printed, arrays joined by commas with nulls printed empty, a plain object printed as "[object Object]", and an array holding an object with its own `toString` not printable |
| `Response.InterpretExamples` | app/dashboard/page.tsx:127-130 | `{flashcards: "not-an-array"}` gives no cards and the default title; a failed reply with `error: "too long"` fails with "too long"; one without `error` fails with "Failed to generate"; an `ok` reply `{title: {toString: 1}}` fails with the TypeError's message |
| `Dashboard.SuccessReplyMentions` | app/dashboard/page.tsx:138 | the success entry contains the title and, right after its lead, the card count |
| `Dashboard.SubmitStep` | app/dashboard/page.tsx:103-111 | the click leaves title, cards, notes, count, style and mode alone |
| `Dashboard.FinishStep` | app/dashboard/page.tsx:127-153 | title and cards are replaced together on success and both kept on failure; exactly one assistant entry is appended; loading ends false; the inputs are unchanged |
| `Dashboard.GenerateBlankNotes` | app/dashboard/page.tsx:103-108 | all-whitespace notes send no request, set the error to "Please paste your notes first." and change nothing else |
| `Dashboard.GenerateSendsTrimmedNotes` | app/dashboard/page.tsx:104-124 | other notes are sent trimmed, with the current count, style and mode, and loading is raised |
| `Dashboard.GenerateTranscript` | app/dashboard/page.tsx:110-153 | a sent request grows the transcript by exactly two entries, the user's trimmed notes then an assistant entry, and loading ends false |
| `Dashboard.GenerateSuccess` | app/dashboard/page.tsx:129-140 | on an `ok` reply whose title converts, title and cards are the normalised reply, the error stays cleared, and the assistant entry names the count and the title |
| `Dashboard.GenerateFailure` | app/dashboard/page.tsx:127-150 | on any other ending, an unconvertible `ok` title included, the call fails and title and cards are untouched, the error is the failure message and the fallback assistant entry is appended |
| `Dashboard.ResetClears` | app/dashboard/page.tsx:156-162 | reset empties the notes, cards, transcript and error, restores the title "Flashcards", and keeps count, style, mode and loading |
| `Dashboard.ResetIdempotent` | app/dashboard/page.tsx:156-162 | resetting twice is resetting once |
| `Dashboard.RunKeepsSettings` | app/dashboard/page.tsx:102-162 | through any session of edits, generates and resets loading ends false, and count, style and mode change only through their own inputs |
| `Dashboard.ResetAfterSession` | app/dashboard/page.tsx:156-162 | after any session started outside a generate, reset returns the page to its initial state except for the last count, style and mode; without edits to those it gives what resetting at the start gives, and from the initial state exactly the initial state |
| `Dashboard.DashboardPage.constructor` | app/dashboard/page.tsx:46-54 | the page starts with empty notes, count 12, balanced style, auto mode, no error, title "Flashcards", no cards and no transcript |
| `Dashboard.DashboardPage.EditNotes` | app/dashboard/page.tsx:227 | typing replaces the notes and nothing else |
| `Dashboard.DashboardPage.EditCount` | app/dashboard/page.tsx:239 | the count input replaces the count, unclamped, and nothing else |
| `Dashboard.DashboardPage.EditStyle` | app/dashboard/page.tsx:248 | the style select replaces the style and nothing else |
| `Dashboard.DashboardPage.EditMode` | app/dashboard/page.tsx:261 | the type select replaces the mode and nothing else |
| `Dashboard.DashboardPage.Submit` | app/dashboard/page.tsx:102-111 | the click updates the fields as `SubmitStep` says and returns its request |
| `Dashboard.DashboardPage.Finish` | app/dashboard/page.tsx:113-153 | the settled call updates the fields as `FinishStep` says |
| `Dashboard.DashboardPage.Generate` | app/dashboard/page.tsx:102-154 | a whole generate updates the fields as `GenerateStep` says |
| `Dashboard.DashboardPage.Reset` | app/dashboard/page.tsx:156-162 | the "New" button updates the fields as `ResetStep` says |
| `FlipCard.FaceAfterClicks` | app/dashboard/page.tsx:439-460 | text and background come from the same face: after n clicks the answer and the back image (if any) show exactly when n is odd, otherwise the question and the front image |
| `FlipCard.ShownTags` | app/dashboard/page.tsx:479-481 | the shown tags are the first min(4, n) tags and none when the card has none |
| `FlipCard.ClickedParity` | app/dashboard/page.tsx:451 | after n clicks the flag is flipped exactly when n is odd, so two clicks restore it |
| `FlipCard.ShowsAnswerAfterOddClicks` | app/dashboard/page.tsx:439-440 | a new card shows its answer after n clicks exactly when n is odd |
| `FlipCard.CopyTextHasBothSides` | app/dashboard/page.tsx:444 | the copied text starts with the question and ends with the answer |
| `FlipCard.FlipCardView.constructor` | app/dashboard/page.tsx:439 | a card starts unflipped |
| `FlipCard.FlipCardView.Toggle` | app/dashboard/page.tsx:451 | a click inverts `flipped`, so the other side's text shows, and changes nothing else |
| `FlipCard.FlipCardView.Copy` | app/dashboard/page.tsx:442-448 | the copy control returns question, blank line, answer, and changes no state, so the face stays |
| `FlipCard.FlipCardView.Rerender` | app/dashboard/page.tsx:415-416 | new props replace the card and images and keep `flipped`, so the new card shows on the same side |

## Left out

- The session check, profile fetch, auth-change subscription and redirects (`page.tsx:59-80`), `signOut` (`page.tsx:97-100`) and the login page. They are calls into an external identity service and router.
- The token lookup, `fetch` and `res.json()`. Their result is the `Response.Outcome` parameter. The request headers and bearer token are not modelled; `Dashboard.Request` is only the JSON body.
- `downloadText` (Blob, object URL, DOM anchor). `Export.Export` gives the file name and content only.
- The JSON export's pretty-printed text. It is kept as the object (title, cards) that `JSON.stringify` serialises.
- The clipboard write and the silent swallowing of its failure. `FlipCard.FlipCardView.Copy` returns the text it would write.
- The scroll effect, the placeholder texts, the face caption, the empty-set message and all other rendering and styling.
- Unicode semantics of `\s`, `trim()` and `toLowerCase()`. Whitespace is ASCII space, tab, line feed, vertical tab, form feed and carriage return; lower-casing maps only `A`-`Z`.
- An array-valued `flashcards` member holding something other than card records. The source casts it unchecked; the model's `CardArray` can only hold cards.
- A body that is not a JSON object. The model reads it as having no `title`, `flashcards` or `error` member, as optional chaining does.
- JSON numbers are kept as the text JavaScript prints for them. Number formatting is not modelled.
- The count is an exact `real`: the rounding of `Number` to a double, and an input so large that it becomes `Infinity`, are not modelled.
- The text of the TypeError `String` throws is engine-specific; `Response.ConversionError` uses the V8 engine's wording.
- The `"Something went wrong"` fallback (`page.tsx:142`). Every value thrown inside `generate` is an `Error` with a message, so the model's `Threw` always carries one.
- The disabled Generate button while loading. `Dashboard.FinishStep` is stated for any state, including one a `reset` produced mid-call.
- The CSV reader (`Csv.Parse`) accepts only the dialect `toCsv` writes: quoted fields and line-feed separators. It exists to state the round trip; it is not part of the page.
