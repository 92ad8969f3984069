# Six-digit verification code: form and endpoint, modelled in Dafny

This project models the two pieces of a small verification-code system:

- the backend's `POST /api/verify` handler (`backend/server.js`), which checks
  the `code` field of the request body: a length check first, then a check of
  the sixth character against `'7'`, and nothing else;
- the front end's `VerifyCode` component
  (`frontend/src/components/VerifyCode.jsx`): six one-character input cells
  editing one code string, with per-cell error flags, an error and a success
  message, and four event handlers (change, key-down, paste, submit).

Files:

- `wrappers.dfy` — `Option`.
- `split_join.dfy` — module `SplitJoin`: the JavaScript
  `s.split("")` / `a[i] = v` / `a.join("")` idiom the component edits its code
  with. A JavaScript array is modelled as a sequence of optional strings (a
  hole is `None`); `SetAt` is the closed form of the idiom, proved equal to
  the array-level model. Writing `""` deletes a character and shifts the rest
  left; writing past the end appends.
- `server.dfy` — module `Server`: `Verify` decides one of three outcomes,
  `Outcome.ToReply` gives the HTTP status and JSON body.
- `verify_code.dfy` — module `VerifyCodeComponent`: the class `VerifyCode`
  (fields `code`, `inputErrors`, `error`, `success`) whose methods are the four
  handlers, each returning the cell that receives focus; the paste handler's
  state-updater loop (`PasteUpdater`) and the submit handler's validation
  loop (`CheckCells`) as loop methods; lemmas on what the six cells display
  after each kind of edit. Module `Scenarios`: interaction sequences on a
  fresh form, each returning what the user sees.
- `wiring.dfy` — module `Wiring`: the form's submission answered by the
  server's handler, through axios's default treatment of HTTP status codes.

`isNaN` on a one-character string is modelled exactly: JavaScript converts a
one-character string to a number only when it is an ASCII digit or one of the
white-space and line-terminator characters that string-to-number conversion
trims (which give 0). So `NonNumeric` is false for `'0'`..`'9'` and for white
space, and true for everything else, letters included.

Where reading the form as six fixed cells would predict otherwise, the model
follows the code (the handlers' own comments, such as "Clear the current
input" at `frontend/src/components/VerifyCode.jsx:39`, describe the fixed-cell
reading):

- Backspace in a cell that the code reaches does not blank that cell: it
  deletes that character and the later cells shift left
  (`ClearInsideShiftsLeft`). A character typed into a cell past the end of
  the code lands in the first empty cell (`ChangePastEndAppends`).
- Typing a non-numeric character still moves focus to the next cell, because
  the focus test is only `value !== ""` (`Scenarios.LetterInEmptyForm`).
- Submit re-checks only the cells that the code reaches. Empty cells of a
  short code are not flagged, though the submission is still refused
  (`Scenarios.ShortCodeSubmission`).
- The server answers every failure with status 400, and axios rejects any
  non-2xx status by default. So a code ending in '7' shows
  "Verification error.", not "Verification failed.", and the latter is never
  shown with this server (`Wiring.NeverResolvedFalse`,
  `Wiring.SubmitToServer`). This relies on axios's default status check,
  which is not part of the modelled source.

## Model

| member | source | states |
|---|---|---|
| `Server.Verify` | backend/server.js:20-30 | the outcome is the length failure iff `code` is absent or its length is not 6 (empty included); it is ends-in-7 iff the length is 6 and `code[5]` is '7'; it is success iff the length is 6 and `code[5]` is not '7' |
| `Server.Outcome.ToReply` | backend/server.js:22-30 | status 200 and `success: true` exactly for the success outcome, and a message exactly when `success` is false |
| `Server.Handle` | backend/server.js:20-30 | the reply is status 200 with `success: true` exactly for a six-character code whose sixth character is not '7', and status 400 otherwise |
| `Server.HandleCharacterisation` | backend/server.js:22-30 | the reply is `200 {success: true}`, `400` with the length message, or `400` with the ends-in-7 message, each under exactly its condition |
| `Server.OnlyLengthAndLastCharacterMatter` | backend/server.js:22-30 | two codes of equal length that agree on the sixth character get the same outcome: the first five characters are never checked |
| `Server.Examples` | backend/server.js:22-28 | "1234567", "12345", "" and an absent code fail the length check (length before ends-in-7); "000007" and "abcde7" end in 7; "abcde6" and "123456" succeed |
| `SplitJoin.SetAt` | frontend/src/components/VerifyCode.jsx:15-17 | the closed form equals the JavaScript split / index-assign / join of the code |
| `SplitJoin.Split` | frontend/src/components/VerifyCode.jsx:15 | `s.split("")` has one slot per character, no holes, and every slot holds exactly one character |
| `SplitJoin.Join` | frontend/src/components/VerifyCode.jsx:17 | joining slots that each hold at most one character (holes count as empty) gives at most as many characters as there are slots |
| `SplitJoin.Assign` | frontend/src/components/VerifyCode.jsx:16 | `a[i] = v` stores `v` at i, keeps every other existing slot, and past the end grows the array to length i+1 with holes in between |
| `SplitJoin.SetAtIdiom` | frontend/src/components/VerifyCode.jsx:15-17 | split, assign at `i`, join gives `s[..i] + v + s[i+1..]` inside the string and `s + v` at or past its end |
| `SplitJoin.AssignInside` | frontend/src/components/VerifyCode.jsx:15-17 | assigning inside the array replaces one character by the assigned string |
| `SplitJoin.AssignPastEnd` | frontend/src/components/VerifyCode.jsx:15-17 | assigning past the end appends the value: the holes join to nothing |
| `SplitJoin.JoinSplit` | frontend/src/components/VerifyCode.jsx:15-17 | `s.split("").join("") == s` |
| `SplitJoin.JoinHoles` | frontend/src/components/VerifyCode.jsx:16-17 | any number of holes joins to the empty string |
| `SplitJoin.JoinAppend` | frontend/src/components/VerifyCode.jsx:17 | joining two arrays laid end to end gives the two joins concatenated |
| `SplitJoin.JoinOne` | frontend/src/components/VerifyCode.jsx:17 | a one-slot array joins to its slot's string |
| `VerifyCodeComponent.NonNumeric` | frontend/src/components/VerifyCode.jsx:21 | `isNaN` of a one-character string is false for every digit and true for every ASCII letter |
| `VerifyCodeComponent.CellInvalid` | frontend/src/components/VerifyCode.jsx:21 | the test "value empty or `isNaN(value)`" holds for the empty value and for a letter, and fails for a digit |
| `VerifyCodeComponent.PasteAccepted` | frontend/src/components/VerifyCode.jsx:63 | an accepted paste (`/^\d{1,6}$/`) is non-empty, its last index is a cell index, none of its characters is non-numeric, and it passes the submit check exactly when it is six long |
| `VerifyCodeComponent.ClientAccepts` | frontend/src/components/VerifyCode.jsx:104-114 | a code the submit check lets through has six characters, each a digit or white space; every six-digit code is let through |
| `VerifyCodeComponent.Cell` | frontend/src/components/VerifyCode.jsx:152 | cell k shows at most one character: nothing iff the code does not reach k, and otherwise `code[k]` |
| `VerifyCodeComponent.Render` | frontend/src/components/VerifyCode.jsx:145-152 | there are six cells, each showing at most one character, and cell k is empty iff the code does not reach k |
| `VerifyCodeComponent.SpellFrom` | frontend/src/components/VerifyCode.jsx:145-152 | the cells from k on, read left to right, give the code from position k on |
| `VerifyCodeComponent.Overlay` | frontend/src/components/VerifyCode.jsx:72-78 | after a paste the code has length `max(|prev|, |p|)`; position k holds the pasted character for k < `|p|` and the previous one after that |
| `VerifyCodeComponent.OverlayStep` | frontend/src/components/VerifyCode.jsx:74-76 | writing the next pasted character extends the overlay by one position: it replaces a character inside the code or is appended at its end |
| `VerifyCodeComponent.AssignChar` | frontend/src/components/VerifyCode.jsx:74-76 | writing one character at or before the end of a split string leaves a hole-free array: the split of the updated string |
| `VerifyCodeComponent.PasteUpdater` | frontend/src/components/VerifyCode.jsx:72-78 | the `setCode` updater's loop over the pasted characters yields the overlay of the paste on the previous code |
| `VerifyCodeComponent.CheckCells` | frontend/src/components/VerifyCode.jsx:101-111 | flags of the cells the code reaches become `isNaN` of their character, the other flags are kept, and `hasError` holds iff some reached character is non-numeric |
| `VerifyCodeComponent.ChangeInsideReplacesCell` | frontend/src/components/VerifyCode.jsx:15-17 | typing one character into a cell the code reaches changes that cell only, and the code keeps its length |
| `VerifyCodeComponent.ClearInsideShiftsLeft` | frontend/src/components/VerifyCode.jsx:37-41 | clearing a cell the code reaches shortens the code by one: earlier cells are unchanged, and every later cell shows what the next cell showed |
| `VerifyCodeComponent.ChangePastEndAppends` | frontend/src/components/VerifyCode.jsx:15-17 | typing into a cell past the end of the code appends the character, which shows in the first empty cell |
| `VerifyCodeComponent.ClearPastEndIsNoOp` | frontend/src/components/VerifyCode.jsx:37-41 | clearing a cell past the end of the code leaves it unchanged |
| `VerifyCodeComponent.EditKeepsCodeBound` | frontend/src/components/VerifyCode.jsx:12-17 | with values of at most one character and indices below 6, a change or backspace keeps the code at most 6 long; a clear never lengthens it |
| `VerifyCodeComponent.PasteKeepsCodeBound` | frontend/src/components/VerifyCode.jsx:63-78 | an accepted paste keeps the code at most 6 long |
| `VerifyCodeComponent.RenderSpellsCode` | frontend/src/components/VerifyCode.jsx:145-152 | for a code of at most six characters, the six cells read left to right spell the code |
| `VerifyCodeComponent.VerifyCode.constructor` | frontend/src/components/VerifyCode.jsx:5-9 | the form starts with an empty code, empty messages and six clear flags |
| `VerifyCodeComponent.VerifyCode.HandleChange` | frontend/src/components/VerifyCode.jsx:12-32 | the code becomes `SetAt(code, i, value)`; only flag i changes, to "value empty or non-numeric"; focus moves to i+1 iff the value is non-empty and i < 5; messages untouched; the invariant (6 flags, code at most 6) is kept |
| `VerifyCodeComponent.VerifyCode.HandleKeyDown` | frontend/src/components/VerifyCode.jsx:35-56 | keys other than Backspace change nothing; Backspace sets the code to `SetAt(code, i, "")`, clears flag i only, and moves focus to i-1 iff i > 0 |
| `VerifyCodeComponent.VerifyCode.HandlePaste` | frontend/src/components/VerifyCode.jsx:59-90 | a paste not of 1 to 6 digits only sets the paste message; an accepted paste sets the code to the overlay, clears the error and focuses cell `|p|-1`; flags and success untouched |
| `VerifyCodeComponent.VerifyCode.HandleSubmit` | frontend/src/components/VerifyCode.jsx:93-138 | a request carrying the code is made iff the code has six characters and none is non-numeric; otherwise the digits message is set, reached flags are recomputed and the rest kept; on success the code and flags are cleared and the success message set; on a falsy response "Verification failed."; on a throw "Verification error."; success is cleared on both failures |
| `Scenarios.PasteIntoEmptyForm` | frontend/src/components/VerifyCode.jsx:59-89 | pasting "123456" into an empty form fills the cells 1..6 and focuses cell 5 |
| `Scenarios.RefusedPasteKeepsCells` | frontend/src/components/VerifyCode.jsx:63-66 | pasting "12a45" keeps the cells as they were and shows the paste message |
| `Scenarios.LetterInEmptyForm` | frontend/src/components/VerifyCode.jsx:12-31 | a letter typed into cell 2 of an empty form shows in cell 0, flags cell 2, and focus moves to cell 3 |
| `Scenarios.BackspaceInFullForm` | frontend/src/components/VerifyCode.jsx:35-49 | Backspace in cell 2 of "123456" leaves cells 1,2,4,5,6 and an empty last cell, focus on cell 1 |
| `Scenarios.SuccessfulSubmission` | frontend/src/components/VerifyCode.jsx:93-129 | submitting "123456" with a successful response posts it, then empties all cells and clears all flags and shows the success message |
| `Scenarios.ShortCodeSubmission` | frontend/src/components/VerifyCode.jsx:101-118 | submitting four digits posts nothing, shows the digits message and leaves the empty cells unflagged |
| `Wiring.PostResultOf` | frontend/src/components/VerifyCode.jsx:120-124 | a reply resolves the post iff its status is 2xx, carrying the body's `success`; any other status throws |
| `Wiring.Exchange` | frontend/src/components/VerifyCode.jsx:120-137 | posting a code to this server never resolves with `success` false; it resolves with `success` true iff the code has six characters and does not end in '7', and throws otherwise |
| `Wiring.AcceptedCodeReachesLastCharacterCheck` | backend/server.js:22-30 | a code the form lets through never fails the server's length check, and the server's answer is success iff it does not end in '7' |
| `Wiring.NeverResolvedFalse` | frontend/src/components/VerifyCode.jsx:124-133 | no reply of the server resolves with `success` false, so "Verification failed." is unreachable with this server |
| `Wiring.WhiteSpacePassesBothChecks` | frontend/src/components/VerifyCode.jsx:104-118 | " 23456" passes the form's check (white space is numeric to `isNaN`) and the server's |
| `Wiring.SubmitToServer` | frontend/src/components/VerifyCode.jsx:120-137 | answered by the real server, an accepted code not ending in '7' clears the form with the success message, one ending in '7' shows "Verification error.", and "Verification failed." is never shown |

## Left out

- Express setup, CORS, JSON body parsing, the port setting and `app.listen` (backend/server.js:1-16): I/O plumbing.
- The server's `catch` and its status 500 reply (backend/server.js:31-33): with `code` modelled as an optional string nothing in the handler can throw. Non-string `code` values (numbers, arrays) depend on JavaScript's dynamic typing and are not modelled.
- String lengths and indices count characters, not UTF-16 code units: a character outside the Basic Multilingual Plane counts as one, where JavaScript counts two.
- The `axios.post` call itself (frontend/src/components/VerifyCode.jsx:121-123): its result is a parameter of `HandleSubmit`; `Wiring` connects it to the server through axios's default status check.
- Writes to the input elements through `inputRefs` and the `.focus()` calls (frontend/src/components/VerifyCode.jsx:44, 83-85, 89, 128): focus is the index a handler returns, and what a cell shows is derived from `code` alone (`Render`).
- JSX rendering and styling (frontend/src/components/VerifyCode.jsx:140-174), except that cell k shows `code[k]` or nothing.
- React's asynchronous state batching, stale closures, and a second submission during the `await`: each handler is one atomic transition.
- The browser's own paste into the focused cell, which `handlePaste` does not prevent, and the change event it may then fire.
- The browser's own Backspace edit, which `handleKeyDown` (frontend/src/components/VerifyCode.jsx:35-56) does not prevent and which runs after focus has moved to the previous cell, and any change event it then fires on that cell.
- VerifyCodeComponent.VerifyCode.HandleChange: requires a value of at most one character, which `maxLength="1"` (frontend/src/components/VerifyCode.jsx:151) guarantees; `isNaN` of longer strings is not modelled.
