# Coeditor suggestion session, modelled in Dafny

This project models the session logic of the Coeditor editor extension
(`src/extension.ts`). The extension's client asks a local suggestion server
for edits at the cursor. It keeps the reply and renders one preview snippet
per suggestion into a virtual document `coeditor:/CoeditorSuggestions`. It
places an "Apply suggestion" code lens at the start of each snippet. On
command it replaces the server's edit range in the target file with the
chosen suggestion's code, and warns when the text in that range is no longer
the code the server saw.

Modules, leaves first:

- `Common`: `Option`, `Result`, `Min`.
- `Positions`: how the editor addresses a document. It covers zero-based
  positions, ranges ordered start-before-end, `offsetAt`/`positionAt` with
  the host's clamping, `getText(range)`, and `replace` as a splice.
- `PrettyPrint`: decimal printing and `prettyPrintRange`, with a reader for
  its `(L:C)-(L:C)` form that shows what the warning prints.
- `Protocol`: the request, the reply, how a reply is read, and the
  conversion from the server's one-based lines to editor positions.
- `Snippets`: the snippet of a suggestion, `join("")`, and where each
  snippet starts in the joined text (a prefix sum of lengths).
- `Coeditor`: the class `CoeditorClient` with the fields `lastResponse`,
  `suggestionSnippets` and `virtualFiles`. Its methods `SuggestEdit`,
  `ProvideCodeLenses` and `ApplySuggestion` come with the invariant
  `Valid()`. `TextDocument` is the edited document.

The host and the network become parameters:

- `SuggestEdit` receives the active editor, its workspace folder, the
  relative path, whether the save succeeded, and the HTTP exchange as a
  function from request to reply.
- `ApplySuggestion` receives the document the host opened for the file URI
  of the last response's `target_file`; its `requires` states that tie.
- The score's two-decimal text is the constructor parameter `formatScore`.

The model follows the code: a single reply with one edit range, and one
suggestion applied at a time.

## Model

| member | source | states |
|---|---|---|
| `Positions.MakeRange` | src/extension.ts:172 | the range from the two edit positions puts the earlier one first and keeps both positions |
| `Positions.OffsetAt` | src/extension.ts:173 | a position resolves to an offset inside the document |
| `Positions.OffsetAtClamps` | src/extension.ts:173-179 | the offset of a position is the last offset whose position is at or before it: a character past its line's end resolves to that line's end, a line past the last to the end of the document |
| `Positions.PositionAt` | src/extension.ts:51 | `positionAt` always yields a position that exists in the document |
| `Positions.OffsetAtPositionAt` | src/extension.ts:51 | converting an offset to a position and back gives the offset, clamped to the document length |
| `Positions.PositionAtOffsetAt` | src/extension.ts:51 | converting an existing position to an offset and back gives the same position |
| `Positions.OffsetAtMonotone` | src/extension.ts:172-173 | a range's start offset is never after its end offset, so `getText` reads a well-formed slice |
| `Positions.PositionAtMonotone` | src/extension.ts:49-53 | larger offsets give later positions |
| `Positions.GetText` | src/extension.ts:173 | the text in a range is the slice between its two offsets: the document is what lies before it, then it, then what lies after |
| `Positions.ReplaceRange` | src/extension.ts:177-179 | replacing a range keeps the text before and after it, and the range then holds exactly the new code |
| `PrettyPrint.NatToString` | src/extension.ts:184 | a number is printed as a non-empty string of decimal digits with no leading zero, starting with '0' only for 0 |
| `PrettyPrint.ValueOfNatToString` | src/extension.ts:184 | the printed digits denote the number printed |
| `PrettyPrint.PrettyPrintRange` | src/extension.ts:183-185 | the printed `(L:C)-(L:C)` reads back as start line + 1, start character, end line + 1 and end character; the reader refuses numbers with a leading zero, so each number is printed in plain decimal |
| `Protocol.SuggestRequest` | src/extension.ts:126-135 | the request is JSON-RPC 2.0 `suggestAndApply` with id 1, carrying the project path, the relative file and the line |
| `Protocol.ReadReplyAsWritten` | src/extension.ts:139-141 | the reply handler as written fails on every reply (see Findings) |
| `Protocol.ReadReply` | src/extension.ts:139-141 | the intended handler yields the JSON-RPC result exactly when the body carries one, else the error message |
| `Protocol.AsWrittenLosesEveryResult` | src/extension.ts:136-141 | a successful reply is lost by the handler as written, and yields its response in the intended one |
| `Protocol.Receive` | src/extension.ts:136-156 | a rejected request gives its error; a resolved one is read by `ReadReply` |
| `Protocol.WithProjectPath` | src/extension.ts:140 | the stored response is the reply with `target_file` prefixed by the project path and "/", all else equal |
| `Protocol.ServerPosition` | src/extension.ts:170-171 | a server pair becomes a position iff its line is at least 1 and its column non-negative; then line + 1 is the server line and the column is kept |
| `Protocol.EditRange` | src/extension.ts:170-172 | the edit range exists iff both positions do; it is ordered, and it is (start, end) whenever start comes first |
| `Snippets.Snippet` | src/extension.ts:142 | a snippet begins with the score banner and ends with the change preview and a line break |
| `Snippets.SnippetsOf` | src/extension.ts:141-143 | one snippet per suggestion, in order |
| `Snippets.Join` | src/extension.ts:146 | `join("")`: no parts give the empty text and a single part is the text itself; where each part lies is `Snippets.SnippetAt`, and joining distributes over concatenation (`Snippets.JoinAppend`) |
| `Snippets.JoinAppend` | src/extension.ts:146 | joining distributes over concatenation of the snippet list |
| `Snippets.SnippetAt` | src/extension.ts:146 | snippet i occupies the joined text from the sum of the lengths of the snippets before it |
| `Snippets.StartsNondecreasing` | src/extension.ts:49-53 | the running offsets never decrease |
| `Snippets.SnippetStartsIncrease` | src/extension.ts:49-53 | preview snippets are non-empty, so their start offsets strictly increase |
| `Coeditor.ApplyLens` | src/extension.ts:52-58 | a lens is an empty range at the given position, titled "Apply suggestion", running the apply command with the index as its only argument |
| `Coeditor.InfoMessage` | src/extension.ts:105 | once the save succeeded, "Suggesting edit at line N in F" is shown, and N reads back as the request's line and F is the relative file |
| `Coeditor.InfoText` | src/extension.ts:105 | the text starts with "Suggesting edit at line ", then the request's line in decimal, then " in " and the relative file |
| `Coeditor.StaleWarning` | src/extension.ts:175 | the warning is the fixed text around the printed range, and that range reads back as the range's one-based lines and its characters |
| `Coeditor.ApplyMessage` | src/extension.ts:160-176 | no response shows "No suggestions to apply."; an apply shows the staleness warning when there is one; a position that cannot be built shows nothing of the extension's own |
| `Coeditor.ErrorMessage` | src/extension.ts:82-103 | every outcome but a shown suggestion displays an error; a failed request shows "Unable to apply suggested edit. Error: " and the error (line 155) |
| `Coeditor.EditRangeServerCoordinates` | src/extension.ts:170-172 | the edit range's start and end, with lines made one-based again, are the server's two coordinate pairs, the earlier pair first |
| `Coeditor.StaleWarningNamesServerLines` | src/extension.ts:170-185 | the range printed in the warning text names the server's own one-based lines and its columns, in document order |
| `Coeditor.TextDocument.Replace` | src/extension.ts:177-179 | the document's new text is the old text with the range spliced |
| `Coeditor.CoeditorClient.constructor` | src/extension.ts:33-35 | the session starts with no response, no snippets and no virtual files, satisfying the invariant |
| `Coeditor.CoeditorClient.SuggestEdit` | src/extension.ts:80-157 | it keeps the invariant. With no editor, no workspace folder or a failed save, it returns that error and changes nothing. The request carries the cursor line + 1. A failed request changes nothing. A reply, read by the corrected handler `Protocol.ReadReply`, replaces the response, the snippets and the preview file together, leaving other virtual files as they were. As written, the handler fails on every reply (see Findings), so no reply ever reaches the state |
| `Coeditor.CoeditorClient.ProvideCodeLenses` | src/extension.ts:45-62 | no lenses unless scheme `coeditor` and path `/CoeditorSuggestions`. Otherwise there is one lens per snippet; lens i sits at the position of the running offset and carries argument i; every argument is a valid suggestion index |
| `Coeditor.CoeditorClient.ApplySuggestion` | src/extension.ts:159-180 | It edits the document opened for `target_file` (lines 164-167). No response: error, nothing changes. A negative coordinate: error, nothing changes. Otherwise it warns iff the range's text differs from `old_code`. A valid index replaces the range with that suggestion's `new_code`; an invalid one leaves the document as it was. The session never changes |
| `Coeditor.LensMarksSnippet` | src/extension.ts:49-53 | in the joined preview, lens i's position converts back to snippet i's start offset, and the text there is snippet i |
| `Coeditor.LensPositionsOrdered` | src/extension.ts:49-53 | lens positions follow the order of the suggestions |
| `Coeditor.SnippetPerSuggestion` | src/extension.ts:140-146 | in every valid session there is exactly one snippet per suggestion of the last response |

## Left out

- The HTTP POST and its promise chain (lines 126-156): the exchange is a function parameter, and a rejection is an error result.
- Extension activation, command and provider registration, and the content provider (lines 9-23, 64-76).
- `Coeditor.LensMarksSnippet`: it assumes that the preview document's text is the current `virtualFiles["/CoeditorSuggestions"]`. The content provider (lines 67-71) has no change event, and the editor asks a provider again only when that event fires. So while the preview stays open, a second reply may update the snippets and lenses but leave the preview showing the earlier text. `ProvideCodeLenses` still places lens i at `positionAt` of the new prefix sum in whatever text the document has, clamped to its end. This behaviour of the host is not modelled.
- Opening and showing documents and choosing view columns (lines 149-152, 164-167). `ApplySuggestion` receives the opened target document, and a failure to open it is not modelled. An error thrown after the state update in `SuggestEdit` (while opening the preview) is not modelled either.
- Message display itself: outcomes say which message is shown, and the texts are in `ErrorMessage`, `InfoMessage`, `ApplyMessage` and `StaleWarning`. What the host shows when a command rejects (an invalid position, an invalid index) is not modelled, nor is the `console.log(error)` of a failed request (line 154).
- The constructor's check that the HTTP client is defined (`throw new Error('axios is undefined')`, lines 39-41): the client is always given.
- JavaScript numbers are doubles, while the model's integers are unbounded. Server coordinates beyond 2^53 lose precision there, and template literals print numbers of 1e21 and more in exponent form, where `NatToString` keeps decimal digits.
- `score.toFixed(2)` (line 142): floating-point formatting is the parameter `formatScore`.
- `asRelativePath`, `fileName` and `getWorkspaceFolder` (lines 88, 96-97): host calls, passed in as values.
- Interleaving of the asynchronous commands: each command runs to completion.
- `Positions.OffsetAt`, `Positions.PositionAt`: only '\n' separates lines (no "\r\n"), and a character is one UTF-16 code unit, as is `snippet.length`.
- `Protocol.ServerPosition`: server coordinates are integers. The reply's `number[]` pairs are modelled as pairs, so missing elements and fractional coordinates are not modelled.
- `Coeditor.CoeditorClient.ApplySuggestion`: the index is an integer. An `undefined` argument, as from the command palette, is not modelled; it would behave like an out-of-range index.
- The editor refusing an edit (`edit` resolving to false) is not modelled.

## Findings

| source | as written | input that shows it | evidently intended | confidence | as-written member | corrected member |
|---|---|---|---|---|---|---|
| src/extension.ts:139-141 | the `then` handler treats the value `axios.post` resolves to as the `ServerResponse`. That value is the HTTP response object, whose body is under `data`, so `response.suggestions` is undefined and `.map` throws; the catch shows an error and no state is updated | any resolved reply whose body holds a JSON-RPC result, e.g. one with a single suggestion | read the response from the reply body's JSON-RPC result (`response.data.result`), and show the body's JSON-RPC error message when it carries an error instead | medium, not executed | `Protocol.ReadReplyAsWritten` | `Protocol.ReadReply` |
