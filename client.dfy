/**
 * The suggestion session of the editor extension: the client that asks the
 * server for edit suggestions at the cursor, shows them in a virtual preview
 * document with one "Apply suggestion" lens per suggestion, and applies the
 * chosen one to the target file, warning when the text it replaces changed.
 */
module Coeditor {
  import opened Common
  import opened Positions
  import opened PrettyPrint
  import opened Protocol
  import opened Snippets

  const Scheme := "coeditor"
  const SuggestionFilePath := "/CoeditorSuggestions"

  datatype Uri = Uri(scheme: string, path: string)

  /** A document open in the editor; its text is changed only through edits. */
  class TextDocument {
    const uri: Uri
    var text: string

    constructor (uri: Uri, text: string)
      ensures this.uri == uri && this.text == text
    {
      this.uri := uri;
      this.text := text;
    }

    /** One edit that replaces the text inside `r` by `newText`. */
    method Replace(r: Range, newText: string)
      requires Before(r.start, r.end)
      modifies this
      ensures text == ReplaceRange(old(text), r, newText)
    {
      text := ReplaceRange(text, r, newText);
    }
  }

  /** The active editor: the document it shows and the start of its selection. */
  datatype Editor = Editor(document: Uri, selectionStart: Position)

  datatype CodeLens = CodeLens(range: Range, title: string, command: string, arguments: seq<int>)

  /** The lens placed at `pos` that applies suggestion `index`. */
  function ApplyLens(pos: Position, index: int): (lens: CodeLens)
    ensures lens.range.start == pos && lens.range.end == pos
    ensures lens.title == "Apply suggestion" && lens.command == "vscode-coeditor.applySuggestion"
    ensures lens.arguments == [index]
  {
    CodeLens(Range(pos, pos), "Apply suggestion", "vscode-coeditor.applySuggestion", [index])
  }

  datatype SuggestOutcome =
    | NoActiveEditor
    | NoWorkspaceFolder
    | SaveFailed
    | RequestFailed(request: RpcRequest, error: string)
    | Suggested(request: RpcRequest)

  /** The error message each outcome of a suggestion request shows, if any. */
  function ErrorMessage(outcome: SuggestOutcome): (m: Option<string>)
    ensures m.None? <==> outcome.Suggested?
    ensures outcome.RequestFailed? ==> m == Some("Unable to apply suggested edit. Error: " + outcome.error)
  {
    match outcome
    case NoActiveEditor => Some("No active text editor. This command uses the " +
      "location of the cursor to determine which code element to edit.")
    case NoWorkspaceFolder => Some("Unable to determine the project folder for the active editor.")
    case SaveFailed => Some("Unable to proceed: failed to save the active editor.")
    case RequestFailed(_, error) => Some("Unable to apply suggested edit. Error: " + error)
    case Suggested(_) => None
  }

  const InfoPrefix := "Suggesting edit at line "

  /**
   * The information message shown once the document is saved and before the
   * request is sent: the request's one-based line and the relative file.
   */
  function InfoMessage(outcome: SuggestOutcome): (m: Option<string>)
    ensures m.Some? <==> outcome.RequestFailed? || outcome.Suggested?
    ensures m.Some? ==>
      |InfoPrefix| <= |m.value| && m.value[..|InfoPrefix|] == InfoPrefix &&
      ReadNumber(m.value[|InfoPrefix|..]) == Some((outcome.request.params.line, " in " + outcome.request.params.file))
  {
    match outcome
    case RequestFailed(request, _) => Some(InfoText(request))
    case Suggested(request) => Some(InfoText(request))
    case _ => None
  }

  function InfoText(request: RpcRequest): (m: string)
    ensures |InfoPrefix| <= |m| && m[..|InfoPrefix|] == InfoPrefix
    ensures ReadNumber(m[|InfoPrefix|..]) == Some((request.params.line, " in " + request.params.file))
  {
    var tail := " in " + request.params.file;
    ReadNumberOf(request.params.line, tail);
    var m := InfoPrefix + (NatToString(request.params.line) + tail);
    assert m[|InfoPrefix|..] == NatToString(request.params.line) + tail;
    m
  }

  datatype ApplyOutcome =
    | NoSuggestions
    | InvalidPosition
    | NoSuchSuggestion(warning: Option<string>)
    | Applied(warning: Option<string>)

  /**
   * The message each outcome of applying a suggestion shows: an error when
   * there is no response, the staleness warning when there is one, and
   * nothing of the extension's own when a position cannot be built.
   */
  function ApplyMessage(outcome: ApplyOutcome): (m: Option<string>)
    ensures outcome.NoSuggestions? ==> m == Some("No suggestions to apply.")
    ensures outcome.InvalidPosition? ==> m.None?
    ensures outcome.NoSuchSuggestion? || outcome.Applied? ==> m == outcome.warning
  {
    match outcome
    case NoSuggestions => Some("No suggestions to apply.")
    case InvalidPosition => None
    case NoSuchSuggestion(warning) => warning
    case Applied(warning) => warning
  }

  const StalePrefix := "The code to be replaced at range "
  const StaleSuffix := " has changed. The applied edit may no longer be valid."

  /**
   * The warning shown when the text in the edit range is not the text the
   * server saw; the range it names reads back as the range's one-based lines
   * and its characters.
   */
  function StaleWarning(r: Range): (w: string)
    ensures |StalePrefix| + |StaleSuffix| <= |w|
    ensures w[..|StalePrefix|] == StalePrefix && w[|w| - |StaleSuffix|..] == StaleSuffix
    ensures ParseRange(w[|StalePrefix|..|w| - |StaleSuffix|]) ==
      Some((r.start.line + 1, r.start.character, r.end.line + 1, r.end.character))
  {
    var printed := PrettyPrintRange(r);
    var w := StalePrefix + printed + StaleSuffix;
    assert w[|StalePrefix|..|w| - |StaleSuffix|] == printed;
    w
  }

  /** `a` is at or before `b`, both read as (line, column) pairs. */
  predicate PairBefore(a: (int, int), b: (int, int)) {
    a.0 < b.0 || (a.0 == b.0 && a.1 <= b.1)
  }

  /**
   * The edit range's one-based lines and characters are the server's own
   * coordinates, in document order.
   */
  lemma EditRangeServerCoordinates(response: ServerResponse)
    requires EditRange(response).Some?
    ensures var r := EditRange(response).value;
      var q := (r.start.line + 1, r.start.character, r.end.line + 1, r.end.character);
      var (a, b) := (response.editStart, response.editEnd);
      && (PairBefore(a, b) ==> q == (a.0, a.1, b.0, b.1))
      && (!PairBefore(a, b) ==> q == (b.0, b.1, a.0, a.1))
  {
    var r := EditRange(response).value;
    var (a, b) := (response.editStart, response.editEnd);
    var s, e := ServerPosition(a).value, ServerPosition(b).value;
    assert Before(s, e) <==> PairBefore(a, b);
    if Before(s, e) {
      assert r == Range(s, e);
    } else {
      assert r == Range(e, s);
    }
  }

  /**
   * The staleness warning names the server's own one-based lines and its
   * columns, in document order.
   */
  lemma StaleWarningNamesServerLines(response: ServerResponse)
    requires EditRange(response).Some?
    ensures var w := StaleWarning(EditRange(response).value);
      var printed := ParseRange(w[|StalePrefix|..|w| - |StaleSuffix|]);
      var (a, b) := (response.editStart, response.editEnd);
      && (PairBefore(a, b) ==> printed == Some((a.0, a.1, b.0, b.1)))
      && (!PairBefore(a, b) ==> printed == Some((b.0, b.1, a.0, a.1)))
  {
    EditRangeServerCoordinates(response);
  }

  class CoeditorClient {
    /** How a score is printed in a snippet banner (two decimals). */
    const formatScore: real -> string
    var lastResponse: Option<ServerResponse>
    var suggestionSnippets: seq<string>
    var virtualFiles: map<string, string>

    /**
     * The session invariant: the snippets are those of the last response's
     * suggestions, one per suggestion and in order, and the preview document
     * is their concatenation; before any response there is nothing.
     */
    ghost predicate Valid()
      reads this
    {
      match lastResponse
      case None => suggestionSnippets == [] && virtualFiles == map[]
      case Some(response) =>
        && suggestionSnippets == SnippetsOf(formatScore, response.suggestions)
        && virtualFiles.Keys == {SuggestionFilePath}
        && virtualFiles[SuggestionFilePath] == Join(suggestionSnippets)
    }

    constructor (formatScore: real -> string)
      ensures Valid()
      ensures this.formatScore == formatScore
      ensures lastResponse == None && suggestionSnippets == [] && virtualFiles == map[]
    {
      this.formatScore := formatScore;
      lastResponse := None;
      suggestionSnippets := [];
      virtualFiles := map[];
    }

    /**
     * The `suggestEdit` command. `editor` is the active editor, `folder` the
     * workspace folder of its document, `relPath` the document's path relative
     * to the workspace, `saved` whether saving the document succeeded, and
     * `server` what the HTTP exchange yields for a request. A resolved reply
     * is read by `Receive`, that is, as the reply handler evidently intends;
     * the handler as written (`ReadReplyAsWritten`) fails on every reply, so
     * that no reply ever reaches the session state.
     */
    method SuggestEdit(editor: Option<Editor>, folder: Option<string>, relPath: string, saved: bool,
                       server: RpcRequest -> Result<HttpReply, string>)
      returns (outcome: SuggestOutcome)
      requires Valid()
      modifies this
      ensures Valid()
      ensures editor.None? ==> outcome == NoActiveEditor
      ensures editor.Some? && folder.None? ==> outcome == NoWorkspaceFolder
      ensures editor.Some? && folder.Some? && !saved ==> outcome == SaveFailed
      ensures outcome.NoActiveEditor? || outcome.NoWorkspaceFolder? || outcome.SaveFailed? ==>
        unchanged(this)
      ensures editor.Some? && folder.Some? && saved ==>
        var request := SuggestRequest(folder.value, relPath, editor.value.selectionStart.line + 1);
        match Receive(server(request))
        case Err(e) =>
          outcome == RequestFailed(request, e) && unchanged(this)
        case Ok(response) =>
          && outcome == Suggested(request)
          && lastResponse == Some(WithProjectPath(folder.value, response))
          && suggestionSnippets == SnippetsOf(formatScore, response.suggestions)
          && virtualFiles == old(virtualFiles)[SuggestionFilePath := Join(suggestionSnippets)]
    {
      if editor.None? {
        return NoActiveEditor;
      }
      if folder.None? {
        return NoWorkspaceFolder;
      }
      var lineNumber := editor.value.selectionStart.line + 1;
      if !saved {
        return SaveFailed;
      }
      var request := SuggestRequest(folder.value, relPath, lineNumber);
      match Receive(server(request))
      case Err(e) =>
        outcome := RequestFailed(request, e);
      case Ok(reply) =>
        var response := WithProjectPath(folder.value, reply);
        var snippets := SnippetsOf(formatScore, response.suggestions);
        lastResponse := Some(response);
        suggestionSnippets := snippets;
        virtualFiles := virtualFiles[SuggestionFilePath := Join(snippets)];
        outcome := Suggested(request);
    }

    /**
     * The code lenses of `doc`: none unless it is the preview document;
     * there, lens `i` sits at the offset where snippet `i` starts (the sum of
     * the lengths of the snippets before it) and applies suggestion `i`.
     */
    method ProvideCodeLenses(doc: TextDocument) returns (lenses: seq<CodeLens>)
      requires Valid()
      ensures doc.uri.scheme != Scheme || doc.uri.path != SuggestionFilePath ==> lenses == []
      ensures doc.uri.scheme == Scheme && doc.uri.path == SuggestionFilePath ==>
        |lenses| == |suggestionSnippets|
      ensures forall i :: 0 <= i < |lenses| ==>
        lenses[i] == ApplyLens(PositionAt(doc.text, |Join(suggestionSnippets[..i])|), i)
      ensures forall i :: 0 <= i < |lenses| ==>
        lastResponse.Some? && lenses[i].arguments == [i] && i < |lastResponse.value.suggestions|
    {
      if doc.uri.scheme != Scheme || doc.uri.path != SuggestionFilePath {
        return [];
      }
      SnippetPerSuggestion(this);
      var snippets := suggestionSnippets;
      var offset := 0;
      var i := 0;
      lenses := [];
      while i < |snippets|
        invariant 0 <= i <= |snippets|
        invariant offset == |Join(snippets[..i])|
        invariant |lenses| == i
        invariant forall j :: 0 <= j < i ==> lenses[j] == ApplyLens(PositionAt(doc.text, |Join(snippets[..j])|), j)
      {
        var pos := PositionAt(doc.text, offset);
        lenses := lenses + [ApplyLens(pos, i)];
        JoinStep(snippets, i);
        offset := offset + |snippets[i]|;
        i := i + 1;
      }
    }

    /**
     * The `applySuggestion` command on `doc`, the document the host opened
     * for the file URI of the last response's target file. The edit range is
     * compared with the code the server saw, warning on a difference, and then
     * replaced by the code of suggestion `index`.
     */
    method ApplySuggestion(index: int, doc: TextDocument) returns (outcome: ApplyOutcome)
      requires lastResponse.Some? ==> doc.uri == Uri("file", lastResponse.value.targetFile)
      modifies doc
      ensures unchanged(this)
      ensures lastResponse.None? ==> outcome == NoSuggestions && doc.text == old(doc.text)
      ensures lastResponse.Some? && EditRange(lastResponse.value).None? ==>
        outcome == InvalidPosition && doc.text == old(doc.text)
      ensures lastResponse.Some? && EditRange(lastResponse.value).Some? ==>
        var response, r := lastResponse.value, EditRange(lastResponse.value).value;
        var warning := if GetText(old(doc.text), r) != response.oldCode then Some(StaleWarning(r)) else None;
        if 0 <= index < |response.suggestions| then
          outcome == Applied(warning) &&
          doc.text == ReplaceRange(old(doc.text), r, response.suggestions[index].newCode)
        else
          outcome == NoSuchSuggestion(warning) && doc.text == old(doc.text)
    {
      if lastResponse.None? {
        return NoSuggestions;
      }
      var response := lastResponse.value;
      var range := EditRange(response);
      if range.None? {
        return InvalidPosition;
      }
      var r := range.value;
      var current := GetText(doc.text, r);
      var warning := if current != response.oldCode then Some(StaleWarning(r)) else None;
      if 0 <= index < |response.suggestions| {
        doc.Replace(r, response.suggestions[index].newCode);
        outcome := Applied(warning);
      } else {
        outcome := NoSuchSuggestion(warning);
      }
    }
  }

  /**
   * In the preview document, lens `i` marks exactly where snippet `i` starts:
   * the position it carries converts back to the snippet's start offset, and
   * the text from there is snippet `i`.
   */
  lemma LensMarksSnippet(snippets: seq<string>, i: nat)
    requires i < |snippets|
    ensures var text, start := Join(snippets), |Join(snippets[..i])|;
      && OffsetAt(text, PositionAt(text, start)) == start
      && start + |snippets[i]| <= |text|
      && text[start..start + |snippets[i]|] == snippets[i]
  {
    var text, start := Join(snippets), |Join(snippets[..i])|;
    SnippetAt(snippets, i);
    OffsetAtPositionAt(text, start);
  }

  /** Lens positions follow the order of the suggestions. */
  lemma LensPositionsOrdered(text: string, snippets: seq<string>, i: nat, j: nat)
    requires i <= j <= |snippets|
    ensures Before(PositionAt(text, |Join(snippets[..i])|), PositionAt(text, |Join(snippets[..j])|))
  {
    StartsNondecreasing(snippets, i, j);
    PositionAtMonotone(text, |Join(snippets[..i])|, |Join(snippets[..j])|);
  }

  /** In every valid session there is exactly one snippet per suggestion of the last response. */
  lemma SnippetPerSuggestion(client: CoeditorClient)
    requires client.Valid()
    ensures client.lastResponse.None? ==> client.suggestionSnippets == []
    ensures client.lastResponse.Some? ==>
      |client.suggestionSnippets| == |client.lastResponse.value.suggestions|
  {
  }
}
