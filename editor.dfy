/**
 * The edit-history state of components/Editor.tsx: a linear undo/redo list of
 * history entries with a cursor, a busy flag, the pending instruction and the
 * last error.  The pure functions After* say what each handler does to the
 * state; the class EditorSession holds the same state in mutable fields and
 * its methods are proved to perform exactly those transitions.
 */
module Editor {
  import opened Wrappers
  import ImageUtils

  /** One history item; its image is a data URL.  Ids are opaque. */
  datatype Entry = Entry(id: string, prompt: string, imageUrl: string)

  const OriginalLabel := "Original"
  const UnexpectedError := "An unexpected error occurred."
  /** The TypeError the JavaScript engine raises when `history[currentIndex]` is undefined. */
  const MissingEntryMessage := "Cannot read properties of undefined (reading 'imageUrl')"

  /** The image of a generated entry: `data:image/png;base64,` followed by the returned payload. */
  function PngUrl(payload: string): string
  {
    ImageUtils.Base64DataUrl(ImageUtils.DefaultMimeType, payload)
  }

  /** What is sent to the remote image editor: payload, media type and the refined instruction. */
  datatype EditRequest = EditRequest(data: string, mimeType: string, instruction: string)
  /** What the remote image editor answers: a payload, or a thrown error with its message. */
  datatype EditOutcome = Edited(data: string) | EditFailed(message: string)

  /** The component's state: `history`, `currentIndex`, `isLoading`, `prompt`, `error`. */
  datatype State = State(history: seq<Entry>, currentIndex: nat, isLoading: bool,
                         prompt: string, error: Option<string>)

  /** The initial values of the five state hooks. */
  const Initial := State([], 0, false, "", None)

  /** The cursor invariant: an in-range index, or 0 before the history is seeded. */
  predicate CursorInRange(s: State)
  {
    if s.history == [] then s.currentIndex == 0 else s.currentIndex < |s.history|
  }

  /** `err.message || 'An unexpected error occurred.'` */
  function ErrorText(message: string): (t: string)
    ensures t != ""
    ensures message != "" ==> t == message
    ensures message == "" ==> t == UnexpectedError
  {
    if message == "" then UnexpectedError else message
  }

  /** The seeding effect: a non-empty initial image replaces the history by one "Original" entry. */
  function AfterSeed(s: State, initialImage: string, id: string): (r: State)
    ensures initialImage == "" ==> r == s
    ensures initialImage != "" ==>
              |r.history| == 1 && r.history[0] == Entry(id, OriginalLabel, initialImage) &&
              r.currentIndex == 0 && CursorInRange(r)
    ensures r.isLoading == s.isLoading && r.prompt == s.prompt && r.error == s.error
  {
    if initialImage == "" then s
    else s.(history := [Entry(id, OriginalLabel, initialImage)], currentIndex := 0)
  }

  /** A click on the history item at `index`: only existing items are offered. */
  function AfterSelect(s: State, index: nat): (r: State)
    requires index < |s.history|
    ensures r.history == s.history && r.currentIndex == index && CursorInRange(r)
    ensures r.isLoading == s.isLoading && r.prompt == s.prompt && r.error == s.error
  {
    s.(currentIndex := index)
  }

  /** Typing in the text area, or a voice transcript arriving, sets the instruction. */
  function AfterPromptChange(s: State, text: string): (r: State)
    ensures r.prompt == text && r.(prompt := s.prompt) == s
  {
    s.(prompt := text)
  }

  /**
   * The body of the `try` in `handleGenerate`: look up the current entry, parse
   * its data URL and ask the editor with the refined instruction.  Success
   * carries the returned payload; failure carries the thrown error's message.
   */
  function Attempt(s: State, refine: string -> string, edit: EditRequest -> EditOutcome): (r: Result<string, string>)
    ensures s.currentIndex >= |s.history| ==> r == Failure(MissingEntryMessage)
    ensures s.currentIndex < |s.history| ==>
              var parsed := ImageUtils.ParseDataUrl(s.history[s.currentIndex].imageUrl);
              (parsed.Failure? ==> r == Failure(ImageUtils.InvalidDataUrl)) &&
              (parsed.Success? ==>
                 var answer := edit(EditRequest(parsed.value.data, parsed.value.mimeType, refine(s.prompt)));
                 r == if answer.Edited? then Success(answer.data) else Failure(answer.message))
  {
    if s.currentIndex >= |s.history| then Failure(MissingEntryMessage)
    else
      var refined := refine(s.prompt);
      match ImageUtils.ParseDataUrl(s.history[s.currentIndex].imageUrl)
      case Failure(message) => Failure(message)
      case Success(image) =>
        match edit(EditRequest(image.data, image.mimeType, refined))
        case Edited(payload) => Success(payload)
        case EditFailed(message) => Failure(message)
  }

  /** `handleGenerate`, taken as one atomic step over the state it starts from. */
  function AfterGenerate(s: State, refine: string -> string, edit: EditRequest -> EditOutcome, id: string): (r: State)
    // guard: nothing changes while busy or with an empty instruction
    ensures s.prompt == "" || s.isLoading ==> r == s
    ensures !(s.prompt == "" || s.isLoading) ==> !r.isLoading
    // success: keep history[0..currentIndex], drop the redo tail, append one entry, move to it
    ensures !(s.prompt == "" || s.isLoading) && Attempt(s, refine, edit).Success? ==>
              |r.history| == s.currentIndex + 2 &&
              (forall i :: 0 <= i <= s.currentIndex ==> r.history[i] == s.history[i]) &&
              r.history[s.currentIndex + 1] ==
                Entry(id, s.prompt, PngUrl(Attempt(s, refine, edit).value)) &&
              r.currentIndex == s.currentIndex + 1 && CursorInRange(r) &&
              r.prompt == "" && r.error == None
    // failure: history, cursor and instruction kept, a non-empty message recorded
    ensures !(s.prompt == "" || s.isLoading) && Attempt(s, refine, edit).Failure? ==>
              r.history == s.history && r.currentIndex == s.currentIndex && r.prompt == s.prompt &&
              r.error == Some(ErrorText(Attempt(s, refine, edit).error)) && r.error.value != ""
  {
    if s.prompt == "" || s.isLoading then s
    else
      match Attempt(s, refine, edit)
      case Success(payload) =>
        var newHistory := s.history[..s.currentIndex + 1] + [Entry(id, s.prompt, PngUrl(payload))];
        State(newHistory, |newHistory| - 1, false, "", None)
      case Failure(message) =>
        s.(isLoading := false, error := Some(ErrorText(message)))
  }

  // ---------------------------------------------------------------------------
  // Properties over several steps

  /** Every handler keeps the cursor in range. */
  lemma CursorStaysInRange(s: State, image: string, index: nat, text: string,
                           refine: string -> string, edit: EditRequest -> EditOutcome, id: string)
    requires CursorInRange(s)
    ensures CursorInRange(AfterSeed(s, image, id))
    ensures index < |s.history| ==> CursorInRange(AfterSelect(s, index))
    ensures CursorInRange(AfterPromptChange(s, text))
    ensures CursorInRange(AfterGenerate(s, refine, edit, id))
  {
  }

  /** An editor that always answers with a payload free of commas (as base64 is). */
  ghost predicate AlwaysEdits(edit: EditRequest -> EditOutcome)
  {
    forall q :: edit(q).Edited? && ',' !in edit(q).data
  }

  /** The cursor is on the last entry, nothing is in flight and that entry's image parses. */
  ghost predicate AtLatest(s: State)
  {
    s.history != [] && s.currentIndex == |s.history| - 1 && !s.isLoading &&
    ImageUtils.ParseDataUrl(s.history[s.currentIndex].imageUrl).Success?
  }

  /** `after` is `before` followed by one entry per instruction, labelled and identified in order. */
  ghost predicate Appended(before: seq<Entry>, after: seq<Entry>, prompts: seq<string>, ids: seq<string>)
    requires |prompts| == |ids|
  {
    |after| == |before| + |prompts| && after[..|before|] == before &&
    forall i :: 0 <= i < |prompts| ==>
      after[|before| + i].prompt == prompts[i] && after[|before| + i].id == ids[i]
  }

  /** Each instruction typed in turn and submitted with Generate, with no selection in between. */
  function SubmitAll(s: State, prompts: seq<string>, ids: seq<string>,
                     refine: string -> string, edit: EditRequest -> EditOutcome): State
    requires |ids| == |prompts|
    decreases |prompts|
  {
    if prompts == [] then s
    else SubmitAll(AfterGenerate(AfterPromptChange(s, prompts[0]), refine, edit, ids[0]),
                   prompts[1..], ids[1..], refine, edit)
  }

  /** A generated entry's image parses back to its payload with media type image/png. */
  lemma PngEntryParses(payload: string)
    requires ',' !in payload
    ensures ImageUtils.ParseDataUrl(PngUrl(payload)) ==
            Success(ImageUtils.ParsedImage(payload, ImageUtils.DefaultMimeType))
  {
    ImageUtils.DefaultIsWellFormed();
    ImageUtils.RoundTrip(ImageUtils.DefaultMimeType, payload);
  }

  /** From the last entry, one successful edit appends exactly one entry labelled with the raw instruction. */
  lemma EditAtLatest(s: State, text: string, id: string,
                     refine: string -> string, edit: EditRequest -> EditOutcome)
    requires AtLatest(s) && text != "" && AlwaysEdits(edit)
    ensures var r := AfterGenerate(AfterPromptChange(s, text), refine, edit, id);
            AtLatest(r) && Appended(s.history, r.history, [text], [id])
  {
    var t := AfterPromptChange(s, text);
    var image := ImageUtils.ParseDataUrl(s.history[s.currentIndex].imageUrl).value;
    var answer := edit(EditRequest(image.data, image.mimeType, refine(text)));
    assert Attempt(t, refine, edit) == Success(answer.data);
    var r := AfterGenerate(t, refine, edit, id);
    assert r.history == s.history + [Entry(id, text, PngUrl(answer.data))];
    assert r.history[..|s.history|] == s.history;
    PngEntryParses(answer.data);
  }

  /** From the last entry, N successful edits append N entries in submission order. */
  lemma {:induction false} EditsAtLatest(s: State, prompts: seq<string>, ids: seq<string>,
                                         refine: string -> string, edit: EditRequest -> EditOutcome)
    requires AtLatest(s) && |ids| == |prompts| && AlwaysEdits(edit)
    requires forall i :: 0 <= i < |prompts| ==> prompts[i] != ""
    ensures var r := SubmitAll(s, prompts, ids, refine, edit);
            AtLatest(r) && Appended(s.history, r.history, prompts, ids)
    decreases |prompts|
  {
    if prompts != [] {
      var t := AfterGenerate(AfterPromptChange(s, prompts[0]), refine, edit, ids[0]);
      EditAtLatest(s, prompts[0], ids[0], refine, edit);
      EditsAtLatest(t, prompts[1..], ids[1..], refine, edit);
      var r := SubmitAll(t, prompts[1..], ids[1..], refine, edit);
      assert SubmitAll(s, prompts, ids, refine, edit) == r;
      assert [prompts[0]] == prompts[..1] && [ids[0]] == ids[..1];
      AppendedTwice(s.history, t.history, r.history, prompts, ids);
    }
  }

  /** Appending in two rounds is appending once. */
  lemma AppendedTwice(a: seq<Entry>, b: seq<Entry>, c: seq<Entry>, prompts: seq<string>, ids: seq<string>)
    requires 0 < |prompts| == |ids|
    requires Appended(a, b, prompts[..1], ids[..1]) && Appended(b, c, prompts[1..], ids[1..])
    ensures Appended(a, c, prompts, ids)
  {
    assert c[..|a|] == b[..|a|];
    forall i | 0 <= i < |prompts| ensures c[|a| + i].prompt == prompts[i] && c[|a| + i].id == ids[i] {
      if i == 0 {
        assert c[|a|] == b[|a|];
      } else {
        assert c[|a| + i] == c[|b| + (i - 1)];
        assert prompts[1..][i - 1] == prompts[i] && ids[1..][i - 1] == ids[i];
      }
    }
  }

  /**
   * N successful edits after seeding with a parseable image, with no selection,
   * give N + 1 entries with the cursor on entry N.
   */
  lemma SuccessiveEdits(image: string, id0: string, prompts: seq<string>, ids: seq<string>,
                        refine: string -> string, edit: EditRequest -> EditOutcome)
    requires ImageUtils.ParseDataUrl(image).Success?
    requires |ids| == |prompts| && AlwaysEdits(edit)
    requires forall i :: 0 <= i < |prompts| ==> prompts[i] != ""
    ensures var r := SubmitAll(AfterSeed(Initial, image, id0), prompts, ids, refine, edit);
            |r.history| == |prompts| + 1 && r.currentIndex == |prompts| &&
            r.history[0] == Entry(id0, OriginalLabel, image)
  {
    assert image != "";
    var s := AfterSeed(Initial, image, id0);
    EditsAtLatest(s, prompts, ids, refine, edit);
    var r := SubmitAll(s, prompts, ids, refine, edit);
    assert r.history[0] == r.history[..1][0];
  }

  /**
   * Redo-tail loss: selecting entry i and then editing successfully leaves
   * i + 2 entries, whatever the length before, with the cursor on entry i + 1.
   */
  lemma SelectThenEdit(s: State, i: nat, text: string, id: string,
                       refine: string -> string, edit: EditRequest -> EditOutcome)
    requires i < |s.history| && !s.isLoading && text != ""
    requires Attempt(AfterPromptChange(AfterSelect(s, i), text), refine, edit).Success?
    ensures var r := AfterGenerate(AfterPromptChange(AfterSelect(s, i), text), refine, edit, id);
            |r.history| == i + 2 && r.currentIndex == i + 1 &&
            r.history[..i + 1] == s.history[..i + 1] && r.history[i + 1].prompt == text
  {
    var r := AfterGenerate(AfterPromptChange(AfterSelect(s, i), text), refine, edit, id);
    assert r.history[..i + 1] == s.history[..i + 1];
  }

  /**
   * A failed edit, whatever the cause, leaves history and cursor as they were
   * and reports a non-empty message.
   */
  lemma FailedEditKeepsHistory(s: State, text: string, id: string,
                               refine: string -> string, edit: EditRequest -> EditOutcome)
    requires !s.isLoading && text != ""
    requires Attempt(AfterPromptChange(s, text), refine, edit).Failure?
    ensures var r := AfterGenerate(AfterPromptChange(s, text), refine, edit, id);
            |r.history| == |s.history| && r.currentIndex == s.currentIndex &&
            r.error.Some? && r.error.value != "" && r.prompt == text && !r.isLoading
  {
  }

  /**
   * The two-step scenario: seed with A, edit with "remove the background" into
   * B, go back to the original and edit with "make it black and white" into C;
   * the B entry is gone.
   */
  lemma BranchReplacesRedoTail(a: string, b: string, c: string, idA: string, idB: string, idC: string,
                               refine: string -> string, edit: EditRequest -> EditOutcome)
    requires ',' !in a && ',' !in b
    requires edit(EditRequest(a, "image/png", refine("remove the background"))) == Edited(b)
    requires edit(EditRequest(a, "image/png", refine("make it black and white"))) == Edited(c)
    ensures var s1 := AfterSeed(Initial, PngUrl(a), idA);
            var s2 := AfterGenerate(AfterPromptChange(s1, "remove the background"), refine, edit, idB);
            var s3 := AfterGenerate(AfterPromptChange(AfterSelect(s2, 0), "make it black and white"), refine, edit, idC);
            s2.history == [Entry(idA, OriginalLabel, PngUrl(a)),
                           Entry(idB, "remove the background", PngUrl(b))] &&
            s2.currentIndex == 1 &&
            s3.history == [Entry(idA, OriginalLabel, PngUrl(a)),
                           Entry(idC, "make it black and white", PngUrl(c))] &&
            s3.currentIndex == 1
  {
    PngEntryParses(a);
    var s1 := AfterSeed(Initial, PngUrl(a), idA);
    var s2 := AfterGenerate(AfterPromptChange(s1, "remove the background"), refine, edit, idB);
    assert s2.history[..1] == s1.history;
    var s3 := AfterGenerate(AfterPromptChange(AfterSelect(s2, 0), "make it black and white"), refine, edit, idC);
    assert s3.history[..1] == s1.history;
  }

  // ---------------------------------------------------------------------------
  // The component, with its state hooks as mutable fields

  class EditorSession {
    var history: seq<Entry>
    var currentIndex: nat
    var isLoading: bool
    var prompt: string
    var error: Option<string>

    /** The five fields as one value. */
    function View(): State
      reads this
    {
      State(history, currentIndex, isLoading, prompt, error)
    }

    ghost predicate Valid()
      reads this
    {
      CursorInRange(View())
    }

    constructor ()
      ensures View() == Initial && Valid()
    {
      history, currentIndex, isLoading, prompt, error := [], 0, false, "", None;
    }

    /** The effect run when `initialImage` changes. */
    method Seed(initialImage: string, id: string)
      requires Valid()
      modifies this
      ensures Valid() && View() == AfterSeed(old(View()), initialImage, id)
    {
      if initialImage != "" {
        history := [Entry(id, OriginalLabel, initialImage)];
        currentIndex := 0;
      }
    }

    /** The `onClick` of the history item at `index`. */
    method Select(index: nat)
      requires Valid() && index < |history|
      modifies this
      ensures Valid() && View() == AfterSelect(old(View()), index)
    {
      currentIndex := index;
    }

    /** The text area's `onChange` and the voice transcript callback. */
    method SetPrompt(text: string)
      requires Valid()
      modifies this
      ensures Valid() && View() == AfterPromptChange(old(View()), text)
    {
      prompt := text;
    }

    /** `handleGenerate`: guard, set busy, clear error, try the edit, record success or failure, clear busy. */
    method Generate(refine: string -> string, edit: EditRequest -> EditOutcome, id: string)
      requires Valid()
      modifies this
      ensures Valid() && View() == AfterGenerate(old(View()), refine, edit, id)
    {
      if prompt == "" || isLoading {
        return;
      }
      isLoading := true;
      error := None;
      if currentIndex >= |history| {
        error := Some(ErrorText(MissingEntryMessage));
      } else {
        var currentImage := history[currentIndex];
        var refined := refine(prompt);
        var parsed := ImageUtils.ParseDataUrl(currentImage.imageUrl);
        if parsed.Failure? {
          error := Some(ErrorText(parsed.error));
        } else {
          var answer := edit(EditRequest(parsed.value.data, parsed.value.mimeType, refined));
          if answer.EditFailed? {
            error := Some(ErrorText(answer.message));
          } else {
            var newItem := Entry(id, prompt, PngUrl(answer.data));
            var newHistory := history[..currentIndex + 1] + [newItem];
            history := newHistory;
            currentIndex := |newHistory| - 1;
            prompt := "";
          }
        }
      }
      isLoading := false;
    }
  }
}
