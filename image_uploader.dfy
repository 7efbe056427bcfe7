/**
 * The upload decision of components/ImageUploader.tsx: which file is looked at,
 * whether its type is accepted, and what a successful or failed read does to
 * the `error` state and to the `onImageUpload` callback.  The file read itself
 * is an outcome handed in by the caller.
 */
module ImageUploader {
  import opened Wrappers

  const InvalidFileMessage := "Please select a valid image file."
  const ReadFailedMessage := "Failed to read the image file."
  const ImageTypePrefix := "image/"

  /** A chosen or dropped file, as far as the decision looks at it: its claimed type. */
  datatype File = File(mediaType: string)

  /** How reading the file as a data URL ended. */
  datatype ReadOutcome = ReadOk(dataUrl: string) | ReadFailed

  /**
   * The component's `error` state, and the arguments `onImageUpload` has been
   * called with so far, in order.
   */
  datatype UploaderState = UploaderState(error: Option<string>, uploads: seq<string>)

  /** `file.type.startsWith('image/')` */
  predicate IsImageType(t: string)
  {
    ImageTypePrefix <= t
  }

  /** `handleFileChange(file)` with the read ending as `read`. */
  function AfterFileChange(s: UploaderState, file: Option<File>, read: ReadOutcome): (r: UploaderState)
    // no file: nothing happens
    ensures file.None? ==> r == s
    // a type that is not image/...: rejected, and no read result is used
    ensures file.Some? && !IsImageType(file.value.mediaType) ==>
              r == UploaderState(Some(InvalidFileMessage), s.uploads)
    // an image whose read succeeds: exactly one callback with the data URL, then no error
    ensures file.Some? && IsImageType(file.value.mediaType) && read.ReadOk? ==>
              r == UploaderState(None, s.uploads + [read.dataUrl])
    // an image whose read fails: the read error, no callback
    ensures file.Some? && IsImageType(file.value.mediaType) && read.ReadFailed? ==>
              r == UploaderState(Some(ReadFailedMessage), s.uploads)
  {
    match file
    case None => s
    case Some(f) =>
      if !IsImageType(f.mediaType) then s.(error := Some(InvalidFileMessage))
      else
        match read
        case ReadOk(url) => UploaderState(None, s.uploads + [url])
        case ReadFailed => s.(error := Some(ReadFailedMessage))
  }

  /** The callback runs at most once, and exactly when an image file was read successfully. */
  lemma CallbackOnlyOnSuccess(s: UploaderState, file: Option<File>, read: ReadOutcome)
    ensures var r := AfterFileChange(s, file, read);
            s.uploads <= r.uploads && |r.uploads| <= |s.uploads| + 1 &&
            (|r.uploads| == |s.uploads| + 1 <==>
               file.Some? && IsImageType(file.value.mediaType) && read.ReadOk?)
  {
  }

  /** After a file was handed in, the error is cleared exactly when it was uploaded. */
  lemma ErrorClearedIffUploaded(s: UploaderState, f: File, read: ReadOutcome)
    ensures var r := AfterFileChange(s, Some(f), read);
            r.error.None? <==> |r.uploads| == |s.uploads| + 1
  {
  }

  /** `onDrop`: `e.dataTransfer.files[0]`, absent when nothing was dropped. */
  function DroppedFile(files: seq<File>): (r: Option<File>)
    ensures r.Some? <==> files != []
    ensures r.Some? ==> r.value == files[0]
  {
    if files == [] then None else Some(files[0])
  }

  /** The input's `onChange`: `e.target.files ? e.target.files[0] : null`. */
  function ChosenFile(files: Option<seq<File>>): (r: Option<File>)
    ensures r.Some? <==> files.Some? && files.value != []
    ensures r.Some? ==> r.value == files.value[0]
  {
    match files
    case None => None
    case Some(list) => DroppedFile(list)
  }

  /** Whatever else is in the list, only the first file decides the outcome. */
  lemma OnlyFirstFileCounts(s: UploaderState, f: File, rest: seq<File>, rest': seq<File>, read: ReadOutcome)
    ensures AfterFileChange(s, DroppedFile([f] + rest), read) == AfterFileChange(s, DroppedFile([f] + rest'), read)
    ensures AfterFileChange(s, ChosenFile(Some([f] + rest)), read) == AfterFileChange(s, Some(f), read)
  {
  }

  /** The component: its `error` state and the record of `onImageUpload` calls. */
  class Uploader {
    var error: Option<string>
    var uploads: seq<string>

    function View(): UploaderState
      reads this
    {
      UploaderState(error, uploads)
    }

    constructor ()
      ensures View() == UploaderState(None, [])
    {
      error, uploads := None, [];
    }

    /** `handleFileChange`: the early returns, then the read and its two endings. */
    method HandleFileChange(file: Option<File>, read: ReadOutcome)
      modifies this
      ensures View() == AfterFileChange(old(View()), file, read)
    {
      if file.None? {
        return;
      }
      if !IsImageType(file.value.mediaType) {
        error := Some(InvalidFileMessage);
        return;
      }
      if read.ReadOk? {
        uploads := uploads + [read.dataUrl];
        error := None;
      } else {
        error := Some(ReadFailedMessage);
      }
    }

    /** A drop on the label. */
    method Drop(files: seq<File>, read: ReadOutcome)
      modifies this
      ensures View() == AfterFileChange(old(View()), DroppedFile(files), read)
    {
      HandleFileChange(DroppedFile(files), read);
    }

    /** A choice in the hidden file input. */
    method Choose(files: Option<seq<File>>, read: ReadOutcome)
      modifies this
      ensures View() == AfterFileChange(old(View()), ChosenFile(files), read)
    {
      HandleFileChange(ChosenFile(files), read);
    }
  }
}
