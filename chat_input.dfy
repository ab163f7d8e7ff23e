/**
 * The chat composer (src/components/ChatInput.jsx): the draft text, the
 * attached files, the attachment-menu flag and the recording flag, and the
 * handlers that change them. Calling `onSendMessage` is modelled as the
 * message data a handler returns.
 */
module ChatInput {
  import opened Wrappers
  import opened JsString

  /** The `type` tag of an attachment: which hidden file input it came from. */
  datatype FileKind = Document | Image

  /** A file as the browser's file picker hands it over. */
  datatype PickedFile = PickedFile(name: string, size: nat, mimeType: string)

  /**
   * An entry of `attachedFiles`. Its id is `Date.now() + Math.random()`, taken
   * as given; the preview object URL is reduced to whether one is made.
   */
  datatype Attachment = Attachment(id: real, name: string, size: nat, kind: FileKind, hasPreview: bool)

  /** The object handed to `onSendMessage`. */
  datatype MessageData = MessageData(text: string, files: seq<Attachment>, timestamp: string)

  /**
   * The send guard of handleSend: some text once trimmed, or at least one
   * attachment. It rejects exactly the drafts made only of white space and
   * carrying no attachment.
   */
  function CanSend(message: string, files: seq<Attachment>): (r: bool)
    ensures r <==> !AllWhitespace(message) || |files| > 0
  {
    TrimEmptyIff(message);
    Trim(message) != [] || |files| > 0
  }

  /** The send button's `disabled` attribute: set by the parent, or when the guard fails. */
  function SendDisabled(disabled: bool, message: string, files: seq<Attachment>): (r: bool)
    ensures r <==> disabled || !CanSend(message, files)
  {
    disabled || (Trim(message) == [] && |files| == 0)
  }

  /** Enter without Shift submits; Shift+Enter and every other key are left to the textarea. */
  function SubmitsOnKey(key: string, shiftKey: bool): (r: bool)
    ensures r ==> key == "Enter"
    ensures shiftKey ==> !r
    ensures key == "Enter" && !shiftKey ==> r
  {
    key == "Enter" && !shiftKey
  }

  /**
   * The attachment entry built for one picked file: the file's name and size,
   * the given id and kind, and a preview exactly for MIME types under "image/".
   */
  function MakeAttachment(file: PickedFile, id: real, kind: FileKind): (r: Attachment)
    ensures r.id == id && r.name == file.name && r.size == file.size && r.kind == kind
    ensures r.hasPreview <==> |file.mimeType| >= 6 && file.mimeType[..6] == "image/"
  {
    Attachment(id, file.name, file.size, kind, StartsWith(file.mimeType, "image/"))
  }

  /** The entries built for the picked files, in selection order. */
  function NewAttachments(files: seq<PickedFile>, ids: seq<real>, kind: FileKind): (r: seq<Attachment>)
    requires |ids| == |files|
    ensures |r| == |files|
    ensures forall i :: 0 <= i < |r| ==> r[i].id == ids[i] && r[i].name == files[i].name && r[i].kind == kind
  {
    seq(|files|, i requires 0 <= i < |files| => MakeAttachment(files[i], ids[i], kind))
  }

  /** removeFile's filter: drop every entry carrying `fileId`. */
  function RemoveById(files: seq<Attachment>, fileId: real): (r: seq<Attachment>)
    ensures forall a :: a in r <==> a in files && a.id != fileId
    ensures |r| <= |files|
    decreases |files|
  {
    if files == [] then []
    else (if files[0].id != fileId then [files[0]] else []) + RemoveById(files[1..], fileId)
  }

  /** Filtering a concatenation filters each part in place, so the kept entries stay in their order. */
  lemma {:induction false} RemoveByIdDistributes(a: seq<Attachment>, b: seq<Attachment>, fileId: real)
    ensures RemoveById(a + b, fileId) == RemoveById(a, fileId) + RemoveById(b, fileId)
    decreases |a|
  {
    if a == [] {
      assert a + b == b;
    } else {
      assert (a + b)[0] == a[0] && (a + b)[1..] == a[1..] + b;
      RemoveByIdDistributes(a[1..], b, fileId);
    }
  }

  /** Removing an id no entry carries leaves the list as it was. */
  lemma {:induction false} RemoveAbsentId(files: seq<Attachment>, fileId: real)
    requires forall i :: 0 <= i < |files| ==> files[i].id != fileId
    ensures RemoveById(files, fileId) == files
    decreases |files|
  {
    if files != [] {
      RemoveAbsentId(files[1..], fileId);
    }
  }

  /** The textarea's `rows`: `message.split('\n').length || 1`, one row per line feed plus one. */
  function TextareaRows(message: string): (r: int)
    ensures r == Count(message, '\n') + 1
  {
    SplitLinesCount(message);
    var n := |SplitLines(message)|;
    if n == 0 then 1 else n
  }

  /** The composer's state: one field per `useState` of the component. */
  class Composer {
    var message: string
    var isRecording: bool
    var attachedFiles: seq<Attachment>
    var showFileMenu: bool

    /** The initial state: empty draft, no attachments, menu closed, not recording. */
    constructor ()
      ensures message == [] && attachedFiles == [] && !showFileMenu && !isRecording
    {
      message := [];
      isRecording := false;
      attachedFiles := [];
      showFileMenu := false;
    }

    /** The textarea's onChange: the draft becomes what was typed. */
    method SetMessage(text: string)
      modifies this`message
      ensures message == text
    {
      message := text;
    }

    /** The paperclip button flips the attachment menu. */
    method ToggleFileMenu()
      modifies this`showFileMenu
      ensures showFileMenu == !old(showFileMenu)
    {
      showFileMenu := !showFileMenu;
    }

    /** toggleRecording flips the recording flag (the recording itself is not implemented). */
    method ToggleRecording()
      modifies this`isRecording
      ensures isRecording == !old(isRecording)
    {
      isRecording := !isRecording;
    }

    /**
     * handleSend: when the guard holds, hands over the trimmed draft and the
     * current attachments and clears both; otherwise sends nothing and changes nothing.
     */
    method HandleSend(timestamp: string) returns (sent: Option<MessageData>)
      modifies this`message, this`attachedFiles
      ensures sent.Some? <==> CanSend(old(message), old(attachedFiles))
      ensures sent.Some? ==> sent.value == MessageData(Trim(old(message)), old(attachedFiles), timestamp)
      ensures sent.Some? ==> message == [] && attachedFiles == []
      ensures sent.None? ==> message == old(message) && attachedFiles == old(attachedFiles)
    {
      if Trim(message) != [] || |attachedFiles| > 0 {
        sent := Some(MessageData(Trim(message), attachedFiles, timestamp));
        message := [];
        attachedFiles := [];
      } else {
        sent := None;
      }
    }

    /**
     * handleKeyPress: Enter without Shift suppresses the default newline and
     * runs handleSend; any other key does nothing.
     */
    method HandleKeyPress(key: string, shiftKey: bool, timestamp: string)
      returns (preventDefault: bool, sent: Option<MessageData>)
      modifies this`message, this`attachedFiles
      ensures preventDefault <==> SubmitsOnKey(key, shiftKey)
      ensures sent.Some? <==> SubmitsOnKey(key, shiftKey) && CanSend(old(message), old(attachedFiles))
      ensures sent.Some? ==> sent.value == MessageData(Trim(old(message)), old(attachedFiles), timestamp)
      ensures sent.Some? ==> message == [] && attachedFiles == []
      ensures sent.None? ==> message == old(message) && attachedFiles == old(attachedFiles)
    {
      preventDefault := key == "Enter" && !shiftKey;
      if preventDefault {
        sent := HandleSend(timestamp);
      } else {
        sent := None;
      }
    }

    /**
     * handleFileUpload: appends one entry per picked file, in selection order,
     * after the existing ones, each tagged with `kind`; then closes the menu.
     * `ids` are the ids the source draws for the files, one each.
     */
    method HandleFileUpload(files: seq<PickedFile>, ids: seq<real>, kind: FileKind)
      requires |ids| == |files|
      modifies this`attachedFiles, this`showFileMenu
      ensures attachedFiles == old(attachedFiles) + NewAttachments(files, ids, kind)
      ensures !showFileMenu
    {
      var i := 0;
      while i < |files|
        invariant 0 <= i <= |files|
        invariant attachedFiles == old(attachedFiles) + NewAttachments(files[..i], ids[..i], kind)
      {
        attachedFiles := attachedFiles + [MakeAttachment(files[i], ids[i], kind)];
        i := i + 1;
        assert NewAttachments(files[..i], ids[..i], kind)
            == NewAttachments(files[..i - 1], ids[..i - 1], kind) + [MakeAttachment(files[i - 1], ids[i - 1], kind)];
      }
      assert files[..i] == files && ids[..i] == ids;
      showFileMenu := false;
    }

    /** removeFile: every entry with that id goes, the others stay in order. */
    method RemoveFile(fileId: real)
      modifies this`attachedFiles
      ensures attachedFiles == RemoveById(old(attachedFiles), fileId)
    {
      attachedFiles := RemoveById(attachedFiles, fileId);
    }
  }
}
