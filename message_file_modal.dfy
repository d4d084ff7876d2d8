/** The attachment dialog (`components/modals/message-file-modal.tsx`):
    it classifies the chosen file, shows a preview for images and videos,
    and posts the file and an optional caption as multipart form data. */
module MessageFileModal {
  import opened Common
  import opened Store
  import MessagesRoute
  import ModalSlice

  datatype FileType = Image | Pdf | Video | Other

  /** The MIME classification chain; the tests are tried in this order. */
  function Classify(mimeType: string): (t: FileType)
    ensures t == Image <==> "image/" <= mimeType
    ensures t == Pdf <==> !("image/" <= mimeType) && mimeType == "application/pdf"
    ensures t == Video <==> !("image/" <= mimeType) && mimeType != "application/pdf" && "video/" <= mimeType
    ensures t == Other <==> !("image/" <= mimeType) && mimeType != "application/pdf" && !("video/" <= mimeType)
  {
    if "image/" <= mimeType then Image
    else if mimeType == "application/pdf" then Pdf
    else if "video/" <= mimeType then Video
    else Other
  }

  /** The parts of the `FormData` `onSubmit` builds: the file under "file",
      then "caption" only when the caption is non-empty. */
  function FormDataOf(file: FileBlob, caption: string): (entries: seq<FormEntry>)
    ensures |entries| >= 1 && entries[0] == FileEntry("file", file)
    ensures |entries| == 2 <==> caption != ""
    ensures |entries| <= 2
    ensures forall i :: 1 <= i < |entries| ==> entries[i] == TextEntry("caption", caption)
  {
    [FileEntry("file", file)] + (if caption != "" then [TextEntry("caption", caption)] else [])
  }

  /** One `axios.post`: the base URL (`apiUrl || ""`), the query record
      `qs.stringifyUrl` appends to it, and the form parts. */
  datatype Upload = Upload(baseUrl: string, query: Option<MessagesRoute.Query>, form: seq<FormEntry>)

  class Dialog {
    /** The client store the dialog reads its type and data from and dispatches to. */
    const store: ModalSlice.ModalStore
    var preview: Option<string>
    var fileType: Option<FileType>
    var fileName: string
    /** The form's `fileUrl` field and `caption` field. */
    var fileField: Option<FileBlob>
    var caption: string
    /** The posts sent so far, and how many times the router was refreshed. */
    var sent: seq<Upload>
    var refreshes: nat

    constructor (store: ModalSlice.ModalStore)
      ensures this.store == store
      ensures preview.None? && fileType.None? && fileName == ""
      ensures fileField.None? && caption == "" && sent == [] && refreshes == 0
    {
      this.store := store;
      preview, fileType, fileName := None, None, "";
      fileField, caption := None, "";
      sent, refreshes := [], 0;
    }

    /** `isModalOpen`. */
    predicate IsModalOpen()
      reads this, store
      ensures IsModalOpen() <==> store.isOpen && store.modalType == Some(ModalSlice.MessageFile)
    {
      store.Shows(ModalSlice.MessageFile)
    }

    /** The submit button is disabled while submitting or with no file chosen. */
    predicate SubmitDisabled(isSubmitting: bool)
      reads this
    {
      isSubmitting || fileField.None?
    }

    /** `handleFileChange(file, field)`; `objectUrl` is what
        `URL.createObjectURL(file)` returns. */
    method HandleFileChange(file: FileBlob, objectUrl: string)
      modifies this
      ensures fileField == Some(file) && fileName == file.name
      ensures fileType == Some(Classify(file.mimeType))
      ensures preview == (if Classify(file.mimeType) in {Image, Video} then Some(objectUrl) else None)
      ensures caption == old(caption) && sent == old(sent) && refreshes == old(refreshes)
    {
      fileField := Some(file);
      fileName := file.name;
      if "image/" <= file.mimeType {
        fileType := Some(Image);
        preview := Some(objectUrl);
      } else if file.mimeType == "application/pdf" {
        fileType := Some(Pdf);
        preview := None;
      } else if "video/" <= file.mimeType {
        fileType := Some(Video);
        preview := Some(objectUrl);
      } else {
        fileType := Some(Other);
        preview := None;
      }
    }

    /** The remove button on a chosen file. */
    method ClearFile()
      modifies this
      ensures fileField.None? && preview.None? && fileType.None? && fileName == ""
      ensures caption == old(caption) && sent == old(sent) && refreshes == old(refreshes)
    {
      fileField := None;
      preview := None;
      fileType := None;
      fileName := "";
    }

    /** `handleClose`: the form is reset, the preview cleared and the modal
        slice closed. */
    method HandleClose()
      modifies this, store
      ensures fileField.None? && caption == ""
      ensures preview.None? && fileType.None? && fileName == ""
      ensures sent == old(sent) && refreshes == old(refreshes)
      ensures store.IsInitial() && store.Valid() && !IsModalOpen()
    {
      fileField, caption := None, "";
      preview := None;
      fileType := None;
      fileName := "";
      store.CloseModal();
    }

    /** `form.handleSubmit(onSubmit)`. The schema demands a file, so with none
        chosen nothing is sent. Otherwise one post is made; `postOk` is
        whether it succeeded. On success the form is reset, the router
        refreshed and the dialog closed; on failure the error is only logged. */
    method Submit(postOk: bool)
      modifies this, store
      ensures old(fileField).None? ==>
        && fileField == old(fileField) && caption == old(caption) && sent == old(sent)
        && refreshes == old(refreshes) && preview == old(preview) && fileType == old(fileType)
        && fileName == old(fileName)
        && store.modalType == old(store.modalType) && store.data == old(store.data)
        && store.isOpen == old(store.isOpen)
      ensures old(fileField).Some? ==>
        sent == old(sent) + [Upload(OrEmpty(old(store.data.apiUrl)), old(store.data.query),
                                    FormDataOf(old(fileField).value, old(caption)))]
      ensures old(fileField).Some? && postOk ==>
        && refreshes == old(refreshes) + 1
        && fileField.None? && caption == "" && preview.None? && fileType.None? && fileName == ""
        && store.IsInitial()
      ensures old(fileField).Some? && !postOk ==>
        && refreshes == old(refreshes) && fileField == old(fileField) && caption == old(caption)
        && preview == old(preview) && fileType == old(fileType) && fileName == old(fileName)
        && store.modalType == old(store.modalType) && store.data == old(store.data)
        && store.isOpen == old(store.isOpen)
    {
      if fileField.None? {
        return;
      }
      var url := OrEmpty(store.data.apiUrl);
      var formData := FormDataOf(fileField.value, caption);
      sent := sent + [Upload(url, store.data.query, formData)];
      if postOk {
        fileField, caption := None, "";
        refreshes := refreshes + 1;
        HandleClose();
      }
    }
  }
}
