/** The `modal` slice of the client store (`store/slices/modalSlice.ts`):
    which dialog is shown and the data handed to it. Immer lets the reducers
    assign the draft state field by field, so the slice is a class whose
    methods are the reducers. */
module ModalSlice {
  import opened Common
  import opened Store
  import MessagesRoute

  datatype ModalType =
    | CreateServer | Invite | EditServer | Members | CreateChannel | LeaveServer
    | DeleteServer | DeleteChannel | EditChannel | MessageFile | DeleteMessage

  /** `ModalData`: every field is optional; `query` is the record
      `qs.stringifyUrl` later turns into a query string. */
  datatype ModalData = ModalData(
    server: Option<Server>,
    channel: Option<Channel>,
    channelType: Option<string>,
    apiUrl: Option<string>,
    query: Option<MessagesRoute.Query>)

  /** The empty object `{}`. */
  const NO_DATA := ModalData(None, None, None, None, None)

  class ModalStore {
    var modalType: Option<ModalType>
    var data: ModalData
    var isOpen: bool

    /** A modal is open exactly when some modal type is set. */
    ghost predicate Valid()
      reads this
    {
      isOpen <==> modalType.Some?
    }

    /** The dialog of type `t` is on screen. */
    predicate Shows(t: ModalType)
      reads this
    {
      isOpen && modalType == Some(t)
    }

    /** `initialState`. */
    predicate IsInitial()
      reads this
    {
      modalType.None? && data == NO_DATA && !isOpen
    }

    constructor ()
      ensures IsInitial() && Valid()
    {
      modalType, data, isOpen := None, NO_DATA, false;
    }

    /** `openModal({ type, data })`: the new data replaces the old one whole,
        `{}` when none is given; works from any state. */
    method OpenModal(t: ModalType, d: Option<ModalData>)
      modifies this
      ensures modalType == Some(t) && isOpen
      ensures data == (if d.Some? then d.value else NO_DATA)
      ensures Valid() && Shows(t)
    {
      var payload := if d.Some? then d.value else NO_DATA;
      modalType := Some(t);
      isOpen := true;
      data := payload;
    }

    /** `closeModal()`: back to the initial state whatever the state was, so
        closing twice is closing once. */
    method CloseModal()
      modifies this
      ensures IsInitial() && Valid()
      ensures forall t :: !Shows(t)
    {
      modalType := None;
      isOpen := false;
      data := NO_DATA;
    }
  }

  /** One `type` field: two modals shown at once are the same modal. */
  lemma AtMostOneShown(m: ModalStore, a: ModalType, b: ModalType)
    requires m.Shows(a) && m.Shows(b)
    ensures a == b
  {
  }

  /** In a valid state, nothing is shown exactly when the store is closed. */
  lemma ClosedShowsNothing(m: ModalStore)
    requires m.Valid()
    ensures !m.isOpen <==> forall t :: !m.Shows(t)
  {
    if m.isOpen {
      assert m.Shows(m.modalType.value);
    }
  }
}
