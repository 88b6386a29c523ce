/**
 * The event-dialog handlers that the timeline and calendar pages share word for
 * word: opening the dialog on an event, closing it, and routing a submitted
 * form to an update or a create.
 */
module DialogHost {
  import opened Types
  import EventDialog

  /** The mutation a submitted form is routed to. */
  datatype SaveRequest =
    | UpdateRequest(id: string, form: EventDialog.DialogForm)
    | CreateRequest(form: EventDialog.DialogForm)

  class EventDialogHost {
    var isDialogOpen: bool
    var editingEvent: Option<Event>

    constructor()
      ensures !isDialogOpen && editingEvent == None
    {
      isDialogOpen := false;
      editingEvent := None;
    }

    /** handleEdit: the clicked event goes into the dialog and it opens. */
    method HandleEdit(e: Event)
      modifies this
      ensures isDialogOpen && editingEvent == Some(e)
    {
      editingEvent := Some(e);
      isDialogOpen := true;
    }

    /** handleDialogClose: closing also forgets the edited event. */
    method HandleDialogClose(open: bool)
      modifies this
      ensures isDialogOpen == open
      ensures editingEvent == if open then old(editingEvent) else None
    {
      isDialogOpen := open;
      if !open {
        editingEvent := None;
      }
    }

    /**
     * handleSubmit up to its await: an update of the edited event when there
     * is one, a create otherwise, always carrying the submitted form.
     */
    method StartSubmit(form: EventDialog.DialogForm) returns (request: SaveRequest)
      ensures request.form == form
      ensures request.UpdateRequest? <==> editingEvent.Some?
      ensures request.UpdateRequest? ==> request.id == editingEvent.value.id
    {
      if editingEvent.Some? {
        request := UpdateRequest(editingEvent.value.id, form);
      } else {
        request := CreateRequest(form);
      }
    }

    /**
     * handleSubmit after its await: the edited event is cleared when the
     * mutation resolves; a rejected mutation throws past the reset.
     */
    method FinishSubmit(resolved: bool)
      modifies this
      ensures editingEvent == if resolved then None else old(editingEvent)
      ensures isDialogOpen == old(isDialogOpen)
    {
      if resolved {
        editingEvent := None;
      }
    }
  }
}
