/** The user record and the user table's delete-confirmation dialog. */
module UserTable {
  import opened Wrappers
  import opened Remote

  /** `IUser`. */
  datatype User = User(id: Id, email: string, name: string, role: string, team: string)

  /** `Omit<IUser, 'id'>`. */
  datatype UserDraft = UserDraft(email: string, name: string, role: string, team: string)

  /** The fields of a user other than its id. */
  function DraftOf(u: User): UserDraft {
    UserDraft(u.email, u.name, u.role, u.team)
  }

  /** `{ id, ...draft }`: the record with that id and the draft's fields. */
  function WithId(id: Id, d: UserDraft): (u: User)
    ensures u.id == id && DraftOf(u) == d
  {
    User(id, d.email, d.name, d.role, d.team)
  }

  /**
   * The dialog's state is the pair (open, selected id). The dialog is open
   * exactly when an id is selected, and a confirmation reports at most one
   * id to the `onDelete` callback: the selected one.
   */
  class DeleteDialog {
    var open: bool
    var selectedUserId: Option<Id>

    ghost predicate Valid()
      reads this
    {
      open <==> selectedUserId.Some?
    }

    constructor ()
      ensures Valid() && !open && selectedUserId == None
    {
      open, selectedUserId := false, None;
    }

    /** `handleOpen(id)`: the delete button of a row. */
    method HandleOpen(id: Id)
      requires Valid()
      modifies this
      ensures Valid() && open && selectedUserId == Some(id)
    {
      selectedUserId := Some(id);
      open := true;
    }

    /** `handleClose`: also what the Cancel button and closing the dialog do, so they never delete. */
    method HandleClose()
      requires Valid()
      modifies this
      ensures Valid() && !open && selectedUserId == None
    {
      open := false;
      selectedUserId := None;
    }

    /**
     * `handleConfirmDelete`: `deleted` is the id passed to `onDelete`, if it
     * was called at all; afterwards the dialog is closed with nothing selected.
     */
    method HandleConfirmDelete() returns (deleted: Option<Id>)
      requires Valid()
      modifies this
      ensures deleted == old(selectedUserId)
      ensures deleted.Some? <==> old(open)
      ensures Valid() && !open && selectedUserId == None
    {
      deleted := None;
      if selectedUserId.Some? {
        deleted := selectedUserId;
      }
      HandleClose();
    }
  }
}
