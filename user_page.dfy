/**
 * The users page: the list of users it holds in memory, the selected user,
 * the form dialog, and the handlers that update them once the backend has
 * replied.
 */
module UserPage {
  import opened Wrappers
  import opened Seqs
  import opened Remote
  import opened UserTable

  /** The request a handler sends; the add body is `{ name, email, role, team }`, the edit body `{ id, ...user }`. */
  datatype UserRequest = AddUser(draft: UserDraft) | ChangeUser(user: User) | DeleteUser(id: Id)

  function IdIsNot(id: Id): User -> bool {
    (u: User) => u.id != id
  }

  /** `users.filter(user => user.id !== userId)`. */
  function WithoutUser(users: seq<User>, id: Id): (r: seq<User>)
    ensures forall u :: u in r <==> u in users && u.id != id
    ensures forall u :: multiset(r)[u] == if u.id != id then multiset(users)[u] else 0
    ensures IsSubsequence(r, users)
  {
    FilterMultiset(users, IdIsNot(id));
    FilterSubsequence(users, IdIsNot(id));
    Filter(users, IdIsNot(id))
  }

  /** Deleting an id that no user has leaves the list as it is. */
  lemma WithoutAbsentId(users: seq<User>, id: Id)
    requires forall u :: u in users ==> u.id != id
    ensures WithoutUser(users, id) == users
  {
    assert forall i :: 0 <= i < |users| ==> users[i] in users;
    FilterKeepsAll(users, IdIsNot(id));
  }

  /**
   * `users.map(u => (u.id === selectedUser.id ? { ...selectedUser, ...user } : u))`:
   * the list keeps its length and its ids; each record with the selected id
   * takes the draft's fields, every other record is left as it was.
   */
  function Edited(users: seq<User>, selected: User, draft: UserDraft): (r: seq<User>)
    ensures |r| == |users|
    ensures forall i :: 0 <= i < |users| ==> r[i].id == users[i].id
    ensures forall i :: 0 <= i < |users| && users[i].id == selected.id ==> DraftOf(r[i]) == draft
    ensures forall i :: 0 <= i < |users| && users[i].id != selected.id ==> r[i] == users[i]
  {
    seq(|users|, i requires 0 <= i < |users| =>
      if users[i].id == selected.id then WithId(selected.id, draft) else users[i])
  }

  /** `[...users, { id: responseData.id, ...user }]`: one new record at the end. */
  function Appended(users: seq<User>, id: Id, draft: UserDraft): (r: seq<User>)
    ensures |r| == |users| + 1 && r[..|users|] == users
    ensures r[|users|].id == id && DraftOf(r[|users|]) == draft
  {
    users + [WithId(id, draft)]
  }

  /** Deleting a user just added under a fresh id gives back the list from before the add. */
  lemma AddThenDeleteRestores(users: seq<User>, id: Id, draft: UserDraft)
    requires forall u :: u in users ==> u.id != id
    ensures WithoutUser(Appended(users, id, draft), id) == users
  {
    var added := WithId(id, draft);
    FilterConcat(users, [added], IdIsNot(id));
    WithoutAbsentId(users, id);
    assert Filter([added], IdIsNot(id)) == [];
    assert Appended(users, id, draft) == users + [added];
  }

  /** Saving the selected user's own fields back leaves the list as it was. */
  lemma UnchangedEditIsIdentity(users: seq<User>, selected: User)
    requires forall u :: u in users && u.id == selected.id ==> u == selected
    ensures Edited(users, selected, DraftOf(selected)) == users
  {
    var r := Edited(users, selected, DraftOf(selected));
    forall i | 0 <= i < |users| ensures r[i] == users[i] {
      if users[i].id == selected.id {
        assert users[i] in users;
      }
    }
  }

  /** Whether `handleSave` reaches its local update: edit needs any status but 400/404, add also a decodable body. */
  predicate SaveAccepted(selected: Option<User>, reply: Reply<Id>)
    ensures SaveAccepted(selected, reply) ==> Accepted(reply)
    ensures selected.Some? ==> (SaveAccepted(selected, reply) <==> Accepted(reply))
    ensures selected.None? ==> (SaveAccepted(selected, reply) <==> Accepted(reply) && reply.json.Some?)
  {
    if selected.Some? then Accepted(reply) else AcceptedBody(reply).Some?
  }

  class Page {
    var users: seq<User>
    var selectedUser: Option<User>
    var open: bool

    constructor ()
      ensures users == [] && selectedUser == None && !open
    {
      users, selectedUser, open := [], None, false;
    }

    /** `fetchUsers`: only 400/404 (or no response, or a body that is not JSON) keep the prior list. */
    method FetchUsers(reply: Reply<seq<User>>) returns (toast: Option<Toast>)
      modifies this`users
      ensures users == AcceptedBody(reply).GetOr(old(users))
      ensures toast == if AcceptedBody(reply).Some? then None else Some(Error)
    {
      var body := AcceptedBody(reply);
      if body.Some? {
        users := body.value;
        toast := None;
      } else {
        toast := Some(Error);
      }
    }

    /** `handleAdd`: the next save adds. */
    method HandleAdd()
      modifies this`selectedUser, this`open
      ensures selectedUser == None && open
    {
      selectedUser := None;
      open := true;
    }

    /** `handleEdit`: the next save edits `user`. */
    method HandleEdit(user: User)
      modifies this`selectedUser, this`open
      ensures selectedUser == Some(user) && open
    {
      selectedUser := Some(user);
      open := true;
    }

    /** `handleDelete`: only a 2xx reply removes the users with that id. */
    method HandleDelete(userId: Id, reply: Reply<()>) returns (sent: UserRequest, toast: Toast)
      modifies this`users
      ensures sent == DeleteUser(userId)
      ensures users == if Succeeded(reply) then WithoutUser(old(users), userId) else old(users)
      ensures toast == if Succeeded(reply) then Success("Usuário deletado com sucesso!") else Error
    {
      sent := DeleteUser(userId);
      if Succeeded(reply) {
        users := WithoutUser(users, userId);
        toast := Success("Usuário deletado com sucesso!");
      } else {
        toast := Error;
      }
    }

    /**
     * `handleSave`: edits when a user is selected, adds otherwise. Only a
     * 400/404 reply (or no reply, or for an add a body without JSON)
     * aborts; then the list is unchanged and the dialog stays as it was.
     * Otherwise the list is updated and the dialog closes.
     */
    method HandleSave(draft: UserDraft, reply: Reply<Id>) returns (sent: UserRequest, toast: Toast)
      modifies this`users, this`open
      ensures sent == match old(selectedUser)
        case Some(sel) => ChangeUser(WithId(sel.id, draft))
        case None => AddUser(draft)
      ensures users ==
        if !SaveAccepted(selectedUser, reply) then old(users)
        else if selectedUser.Some? then Edited(old(users), selectedUser.value, draft)
        else Appended(old(users), reply.json.value, draft)
      ensures open == (old(open) && !SaveAccepted(selectedUser, reply))
      ensures toast ==
        if !SaveAccepted(selectedUser, reply) then Error
        else if selectedUser.Some? then Success("Usuário editado com sucesso!")
        else Success("Usuário adicionado com sucesso!")
    {
      if selectedUser.Some? {
        var sel := selectedUser.value;
        sent := ChangeUser(WithId(sel.id, draft));
        if !Accepted(reply) {
          toast := Error;
          return;
        }
        users := Edited(users, sel, draft);
      } else {
        sent := AddUser(UserDraft(draft.email, draft.name, draft.role, draft.team));
        var body := AcceptedBody(reply);
        if body.None? {
          toast := Error;
          return;
        }
        users := Appended(users, body.value, draft);
      }
      open := false;
      toast := if selectedUser.Some? then Success("Usuário editado com sucesso!")
               else Success("Usuário adicionado com sucesso!");
    }

    /** `handleCancel`: close the dialog; nothing else changes. */
    method HandleCancel()
      modifies this`open
      ensures !open
    {
      open := false;
    }
  }

  /**
   * The table's confirm button wired to the page's `handleDelete`: a user
   * is removed only when the dialog was open on it and the reply is 2xx.
   */
  method ConfirmUserDeletion(page: Page, dialog: DeleteDialog, reply: Reply<()>)
    requires dialog.Valid()
    modifies page`users, dialog
    ensures dialog.Valid() && !dialog.open
    ensures page.users ==
      if old(dialog.open) && Succeeded(reply) then WithoutUser(old(page.users), old(dialog.selectedUserId).value)
      else old(page.users)
  {
    var deleted := dialog.HandleConfirmDelete();
    if deleted.Some? {
      var sent, toast := page.HandleDelete(deleted.value, reply);
    }
  }
}
