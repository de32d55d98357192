/**
 * The tasks page: the list of tasks and users it holds in memory, the
 * selected task, the form dialog and the delete confirmation, and the
 * handlers that update them once the backend has replied.
 */
module TaskPage {
  import opened Wrappers
  import opened Seqs
  import opened Remote
  import opened TaskBoard
  import UserTable

  /** The request a handler sends; the add body is `Omit<ITask, 'id'>`, the edit body `{ id, ...task }`. */
  datatype TaskRequest = AddTask(draft: TaskDraft) | ChangeTask(task: Task) | DeleteTask(id: Id)

  function IdIsNot(id: Id): Task -> bool {
    (t: Task) => t.id != id
  }

  /** `tasks.filter(task => task.id !== taskId)`. */
  function WithoutTask(tasks: seq<Task>, id: Id): (r: seq<Task>)
    ensures forall t :: t in r <==> t in tasks && t.id != id
    ensures forall t :: multiset(r)[t] == if t.id != id then multiset(tasks)[t] else 0
    ensures IsSubsequence(r, tasks)
  {
    FilterMultiset(tasks, IdIsNot(id));
    FilterSubsequence(tasks, IdIsNot(id));
    Filter(tasks, IdIsNot(id))
  }

  /** Deleting an id that no task has leaves the list as it is. */
  lemma WithoutAbsentId(tasks: seq<Task>, id: Id)
    requires forall t :: t in tasks ==> t.id != id
    ensures WithoutTask(tasks, id) == tasks
  {
    assert forall i :: 0 <= i < |tasks| ==> tasks[i] in tasks;
    FilterKeepsAll(tasks, IdIsNot(id));
  }

  /**
   * `tasks.map(u => (u.id === selectedTask.id ? { ...selectedTask, ...task } : u))`:
   * the list keeps its length and its ids; each record with the selected id
   * takes the draft's fields, every other record is left as it was.
   */
  function Edited(tasks: seq<Task>, selected: Task, draft: TaskDraft): (r: seq<Task>)
    ensures |r| == |tasks|
    ensures forall i :: 0 <= i < |tasks| ==> r[i].id == tasks[i].id
    ensures forall i :: 0 <= i < |tasks| && tasks[i].id == selected.id ==> DraftOf(r[i]) == draft
    ensures forall i :: 0 <= i < |tasks| && tasks[i].id != selected.id ==> r[i] == tasks[i]
  {
    seq(|tasks|, i requires 0 <= i < |tasks| =>
      if tasks[i].id == selected.id then WithId(selected.id, draft) else tasks[i])
  }

  /** `[...tasks, { id: responseData.id, ...task }]`: one new record at the end. */
  function Appended(tasks: seq<Task>, id: Id, draft: TaskDraft): (r: seq<Task>)
    ensures |r| == |tasks| + 1 && r[..|tasks|] == tasks
    ensures r[|tasks|].id == id && DraftOf(r[|tasks|]) == draft
  {
    tasks + [WithId(id, draft)]
  }

  /** Deleting a task just added under a fresh id gives back the list from before the add. */
  lemma AddThenDeleteRestores(tasks: seq<Task>, id: Id, draft: TaskDraft)
    requires forall t :: t in tasks ==> t.id != id
    ensures WithoutTask(Appended(tasks, id, draft), id) == tasks
  {
    var added := WithId(id, draft);
    FilterConcat(tasks, [added], IdIsNot(id));
    WithoutAbsentId(tasks, id);
    assert Filter([added], IdIsNot(id)) == [];
    assert Appended(tasks, id, draft) == tasks + [added];
  }

  /** A task just added shows up in the board column of its status and in no other. */
  lemma AddedTaskInItsColumn(tasks: seq<Task>, id: Id, draft: TaskDraft)
    ensures WithId(id, draft) in Column(Appended(tasks, id, draft), draft.status)
    ensures forall s :: s != draft.status ==> WithId(id, draft) !in Column(Appended(tasks, id, draft), s)
  {
    var r := Appended(tasks, id, draft);
    assert r[|tasks|] == WithId(id, draft);
  }

  /** Saving the selected task's own fields back leaves the list as it was. */
  lemma UnchangedEditIsIdentity(tasks: seq<Task>, selected: Task)
    requires forall t :: t in tasks && t.id == selected.id ==> t == selected
    ensures Edited(tasks, selected, DraftOf(selected)) == tasks
  {
    var r := Edited(tasks, selected, DraftOf(selected));
    forall i | 0 <= i < |tasks| ensures r[i] == tasks[i] {
      if tasks[i].id == selected.id {
        assert tasks[i] in tasks;
        WithIdDraftOf(selected);
      }
    }
  }

  /** Whether `handleSave` reaches its local update: edit needs any status but 400/404, add also a decodable body. */
  predicate SaveAccepted(selected: Option<Task>, reply: Reply<Id>)
    ensures SaveAccepted(selected, reply) ==> Accepted(reply)
    ensures selected.Some? ==> (SaveAccepted(selected, reply) <==> Accepted(reply))
    ensures selected.None? ==> (SaveAccepted(selected, reply) <==> Accepted(reply) && reply.json.Some?)
  {
    if selected.Some? then Accepted(reply) else AcceptedBody(reply).Some?
  }

  class Page {
    var tasks: seq<Task>
    var selectedTask: Option<Task>
    var openForm: bool
    var openConfirm: bool
    var taskToDelete: Option<Id>
    var users: seq<UserTable.User>

    /** The confirmation dialog is only open with a task to delete. */
    ghost predicate Valid()
      reads this
    {
      openConfirm ==> taskToDelete.Some?
    }

    constructor ()
      ensures Valid()
      ensures tasks == [] && selectedTask == None && !openForm
      ensures !openConfirm && taskToDelete == None && users == []
    {
      tasks, selectedTask, openForm := [], None, false;
      openConfirm, taskToDelete, users := false, None, [];
    }

    /** `fetchTasks`: only 400/404 (or no response, or a body that is not JSON) keep the prior list. */
    method FetchTasks(reply: Reply<seq<Task>>) returns (toast: Option<Toast>)
      requires Valid()
      modifies this`tasks
      ensures Valid()
      ensures tasks == AcceptedBody(reply).GetOr(old(tasks))
      ensures toast == if AcceptedBody(reply).Some? then None else Some(Error)
    {
      var body := AcceptedBody(reply);
      if body.Some? {
        tasks := body.value;
        toast := None;
      } else {
        toast := Some(Error);
      }
    }

    /** `fetchUsers` on this page: any status outside 200-299 keeps the prior list. */
    method FetchUsers(reply: Reply<seq<UserTable.User>>) returns (toast: Option<Toast>)
      requires Valid()
      modifies this`users
      ensures Valid()
      ensures users == if Succeeded(reply) && reply.json.Some? then reply.json.value else old(users)
      ensures toast == if Succeeded(reply) && reply.json.Some? then None else Some(Error)
    {
      if Succeeded(reply) && reply.json.Some? {
        users := reply.json.value;
        toast := None;
      } else {
        toast := Some(Error);
      }
    }

    /** `handleAdd`: the next save adds. */
    method HandleAdd()
      requires Valid()
      modifies this`selectedTask, this`openForm
      ensures Valid()
      ensures selectedTask == None && openForm
    {
      selectedTask := None;
      openForm := true;
    }

    /** `handleEdit`: the next save edits `task`. */
    method HandleEdit(task: Task)
      requires Valid()
      modifies this`selectedTask, this`openForm
      ensures Valid()
      ensures selectedTask == Some(task) && openForm
    {
      selectedTask := Some(task);
      openForm := true;
    }

    /** `handleDelete`: only a 2xx reply removes the tasks with that id. */
    method HandleDelete(taskId: Id, reply: Reply<()>) returns (sent: TaskRequest, toast: Toast)
      requires Valid()
      modifies this`tasks
      ensures Valid()
      ensures sent == DeleteTask(taskId)
      ensures tasks == if Succeeded(reply) then WithoutTask(old(tasks), taskId) else old(tasks)
      ensures toast == if Succeeded(reply) then Success("Tarefa deletada com sucesso!") else Error
    {
      sent := DeleteTask(taskId);
      if Succeeded(reply) {
        tasks := WithoutTask(tasks, taskId);
        toast := Success("Tarefa deletada com sucesso!");
      } else {
        toast := Error;
      }
    }

    /**
     * `handleSave`: edits when a task is selected, adds otherwise. Only a
     * 400/404 reply (or no reply, or for an add a body without JSON)
     * aborts; then the list is unchanged and the form stays as it was.
     * Otherwise the list is updated and the form closes.
     */
    method HandleSave(draft: TaskDraft, reply: Reply<Id>) returns (sent: TaskRequest, toast: Toast)
      requires Valid()
      modifies this`tasks, this`openForm
      ensures Valid()
      ensures sent == match old(selectedTask)
        case Some(sel) => ChangeTask(WithId(sel.id, draft))
        case None => AddTask(draft)
      ensures tasks ==
        if !SaveAccepted(selectedTask, reply) then old(tasks)
        else if selectedTask.Some? then Edited(old(tasks), selectedTask.value, draft)
        else Appended(old(tasks), reply.json.value, draft)
      ensures openForm == (old(openForm) && !SaveAccepted(selectedTask, reply))
      ensures toast ==
        if !SaveAccepted(selectedTask, reply) then Error
        else if selectedTask.Some? then Success("Tarefa editada com sucesso!")
        else Success("Tarefa adicionada com sucesso!")
    {
      if selectedTask.Some? {
        var sel := selectedTask.value;
        sent := ChangeTask(WithId(sel.id, draft));
        if !Accepted(reply) {
          toast := Error;
          return;
        }
        tasks := Edited(tasks, sel, draft);
      } else {
        sent := AddTask(draft);
        var body := AcceptedBody(reply);
        if body.None? {
          toast := Error;
          return;
        }
        tasks := Appended(tasks, body.value, draft);
      }
      toast := if selectedTask.Some? then Success("Tarefa editada com sucesso!")
               else Success("Tarefa adicionada com sucesso!");
      openForm := false;
    }

    /** `handleDeleteConfirmation`: remember the task and ask. */
    method HandleDeleteConfirmation(taskId: Id)
      requires Valid()
      modifies this`taskToDelete, this`openConfirm
      ensures Valid()
      ensures taskToDelete == Some(taskId) && openConfirm
    {
      taskToDelete := Some(taskId);
      openConfirm := true;
    }

    /**
     * The confirm callback of the dialog, reachable only while it is open:
     * delete the remembered task and close the dialog at once, whatever the
     * reply. The remembered id itself is not cleared.
     */
    method ConfirmDelete(reply: Reply<()>) returns (sent: TaskRequest, toast: Toast)
      requires Valid() && openConfirm
      modifies this`tasks, this`openConfirm
      ensures Valid() && !openConfirm
      ensures sent == DeleteTask(taskToDelete.value)
      ensures tasks == if Succeeded(reply) then WithoutTask(old(tasks), taskToDelete.value) else old(tasks)
      ensures toast == if Succeeded(reply) then Success("Tarefa deletada com sucesso!") else Error
    {
      sent, toast := HandleDelete(taskToDelete.value, reply);
      openConfirm := false;
    }

    /** The dialog's `onClose` and Cancel: close without deleting. */
    method CloseConfirm()
      requires Valid()
      modifies this`openConfirm
      ensures Valid() && !openConfirm
    {
      openConfirm := false;
    }

    /** The form dialog's `onClose` and the form's Cancel. */
    method CloseForm()
      requires Valid()
      modifies this`openForm
      ensures Valid() && !openForm
    {
      openForm := false;
    }
  }

  /**
   * A client of the page: ask to delete a task and confirm; a 2xx reply
   * removes it, and the confirmation ends closed.
   */
  method DeleteThroughConfirmation(page: Page, id: Id, deleteStatus: int)
    requires page.Valid()
    requires IsOk(deleteStatus)
    modifies page`tasks, page`openConfirm, page`taskToDelete
    ensures page.tasks == WithoutTask(old(page.tasks), id)
    ensures page.openForm == old(page.openForm) && !page.openConfirm
    ensures page.taskToDelete == Some(id)
  {
    var deleteReply: Reply<()> := Replied(deleteStatus, Some(()));
    assert Succeeded(deleteReply);
    page.HandleDeleteConfirmation(id);
    var sent, toast := page.ConfirmDelete(deleteReply);
  }

  /**
   * A client of the page: add a task that the backend stores under a fresh
   * id, ask to delete it and confirm; the list ends as it started.
   */
  method AddThenConfirmDelete(page: Page, draft: TaskDraft, id: Id, addStatus: int, deleteStatus: int)
    requires page.Valid()
    requires forall t :: t in page.tasks ==> t.id != id
    requires !IsReportedError(addStatus) && IsOk(deleteStatus)
    modifies page`tasks, page`selectedTask, page`openForm, page`openConfirm, page`taskToDelete
    ensures page.tasks == old(page.tasks) && !page.openForm && !page.openConfirm
    ensures page.selectedTask.None? && page.taskToDelete == Some(id)
  {
    ghost var before := page.tasks;
    AddThenDeleteRestores(before, id, draft);
    var addReply: Reply<Id> := Replied(addStatus, Some(id));
    assert SaveAccepted(None, addReply);
    page.HandleAdd();
    var sent, toast := page.HandleSave(draft, addReply);
    assert page.tasks == Appended(before, id, draft);
    DeleteThroughConfirmation(page, id, deleteStatus);
  }
}
