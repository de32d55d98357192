/** The task form: six input fields, filled from the task being edited or from defaults. */
module TaskForm {
  import opened Wrappers
  import opened Seqs
  import opened TaskBoard

  /** The options of the priority selector. */
  const Priorities: seq<string> := ["Alta", "Média", "Baixa"]

  /** The options of the status selector. */
  const Statuses: seq<string> := ["Backlog", "Em Desenvolvimento", "Finalizada"]

  /**
   * The selectors offer exactly the values `ITask` allows, each once:
   * the priorities in the order Alta, Média, Baixa and the statuses in the
   * order of the board's columns.
   */
  lemma OptionListsAreExact()
    ensures Priorities == [PriorityLabel(Alta), PriorityLabel(Media), PriorityLabel(Baixa)]
    ensures |Statuses| == |ColumnOrder|
    ensures forall i :: 0 <= i < |Statuses| ==> Statuses[i] == StatusLabel(ColumnOrder[i])
    ensures NoDuplicates(Priorities) && NoDuplicates(Statuses)
  {
  }

  /**
   * The `task` prop as the form reads it, field by field, under the names
   * the form uses. A field that is missing or falsy reads as "" or 0 (for
   * `||` an undefined field and a falsy one behave alike); `None` is a
   * missing priority or status.
   */
  datatype TaskView = TaskView(
    name: string,
    description: string,
    priority: Option<Priority>,
    estimatedTime: nat,
    assignedUser: string,
    status: Option<Status>)

  /**
   * How the form reads an `ITask`: the record has `time` and `user`, not
   * `estimatedTime` and `assignedUser`, so those two read as undefined.
   */
  function ViewOfTask(t: Task): TaskView {
    TaskView(t.name, t.description, Some(t.priority), 0, "", Some(t.status))
  }

  /** The six field values, which are also what a save emits: no id. */
  datatype FormDraft = FormDraft(
    name: string,
    description: string,
    priority: Priority,
    estimatedTime: nat,
    assignedUser: string,
    status: Status)

  const Defaults: FormDraft := FormDraft("", "", Media, 0, "", Backlog)

  /** JavaScript's `s || d` on a string. */
  function OrString(s: string, d: string): string {
    if s == "" then d else s
  }

  /** JavaScript's `n || d` on a number. */
  function OrNat(n: nat, d: nat): nat {
    if n == 0 then d else n
  }

  /**
   * The field values `task?.field || default` for each field, the rule used
   * both by the initial state and by the reset effect. With no task, every
   * field takes its default; with one, every field takes the task's value,
   * and only a missing priority or status falls back to Média / Backlog
   * (the fallback of the text and number fields is the falsy value itself).
   */
  function Initial(task: Option<TaskView>): (f: FormDraft)
    ensures task.None? ==> f == Defaults
    ensures task.Some? ==>
      && f.name == task.value.name
      && f.description == task.value.description
      && f.priority == task.value.priority.GetOr(Media)
      && f.estimatedTime == task.value.estimatedTime
      && f.assignedUser == task.value.assignedUser
      && f.status == task.value.status.GetOr(Backlog)
  {
    match task
    case None =>
      Defaults
    case Some(v) =>
      FormDraft(
        OrString(v.name, ""),
        OrString(v.description, ""),
        v.priority.GetOr(Media),
        OrNat(v.estimatedTime, 0),
        OrString(v.assignedUser, ""),
        v.status.GetOr(Backlog))
  }

  /** The form's own values, read back as a `task` prop. */
  function ViewOfDraft(f: FormDraft): TaskView {
    TaskView(f.name, f.description, Some(f.priority), f.estimatedTime, f.assignedUser, Some(f.status))
  }

  /** The defaulting is idempotent: re-reading what the form shows changes nothing. */
  lemma InitialIdempotent(task: Option<TaskView>)
    ensures Initial(Some(ViewOfDraft(Initial(task)))) == Initial(task)
  {
  }

  /**
   * Opening the form on an `ITask` shows its name, description, priority
   * and status, but 0 hours and no assigned user, whatever its `time` and
   * `user` are.
   */
  lemma EditFormOfTask(t: Task)
    ensures Initial(Some(ViewOfTask(t))) == FormDraft(t.name, t.description, t.priority, 0, "", t.status)
  {
  }

  class Form {
    var name: string
    var description: string
    var priority: Priority
    var estimatedTime: nat
    var assignedUser: string
    var status: Status

    /** The current field values. */
    function Fields(): FormDraft
      reads this
    {
      FormDraft(name, description, priority, estimatedTime, assignedUser, status)
    }

    /** The `useState` initialisers. */
    constructor (task: Option<TaskView>)
      ensures Fields() == Initial(task)
    {
      var f := Initial(task);
      name, description, priority := f.name, f.description, f.priority;
      estimatedTime, assignedUser, status := f.estimatedTime, f.assignedUser, f.status;
    }

    /** The effect that runs when the `task` prop changes: the same rule as the initialisers. */
    method Reset(task: Option<TaskView>)
      modifies this
      ensures Fields() == Initial(task)
    {
      var f := Initial(task);
      name := f.name;
      description := f.description;
      priority := f.priority;
      estimatedTime := f.estimatedTime;
      assignedUser := f.assignedUser;
      status := f.status;
    }

    /** `handleSave`: emit the six current values. */
    method HandleSave() returns (draft: FormDraft)
      ensures draft == Fields()
    {
      draft := FormDraft(name, description, priority, estimatedTime, assignedUser, status);
    }

    method SetName(v: string)
      modifies this
      ensures Fields() == old(Fields()).(name := v)
    {
      name := v;
    }

    method SetDescription(v: string)
      modifies this
      ensures Fields() == old(Fields()).(description := v)
    {
      description := v;
    }

    method SetPriority(v: Priority)
      modifies this
      ensures Fields() == old(Fields()).(priority := v)
    {
      priority := v;
    }

    method SetEstimatedTime(v: nat)
      modifies this
      ensures Fields() == old(Fields()).(estimatedTime := v)
    {
      estimatedTime := v;
    }

    method SetAssignedUser(v: string)
      modifies this
      ensures Fields() == old(Fields()).(assignedUser := v)
    {
      assignedUser := v;
    }

    method SetStatus(v: Status)
      modifies this
      ensures Fields() == old(Fields()).(status := v)
    {
      status := v;
    }
  }
}
