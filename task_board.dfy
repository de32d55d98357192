/** The task record and the board that splits the task list into status columns. */
module TaskBoard {
  import opened Seqs
  import opened Remote

  datatype Priority = Alta | Media | Baixa

  datatype Status = Backlog | EmDesenvolvimento | Finalizada

  /** The string-literal values of the `priority` field. */
  function PriorityLabel(p: Priority): string {
    match p
    case Alta => "Alta"
    case Media => "Média"
    case Baixa => "Baixa"
  }

  /** The string-literal values of the `status` field, which are also the column headings. */
  function StatusLabel(s: Status): string {
    match s
    case Backlog => "Backlog"
    case EmDesenvolvimento => "Em Desenvolvimento"
    case Finalizada => "Finalizada"
  }

  /** `ITask`. Hours are whole numbers here. */
  datatype Task = Task(
    id: Id,
    name: string,
    description: string,
    priority: Priority,
    time: nat,
    user: string,
    status: Status,
    finalDate: string,
    fcmtoken: string)

  /** `Omit<ITask, 'id'>`: the payload of a save. */
  datatype TaskDraft = TaskDraft(
    name: string,
    description: string,
    priority: Priority,
    time: nat,
    user: string,
    status: Status,
    finalDate: string,
    fcmtoken: string)

  /** The fields of a task other than its id. */
  function DraftOf(t: Task): TaskDraft {
    TaskDraft(t.name, t.description, t.priority, t.time, t.user, t.status, t.finalDate, t.fcmtoken)
  }

  /** `{ id, ...draft }`: the record with that id and the draft's fields. */
  function WithId(id: Id, d: TaskDraft): (t: Task)
    ensures t.id == id && DraftOf(t) == d
  {
    Task(id, d.name, d.description, d.priority, d.time, d.user, d.status, d.finalDate, d.fcmtoken)
  }

  /** A task is determined by its id and the rest of its fields. */
  lemma WithIdDraftOf(t: Task)
    ensures WithId(t.id, DraftOf(t)) == t
  {
  }

  /** The keys of the `columns` object, in the order in which they are laid out. */
  const ColumnOrder: seq<Status> := [Backlog, EmDesenvolvimento, Finalizada]

  /** The column order lists every status exactly once. */
  lemma ColumnOrderCoversStatuses(s: Status)
    ensures |ColumnOrder| == 3 && NoDuplicates(ColumnOrder)
    ensures s in ColumnOrder
  {
  }

  function HasStatus(s: Status): Task -> bool {
    (t: Task) => t.status == s
  }

  /** One column: `tasks.filter((task) => task.status === s)`. */
  function Column(tasks: seq<Task>, s: Status): (r: seq<Task>)
    ensures forall t :: t in r <==> t in tasks && t.status == s
    ensures forall i :: 0 <= i < |r| ==> r[i].status == s
    ensures IsSubsequence(r, tasks)
  {
    FilterSubsequence(tasks, HasStatus(s));
    Filter(tasks, HasStatus(s))
  }

  /** The `columns` object: one (heading status, tasks) entry per key, in key order. */
  function Columns(tasks: seq<Task>): (r: seq<(Status, seq<Task>)>)
    ensures |r| == |ColumnOrder|
    ensures forall i :: 0 <= i < |r| ==> r[i].0 == ColumnOrder[i]
    ensures forall i :: 0 <= i < |r| ==> r[i].1 == Column(tasks, r[i].0)
  {
    [(Backlog, Column(tasks, Backlog)),
     (EmDesenvolvimento, Column(tasks, EmDesenvolvimento)),
     (Finalizada, Column(tasks, Finalizada))]
  }

  /** A task of the list is shown in the column of its own status and in no other. */
  lemma EachTaskInExactlyOneColumn(tasks: seq<Task>, t: Task)
    requires t in tasks
    ensures forall i :: 0 <= i < |Columns(tasks)| ==>
      (t in Columns(tasks)[i].1 <==> Columns(tasks)[i].0 == t.status)
  {
  }

  /**
   * The three columns together hold exactly the tasks of the list, each as
   * often as it occurs there; hence their sizes add up to the list length.
   */
  lemma ColumnsPartition(tasks: seq<Task>)
    ensures multiset(Column(tasks, Backlog)) + multiset(Column(tasks, EmDesenvolvimento))
            + multiset(Column(tasks, Finalizada)) == multiset(tasks)
    ensures |Column(tasks, Backlog)| + |Column(tasks, EmDesenvolvimento)|
            + |Column(tasks, Finalizada)| == |tasks|
  {
    FilterMultiset(tasks, HasStatus(Backlog));
    FilterMultiset(tasks, HasStatus(EmDesenvolvimento));
    FilterMultiset(tasks, HasStatus(Finalizada));
    var m := multiset(Column(tasks, Backlog)) + multiset(Column(tasks, EmDesenvolvimento))
             + multiset(Column(tasks, Finalizada));
    forall t: Task ensures m[t] == multiset(tasks)[t] {
      match t.status
      case Backlog =>
      case EmDesenvolvimento =>
      case Finalizada =>
    }
    assert m == multiset(tasks);
    assert |m| == |multiset(tasks)|;
  }
}
