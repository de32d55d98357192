/** The "hours assigned" panel: per-user totals by status and the list of users to pick from. */
module HoursSummary {
  import opened Seqs
  import opened TaskBoard

  /** `tasks.reduce((total, task) => total + task.time, 0)`, a left fold. */
  function SumTime(tasks: seq<Task>): (r: nat)
    ensures tasks == [] ==> r == 0
    ensures forall i :: 0 <= i < |tasks| ==> tasks[i].time <= r
  {
    if tasks == [] then 0 else SumTime(tasks[..|tasks| - 1]) + tasks[|tasks| - 1].time
  }

  function AssignedWith(user: string, status: Status): Task -> bool {
    (t: Task) => t.user == user && t.status == status
  }

  function AssignedTo(user: string): Task -> bool {
    (t: Task) => t.user == user
  }

  /** `calculateTotalHours(user, status)`: filter on user and status, then sum the hours. */
  function TotalHours(tasks: seq<Task>, user: string, status: Status): (r: nat)
    ensures forall t :: t in tasks && t.user == user && t.status == status ==> t.time <= r
  {
    var matching := Filter(tasks, AssignedWith(user, status));
    assert forall t :: t in matching ==> exists i :: 0 <= i < |matching| && matching[i] == t;
    SumTime(matching)
  }

  /** All hours assigned to `user`, whatever the status. */
  function UserHours(tasks: seq<Task>, user: string): nat {
    SumTime(Filter(tasks, AssignedTo(user)))
  }

  /** The fold's sum is additive over concatenation. */
  lemma {:induction false} SumTimeConcat(a: seq<Task>, b: seq<Task>)
    ensures SumTime(a + b) == SumTime(a) + SumTime(b)
  {
    if b == [] {
      assert a + b == a;
    } else {
      var b' := b[..|b| - 1];
      assert (a + b)[..|a + b| - 1] == a + b';
      assert (a + b)[|a + b| - 1] == b[|b| - 1];
      SumTimeConcat(a, b');
    }
  }

  /** The sum is 0 exactly when every task in it has 0 hours. */
  lemma {:induction false} SumTimeZero(tasks: seq<Task>)
    ensures SumTime(tasks) == 0 <==> forall i :: 0 <= i < |tasks| ==> tasks[i].time == 0
  {
    if tasks != [] {
      var init := tasks[..|tasks| - 1];
      SumTimeZero(init);
      assert forall i :: 0 <= i < |init| ==> init[i] == tasks[i];
    }
  }

  /**
   * `calculateTotalHours` is 0 exactly when every task of that user in that
   * status has 0 hours; in particular it is 0 when there is no such task.
   */
  lemma TotalHoursZero(tasks: seq<Task>, user: string, status: Status)
    ensures TotalHours(tasks, user, status) == 0 <==>
      forall t :: t in tasks && t.user == user && t.status == status ==> t.time == 0
    ensures (forall t :: t in tasks ==> t.user != user || t.status != status) ==>
      TotalHours(tasks, user, status) == 0
  {
    var r := Filter(tasks, AssignedWith(user, status));
    SumTimeZero(r);
    assert forall i :: 0 <= i < |r| ==> r[i] in r;
  }

  /** The total over a concatenation is the sum of the totals. */
  lemma TotalHoursConcat(a: seq<Task>, b: seq<Task>, user: string, status: Status)
    ensures TotalHours(a + b, user, status) == TotalHours(a, user, status) + TotalHours(b, user, status)
  {
    FilterConcat(a, b, AssignedWith(user, status));
    SumTimeConcat(Filter(a, AssignedWith(user, status)), Filter(b, AssignedWith(user, status)));
  }

  lemma UserHoursConcat(a: seq<Task>, b: seq<Task>, user: string)
    ensures UserHours(a + b, user) == UserHours(a, user) + UserHours(b, user)
  {
    FilterConcat(a, b, AssignedTo(user));
    SumTimeConcat(Filter(a, AssignedTo(user)), Filter(b, AssignedTo(user)));
  }

  /** The three totals the panel shows for a user add up to all of that user's hours. */
  lemma {:induction false} StatusTotalsSum(tasks: seq<Task>, user: string)
    ensures TotalHours(tasks, user, Backlog) + TotalHours(tasks, user, EmDesenvolvimento)
            + TotalHours(tasks, user, Finalizada) == UserHours(tasks, user)
  {
    if tasks != [] {
      var head, rest := [tasks[0]], tasks[1..];
      assert tasks == head + rest;
      StatusTotalsSum(rest, user);
      TotalHoursConcat(head, rest, user, Backlog);
      TotalHoursConcat(head, rest, user, EmDesenvolvimento);
      TotalHoursConcat(head, rest, user, Finalizada);
      UserHoursConcat(head, rest, user);
      SingleTaskHours(tasks[0], user);
    }
  }

  /** The totals over a one-task list: its hours where it matches, 0 elsewhere. */
  lemma SingleTaskHours(t: Task, user: string)
    ensures UserHours([t], user) == if t.user == user then t.time else 0
    ensures forall s :: TotalHours([t], user, s) == if t.user == user && t.status == s then t.time else 0
  {
    assert [t][..0] == [];
    assert SumTime([t]) == t.time;
  }

  /** `tasks.map(task => task.user)`. */
  function UserNames(tasks: seq<Task>): (names: seq<string>)
    ensures |names| == |tasks|
    ensures forall i :: 0 <= i < |tasks| ==> names[i] == tasks[i].user
  {
    seq(|tasks|, i requires 0 <= i < |tasks| => tasks[i].user)
  }

  /**
   * The options of the user selector: every user name that occurs in the
   * task list, exactly once, in the order in which each first occurs.
   */
  function DistinctUsers(tasks: seq<Task>): (users: seq<string>)
    ensures forall u :: u in users <==> exists t :: t in tasks && t.user == u
    ensures NoDuplicates(users)
    ensures forall i, j :: 0 <= i < j < |users| ==>
      IndexOf(UserNames(tasks), users[i]) < IndexOf(UserNames(tasks), users[j])
  {
    var names := UserNames(tasks);
    assert forall t :: t in tasks ==> t.user in names by {
      forall t | t in tasks ensures t.user in names {
        var i :| 0 <= i < |tasks| && tasks[i] == t;
        assert names[i] == t.user;
      }
    }
    FirstOccurrences(names)
  }
}
