/** The task list (app/components/TaskList.js): tasks are added at the front, toggled and
    removed by id, and the first task, while open, is shown as the current focus. */
module Tasks {
  import opened Text
  import QuickAdd

  /** `{ id, title, completed, sessions }`; the id is the `Date.now()` of its creation. */
  datatype Task = Task(id: int, title: string, completed: bool, sessions: int)

  function Flip(t: Task): Task {
    t.(completed := !t.completed)
  }

  /** `tasks.map(t => t.id === id ? { ...t, completed: !t.completed } : t)` */
  function ToggleById(tasks: seq<Task>, id: int): (r: seq<Task>)
    ensures |r| == |tasks|
    ensures forall i :: 0 <= i < |r| ==>
      r[i].id == tasks[i].id && r[i].title == tasks[i].title && r[i].sessions == tasks[i].sessions
    ensures forall i :: 0 <= i < |r| ==>
      r[i].completed == (if tasks[i].id == id then !tasks[i].completed else tasks[i].completed)
  {
    if tasks == [] then []
    else [if tasks[0].id == id then Flip(tasks[0]) else tasks[0]] + ToggleById(tasks[1..], id)
  }

  /** Toggling the same id twice gives the list back. */
  lemma ToggleTwice(tasks: seq<Task>, id: int)
    ensures ToggleById(ToggleById(tasks, id), id) == tasks
  {
    var r := ToggleById(ToggleById(tasks, id), id);
    assert forall i :: 0 <= i < |tasks| ==> r[i] == tasks[i];
  }

  /** Toggling an id no task has changes nothing. */
  lemma ToggleAbsent(tasks: seq<Task>, id: int)
    requires forall i :: 0 <= i < |tasks| ==> tasks[i].id != id
    ensures ToggleById(tasks, id) == tasks
  {
    var r := ToggleById(tasks, id);
    assert forall i :: 0 <= i < |tasks| ==> r[i] == tasks[i];
  }

  /** `tasks.filter(t => t.id !== id)` */
  function RemoveById(tasks: seq<Task>, id: int): (r: seq<Task>)
    ensures |r| <= |tasks|
    ensures forall t :: t in r <==> t in tasks && t.id != id
  {
    if tasks == [] then []
    else if tasks[0].id == id then RemoveById(tasks[1..], id)
    else [tasks[0]] + RemoveById(tasks[1..], id)
  }

  /** Removal keeps the order: filtering a concatenation filters each part. */
  lemma {:induction false} RemoveAppend(a: seq<Task>, b: seq<Task>, id: int)
    ensures RemoveById(a + b, id) == RemoveById(a, id) + RemoveById(b, id)
  {
    if a == [] {
      assert a + b == b;
    } else {
      assert (a + b)[0] == a[0];
      assert (a + b)[1..] == a[1..] + b;
      RemoveAppend(a[1..], b, id);
    }
  }

  /** Removing an id no task has changes nothing. */
  lemma {:induction false} RemoveAbsent(tasks: seq<Task>, id: int)
    requires forall i :: 0 <= i < |tasks| ==> tasks[i].id != id
    ensures RemoveById(tasks, id) == tasks
  {
    if tasks != [] {
      RemoveAbsent(tasks[1..], id);
    }
  }

  /** Removing the same id a second time changes nothing. */
  lemma {:induction false} RemoveTwice(tasks: seq<Task>, id: int)
    ensures RemoveById(RemoveById(tasks, id), id) == RemoveById(tasks, id)
  {
    var r := RemoveById(tasks, id);
    forall i | 0 <= i < |r| ensures r[i].id != id {
      assert r[i] in r;
    }
    RemoveAbsent(r, id);
  }

  /** `tasks.length > 0 && !tasks[0].completed`: the current-focus banner is rendered. */
  predicate ShowsFocus(tasks: seq<Task>) {
    |tasks| > 0 && !tasks[0].completed
  }

  class TaskList {
    var tasks: seq<Task>
    var newTask: string
    var isAdding: bool
    var showQuickAdd: bool

    constructor ()
      ensures tasks == [] && newTask == "" && !isAdding && !showQuickAdd
    {
      tasks, newTask, isAdding, showQuickAdd := [], "", false, false;
    }

    /** `add`: text that is only white space is ignored; otherwise the untrimmed text becomes
        a new open task at the front, and the form is cleared and closed. */
    method Add(now: int)
      modifies this`tasks, this`newTask, this`isAdding
      ensures AllSpace(old(newTask)) ==>
        tasks == old(tasks) && newTask == old(newTask) && isAdding == old(isAdding)
      ensures !AllSpace(old(newTask)) ==>
        tasks == [Task(now, old(newTask), false, 0)] + old(tasks) && newTask == "" && !isAdding
      ensures !AllSpace(old(newTask)) ==> ShowsFocus(tasks) && tasks[0].title == old(newTask)
    {
      if |Trim(newTask)| == 0 {
        return;
      }
      tasks := [Task(now, newTask, false, 0)] + tasks;
      newTask := "";
      isAdding := false;
    }

    /** `handleQuickAdd`: the draft from the quick-add dialog becomes a new open task at
        the front. The draft's estimate is always an integer, and `sessions || 0` keeps
        every integer as it is, so the estimate is stored unchanged. */
    method HandleQuickAdd(draft: QuickAdd.Draft, now: int)
      modifies this`tasks
      ensures tasks == [Task(now, draft.title, false, draft.sessions)] + old(tasks)
      ensures ShowsFocus(tasks)
    {
      tasks := [Task(now, draft.title, false, draft.sessions)] + tasks;
    }

    method Toggle(id: int)
      modifies this`tasks
      ensures tasks == ToggleById(old(tasks), id)
    {
      tasks := ToggleById(tasks, id);
    }

    method Remove(id: int)
      modifies this`tasks
      ensures tasks == RemoveById(old(tasks), id)
    {
      tasks := RemoveById(tasks, id);
    }

    /** The `keydown` listener: `q` or `Q` opens the quick-add dialog unless the focus is in
        a text field. */
    method OnKeyDown(key: string, activeTag: string)
      modifies this`showQuickAdd
      ensures showQuickAdd == (if (key == "q" || key == "Q") && activeTag != "INPUT" && activeTag != "TEXTAREA"
                               then true else old(showQuickAdd))
    {
      if key == "q" || key == "Q" {
        if activeTag == "INPUT" || activeTag == "TEXTAREA" {
          return;
        }
        showQuickAdd := true;
      }
    }
  }
}
