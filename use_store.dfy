/**
  The task store: a text-input buffer `task`, the ordered list `tasks`, and a
  copy of that list persisted under the key "tasks".

  `addTask` and `deleteTask` read the current state, build a new list without
  touching the old one, write the whole list to the device, and only when that
  write succeeds overwrite the in-memory fields. `clearTasks` deletes the key
  and, on success, empties the list; `loadTasks` reads the key; `setTask` only
  sets the buffer. Each operation is atomic here.

  `State` is the abstract view of the store together with its backend, the
  `...Step` functions say what each operation does to it, the lemmas state
  what the store promises, and `TaskStore` is the store itself, whose methods
  are proved to perform exactly those steps.
 */
module Store {
  import opened JsString
  import opened Tasks
  import opened Storage

  /** The store's two fields and the device's key-value contents. */
  datatype State = State(task: string, tasks: seq<Task>, items: map<string, seq<Task>>)

  /** The store as created: empty buffer, empty list, whatever the device holds. */
  function Initial(items: map<string, seq<Task>>): State {
    State("", [], items)
  }

  /**
    The device copy agrees with the in-memory list: the list stored under
    "tasks" is `tasks`, or the key is absent and `tasks` is empty (so a load
    would leave the list as it is).
   */
  predicate Persisted(s: State) {
    if TasksKey in s.items then s.items[TasksKey] == s.tasks else s.tasks == []
  }

  /** setTask(newTask): replace the buffer. */
  function SetTaskStep(s: State, newTask: string): State {
    s.(task := newTask)
  }

  /**
    addTask(): a blank buffer does nothing; otherwise append a task named by
    the buffer as typed, write the list, and on success publish it and clear
    the buffer. `freshId` stands for Date.now().toString().
   */
  function AddTaskStep(s: State, freshId: TaskId, writeOk: bool): State {
    if Trim(s.task) == [] then s
    else
      var updated := s.tasks + [Task(freshId, s.task)];
      if writeOk then State("", updated, s.items[TasksKey := updated]) else s
  }

  /** deleteTask(taskId): write the list without the tasks carrying `taskId`, then publish it. */
  function DeleteTaskStep(s: State, taskId: TaskId, writeOk: bool): State {
    var updated := Without(s.tasks, taskId);
    if writeOk then s.(tasks := updated, items := s.items[TasksKey := updated]) else s
  }

  /** loadTasks(): adopt the stored list when there is one; on absence or error keep `tasks`. */
  function LoadTasksStep(s: State, readOk: bool): State {
    if readOk && TasksKey in s.items then s.(tasks := s.items[TasksKey]) else s
  }

  /** clearTasks(): remove the key, then empty the list. */
  function ClearTasksStep(s: State, deleteOk: bool): State {
    if deleteOk then s.(tasks := [], items := s.items - {TasksKey}) else s
  }

  /** One call into the store, with the device's answer to it. */
  datatype Op =
    | SetTask(newTask: string)
    | AddTask(freshId: TaskId, writeOk: bool)
    | DeleteTask(taskId: TaskId, writeOk: bool)
    | LoadTasks(readOk: bool)
    | ClearTasks(deleteOk: bool)

  function Step(s: State, op: Op): State {
    match op
    case SetTask(newTask) => SetTaskStep(s, newTask)
    case AddTask(freshId, writeOk) => AddTaskStep(s, freshId, writeOk)
    case DeleteTask(taskId, writeOk) => DeleteTaskStep(s, taskId, writeOk)
    case LoadTasks(readOk) => LoadTasksStep(s, readOk)
    case ClearTasks(deleteOk) => ClearTasksStep(s, deleteOk)
  }

  /** The calls of `ops`, one after another. */
  function Run(s: State, ops: seq<Op>): State
    decreases |ops|
  {
    if ops == [] then s else Run(Step(s, ops[0]), ops[1..])
  }

  // ---------------------------------------------------------------------------
  // What each operation promises

  /** setTask replaces the buffer and touches neither the list nor the device. */
  lemma SetTaskOnlyBuffer(s: State, newTask: string)
    ensures SetTaskStep(s, newTask).task == newTask
    ensures SetTaskStep(s, newTask).tasks == s.tasks
    ensures SetTaskStep(s, newTask).items == s.items
  {
  }

  /** A blank buffer makes addTask a no-op: nothing written, nothing changed. */
  lemma AddBlankIsNoOp(s: State, freshId: TaskId, writeOk: bool)
    requires IsBlank(s.task)
    ensures AddTaskStep(s, freshId, writeOk) == s
  {
    TrimEmptyIffBlank(s.task);
  }

  /**
    A successful addTask appends exactly one task, named by the untrimmed
    buffer, keeps every earlier task in place, clears the buffer and leaves
    the device holding the new list.
   */
  lemma AddAppendsOne(s: State, freshId: TaskId)
    requires !IsBlank(s.task)
    ensures var r := AddTaskStep(s, freshId, true);
      && |r.tasks| == |s.tasks| + 1
      && r.tasks[..|s.tasks|] == s.tasks
      && r.tasks[|s.tasks|] == Task(freshId, s.task)
      && r.task == ""
      && TasksKey in r.items && r.items[TasksKey] == r.tasks
      && r.items - {TasksKey} == s.items - {TasksKey}
  {
    TrimEmptyIffBlank(s.task);
    var r := AddTaskStep(s, freshId, true);
    assert r.tasks == s.tasks + [Task(freshId, s.task)];
    assert r.tasks[..|s.tasks|] == s.tasks;
  }

  /** addTask grows the list exactly when the buffer is not blank and the write succeeds. */
  lemma AddGrowsIff(s: State, freshId: TaskId, writeOk: bool)
    ensures |AddTaskStep(s, freshId, writeOk).tasks| == |s.tasks| + 1 <==> !IsBlank(s.task) && writeOk
    ensures |AddTaskStep(s, freshId, writeOk).tasks| == |s.tasks| <==> IsBlank(s.task) || !writeOk
  {
    TrimEmptyIffBlank(s.task);
  }

  /** A rejected write or delete leaves the buffer, the list and the device exactly as they were. */
  lemma FailureChangesNothing(s: State, freshId: TaskId, taskId: TaskId)
    ensures AddTaskStep(s, freshId, false) == s
    ensures DeleteTaskStep(s, taskId, false) == s
    ensures ClearTasksStep(s, false) == s
  {
  }

  /**
    A successful deleteTask removes every task carrying `taskId`, keeps the
    others in their relative order, keeps the buffer and stores the new list.
   */
  lemma DeleteRemovesMatches(s: State, taskId: TaskId)
    ensures var r := DeleteTaskStep(s, taskId, true);
      && (forall t :: t in r.tasks <==> t in s.tasks && t.id != taskId)
      && IsSubsequence(r.tasks, s.tasks)
      && |r.tasks| == |s.tasks| - CountWithId(s.tasks, taskId)
      && r.task == s.task
      && TasksKey in r.items && r.items[TasksKey] == r.tasks
  {
    WithoutIsSubsequence(s.tasks, taskId);
  }

  /** Deleting an id no task carries yields an identical list. */
  lemma DeleteAbsentKeepsList(s: State, taskId: TaskId, writeOk: bool)
    requires NoneWithId(s.tasks, taskId)
    ensures DeleteTaskStep(s, taskId, writeOk).tasks == s.tasks
  {
    WithoutAbsent(s.tasks, taskId);
  }

  /**
    loadTasks adopts the stored list only when the key is present and the read
    succeeds; otherwise the list is kept, not emptied. Buffer and device never change.
   */
  lemma LoadAdoptsStoredOnly(s: State, readOk: bool)
    ensures var r := LoadTasksStep(s, readOk);
      && r.tasks == (if readOk && TasksKey in s.items then s.items[TasksKey] else s.tasks)
      && r.task == s.task
      && r.items == s.items
  {
  }

  /** A successful clearTasks empties the list and removes the key, leaving the buffer. */
  lemma ClearEmpties(s: State)
    ensures var r := ClearTasksStep(s, true);
      && r.tasks == [] && TasksKey !in r.items && r.task == s.task
      && r.items - {TasksKey} == s.items - {TasksKey}
  {
  }

  /** After a successful clearTasks, a later loadTasks (as at restart) leaves the list empty. */
  lemma ClearThenLoadIsEmpty(s: State, readOk: bool)
    ensures LoadTasksStep(ClearTasksStep(s, true), readOk).tasks == []
  {
  }

  /**
    Ids come from the clock and are not checked for uniqueness: two tasks
    added with the same id both stay, and one deleteTask removes them both.
   */
  lemma DuplicateIdsDeletedTogether(s: State, name: string, id: TaskId)
    requires !IsBlank(name)
    ensures var s1 := AddTaskStep(SetTaskStep(s, name), id, true);
      var s2 := AddTaskStep(SetTaskStep(s1, name), id, true);
      && s2.tasks == s.tasks + [Task(id, name), Task(id, name)]
      && DeleteTaskStep(s2, id, true).tasks == Without(s.tasks, id)
  {
    TrimEmptyIffBlank(name);
    var t := Task(id, name);
    var s1 := AddTaskStep(SetTaskStep(s, name), id, true);
    var s2 := AddTaskStep(SetTaskStep(s1, name), id, true);
    assert s2.tasks == s.tasks + [t, t];
    WithoutAppend(s.tasks, [t, t], id);
    assert Without([t, t], id) == [];
  }

  // ---------------------------------------------------------------------------
  // The consistency of memory and device

  /** Each successful mutation leaves the device holding exactly the in-memory list, whatever came before. */
  lemma SuccessPersists(s: State, freshId: TaskId, taskId: TaskId)
    ensures Persisted(AddTaskStep(s, freshId, true)) || AddTaskStep(s, freshId, true) == s
    ensures Persisted(DeleteTaskStep(s, taskId, true))
    ensures Persisted(ClearTasksStep(s, true))
  {
  }

  /** Every operation, succeeding or failing, keeps memory and device in agreement. */
  lemma StepPreservesPersisted(s: State, op: Op)
    requires Persisted(s)
    ensures Persisted(Step(s, op))
  {
  }

  /** Any sequence of calls keeps memory and device in agreement. */
  lemma {:induction false} RunPreservesPersisted(s: State, ops: seq<Op>)
    requires Persisted(s)
    ensures Persisted(Run(s, ops))
    decreases |ops|
  {
    if ops != [] {
      StepPreservesPersisted(s, ops[0]);
      RunPreservesPersisted(Step(s, ops[0]), ops[1..]);
    }
  }

  /** Starting from a device with no stored list, every reachable state is in agreement. */
  lemma ReachableFromEmptyDevicePersisted(items: map<string, seq<Task>>, ops: seq<Op>)
    requires TasksKey !in items
    ensures Persisted(Run(Initial(items), ops))
  {
    RunPreservesPersisted(Initial(items), ops);
  }

  /**
    At a later launch the device may already hold "tasks" while the new store
    starts with an empty list; the home screen then calls loadTasks.
    When that first load succeeds, every later state is in agreement.
   */
  lemma {:induction false} RestartWithLoadPersisted(items: map<string, seq<Task>>, ops: seq<Op>)
    ensures Persisted(Run(Initial(items), [LoadTasks(true)] + ops))
  {
    var loaded := LoadTasksStep(Initial(items), true);
    assert Persisted(loaded);
    assert ([LoadTasks(true)] + ops)[0] == LoadTasks(true);
    assert ([LoadTasks(true)] + ops)[1..] == ops;
    RunPreservesPersisted(loaded, ops);
  }

  /**
    When the startup load is rejected, the list stays empty while the device
    still holds the old tasks; a successful addTask then writes a one-task list
    over them, so the previously stored tasks are lost.
   */
  lemma FailedLoadThenAddOverwrites(items: map<string, seq<Task>>, name: string, id: TaskId)
    requires TasksKey in items && !IsBlank(name)
    ensures var s := AddTaskStep(SetTaskStep(LoadTasksStep(Initial(items), false), name), id, true);
      && s.tasks == [Task(id, name)]
      && s.items[TasksKey] == [Task(id, name)]
      && (items[TasksKey] != [] ==> !Persisted(LoadTasksStep(Initial(items), false)))
  {
    TrimEmptyIffBlank(name);
  }

  /** In agreement, loading changes nothing: what was written is what is read back. */
  lemma LoadWhenPersistedIsIdentity(s: State, readOk: bool)
    requires Persisted(s)
    ensures LoadTasksStep(s, readOk) == s
  {
  }

  // ---------------------------------------------------------------------------
  // The store object

  class TaskStore {
    var task: string
    var tasks: seq<Task>
    const storage: SecureStore

    /** The store's fields together with what the device holds. */
    function Model(): State
      reads this, storage
    {
      State(task, tasks, storage.items)
    }

    /** `create(...)`: an empty buffer and an empty list over the given device. */
    constructor (storage: SecureStore)
      ensures this.storage == storage
      ensures Model() == Initial(storage.items)
    {
      this.storage := storage;
      task, tasks := "", [];
    }

    method SetTask(newTask: string)
      modifies this
      ensures Model() == SetTaskStep(old(Model()), newTask)
      ensures Persisted(old(Model())) ==> Persisted(Model())
    {
      task := newTask;
    }

    method AddTask(freshId: TaskId, writeOk: bool)
      modifies this, storage
      ensures Model() == AddTaskStep(old(Model()), freshId, writeOk)
      ensures Persisted(old(Model())) ==> Persisted(Model())
    {
      var current, list := task, tasks;
      if Trim(current) == [] {
        return;
      }
      var updated := list + [Task(freshId, current)];
      var reply := storage.SetItem(TasksKey, updated, writeOk);
      if reply.Resolved? {
        tasks, task := updated, "";
      }
      if Persisted(old(Model())) {
        StepPreservesPersisted(old(Model()), Op.AddTask(freshId, writeOk));
      }
    }

    method DeleteTask(taskId: TaskId, writeOk: bool)
      modifies this, storage
      ensures Model() == DeleteTaskStep(old(Model()), taskId, writeOk)
      ensures Persisted(old(Model())) ==> Persisted(Model())
    {
      var updated := Without(tasks, taskId);
      var reply := storage.SetItem(TasksKey, updated, writeOk);
      if reply.Resolved? {
        tasks := updated;
      }
      if Persisted(old(Model())) {
        StepPreservesPersisted(old(Model()), Op.DeleteTask(taskId, writeOk));
      }
    }

    method LoadTasks(readOk: bool)
      modifies this
      ensures Model() == LoadTasksStep(old(Model()), readOk)
      ensures Persisted(old(Model())) ==> Persisted(Model())
    {
      var reply := storage.GetItem(TasksKey, readOk);
      if reply.Resolved? && reply.value.Some? {
        tasks := reply.value.value;
      }
      if Persisted(old(Model())) {
        StepPreservesPersisted(old(Model()), Op.LoadTasks(readOk));
      }
    }

    method ClearTasks(deleteOk: bool)
      modifies this, storage
      ensures Model() == ClearTasksStep(old(Model()), deleteOk)
      ensures Persisted(old(Model())) ==> Persisted(Model())
    {
      var reply := storage.DeleteItem(TasksKey, deleteOk);
      if reply.Resolved? {
        tasks := [];
      }
      if Persisted(old(Model())) {
        StepPreservesPersisted(old(Model()), Op.ClearTasks(deleteOk));
      }
    }
  }
}
