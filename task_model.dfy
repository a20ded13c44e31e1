/** The task record of the sync engine and the two ways a record is built:
    coerced from a remote snapshot entry (ingest) and prepared from a
    caller's draft (save). Timestamps are instants, modelled as integers;
    their textual serialisation on the remote side is left opaque. */
module TaskModel {

  datatype Option<T> = None | Some(value: T)

  const DefaultStatus := "Pending"
  const DefaultPriority := "Medium"

  /** A task as the engine writes it: every field of the local record
      except its sync flag. `id` is the primary key of the local store and
      the key `tasks/{id}` of the remote store. */
  datatype Task = Task(
    id: string,
    title: string,
    description: string,
    status: string,
    assignedTo: string,
    priority: string,
    createdAt: int,
    updatedAt: int)

  /** A local-store record: the task and whether it is known to be pushed. */
  datatype Record = Record(task: Task, isSynced: bool)

  /** One entry of a remote snapshot, before coercion. `None` stands for a
      field that is absent, null or otherwise falsy; an empty string is also
      falsy and is kept as `Some("")`. `id` is the entry's `_id` after the
      string conversion. */
  datatype RemoteTask = RemoteTask(
    id: string,
    title: Option<string>,
    description: Option<string>,
    status: Option<string>,
    assignedTo: Option<string>,
    priority: Option<string>,
    createdAt: Option<int>,
    updatedAt: Option<int>)

  /** What a caller hands to save: a task whose id is already resolved and
      whose creation time may be missing (a new task). */
  datatype Draft = Draft(
    id: string,
    title: string,
    description: string,
    status: string,
    assignedTo: string,
    priority: string,
    createdAt: Option<int>)

  /** JavaScript's `field || fallback` on a string field. */
  function OrElse(field: Option<string>, fallback: string): (s: string)
    ensures s == fallback || Some(s) == field
    ensures s == "" ==> fallback == ""
    ensures field.Some? && field.value != "" ==> s == field.value
  {
    if field.Some? && field.value != "" then field.value else fallback
  }

  /** `field || now` on a timestamp field. */
  function TimeOrElse(field: Option<int>, now: int): (t: int)
    ensures field.None? ==> t == now
    ensures field.Some? ==> t == field.value
  {
    if field.Some? then field.value else now
  }

  /** The record ingest builds from one snapshot entry: missing fields get
      their defaults and missing timestamps the current time. */
  function Coerce(r: RemoteTask, now: int): (t: Task)
    ensures t.id == r.id
    ensures t.status != "" && t.priority != ""
    ensures r.status.Some? && r.status.value != "" ==> t.status == r.status.value
    ensures r.status.None? || r.status == Some("") ==> t.status == DefaultStatus
    ensures r.priority.Some? && r.priority.value != "" ==> t.priority == r.priority.value
    ensures r.priority.None? || r.priority == Some("") ==> t.priority == DefaultPriority
    ensures r.title.Some? ==> t.title == r.title.value
    ensures r.title.None? ==> t.title == ""
    ensures r.description.Some? ==> t.description == r.description.value
    ensures r.description.None? ==> t.description == ""
    ensures r.assignedTo.Some? ==> t.assignedTo == r.assignedTo.value
    ensures r.assignedTo.None? ==> t.assignedTo == ""
    ensures r.createdAt.Some? ==> t.createdAt == r.createdAt.value
    ensures r.createdAt.None? ==> t.createdAt == now
    ensures r.updatedAt.Some? ==> t.updatedAt == r.updatedAt.value
    ensures r.updatedAt.None? ==> t.updatedAt == now
  {
    Task(r.id,
         OrElse(r.title, ""),
         OrElse(r.description, ""),
         OrElse(r.status, DefaultStatus),
         OrElse(r.assignedTo, ""),
         OrElse(r.priority, DefaultPriority),
         TimeOrElse(r.createdAt, now),
         TimeOrElse(r.updatedAt, now))
  }

  /** The payload a push writes at `tasks/{id}`: every field present. */
  function Encode(t: Task): (r: RemoteTask)
    ensures r.id == t.id
    ensures r.title == Some(t.title) && r.description == Some(t.description)
    ensures r.status == Some(t.status) && r.assignedTo == Some(t.assignedTo)
    ensures r.priority == Some(t.priority)
    ensures r.createdAt == Some(t.createdAt) && r.updatedAt == Some(t.updatedAt)
  {
    RemoteTask(t.id, Some(t.title), Some(t.description), Some(t.status),
               Some(t.assignedTo), Some(t.priority), Some(t.createdAt), Some(t.updatedAt))
  }

  /** Both timestamps of a snapshot entry are present. */
  predicate HasTimestamps(r: RemoteTask) {
    r.createdAt.Some? && r.updatedAt.Some?
  }

  /** Ingesting what a push wrote gives back the pushed task exactly when the
      task's status and priority are non-empty (an empty one is replaced by
      its default). */
  lemma CoerceEncodeRoundTrip(t: Task, now: int)
    ensures Coerce(Encode(t), now) == t <==> t.status != "" && t.priority != ""
  {
    if Coerce(Encode(t), now) == t {
      assert t.status == Coerce(Encode(t), now).status;
    }
  }

  /** With both timestamps present, coercion does not depend on the clock. */
  lemma CoerceClockFree(r: RemoteTask, now1: int, now2: int)
    requires HasTimestamps(r)
    ensures Coerce(r, now1) == Coerce(r, now2)
  {
  }

  /** The task save writes: `createdAt` is kept when supplied and is the save
      time otherwise; `updatedAt` is always the save time. */
  function Prepare(d: Draft, now: int): (t: Task)
    ensures t.id == d.id && t.updatedAt == now
    ensures t.title == d.title && t.description == d.description && t.status == d.status
    ensures t.assignedTo == d.assignedTo && t.priority == d.priority
    ensures d.createdAt.None? ==> t.createdAt == now
    ensures d.createdAt.Some? ==> t.createdAt == d.createdAt.value
  {
    Task(d.id, d.title, d.description, d.status, d.assignedTo, d.priority,
         if d.createdAt.Some? then d.createdAt.value else now, now)
  }

  /** The draft an edit of a stored task starts from. */
  function DraftOf(t: Task): (d: Draft)
    ensures d.id == t.id && d.createdAt == Some(t.createdAt)
  {
    Draft(t.id, t.title, t.description, t.status, t.assignedTo, t.priority, Some(t.createdAt))
  }

  /** Saving an unchanged edit of a stored task keeps its identity, content
      and creation time and only refreshes `updatedAt`. */
  lemma EditRefreshesOnlyUpdatedAt(t: Task, now: int)
    ensures Prepare(DraftOf(t), now) == t.(updatedAt := now)
  {
  }
}
