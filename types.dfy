/**
 * The records the application passes around (events, their stages, tags and
 * attachments), as the pages see them after loading. Instants are integer
 * milliseconds; a nullable or optional field is an Option.
 */
module Types {

  datatype Option<+T> = None | Some(value: T)
  {
    function GetOr(default: T): T
    {
      match this
      case Some(v) => v
      case None => default
    }
  }

  /** `value || ''`: an absent text reads as empty. */
  function OrEmpty(o: Option<string>): string
  {
    match o
    case Some(v) => v
    case None => ""
  }

  /** `value || null`: an absent or empty text is stored as null. */
  function NullIfEmpty(o: Option<string>): (r: Option<string>)
    ensures r.None? <==> o.None? || o == Some("")
    ensures r.Some? ==> r == o
  {
    match o
    case Some(v) => if v == "" then None else o
    case None => None
  }

  /** Reading back a text stored through `|| null` gives the text. */
  lemma OrEmptyUndoesNullIfEmpty(o: Option<string>)
    ensures OrEmpty(NullIfEmpty(o)) == OrEmpty(o)
    ensures NullIfEmpty(NullIfEmpty(o)) == NullIfEmpty(o)
  {
  }

  /** The signed-in user as the auth hook reports it. */
  datatype User = User(id: string, email: Option<string>)

  /** A toast: title, description, and whether it uses the destructive variant. */
  datatype Toast = Toast(title: string, description: string, destructive: bool)

  datatype Priority = Low | Medium | High

  datatype EventStatus = Upcoming | Ongoing | Completed | Missed

  datatype AttachmentKind = FileAttachment | LinkAttachment

  datatype Tag = Tag(id: string, name: string, color: string)

  datatype Attachment = Attachment(id: string, name: string, kind: AttachmentKind, url: string)

  /**
   * One stage of an event. deadlineStart and deadlineEnd are the stored
   * columns. `deadline` is the property that the reminder scan and the
   * dashboard read: the stage type declares no such property, so on rows
   * loaded from the database it is absent (None) and `new Date(...)` of it is
   * an invalid date.
   */
  datatype Stage = Stage(
    id: string,
    eventId: string,
    name: string,
    deadlineStart: Option<int>,
    deadlineEnd: int,
    isCompleted: bool,
    completedAt: Option<int>,
    sortOrder: int,
    deadline: Option<int>)

  datatype Event = Event(
    id: string,
    title: string,
    description: Option<string>,
    venue: Option<string>,
    organizer: Option<string>,
    registrationLink: Option<string>,
    priority: Priority,
    status: EventStatus,
    categoryId: Option<string>,
    notes: Option<string>,
    eventDate: Option<int>,
    stages: Option<seq<Stage>>,
    tags: Option<seq<Tag>>,
    attachments: Option<seq<Attachment>>)

  /** `event.stages || []` */
  function StagesOf(e: Event): seq<Stage>
  {
    e.stages.GetOr([])
  }

  /** `events.flatMap(e => e.stages || [])` */
  function AllStages(events: seq<Event>): seq<Stage>
  {
    if events == [] then [] else StagesOf(events[0]) + AllStages(events[1..])
  }

  lemma {:induction false} AllStagesMembership(events: seq<Event>, s: Stage)
    ensures s in AllStages(events) <==> exists e :: e in events && s in StagesOf(e)
  {
    if events != [] {
      AllStagesMembership(events[1..], s);
      assert events == [events[0]] + events[1..];
    }
  }

  /** The arguments of the toggleStage mutation. */
  datatype ToggleRequest = ToggleRequest(stageId: string, isCompleted: bool)

  /** The stage of a create form on the dashboard: a name and a deadline. */
  datatype StageDraft = StageDraft(name: string, deadline: int)
}
