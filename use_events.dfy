/**
 * The events hook: shaping fetched rows into events (stages sorted by
 * sort_order, tags joined through event_tags), building the rows written on
 * create and update, their effect on the stored tables, and the completion
 * toggle row.
 */
module UseEvents {
  import opened Types
  import opened Seqs

  datatype EventTagRow = EventTagRow(eventId: string, tagId: string)

  function SortOrderOf(s: Stage): int { s.sortOrder }

  /** `allTags?.find(t => t.id === tagId)` */
  function FindTag(allTags: seq<Tag>, tagId: string): (r: Option<Tag>)
    ensures r.Some? ==> r.value in allTags && r.value.id == tagId
    ensures r.None? <==> forall t :: t in allTags ==> t.id != tagId
  {
    if allTags == [] then None
    else if allTags[0].id == tagId then Some(allTags[0])
    else FindTag(allTags[1..], tagId)
  }

  predicate RowOf(eventId: string, row: EventTagRow) { row.eventId == eventId }

  predicate StageRowOf(eventId: string, row: StageRow) { row.eventId == eventId }

  predicate Known(allTags: seq<Tag>, row: EventTagRow) { FindTag(allTags, row.tagId).Some? }

  /** `.map(et => find(...)).filter(Boolean)` over the event's rows */
  function KnownTags(rows: seq<EventTagRow>, allTags: seq<Tag>): seq<Tag>
  {
    if rows == [] then []
    else
      match FindTag(allTags, rows[0].tagId)
      case Some(t) => [t] + KnownTags(rows[1..], allTags)
      case None => KnownTags(rows[1..], allTags)
  }

  /** An event's tags: `eventTags?.filter(...).map(...).filter(Boolean) || []`. */
  function JoinTags(eventId: string, eventTags: Option<seq<EventTagRow>>, allTags: Option<seq<Tag>>): seq<Tag>
  {
    match eventTags
    case None => []
    case Some(rows) => KnownTags(Filter(rows, r => RowOf(eventId, r)), allTags.GetOr([]))
  }

  lemma {:induction false} KnownTagsSpec(rows: seq<EventTagRow>, allTags: seq<Tag>)
    ensures forall t :: t in KnownTags(rows, allTags) <==> exists row :: row in rows && FindTag(allTags, row.tagId) == Some(t)
    ensures |KnownTags(rows, allTags)| == |Filter(rows, row => Known(allTags, row))|
  {
    if rows != [] {
      KnownTagsSpec(rows[1..], allTags);
      assert rows == [rows[0]] + rows[1..];
    }
  }

  lemma {:induction false} KnownTagsOfNothing(rows: seq<EventTagRow>)
    ensures KnownTags(rows, []) == []
  {
    if rows != [] {
      KnownTagsOfNothing(rows[1..]);
    }
  }

  /**
   * An event's tags are the stored tags named by its own event_tags rows, one
   * per row whose tag is known, and none when either query returned nothing.
   */
  lemma JoinTagsSpec(eventId: string, rows: seq<EventTagRow>, allTags: seq<Tag>)
    ensures forall t :: t in JoinTags(eventId, Some(rows), Some(allTags)) <==>
            exists row :: row in rows && row.eventId == eventId && FindTag(allTags, row.tagId) == Some(t)
    ensures |JoinTags(eventId, Some(rows), Some(allTags))| ==
            |Filter(rows, row => RowOf(eventId, row) && Known(allTags, row))|
    ensures JoinTags(eventId, None, Some(allTags)) == [] && JoinTags(eventId, Some(rows), None) == []
  {
    var own := Filter(rows, r => RowOf(eventId, r));
    KnownTagsSpec(own, allTags);
    FilterFilter(rows, r => RowOf(eventId, r), row => Known(allTags, row), row => RowOf(eventId, row) && Known(allTags, row));
    KnownTagsOfNothing(own);
  }

  /** One fetched event as the hook returns it. */
  function ShapeEvent(e: Event, eventTags: Option<seq<EventTagRow>>, allTags: Option<seq<Tag>>): (r: Event)
    ensures r.stages.Some? && SortedBy(r.stages.value, SortOrderOf)
    ensures multiset(r.stages.value) == multiset(StagesOf(e))
    ensures r.tags == Some(JoinTags(e.id, eventTags, allTags))
    ensures r.(stages := e.stages, tags := e.tags) == e
  {
    e.(stages := Some(SortBy(StagesOf(e), SortOrderOf)), tags := Some(JoinTags(e.id, eventTags, allTags)))
  }

  /** queryFn: nothing without a user, otherwise every fetched event shaped in fetch order. */
  function EventsQuery(user: Option<User>, fetched: seq<Event>, eventTags: Option<seq<EventTagRow>>, allTags: Option<seq<Tag>>): (r: seq<Event>)
    ensures user.None? ==> r == []
    ensures user.Some? ==> |r| == |fetched| && forall k :: 0 <= k < |r| ==> r[k] == ShapeEvent(fetched[k], eventTags, allTags)
  {
    if user.None? then []
    else seq(|fetched|, k requires 0 <= k < |fetched| => ShapeEvent(fetched[k], eventTags, allTags))
  }

  /**
   * The form as the row builders read it: each stage carries the `deadline`
   * they read, as the dashboard's drafts do. The event dialog's stages have
   * no such property, so its submits never reach a completed row build.
   */
  datatype EventForm = EventForm(
    title: string,
    description: Option<string>,
    venue: Option<string>,
    organizer: Option<string>,
    registrationLink: Option<string>,
    priority: Priority,
    categoryId: Option<string>,
    notes: Option<string>,
    eventDate: Option<int>,
    stages: seq<StageDraft>,
    tagIds: seq<string>)

  datatype EventRow = EventRow(
    userId: string,
    title: string,
    description: Option<string>,
    venue: Option<string>,
    organizer: Option<string>,
    registrationLink: Option<string>,
    priority: Priority,
    categoryId: Option<string>,
    notes: Option<string>,
    eventDate: Option<int>)

  datatype StageRow = StageRow(eventId: string, name: string, deadline: int, sortOrder: int)

  function EventInsertRow(user: User, f: EventForm): EventRow
  {
    EventRow(user.id, f.title, NullIfEmpty(f.description), NullIfEmpty(f.venue), NullIfEmpty(f.organizer),
             NullIfEmpty(f.registrationLink), f.priority, NullIfEmpty(f.categoryId), NullIfEmpty(f.notes), f.eventDate)
  }

  /** The event_stages rows: each form stage with the event's id and its form position as sort_order. */
  function StageRows(eventId: string, drafts: seq<StageDraft>): (r: seq<StageRow>)
    ensures |r| == |drafts|
    ensures forall k :: 0 <= k < |r| ==>
            r[k].eventId == eventId && r[k].sortOrder == k &&
            r[k].name == drafts[k].name && r[k].deadline == drafts[k].deadline
  {
    seq(|drafts|, k requires 0 <= k < |drafts| => StageRow(eventId, drafts[k].name, drafts[k].deadline, k))
  }

  function RowSortOrder(r: StageRow): int { r.sortOrder }

  /** Sorting any reordering of the built stage rows by sort_order gives back the form order. */
  lemma SortRestoresFormOrder(eventId: string, drafts: seq<StageDraft>, fetched: seq<StageRow>)
    requires multiset(fetched) == multiset(StageRows(eventId, drafts))
    ensures SortBy(fetched, RowSortOrder) == StageRows(eventId, drafts)
  {
    var rows := StageRows(eventId, drafts);
    var sorted := SortBy(fetched, RowSortOrder);
    forall x, y | x in rows && y in rows && RowSortOrder(x) == RowSortOrder(y) ensures x == y {
      var i :| 0 <= i < |rows| && rows[i] == x;
      var j :| 0 <= j < |rows| && rows[j] == y;
    }
    SortedUnique(rows, sorted, RowSortOrder);
  }

  /** The event_tags rows: one per form tag id, in form order. */
  function TagRows(eventId: string, tagIds: seq<string>): (r: seq<EventTagRow>)
    ensures |r| == |tagIds|
    ensures forall k :: 0 <= k < |r| ==> r[k] == EventTagRow(eventId, tagIds[k])
  {
    seq(|tagIds|, k requires 0 <= k < |tagIds| => EventTagRow(eventId, tagIds[k]))
  }

  /**
   * Saved tag ids come back: joining the rows built for a form, when every id
   * names a stored tag, gives one tag per id, in form order, with that id.
   */
  lemma {:induction false} TagRowsRoundTrip(eventId: string, tagIds: seq<string>, allTags: seq<Tag>)
    requires forall id :: id in tagIds ==> exists t :: t in allTags && t.id == id
    ensures |JoinTags(eventId, Some(TagRows(eventId, tagIds)), Some(allTags))| == |tagIds|
    ensures forall k :: 0 <= k < |tagIds| ==> JoinTags(eventId, Some(TagRows(eventId, tagIds)), Some(allTags))[k].id == tagIds[k]
  {
    var rows := TagRows(eventId, tagIds);
    FilterKeepsAll(rows, r => RowOf(eventId, r));
    forall row | row in rows ensures exists t :: t in allTags && t.id == row.tagId {
      var k :| 0 <= k < |rows| && rows[k] == row;
      assert tagIds[k] in tagIds;
    }
    KnownAll(rows, allTags);
  }

  lemma {:induction false} KnownAll(rows: seq<EventTagRow>, allTags: seq<Tag>)
    requires forall row :: row in rows ==> exists t :: t in allTags && t.id == row.tagId
    ensures |KnownTags(rows, allTags)| == |rows|
    ensures forall k :: 0 <= k < |rows| ==> KnownTags(rows, allTags)[k].id == rows[k].tagId
  {
    if rows != [] {
      assert rows[0] in rows;
      var t :| t in allTags && t.id == rows[0].tagId;
      assert FindTag(allTags, rows[0].tagId).Some?;
      forall row | row in rows[1..] ensures exists t :: t in allTags && t.id == row.tagId {
        assert row in rows;
      }
      KnownAll(rows[1..], allTags);
    }
  }

  /** The stored rows the mutations write: events by id, stage rows and event_tags rows. */
  datatype Tables = Tables(events: map<string, EventRow>, stages: seq<StageRow>, eventTags: seq<EventTagRow>)

  datatype Result<T> = Success(value: T) | Failure(message: string)

  function StagesOfEvent(t: Tables, id: string): seq<StageRow>
  {
    Filter(t.stages, r => StageRowOf(id, r))
  }

  function TagsOfEvent(t: Tables, id: string): seq<EventTagRow>
  {
    Filter(t.eventTags, r => RowOf(id, r))
  }

  /** createEvent's writes, with `newId` the id the store gives the inserted event. */
  function Create(t: Tables, user: Option<User>, f: EventForm, newId: string): (r: Result<Tables>)
    ensures user.None? ==> r == Failure("Not authenticated")
    ensures user.Some? ==> r.Success? && r.value.events == t.events[newId := EventInsertRow(user.value, f)]
    ensures user.Some? ==> r.value.stages == t.stages + StageRows(newId, f.stages)
    ensures user.Some? ==> r.value.eventTags == t.eventTags + TagRows(newId, f.tagIds)
  {
    match user
    case None => Failure("Not authenticated")
    case Some(u) =>
      Success(Tables(t.events[newId := EventInsertRow(u, f)],
                     t.stages + (if |f.stages| > 0 then StageRows(newId, f.stages) else []),
                     t.eventTags + (if |f.tagIds| > 0 then TagRows(newId, f.tagIds) else [])))
  }

  /** `.update({...}).eq('id', id)`: the same fields as on insert, the owner kept. */
  function UpdatedRow(t: Tables, id: string, f: EventForm): map<string, EventRow>
  {
    if id in t.events then
      var stored := t.events[id];
      t.events[id := EventInsertRow(User(stored.userId, None), f)]
    else t.events
  }

  /**
   * updateEvent's writes: the event's fields, then its stage rows and
   * event_tags rows deleted and rebuilt from the form.
   */
  function Update(t: Tables, user: Option<User>, id: string, f: EventForm): (r: Result<Tables>)
    ensures user.None? ==> r == Failure("Not authenticated")
    ensures user.Some? ==> r.Success? && r.value.events == UpdatedRow(t, id, f)
  {
    match user
    case None => Failure("Not authenticated")
    case Some(_) =>
      var stages := Filter(t.stages, r => !StageRowOf(id, r));
      var tags := Filter(t.eventTags, r => !RowOf(id, r));
      Success(Tables(UpdatedRow(t, id, f),
                     stages + (if |f.stages| > 0 then StageRows(id, f.stages) else []),
                     tags + (if |f.tagIds| > 0 then TagRows(id, f.tagIds) else [])))
  }

  /**
   * For a form whose stages carry a deadline, after an update the event's
   * stage and tag rows are exactly the ones built from the form, whatever was
   * stored before, and every other event's rows are untouched.
   */
  lemma UpdateReflectsOnlyTheForm(t: Tables, u: User, id: string, f: EventForm, other: string)
    requires other != id
    ensures StagesOfEvent(Update(t, Some(u), id, f).value, id) == StageRows(id, f.stages)
    ensures TagsOfEvent(Update(t, Some(u), id, f).value, id) == TagRows(id, f.tagIds)
    ensures StagesOfEvent(Update(t, Some(u), id, f).value, other) == StagesOfEvent(t, other)
    ensures TagsOfEvent(Update(t, Some(u), id, f).value, other) == TagsOfEvent(t, other)
  {
    var r := Update(t, Some(u), id, f).value;
    var kept := Filter(t.stages, r => !StageRowOf(id, r));
    var keptTags := Filter(t.eventTags, r => !RowOf(id, r));
    var built := StageRows(id, f.stages);
    var builtTags := TagRows(id, f.tagIds);
    assert r.stages == kept + built;
    assert r.eventTags == keptTags + builtTags;
    FilterAppend(kept, built, r => StageRowOf(id, r));
    FilterAppend(keptTags, builtTags, r => RowOf(id, r));
    FilterKeepsNone(kept, r => StageRowOf(id, r));
    FilterKeepsNone(keptTags, r => RowOf(id, r));
    FilterKeepsAll(built, r => StageRowOf(id, r));
    FilterKeepsAll(builtTags, r => RowOf(id, r));
    FilterAppend(kept, built, r => StageRowOf(other, r));
    FilterAppend(keptTags, builtTags, r => RowOf(other, r));
    FilterKeepsNone(built, r => StageRowOf(other, r));
    FilterKeepsNone(builtTags, r => RowOf(other, r));
    FilterNested(t.stages, id, other);
    FilterNestedTags(t.eventTags, id, other);
  }

  lemma FilterNested(s: seq<StageRow>, id: string, other: string)
    requires other != id
    ensures Filter(Filter(s, r => !StageRowOf(id, r)), r => StageRowOf(other, r)) == Filter(s, r => StageRowOf(other, r))
  {
    FilterFilter(s, r => !StageRowOf(id, r), r => StageRowOf(other, r), r => StageRowOf(other, r));
  }

  lemma FilterNestedTags(s: seq<EventTagRow>, id: string, other: string)
    requires other != id
    ensures Filter(Filter(s, r => !RowOf(id, r)), r => RowOf(other, r)) == Filter(s, r => RowOf(other, r))
  {
    FilterFilter(s, r => !RowOf(id, r), r => RowOf(other, r), r => RowOf(other, r));
  }

  /** toggleStage's row update: completed_at is set to now exactly when the stage becomes completed. */
  function ToggleRow(s: Stage, req: ToggleRequest, now: int): (r: Stage)
    ensures s.id != req.stageId ==> r == s
    ensures s.id == req.stageId ==> r.isCompleted == req.isCompleted
    ensures s.id == req.stageId ==> (r.completedAt.Some? <==> req.isCompleted)
    ensures s.id == req.stageId && req.isCompleted ==> r.completedAt == Some(now)
    ensures r.(isCompleted := s.isCompleted, completedAt := s.completedAt) == s
  {
    if s.id != req.stageId then s
    else s.(isCompleted := req.isCompleted, completedAt := if req.isCompleted then Some(now) else None)
  }

  /** Toggling a stage from its own button twice leaves it open or completed as before. */
  lemma ToggleTwice(s: Stage, now1: int, now2: int)
    ensures var once := ToggleRow(s, ToggleRequest(s.id, !s.isCompleted), now1);
            var twice := ToggleRow(once, ToggleRequest(once.id, !once.isCompleted), now2);
            twice.isCompleted == s.isCompleted && (twice.completedAt.Some? <==> s.isCompleted)
  {
  }
}
