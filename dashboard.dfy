/**
 * The dashboard: the deadline counters, the completed-events counter, the
 * search filter and the quick-create form with its stage list.
 */
module Dashboard {
  import opened Types
  import opened Clock
  import opened Seqs
  import opened Text
  import UseEvents

  /** A stage counted as upcoming: open, with a deadline strictly after now. */
  predicate IsUpcoming(s: Stage, now: int)
  {
    !s.isCompleted && s.deadline.Some? && s.deadline.value > now
  }

  /** upcomingStages */
  function UpcomingStages(events: seq<Event>, now: int): seq<Stage>
  {
    Filter(AllStages(events), s => IsUpcoming(s, now))
  }

  predicate DueToday(s: Stage, now: int) { s.deadline.Some? && Day(s.deadline.value) == Day(now) }

  predicate DueThisWeek(s: Stage, now: int) { s.deadline.Some? && Week(s.deadline.value) == Week(now) }

  predicate DueThisMonth(s: Stage, now: int) { s.deadline.Some? && Month(s.deadline.value) == Month(now) }

  function TodayDeadlines(events: seq<Event>, now: int): nat
  {
    |Filter(UpcomingStages(events, now), s => DueToday(s, now))|
  }

  function WeekDeadlines(events: seq<Event>, now: int): nat
  {
    |Filter(UpcomingStages(events, now), s => DueThisWeek(s, now))|
  }

  function MonthDeadlines(events: seq<Event>, now: int): nat
  {
    |Filter(UpcomingStages(events, now), s => DueThisMonth(s, now))|
  }

  /** The upcoming stages are exactly the open stages of listed events whose deadline is after now. */
  lemma UpcomingStagesSpec(events: seq<Event>, now: int, s: Stage)
    ensures s in UpcomingStages(events, now) <==>
            (exists e :: e in events && s in StagesOf(e)) && !s.isCompleted && s.deadline.Some? && s.deadline.value > now
  {
    AllStagesMembership(events, s);
  }

  /** A deadline today is this week and this month, and each counter counts upcoming stages only. */
  lemma CountsOrdered(events: seq<Event>, now: int)
    ensures TodayDeadlines(events, now) <= WeekDeadlines(events, now)
    ensures TodayDeadlines(events, now) <= MonthDeadlines(events, now) <= |UpcomingStages(events, now)|
  {
    forall s: Stage | DueToday(s, now) ensures DueThisWeek(s, now) && DueThisMonth(s, now) {
      SameDaySameWeekAndMonth(s.deadline.value, now);
    }
    FilterMonotone(UpcomingStages(events, now), s => DueToday(s, now), s => DueThisWeek(s, now));
    FilterMonotone(UpcomingStages(events, now), s => DueToday(s, now), s => DueThisMonth(s, now));
  }

  /**
   * On rows loaded from the store no stage carries `deadline`, so nothing is
   * upcoming and all three counters stay at zero.
   */
  lemma StoredRowsCountNothing(events: seq<Event>, now: int)
    requires forall e, s :: e in events && s in StagesOf(e) ==> s.deadline.None?
    ensures UpcomingStages(events, now) == []
    ensures TodayDeadlines(events, now) == 0 && WeekDeadlines(events, now) == 0 && MonthDeadlines(events, now) == 0
  {
    forall s | s in AllStages(events) ensures !IsUpcoming(s, now) {
      AllStagesMembership(events, s);
    }
    FilterKeepsNone(AllStages(events), s => IsUpcoming(s, now));
  }

  predicate IsCompletedEvent(e: Event) { e.status == Completed }

  function CompletedEvents(events: seq<Event>): nat
  {
    |Filter(events, IsCompletedEvent)|
  }

  /** The completed counter never exceeds the total and reaches it exactly when every event is completed. */
  lemma CompletedEventsSpec(events: seq<Event>)
    ensures CompletedEvents(events) <= |events|
    ensures CompletedEvents(events) == |events| <==> forall e :: e in events ==> e.status == Completed
  {
    FilterFullIffAll(events, IsCompletedEvent);
  }

  /** A case-insensitive substring match on the title or, when present, the description. */
  predicate Matches(e: Event, query: string)
  {
    Contains(Lower(e.title), Lower(query)) ||
    (e.description.Some? && Contains(Lower(e.description.value), Lower(query)))
  }

  /** filteredEvents */
  function FilteredEvents(events: seq<Event>, query: string): seq<Event>
  {
    Filter(events, e => Matches(e, query))
  }

  /**
   * The empty query keeps every event; a query finds the same events
   * whatever case it is typed in.
   */
  lemma SearchSpec(events: seq<Event>, query: string)
    ensures FilteredEvents(events, "") == events
    ensures FilteredEvents(events, Upper(query)) == FilteredEvents(events, query)
  {
    forall e | e in events ensures Matches(e, "") {
      assert HasPrefix(Lower(e.title), []);
    }
    FilterKeepsAll(events, e => Matches(e, ""));
    LowerIgnoresCase(query);
    FilterSame(events, e => Matches(e, Upper(query)), e => Matches(e, query));
  }

  /** The blank quick-create form; its one stage's deadline is the time the form is reset. */
  function BlankForm(now: int): UseEvents.EventForm
  {
    UseEvents.EventForm("", Some(""), Some(""), Some(""), None, Medium, Some(""), None, None, [StageDraft("", now)], [])
  }

  /** What handleCreateEvent does: the form sent to createEvent, the form afterwards, and whether the dialog closes. */
  datatype CreateOutcome = CreateOutcome(request: Option<UseEvents.EventForm>, form: UseEvents.EventForm, closes: bool)

  /**
   * handleCreateEvent: nothing happens without a title; otherwise the form
   * is sent, and only once createEvent resolves is the form reset to one
   * blank stage and the dialog closed.
   */
  function HandleCreateEvent(f: UseEvents.EventForm, resolves: bool, now: int): (r: CreateOutcome)
    ensures f.title == "" ==> r == CreateOutcome(None, f, false)
    ensures f.title != "" ==> r.request == Some(f)
    ensures f.title != "" && resolves ==> r.form == BlankForm(now) && r.closes && |r.form.stages| == 1
    ensures f.title != "" && !resolves ==> r.form == f && !r.closes
  {
    if f.title == "" then CreateOutcome(None, f, false)
    else if resolves then CreateOutcome(Some(f), BlankForm(now), true)
    else CreateOutcome(Some(f), f, false)
  }

  /** addStage: one blank stage at the end. */
  function AddDraft(f: UseEvents.EventForm, now: int): (r: UseEvents.EventForm)
    ensures r.stages == f.stages + [StageDraft("", now)]
    ensures r.(stages := f.stages) == f
  {
    f.(stages := f.stages + [StageDraft("", now)])
  }

  /** removeStage: only the indexed stage goes, the others keep their order. */
  function RemoveDraft(f: UseEvents.EventForm, index: int): (r: UseEvents.EventForm)
    ensures 0 <= index < |f.stages| ==> r.stages == f.stages[..index] + f.stages[index + 1..]
    ensures !(0 <= index < |f.stages|) ==> r == f
    ensures r.(stages := f.stages) == f
  {
    f.(stages := RemoveAt(f.stages, index))
  }

  datatype DraftEdit = SetDraftName(name: string) | SetDraftDeadline(deadline: int)

  /** updateStage: only the named field of the indexed stage changes. */
  function UpdateDraft(f: UseEvents.EventForm, index: nat, edit: DraftEdit): (r: UseEvents.EventForm)
    requires index < |f.stages|
    ensures |r.stages| == |f.stages|
    ensures forall j :: 0 <= j < |f.stages| && j != index ==> r.stages[j] == f.stages[j]
    ensures edit.SetDraftName? ==> r.stages[index] == f.stages[index].(name := edit.name)
    ensures edit.SetDraftDeadline? ==> r.stages[index] == f.stages[index].(deadline := edit.deadline)
    ensures r.(stages := f.stages) == f
  {
    var s := f.stages[index];
    var updated := match edit
      case SetDraftName(n) => s.(name := n)
      case SetDraftDeadline(d) => s.(deadline := d);
    f.(stages := f.stages[index := updated])
  }

  /** Removing the stage just added gives the form back. */
  lemma RemoveUndoesAdd(f: UseEvents.EventForm, now: int)
    ensures RemoveDraft(AddDraft(f, now), |f.stages|) == f
  {
    assert (f.stages + [StageDraft("", now)])[..|f.stages|] == f.stages;
  }
}
