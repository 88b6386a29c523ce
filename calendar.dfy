/**
 * The calendar page: which stages and events fall on a selected day, which
 * days are highlighted, how a listed stage is labelled, and month navigation.
 */
module Calendar {
  import opened Types
  import opened Clock
  import opened Seqs
  import Timeline

  /** A stage falls on a day when it starts on that day or ends on it. */
  predicate OnDate(s: Stage, day: int)
  {
    (s.deadlineStart.Some? && Day(s.deadlineStart.value) == day) || Day(s.deadlineEnd) == day
  }

  /** `{ ...stage, event }` */
  datatype DatedStage = DatedStage(stage: Stage, event: Event)

  function Attach(e: Event, stages: seq<Stage>): (r: seq<DatedStage>)
    ensures |r| == |stages| && forall k :: 0 <= k < |r| ==> r[k] == DatedStage(stages[k], e)
  {
    seq(|stages|, k requires 0 <= k < |stages| => DatedStage(stages[k], e))
  }

  /** getStagesForDate */
  function StagesForDate(events: seq<Event>, day: int): seq<DatedStage>
  {
    if events == [] then []
    else Attach(events[0], Filter(StagesOf(events[0]), s => OnDate(s, day))) + StagesForDate(events[1..], day)
  }

  /** A stage is listed for a day exactly when it is a stage of a listed event and falls on that day. */
  lemma {:induction false} StagesForDateMembership(events: seq<Event>, day: int, d: DatedStage)
    ensures d in StagesForDate(events, day) <==>
            d.event in events && d.stage in StagesOf(d.event) && OnDate(d.stage, day)
  {
    if events != [] {
      StagesForDateMembership(events[1..], day, d);
      assert events == [events[0]] + events[1..];
      var own := Attach(events[0], Filter(StagesOf(events[0]), s => OnDate(s, day)));
      if d in own {
        var k :| 0 <= k < |own| && own[k] == d;
      }
      if d.event == events[0] && d.stage in StagesOf(d.event) && OnDate(d.stage, day) {
        var f := Filter(StagesOf(events[0]), s => OnDate(s, day));
        var k :| 0 <= k < |f| && f[k] == d.stage;
        assert own[k] == d;
      }
    }
  }

  /** `event.stages?.some(...)` over OnDate */
  predicate HasStageOn(e: Event, day: int)
  {
    exists s :: s in StagesOf(e) && OnDate(s, day)
  }

  /** getEventsForDate */
  function EventsForDate(events: seq<Event>, day: int): seq<Event>
  {
    Filter(events, e => HasStageOn(e, day))
  }

  /**
   * The events listed for a day are exactly the owners of the stages listed
   * for it; they keep the event order, and a list without repeated events
   * yields none.
   */
  lemma EventsForDateAreOwners(events: seq<Event>, day: int)
    ensures forall e :: e in EventsForDate(events, day) <==>
            e in events && exists d :: d in StagesForDate(events, day) && d.event == e
    ensures Distinct(events) ==> Distinct(EventsForDate(events, day))
  {
    forall e ensures e in EventsForDate(events, day) <==>
                     e in events && exists d :: d in StagesForDate(events, day) && d.event == e {
      if e in EventsForDate(events, day) {
        var s :| s in StagesOf(e) && OnDate(s, day);
        StagesForDateMembership(events, day, DatedStage(s, e));
      }
      if e in events && exists d :: d in StagesForDate(events, day) && d.event == e {
        var d :| d in StagesForDate(events, day) && d.event == e;
        StagesForDateMembership(events, day, d);
      }
    }
    if Distinct(events) {
      FilterDistinct(events, e => HasStageOn(e, day));
    }
  }

  /** The highlight dates of one stage: its end, then its start when it has one. */
  function StageDates(s: Stage): seq<int>
  {
    [s.deadlineEnd] + match s.deadlineStart case Some(t) => [t] case None => []
  }

  function EventDates(stages: seq<Stage>): seq<int>
  {
    if stages == [] then [] else StageDates(stages[0]) + EventDates(stages[1..])
  }

  /** datesWithEvents */
  function DatesWithEvents(events: seq<Event>): seq<int>
  {
    if events == [] then [] else EventDates(StagesOf(events[0])) + DatesWithEvents(events[1..])
  }

  function ItemDates(items: seq<Timeline.TimelineItem>): (r: seq<int>)
    ensures |r| == |items|
  {
    if items == [] then [] else [items[0].date] + ItemDates(items[1..])
  }

  lemma {:induction false} ItemDatesAppend(a: seq<Timeline.TimelineItem>, b: seq<Timeline.TimelineItem>)
    ensures ItemDates(a + b) == ItemDates(a) + ItemDates(b)
  {
    if a == [] {
      assert a + b == b;
    } else {
      assert (a + b)[1..] == a[1..] + b;
      ItemDatesAppend(a[1..], b);
    }
  }

  lemma {:induction false} EventDatesAreItemDates(e: Event, stages: seq<Stage>)
    ensures EventDates(stages) == ItemDates(Timeline.EventItems(e, stages))
  {
    if stages != [] {
      EventDatesAreItemDates(e, stages[1..]);
      ItemDatesAppend(Timeline.StageItems(e, stages[0]), Timeline.EventItems(e, stages[1..]));
    }
  }

  /** The highlight dates are the dates of the timeline items, in the same order. */
  lemma {:induction false} DatesAreTimelineDates(events: seq<Event>)
    ensures DatesWithEvents(events) == ItemDates(Timeline.BuildItems(events))
  {
    if events != [] {
      DatesAreTimelineDates(events[1..]);
      EventDatesAreItemDates(events[0], StagesOf(events[0]));
      ItemDatesAppend(Timeline.EventItems(events[0], StagesOf(events[0])), Timeline.BuildItems(events[1..]));
    }
  }

  /** One highlight date per stage end and one per present start. */
  lemma DatesCount(events: seq<Event>)
    ensures |DatesWithEvents(events)| == |AllStages(events)| + |Filter(AllStages(events), Timeline.HasStart)|
  {
    DatesAreTimelineDates(events);
    var items := Timeline.BuildItems(events);
    FilterPartition(items, Timeline.IsEndItem, Timeline.IsStartItem);
    Timeline.ItemsCount(events);
  }

  /** `datesWithEvents.some(d => isSameDay(d, date))` */
  function SomeOnDay(dates: seq<int>, day: int): bool
  {
    dates != [] && (Day(dates[0]) == day || SomeOnDay(dates[1..], day))
  }

  lemma {:induction false} SomeOnDayAppend(a: seq<int>, b: seq<int>, day: int)
    ensures SomeOnDay(a + b, day) == (SomeOnDay(a, day) || SomeOnDay(b, day))
  {
    if a == [] {
      assert a + b == b;
    } else {
      assert (a + b)[1..] == a[1..] + b;
      SomeOnDayAppend(a[1..], b, day);
    }
  }

  lemma {:induction false} EventHighlight(stages: seq<Stage>, day: int)
    ensures SomeOnDay(EventDates(stages), day) <==> Filter(stages, s => OnDate(s, day)) != []
  {
    if stages != [] {
      EventHighlight(stages[1..], day);
      SomeOnDayAppend(StageDates(stages[0]), EventDates(stages[1..]), day);
      var rest := StageDates(stages[0])[1..];
      assert SomeOnDay(StageDates(stages[0]), day) == (Day(stages[0].deadlineEnd) == day || SomeOnDay(rest, day));
      if stages[0].deadlineStart.Some? {
        assert rest == [stages[0].deadlineStart.value];
        assert rest[1..] == [];
      }
    }
  }

  /** A day is highlighted exactly when some stage is listed for it. */
  lemma {:induction false} HighlightIffListed(events: seq<Event>, day: int)
    ensures SomeOnDay(DatesWithEvents(events), day) <==> StagesForDate(events, day) != []
  {
    if events != [] {
      HighlightIffListed(events[1..], day);
      EventHighlight(StagesOf(events[0]), day);
      SomeOnDayAppend(EventDates(StagesOf(events[0])), DatesWithEvents(events[1..]), day);
    }
  }

  datatype Badge = Starts | Ends

  /**
   * The label and the time shown for a listed stage: 'Starts' with the start
   * time when it starts on the selected day, even if it also ends then, and
   * 'Ends' with the end time otherwise. For a listed stage the time shown is
   * always on the selected day.
   */
  function Label(d: DatedStage, day: int): (r: (Badge, int))
    ensures r.0 == Starts <==> d.stage.deadlineStart.Some? && Day(d.stage.deadlineStart.value) == day
    ensures r.0 == Starts ==> r.1 == d.stage.deadlineStart.value
    ensures r.0 == Ends ==> r.1 == d.stage.deadlineEnd
    ensures OnDate(d.stage, day) ==> Day(r.1) == day
  {
    if d.stage.deadlineStart.Some? && Day(d.stage.deadlineStart.value) == day then (Starts, d.stage.deadlineStart.value)
    else (Ends, d.stage.deadlineEnd)
  }

  /** The civil year and month (1-12) of a month index as Clock.Month counts them. */
  function YearMonth(m: int): (r: (int, int))
    ensures 1 <= r.1 <= 12 && r.0 * 12 + (r.1 - 1) == m
  {
    (m / 12, m % 12 + 1)
  }

  class CalendarPage {
    var selectedDate: int
    /** The displayed month, as Clock.Month counts months. */
    var currentMonth: int

    constructor(now: int)
      ensures selectedDate == now && currentMonth == Month(now)
    {
      selectedDate := now;
      currentMonth := Month(now);
    }

    /** onSelect: a deselection (no date) keeps the current selection. */
    method Select(date: Option<int>)
      modifies this
      ensures selectedDate == if date.Some? then date.value else old(selectedDate)
      ensures currentMonth == old(currentMonth)
    {
      if date.Some? {
        selectedDate := date.value;
      }
    }

    /** The left chevron: subMonths(currentMonth, 1). */
    method PreviousMonth()
      modifies this
      ensures currentMonth == old(currentMonth) - 1 && selectedDate == old(selectedDate)
    {
      currentMonth := currentMonth - 1;
    }

    /** The right chevron: addMonths(currentMonth, 1). */
    method NextMonth()
      modifies this
      ensures currentMonth == old(currentMonth) + 1 && selectedDate == old(selectedDate)
    {
      currentMonth := currentMonth + 1;
    }

    /** onMonthChange: the day picker's own navigation shows the month of the date it reports. */
    method MonthChange(date: int)
      modifies this
      ensures currentMonth == Month(date) && selectedDate == old(selectedDate)
    {
      currentMonth := Month(date);
    }
  }
}
