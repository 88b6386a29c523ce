/**
 * The timeline page: one item per stage end and per stage start, filtered
 * against the start of today, sorted by date, grouped by calendar day, and
 * labelled with one of five statuses.
 */
module Timeline {
  import opened Types
  import opened Clock
  import opened Seqs

  datatype TimelineItem = TimelineItem(stage: Stage, event: Event, date: int, isStart: bool)

  /** The items of one stage: its end, then its start when it has one. */
  function StageItems(e: Event, s: Stage): (r: seq<TimelineItem>)
    ensures |r| == if HasStart(s) then 2 else 1
    ensures r[0] == TimelineItem(s, e, s.deadlineEnd, false)
    ensures HasStart(s) ==> r[1] == TimelineItem(s, e, s.deadlineStart.value, true)
  {
    [TimelineItem(s, e, s.deadlineEnd, false)] +
    match s.deadlineStart
    case Some(t) => [TimelineItem(s, e, t, true)]
    case None => []
  }

  function EventItems(e: Event, stages: seq<Stage>): seq<TimelineItem>
  {
    if stages == [] then [] else StageItems(e, stages[0]) + EventItems(e, stages[1..])
  }

  /** timelineItems: the items of every stage of every event, in event and stage order. */
  function BuildItems(events: seq<Event>): seq<TimelineItem>
  {
    if events == [] then [] else EventItems(events[0], StagesOf(events[0])) + BuildItems(events[1..])
  }

  predicate IsEndItem(i: TimelineItem) { !i.isStart }

  predicate IsStartItem(i: TimelineItem) { i.isStart }

  predicate HasStart(s: Stage) { s.deadlineStart.Some? }

  /** An item is exactly the end of a listed stage, or the start of a listed stage that has one. */
  predicate ItemOf(i: TimelineItem)
  {
    if i.isStart then i.stage.deadlineStart == Some(i.date) else i.date == i.stage.deadlineEnd
  }

  lemma {:induction false} EventItemsMembership(e: Event, stages: seq<Stage>, i: TimelineItem)
    ensures i in EventItems(e, stages) <==> i.event == e && i.stage in stages && ItemOf(i)
  {
    if stages != [] {
      EventItemsMembership(e, stages[1..], i);
      assert stages == [stages[0]] + stages[1..];
    }
  }

  /** The items are exactly the ends of all stages and the starts of the stages that have one. */
  lemma {:induction false} ItemsMembership(events: seq<Event>, i: TimelineItem)
    ensures i in BuildItems(events) <==> i.event in events && i.stage in StagesOf(i.event) && ItemOf(i)
  {
    if events != [] {
      ItemsMembership(events[1..], i);
      EventItemsMembership(events[0], StagesOf(events[0]), i);
      assert events == [events[0]] + events[1..];
    }
  }

  lemma {:induction false} EventItemsCount(e: Event, stages: seq<Stage>)
    ensures |Filter(EventItems(e, stages), IsEndItem)| == |stages|
    ensures |Filter(EventItems(e, stages), IsStartItem)| == |Filter(stages, HasStart)|
  {
    if stages != [] {
      EventItemsCount(e, stages[1..]);
      FilterAppend(StageItems(e, stages[0]), EventItems(e, stages[1..]), IsEndItem);
      FilterAppend(StageItems(e, stages[0]), EventItems(e, stages[1..]), IsStartItem);
    }
  }

  /** Every stage yields exactly one end item, and one start item exactly when it has a start. */
  lemma {:induction false} ItemsCount(events: seq<Event>)
    ensures |Filter(BuildItems(events), IsEndItem)| == |AllStages(events)|
    ensures |Filter(BuildItems(events), IsStartItem)| == |Filter(AllStages(events), HasStart)|
  {
    if events != [] {
      ItemsCount(events[1..]);
      EventItemsCount(events[0], StagesOf(events[0]));
      FilterAppend(EventItems(events[0], StagesOf(events[0])), BuildItems(events[1..]), IsEndItem);
      FilterAppend(EventItems(events[0], StagesOf(events[0])), BuildItems(events[1..]), IsStartItem);
      FilterAppend(StagesOf(events[0]), AllStages(events[1..]), HasStart);
    }
  }

  datatype DateFilter = AllItems | UpcomingItems | PastItems

  /** The filter step, comparing against startOfDay(now). */
  predicate Keep(f: DateFilter, now: int, i: TimelineItem)
  {
    match f
    case UpcomingItems => i.date >= StartOfDay(now)
    case PastItems => i.date < StartOfDay(now)
    case AllItems => true
  }

  /**
   * 'upcoming' keeps exactly the items on today's calendar day or later,
   * 'past' keeps exactly the others, so the two together hold every item once;
   * 'all' keeps every item.
   */
  lemma FiltersPartitionAtStartOfToday(items: seq<TimelineItem>, now: int)
    ensures forall i :: Keep(UpcomingItems, now, i) <==> Day(i.date) >= Day(now)
    ensures multiset(Filter(items, i => Keep(UpcomingItems, now, i))) +
            multiset(Filter(items, i => Keep(PastItems, now, i))) == multiset(items)
    ensures Filter(items, i => Keep(AllItems, now, i)) == items
  {
    forall i: TimelineItem ensures Keep(UpcomingItems, now, i) <==> Day(i.date) >= Day(now) {
      AtOrAfterStartOfDay(now, i.date);
    }
    FilterPartition(items, i => Keep(UpcomingItems, now, i), i => Keep(PastItems, now, i));
    FilterKeepsAll(items, i => Keep(AllItems, now, i));
  }

  function DateOf(i: TimelineItem): int { i.date }

  /**
   * filteredItems: the kept items sorted by date. The result is in
   * non-decreasing date order, is a permutation of the kept items, and holds
   * only kept items of listed stages.
   */
  function VisibleItems(events: seq<Event>, f: DateFilter, now: int): (r: seq<TimelineItem>)
    ensures SortedBy(r, DateOf)
    ensures multiset(r) == multiset(Filter(BuildItems(events), i => Keep(f, now, i)))
    ensures forall i :: i in r ==> Keep(f, now, i) && i.event in events && i.stage in StagesOf(i.event)
  {
    var kept := Filter(BuildItems(events), i => Keep(f, now, i));
    var r := SortBy(kept, DateOf);
    forall i | i in r ensures Keep(f, now, i) && i.event in events && i.stage in StagesOf(i.event) {
      assert i in multiset(r);
      ItemsMembership(events, i);
    }
    r
  }

  /** The group key of an item: format(item.date, 'yyyy-MM-dd'), one-to-one on local days. */
  function DayOf(i: TimelineItem): int { Day(i.date) }

  /** The items on day k, in their order. */
  function OnDay(items: seq<TimelineItem>, k: int): seq<TimelineItem>
  {
    Filter(items, i => DayOf(i) == k)
  }

  /** The days of the items in order of first appearance: the key order of the groups record. */
  function DaysInOrder(items: seq<TimelineItem>): seq<int>
  {
    if items == [] then []
    else
      var p := DaysInOrder(items[..|items| - 1]);
      var k := DayOf(items[|items| - 1]);
      if k in p then p else p + [k]
  }

  /** The group keys are distinct and are exactly the days of the items. */
  lemma {:induction false} DaysInOrderSpec(items: seq<TimelineItem>)
    ensures forall a, b :: 0 <= a < b < |DaysInOrder(items)| ==> DaysInOrder(items)[a] != DaysInOrder(items)[b]
    ensures forall k :: k in DaysInOrder(items) <==> exists i :: i in items && DayOf(i) == k
  {
    if items != [] {
      var init := items[..|items| - 1];
      DaysInOrderSpec(init);
      assert items == init + [items[|items| - 1]];
      forall k | exists i :: i in items && DayOf(i) == k ensures k in DaysInOrder(items) {
        var i :| i in items && DayOf(i) == k;
        if i != items[|items| - 1] {
          assert i in init;
        }
      }
    }
  }

  lemma OnDayAppend(p: seq<TimelineItem>, x: TimelineItem, k: int)
    ensures OnDay(p + [x], k) == OnDay(p, k) + (if DayOf(x) == k then [x] else [])
  {
    FilterAppend(p, [x], i => DayOf(i) == k);
  }

  /** A day that is not yet a key has no items. */
  lemma NewDayIsEmpty(p: seq<TimelineItem>, k: int)
    requires k !in DaysInOrder(p)
    ensures OnDay(p, k) == []
  {
    DaysInOrderSpec(p);
    FilterKeepsNone(p, i => DayOf(i) == k);
  }

  lemma DaysInOrderAppend(p: seq<TimelineItem>, x: TimelineItem)
    ensures DaysInOrder(p + [x]) == if DayOf(x) in DaysInOrder(p) then DaysInOrder(p) else DaysInOrder(p) + [DayOf(x)]
  {
    assert (p + [x])[..|p + [x]| - 1] == p;
  }

  /**
   * groupedByDate: the reduce that pushes each item into the array of its day,
   * creating the array the first time the day is seen. Returns the record's
   * keys in insertion order (the order Object.entries lists them) and its arrays.
   */
  method GroupByDay(items: seq<TimelineItem>) returns (keys: seq<int>, groups: map<int, seq<TimelineItem>>)
    ensures keys == DaysInOrder(items)
    ensures forall k :: k in groups <==> k in keys
    ensures forall k :: k in groups ==> groups[k] == OnDay(items, k)
  {
    keys, groups := [], map[];
    for n := 0 to |items|
      invariant keys == DaysInOrder(items[..n])
      invariant forall k :: k in groups <==> k in keys
      invariant forall k :: k in groups ==> groups[k] == OnDay(items[..n], k)
    {
      var item := items[n];
      var dateKey := DayOf(item);
      assert items[..n + 1] == items[..n] + [item];
      DaysInOrderAppend(items[..n], item);
      if dateKey !in groups {
        NewDayIsEmpty(items[..n], dateKey);
        groups := groups[dateKey := []];
        keys := keys + [dateKey];
      }
      groups := groups[dateKey := groups[dateKey] + [item]];
      forall k | k in groups ensures groups[k] == OnDay(items[..n + 1], k) {
        OnDayAppend(items[..n], item, k);
      }
    }
    assert items[..|items|] == items;
  }

  /** The groups, listed in key order. */
  function GroupsInOrder(items: seq<TimelineItem>, keys: seq<int>): seq<seq<TimelineItem>>
  {
    seq(|keys|, j requires 0 <= j < |keys| => OnDay(items, keys[j]))
  }

  /** In a date-sorted list the last item's day is the latest key. */
  lemma {:induction false} LastKeyIsLastDay(items: seq<TimelineItem>)
    requires items != [] && SortedBy(items, DateOf)
    ensures DaysInOrder(items) != [] && DaysInOrder(items)[|DaysInOrder(items)| - 1] == DayOf(items[|items| - 1])
  {
    var init := items[..|items| - 1];
    var x := items[|items| - 1];
    if init != [] {
      LastKeyIsLastDay(init);
      DayMonotone(init[|init| - 1].date, x.date);
      if DayOf(x) in DaysInOrder(init) {
        DaysInOrderSpec(init);
        var i :| i in init && DayOf(i) == DayOf(x);
        var idx :| 0 <= idx < |init| && init[idx] == i;
        DayMonotone(i.date, init[|init| - 1].date);
      }
    }
  }

  lemma FlattenSnoc(g: seq<seq<TimelineItem>>)
    requires g != []
    ensures Flatten(g) == Flatten(g[..|g| - 1]) + g[|g| - 1]
  {
  }

  /** Appending an item of the latest day extends the last group. */
  lemma SameDayStep(init: seq<TimelineItem>, x: TimelineItem)
    requires DayOf(x) in DaysInOrder(init)
    requires DaysInOrder(init)[|DaysInOrder(init)| - 1] == DayOf(x)
    ensures Flatten(GroupsInOrder(init + [x], DaysInOrder(init + [x]))) ==
            Flatten(GroupsInOrder(init, DaysInOrder(init))) + [x]
  {
    DaysInOrderAppend(init, x);
    var keys0 := DaysInOrder(init);
    var g := GroupsInOrder(init + [x], keys0);
    var g0 := GroupsInOrder(init, keys0);
    var m := |keys0| - 1;
    DaysInOrderSpec(init);
    forall j | 0 <= j < m ensures g[j] == g0[j] {
      assert keys0[j] != keys0[m];
      OnDayAppend(init, x, keys0[j]);
    }
    assert g[..m] == g0[..m];
    OnDayAppend(init, x, keys0[m]);
    FlattenSnoc(g);
    FlattenSnoc(g0);
  }

  /** Appending an item leaves the groups of the other days as they were. */
  lemma OtherGroupsUnchanged(init: seq<TimelineItem>, x: TimelineItem, keys: seq<int>)
    requires DayOf(x) !in keys
    ensures GroupsInOrder(init + [x], keys) == GroupsInOrder(init, keys)
  {
    forall j | 0 <= j < |keys| ensures OnDay(init + [x], keys[j]) == OnDay(init, keys[j]) {
      OnDayAppend(init, x, keys[j]);
    }
  }

  /** Appending an item of a new day adds a group holding only it. */
  lemma NewDayStep(init: seq<TimelineItem>, x: TimelineItem)
    requires DayOf(x) !in DaysInOrder(init)
    ensures Flatten(GroupsInOrder(init + [x], DaysInOrder(init + [x]))) ==
            Flatten(GroupsInOrder(init, DaysInOrder(init))) + [x]
  {
    DaysInOrderAppend(init, x);
    var keys0 := DaysInOrder(init);
    var g := GroupsInOrder(init + [x], keys0 + [DayOf(x)]);
    OtherGroupsUnchanged(init, x, keys0);
    assert g[..|keys0|] == GroupsInOrder(init + [x], keys0);
    NewDayIsEmpty(init, DayOf(x));
    OnDayAppend(init, x, DayOf(x));
    assert g[|keys0|] == [x];
    FlattenSnoc(g);
  }

  /** Concatenating the groups in key order gives back a date-sorted list. */
  lemma {:induction false} GroupsConcatenateToSorted(items: seq<TimelineItem>)
    requires SortedBy(items, DateOf)
    ensures Flatten(GroupsInOrder(items, DaysInOrder(items))) == items
  {
    if items != [] {
      var init := items[..|items| - 1];
      var x := items[|items| - 1];
      assert items == init + [x];
      assert SortedBy(init, DateOf);
      GroupsConcatenateToSorted(init);
      if DayOf(x) in DaysInOrder(init) {
        LastKeyIsLastDay(items);
        DaysInOrderAppend(init, x);
        SameDayStep(init, x);
      } else {
        NewDayStep(init, x);
      }
    }
  }

  datatype ItemStatus = StatusCompleted | StatusMissed | StatusToday | StatusSoon | StatusFuture

  /** getItemStatus */
  function GetItemStatus(i: TimelineItem, now: int): ItemStatus
  {
    if i.stage.isCompleted then StatusCompleted
    else if i.date < now then StatusMissed
    else if Day(i.date) == Day(now) then StatusToday
    else if now <= i.date <= now + 7 * MsPerDay then StatusSoon
    else StatusFuture
  }

  /**
   * The five statuses by their conditions: a completed stage's items are
   * completed whatever their date; an open item before now is missed; an open
   * item from now on is today on today's calendar day, soon when it falls on a
   * later day at most seven days after now, and future beyond that.
   */
  lemma ItemStatusConditions(i: TimelineItem, now: int)
    ensures GetItemStatus(i, now) == StatusCompleted <==> i.stage.isCompleted
    ensures GetItemStatus(i, now) == StatusMissed <==> !i.stage.isCompleted && i.date < now
    ensures GetItemStatus(i, now) == StatusToday <==>
            !i.stage.isCompleted && now <= i.date && Day(i.date) == Day(now)
    ensures GetItemStatus(i, now) == StatusSoon <==>
            !i.stage.isCompleted && Day(i.date) > Day(now) && i.date <= now + 7 * MsPerDay
    ensures GetItemStatus(i, now) == StatusFuture <==>
            !i.stage.isCompleted && i.date > now + 7 * MsPerDay
  {
    if now <= i.date {
      DayMonotone(now, i.date);
    }
    if i.date > now + 7 * MsPerDay {
      DayWindow(now, i.date, 0);
    }
  }

  /** The completion button: only end items carry one, and it asks for the negation of is_completed. */
  function ToggleButton(i: TimelineItem): (r: Option<ToggleRequest>)
    ensures r.Some? <==> !i.isStart
    ensures r.Some? ==> r.value.stageId == i.stage.id && r.value.isCompleted == !i.stage.isCompleted
  {
    if i.isStart then None else Some(ToggleRequest(i.stage.id, !i.stage.isCompleted))
  }
}
