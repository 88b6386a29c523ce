/**
 * The deadline reminder scan of useNotifications: on each pass it walks every
 * stage of every event, classifies the stage's deadline against `now` by
 * local calendar day, and raises at most one reminder for each de-duplication
 * key it records in a set that lives as long as the hook stays mounted (a
 * remount or a reload starts it empty again).
 */
module Notifications {
  import opened Types
  import opened Clock

  /** The four flags of a notification_preferences row. */
  datatype Preferences = Preferences(
    notifyOnDay: bool,
    notify1DayBefore: bool,
    notify7DaysBefore: bool,
    soundEnabled: bool)

  /** The four preference columns, as `keyof NotificationPreferences` names them. */
  datatype PrefKey = NotifyOnDay | Notify1DayBefore | Notify7DaysBefore | SoundEnabled

  function PrefFlag(p: Preferences, k: PrefKey): bool
  {
    match k
    case NotifyOnDay => p.notifyOnDay
    case Notify1DayBefore => p.notify1DayBefore
    case Notify7DaysBefore => p.notify7DaysBefore
    case SoundEnabled => p.soundEnabled
  }

  /** A notification_preferences row; each flag column is nullable. */
  datatype PreferencesRow = PreferencesRow(
    notifyOnDay: Option<bool>,
    notify1DayBefore: Option<bool>,
    notify7DaysBefore: Option<bool>,
    soundEnabled: Option<bool>)

  function RowFlag(row: PreferencesRow, k: PrefKey): Option<bool>
  {
    match k
    case NotifyOnDay => row.notifyOnDay
    case Notify1DayBefore => row.notify1DayBefore
    case Notify7DaysBefore => row.notify7DaysBefore
    case SoundEnabled => row.soundEnabled
  }

  /**
   * The preferences as the scan and playSound see the fetched row: each flag
   * is tested for truthiness, so a stored null is off.
   */
  function ScanPreferences(row: PreferencesRow): (r: Preferences)
    ensures forall k :: PrefFlag(r, k) <==> RowFlag(row, k) == Some(true)
  {
    Preferences(row.notifyOnDay == Some(true), row.notify1DayBefore == Some(true),
                row.notify7DaysBefore == Some(true), row.soundEnabled == Some(true))
  }

  /**
   * De-duplication keys. DayKey(id, day) stands for the string
   * `${stage.id}-${deadline.toDateString()}`, which is one-to-one on local
   * days; MissedKey(id) stands for `missed-${stage.id}`.
   */
  datatype Key = DayKey(stageId: string, day: int) | MissedKey(stageId: string)

  datatype AlertKind = DueToday | DueTomorrow | DueInSevenDays | DeadlinePassed

  /** The toast variant. */
  datatype Variant = DefaultVariant | Destructive

  /**
   * One call of showNotification: the toast's title and description, its
   * variant, and whether the alert tone is played. The stage id and the
   * deadline say which stage raised it.
   */
  datatype Alert = Alert(
    kind: AlertKind,
    stageId: string,
    deadline: int,
    title: string,
    message: string,
    variant: Variant,
    sound: bool)

  /** The key an alert is recorded under. */
  function AlertKey(a: Alert): Key
  {
    if a.kind == DeadlinePassed then MissedKey(a.stageId) else DayKey(a.stageId, Day(a.deadline))
  }

  function KeysOf(alerts: seq<Alert>): set<Key>
  {
    set a | a in alerts :: AlertKey(a)
  }

  lemma KeysOfAppend(a: seq<Alert>, b: seq<Alert>)
    ensures KeysOf(a + b) == KeysOf(a) + KeysOf(b)
  {
    forall k | k in KeysOf(a + b) ensures k in KeysOf(a) + KeysOf(b) {
      var x :| x in a + b && AlertKey(x) == k;
    }
  }

  lemma KeysOfSingleton(x: Alert)
    ensures KeysOf([x]) == {AlertKey(x)}
  {
    assert x in [x];
  }

  function Title(kind: AlertKind, stageName: string): string
  {
    match kind
    case DueToday => "\U{23F0} Deadline Today: " + stageName
    case DueTomorrow => "\U{1F4C5} Deadline Tomorrow: " + stageName
    case DueInSevenDays => "\U{1F5D3}\U{FE0F} Upcoming: " + stageName
    case DeadlinePassed => "\U{274C} Missed Deadline: " + stageName
  }

  function Message(kind: AlertKind, eventTitle: string, stageName: string): string
  {
    eventTitle + " - Stage \"" + stageName + "\" " +
    match kind
    case DueToday => "is due today!"
    case DueTomorrow => "is due tomorrow!"
    case DueInSevenDays => "is due in 7 days!"
    case DeadlinePassed => "deadline has passed!"
  }

  /**
   * showNotification with playSound: the missed type uses the destructive
   * variant, and the tone plays only when sound_enabled is set.
   */
  function ShowNotification(prefs: Preferences, kind: AlertKind, e: Event, s: Stage, deadline: int): Alert
  {
    Alert(kind, s.id, deadline, Title(kind, s.name), Message(kind, e.title, s.name),
          if kind == DeadlinePassed then Destructive else DefaultVariant,
          prefs.soundEnabled)
  }

  /**
   * isWithinInterval(deadline, { start: addDays(startOfDay(now), 7),
   * end: endOfDay(that day) }), both ends included.
   */
  predicate InSevenDayWindow(now: int, d: int)
  {
    var start := StartOfDay(now) + 7 * MsPerDay;
    start <= d <= start + MsPerDay - 1
  }

  /** The seven-day window is exactly the local day seven days after today. */
  lemma SevenDayWindowIsDayPlusSeven(now: int, d: int)
    ensures InSevenDayWindow(now, d) <==> Day(d) == Day(now) + 7
  {
    DayWindow(now, d, 7);
  }

  /** The number of days ahead each upcoming reminder looks. */
  function DaysAhead(kind: AlertKind): int
  {
    match kind
    case DueToday => 0
    case DueTomorrow => 1
    case DueInSevenDays => 7
    case DeadlinePassed => 0
  }

  /** The preference flag that gates each upcoming reminder; the missed alert has none. */
  function Flag(prefs: Preferences, kind: AlertKind): bool
  {
    match kind
    case DueToday => prefs.notifyOnDay
    case DueTomorrow => prefs.notify1DayBefore
    case DueInSevenDays => prefs.notify7DaysBefore
    case DeadlinePassed => true
  }

  /** What one pass leaves behind: the alerts raised, in order, and the notified set. */
  datatype Pass = Pass(alerts: seq<Alert>, notified: set<Key>)

  /**
   * The upcoming reminder a deadline is due for. The source tests the three
   * conditions one after another; they are disjoint (the days differ), so at
   * most one holds and their order does not matter.
   */
  function UpcomingKind(now: int, prefs: Preferences, d: int): Option<AlertKind>
  {
    if prefs.notifyOnDay && Day(d) == Day(now) then Some(DueToday)
    else if prefs.notify1DayBefore && Day(d) == Day(now) + 1 then Some(DueTomorrow)
    else if prefs.notify7DaysBefore && InSevenDayWindow(now, d) then Some(DueInSevenDays)
    else None
  }

  /** The body of the inner forEach for one stage, given the notified set n. */
  function StagePass(now: int, prefs: Preferences, e: Event, s: Stage, n: set<Key>): Pass
  {
    if s.isCompleted then Pass([], n)
    else match s.deadline
      case None => Pass([], n)
      case Some(d) =>
        var key := DayKey(s.id, Day(d));
        if key in n then Pass([], n)
        else
          var upcoming := match UpcomingKind(now, prefs, d)
            case Some(k) => [ShowNotification(prefs, k, e, s, d)]
            case None => [];
          var n1 := if upcoming == [] then n else n + {key};
          var missed := d < now && MissedKey(s.id) !in n1;
          Pass(upcoming + (if missed then [ShowNotification(prefs, DeadlinePassed, e, s, d)] else []),
               if missed then n1 + {MissedKey(s.id)} else n1)
  }

  /** The condition under which a stage raises a reminder of the given kind, from the notified set n. */
  predicate Fires(now: int, prefs: Preferences, s: Stage, n: set<Key>, kind: AlertKind)
  {
    && !s.isCompleted
    && s.deadline.Some?
    && DayKey(s.id, Day(s.deadline.value)) !in n
    && Flag(prefs, kind)
    && if kind == DeadlinePassed then s.deadline.value < now && MissedKey(s.id) !in n
       else Day(s.deadline.value) == Day(now) + DaysAhead(kind)
  }

  /**
   * A stage raises a reminder of a kind exactly when Fires says so: completed
   * stages raise nothing, a recorded day key silences the stage completely
   * (the missed alert too), each upcoming reminder needs its own flag and day,
   * and the missed alert needs only a past deadline and an unrecorded missed key.
   */
  lemma StageFiresExactly(now: int, prefs: Preferences, e: Event, s: Stage, n: set<Key>, kind: AlertKind)
    ensures (exists a :: a in StagePass(now, prefs, e, s, n).alerts && a.kind == kind) <==>
            Fires(now, prefs, s, n, kind)
  {
    if s.deadline.Some? {
      SevenDayWindowIsDayPlusSeven(now, s.deadline.value);
    }
    var alerts := StagePass(now, prefs, e, s, n).alerts;
    if Fires(now, prefs, s, n, kind) {
      var d := s.deadline.value;
      var a := ShowNotification(prefs, kind, e, s, d);
      assert a in alerts;
    }
  }

  /**
   * What one stage's pass builds: at most two alerts, and when there are two
   * they are the on-day reminder followed by the missed alert, so there is at
   * most one upcoming reminder (the three day conditions are disjoint) and at
   * most one missed alert; every alert names this stage and its deadline;
   * alert keys were absent and are now recorded, and nothing else is recorded.
   */
  lemma StagePassShape(now: int, prefs: Preferences, e: Event, s: Stage, n: set<Key>)
    ensures var r := StagePass(now, prefs, e, s, n);
      && |r.alerts| <= 2
      && (|r.alerts| == 2 ==> r.alerts[0].kind == DueToday && r.alerts[1].kind == DeadlinePassed)
      && r.notified == n + KeysOf(r.alerts)
      && (forall a :: a in r.alerts ==>
            && a == ShowNotification(prefs, a.kind, e, s, a.deadline)
            && !s.isCompleted && s.deadline == Some(a.deadline)
            && AlertKey(a) !in n && DayKey(s.id, Day(a.deadline)) !in n)
      && (forall i, j :: 0 <= i < j < |r.alerts| ==> AlertKey(r.alerts[i]) != AlertKey(r.alerts[j]))
  {
    var r := StagePass(now, prefs, e, s, n);
    if !s.isCompleted && s.deadline.Some? && DayKey(s.id, Day(s.deadline.value)) !in n {
      var d := s.deadline.value;
      if d < now {
        DayMonotone(d, now);
        SevenDayWindowIsDayPlusSeven(now, d);
      }
      var ups := match UpcomingKind(now, prefs, d)
        case Some(k) => [ShowNotification(prefs, k, e, s, d)]
        case None => [];
      var last := r.alerts[|ups|..];
      assert r.alerts == ups + last;
      KeysOfAppend(ups, last);
      if ups != [] {
        KeysOfSingleton(ups[0]);
      }
      if last != [] {
        KeysOfSingleton(last[0]);
      }
    }
  }

  /** A stage whose pass raises nothing from n raises nothing from any larger set either. */
  lemma StageQuietFromLargerSet(now: int, prefs: Preferences, e: Event, s: Stage, n: set<Key>, m: set<Key>)
    requires n <= m
    requires StagePass(now, prefs, e, s, n).alerts == []
    ensures StagePass(now, prefs, e, s, m) == Pass([], m)
  {
    if !s.isCompleted && s.deadline.Some? {
      SevenDayWindowIsDayPlusSeven(now, s.deadline.value);
    }
  }

  /** Repeating one stage's pass on the set it produced raises nothing. */
  lemma StageSettles(now: int, prefs: Preferences, e: Event, s: Stage, n: set<Key>)
    ensures var n1 := StagePass(now, prefs, e, s, n).notified;
            StagePass(now, prefs, e, s, n1) == Pass([], n1)
  {
    if !s.isCompleted && s.deadline.Some? {
      SevenDayWindowIsDayPlusSeven(now, s.deadline.value);
    }
  }

  /** A stage of an event: the (event, stage) pair the nested forEach visits. */
  datatype Entry = Entry(event: Event, stage: Stage)

  function EntriesOf(e: Event, stages: seq<Stage>): seq<Entry>
  {
    seq(|stages|, i requires 0 <= i < |stages| => Entry(e, stages[i]))
  }

  /** Every (event, stage) pair, in the order the nested forEach visits them. */
  function Entries(events: seq<Event>): seq<Entry>
  {
    if events == [] then []
    else Entries(events[..|events| - 1]) + EntriesOf(events[|events| - 1], StagesOf(events[|events| - 1]))
  }

  /** The pairs the scan visits are exactly the stages of the given events. */
  lemma {:induction false} EntriesMembership(events: seq<Event>, x: Entry)
    ensures x in Entries(events) <==> x.event in events && x.stage in StagesOf(x.event)
  {
    if events != [] {
      var init, last := events[..|events| - 1], events[|events| - 1];
      EntriesMembership(init, x);
      assert events == init + [last];
      if x.event == last && x.stage in StagesOf(last) {
        var i :| 0 <= i < |StagesOf(last)| && StagesOf(last)[i] == x.stage;
        assert EntriesOf(last, StagesOf(last))[i] == x;
      }
    }
  }

  /** The stage passes over a sequence of pairs, threading the notified set. */
  function Fold(now: int, prefs: Preferences, entries: seq<Entry>, n: set<Key>): Pass
  {
    if entries == [] then Pass([], n)
    else
      var p := Fold(now, prefs, entries[..|entries| - 1], n);
      var x := entries[|entries| - 1];
      var q := StagePass(now, prefs, x.event, x.stage, p.notified);
      Pass(p.alerts + q.alerts, q.notified)
  }

  /** One checkDeadlines pass, with the guard of its effect: nothing happens without preferences or events. */
  function ScanPass(now: int, events: seq<Event>, prefs: Option<Preferences>, n: set<Key>): Pass
  {
    if prefs.None? || |events| == 0 then Pass([], n)
    else Fold(now, prefs.value, Entries(events), n)
  }

  /**
   * Over a sequence of pairs the notified set only grows, by exactly the keys
   * of the alerts raised; no alert's key was recorded before, no alert comes
   * from a stage whose day key was recorded before, and no key is alerted twice.
   */
  lemma {:induction false} FoldKeys(now: int, prefs: Preferences, entries: seq<Entry>, n: set<Key>)
    ensures var r := Fold(now, prefs, entries, n);
      && r.notified == n + KeysOf(r.alerts)
      && (forall a :: a in r.alerts ==> AlertKey(a) !in n && DayKey(a.stageId, Day(a.deadline)) !in n)
      && (forall i, j :: 0 <= i < j < |r.alerts| ==> AlertKey(r.alerts[i]) != AlertKey(r.alerts[j]))
  {
    if entries != [] {
      var init := entries[..|entries| - 1];
      var p := Fold(now, prefs, init, n);
      var x := entries[|entries| - 1];
      var q := StagePass(now, prefs, x.event, x.stage, p.notified);
      FoldKeys(now, prefs, init, n);
      StagePassShape(now, prefs, x.event, x.stage, p.notified);
      var all := p.alerts + q.alerts;
      KeysOfAppend(p.alerts, q.alerts);
      forall i, j | 0 <= i < j < |all| ensures AlertKey(all[i]) != AlertKey(all[j]) {
        if j < |p.alerts| {
          assert all[i] == p.alerts[i] && all[j] == p.alerts[j];
        } else if i >= |p.alerts| {
          assert all[i] == q.alerts[i - |p.alerts|] && all[j] == q.alerts[j - |p.alerts|];
        } else {
          assert all[i] in p.alerts && all[j] in q.alerts;
        }
      }
      forall a | a in all ensures AlertKey(a) !in n && DayKey(a.stageId, Day(a.deadline)) !in n {
        if a in q.alerts {
          assert x.stage.id == a.stageId;
        }
      }
    }
  }

  /** An alert was raised for the stage of pair x with the preferences in force. */
  predicate RaisedFor(prefs: Preferences, x: Entry, a: Alert)
  {
    && !x.stage.isCompleted
    && x.stage.deadline == Some(a.deadline)
    && a == ShowNotification(prefs, a.kind, x.event, x.stage, a.deadline)
  }

  /** Every alert of a fold comes from a pair whose stage is not completed and has a deadline. */
  lemma {:induction false} FoldSources(now: int, prefs: Preferences, entries: seq<Entry>, n: set<Key>)
    ensures forall a :: a in Fold(now, prefs, entries, n).alerts ==>
              exists x :: x in entries && RaisedFor(prefs, x, a)
  {
    if entries != [] {
      var init := entries[..|entries| - 1];
      var p := Fold(now, prefs, init, n);
      var x := entries[|entries| - 1];
      FoldSources(now, prefs, init, n);
      StagePassShape(now, prefs, x.event, x.stage, p.notified);
      forall a | a in Fold(now, prefs, entries, n).alerts
        ensures exists y :: y in entries && RaisedFor(prefs, y, a)
      {
        if a in p.alerts {
          var y :| y in init && RaisedFor(prefs, y, a);
          assert y in entries;
        } else {
          assert RaisedFor(prefs, x, a);
        }
      }
    }
  }

  /** Once a fold has run, running it again from any superset of its set raises nothing and records nothing. */
  lemma {:induction false} FoldSettles(now: int, prefs: Preferences, entries: seq<Entry>, n: set<Key>, m: set<Key>)
    requires Fold(now, prefs, entries, n).notified <= m
    ensures Fold(now, prefs, entries, m) == Pass([], m)
  {
    if entries != [] {
      var init := entries[..|entries| - 1];
      var x := entries[|entries| - 1];
      var p := Fold(now, prefs, init, n);
      var q := StagePass(now, prefs, x.event, x.stage, p.notified);
      FoldKeys(now, prefs, init, n);
      StagePassShape(now, prefs, x.event, x.stage, p.notified);
      FoldSettles(now, prefs, init, n, m);
      StageSettles(now, prefs, x.event, x.stage, p.notified);
      StageQuietFromLargerSet(now, prefs, x.event, x.stage, q.notified, m);
    }
  }

  /** Without preferences or without events the effect returns before scanning: nothing is raised or recorded. */
  lemma ScanGuard(now: int, events: seq<Event>, prefs: Option<Preferences>, n: set<Key>)
    requires prefs.None? || events == []
    ensures ScanPass(now, events, prefs, n) == Pass([], n)
  {
  }

  /**
   * The set of a scan only grows, by exactly the keys of the alerts it raised;
   * each alerted key was not yet recorded (so it is alerted at most once while
   * the hook stays mounted), and no key is alerted twice in one pass.
   */
  lemma ScanRecordsEveryAlert(now: int, events: seq<Event>, prefs: Option<Preferences>, n: set<Key>)
    ensures var r := ScanPass(now, events, prefs, n);
      && n <= r.notified
      && r.notified == n + KeysOf(r.alerts)
      && (forall a :: a in r.alerts ==> AlertKey(a) !in n)
      && (forall i, j :: 0 <= i < j < |r.alerts| ==> AlertKey(r.alerts[i]) != AlertKey(r.alerts[j]))
  {
    if prefs.Some? && |events| > 0 {
      FoldKeys(now, prefs.value, Entries(events), n);
    }
  }

  /**
   * Every alert of a scan names a stage of one of the events that is not
   * completed and has a deadline, uses the destructive variant exactly when it
   * is the missed alert, and plays the tone exactly when sound_enabled is set.
   */
  lemma ScanAlertsComeFromOpenStages(now: int, events: seq<Event>, prefs: Option<Preferences>, n: set<Key>, a: Alert)
    requires a in ScanPass(now, events, prefs, n).alerts
    ensures prefs.Some? && a.sound == prefs.value.soundEnabled
    ensures a.variant == Destructive <==> a.kind == DeadlinePassed
    ensures exists e, s :: e in events && s in StagesOf(e) && !s.isCompleted && s.id == a.stageId &&
                           s.deadline == Some(a.deadline)
  {
    FoldSources(now, prefs.value, Entries(events), n);
    var x :| x in Entries(events) && RaisedFor(prefs.value, x, a);
    EntriesMembership(events, x);
  }

  /** Repeating a scan with the same `now`, events and preferences raises nothing and records nothing. */
  lemma ScanIdempotent(now: int, events: seq<Event>, prefs: Option<Preferences>, n: set<Key>)
    ensures var n1 := ScanPass(now, events, prefs, n).notified;
            ScanPass(now, events, prefs, n1) == Pass([], n1)
  {
    if prefs.Some? && |events| > 0 {
      FoldSettles(now, prefs.value, Entries(events), n, Fold(now, prefs.value, Entries(events), n).notified);
    }
  }

  /** Two successive scans, on any inputs, never alert the same key. */
  lemma SuccessiveScansNeverRepeatAKey(
    now1: int, events1: seq<Event>, prefs1: Option<Preferences>,
    now2: int, events2: seq<Event>, prefs2: Option<Preferences>, n: set<Key>)
    ensures var r1 := ScanPass(now1, events1, prefs1, n);
            var r2 := ScanPass(now2, events2, prefs2, r1.notified);
            KeysOf(r1.alerts) !! KeysOf(r2.alerts)
  {
    var r1 := ScanPass(now1, events1, prefs1, n);
    ScanRecordsEveryAlert(now1, events1, prefs1, n);
    ScanRecordsEveryAlert(now2, events2, prefs2, r1.notified);
  }

  /**
   * Once a day key is recorded, no later scan raises any alert (upcoming or
   * missed) for a stage with that id whose deadline is on that day.
   */
  lemma RecordedDayKeySilencesStage(now: int, events: seq<Event>, prefs: Option<Preferences>, n: set<Key>, id: string, day: int)
    requires DayKey(id, day) in n
    ensures forall a :: a in ScanPass(now, events, prefs, n).alerts ==> !(a.stageId == id && Day(a.deadline) == day)
  {
    if prefs.Some? && |events| > 0 {
      FoldKeys(now, prefs.value, Entries(events), n);
    }
  }

  /**
   * With rows as loaded from the database the stages carry no `deadline`
   * property, so a scan never raises anything and never records anything.
   */
  lemma RowsWithoutDeadlineNeverAlert(now: int, events: seq<Event>, prefs: Option<Preferences>, n: set<Key>)
    requires forall e, s :: e in events && s in StagesOf(e) ==> s.deadline.None?
    ensures ScanPass(now, events, prefs, n) == Pass([], n)
  {
    if prefs.Some? && |events| > 0 {
      ScanRecordsEveryAlert(now, events, prefs, n);
      var r := ScanPass(now, events, prefs, n);
      if r.alerts != [] {
        ScanAlertsComeFromOpenStages(now, events, prefs, n, r.alerts[0]);
      }
    }
  }

  /** The hook's state that survives re-runs of its effect: notifiedRef. */
  class DeadlineNotifier {
    /** Keys already alerted while the hook stays mounted (notifiedRef.current). */
    var notified: set<Key>

    constructor ()
      ensures notified == {}
    {
      notified := {};
    }

    /** The forEach callback for one stage. */
    method CheckStage(now: int, prefs: Preferences, e: Event, s: Stage) returns (fired: seq<Alert>)
      modifies this
      ensures Pass(fired, notified) == StagePass(now, prefs, e, s, old(notified))
    {
      fired := [];
      if s.isCompleted {
        return;
      }
      if s.deadline.None? {
        // new Date(undefined) is an invalid date: none of the four checks matches
        return;
      }
      var deadline := s.deadline.value;
      var key := DayKey(s.id, Day(deadline));
      if key in notified {
        return;
      }
      SevenDayWindowIsDayPlusSeven(now, deadline);
      if prefs.notifyOnDay && Day(deadline) == Day(now) {
        fired := fired + [ShowNotification(prefs, DueToday, e, s, deadline)];
        notified := notified + {key};
      }
      if prefs.notify1DayBefore && Day(deadline) == Day(now) + 1 {
        fired := fired + [ShowNotification(prefs, DueTomorrow, e, s, deadline)];
        notified := notified + {key};
      }
      if prefs.notify7DaysBefore {
        var sevenDaysFromNow := StartOfDay(now) + 7 * MsPerDay;
        if sevenDaysFromNow <= deadline <= sevenDaysFromNow + MsPerDay - 1 {
          fired := fired + [ShowNotification(prefs, DueInSevenDays, e, s, deadline)];
          notified := notified + {key};
        }
      }
      if deadline < now {
        var missedKey := MissedKey(s.id);
        if missedKey !in notified {
          fired := fired + [ShowNotification(prefs, DeadlinePassed, e, s, deadline)];
          notified := notified + {missedKey};
        }
      }
    }

    /** checkDeadlines, behind the effect's guard: returns the alerts raised, in order. */
    method Scan(now: int, events: seq<Event>, prefs: Option<Preferences>) returns (alerts: seq<Alert>)
      modifies this
      ensures Pass(alerts, notified) == ScanPass(now, events, prefs, old(notified))
      ensures old(notified) <= notified
    {
      alerts := [];
      if prefs.None? || |events| == 0 {
        return;
      }
      var p := prefs.value;
      var i := 0;
      while i < |events|
        invariant 0 <= i <= |events|
        invariant Pass(alerts, notified) == Fold(now, p, Entries(events[..i]), old(notified))
      {
        var e := events[i];
        var stages := StagesOf(e);
        var j := 0;
        assert Entries(events[..i]) + EntriesOf(e, stages[..0]) == Entries(events[..i]);
        while j < |stages|
          invariant 0 <= j <= |stages|
          invariant Pass(alerts, notified) == Fold(now, p, Entries(events[..i]) + EntriesOf(e, stages[..j]), old(notified))
        {
          var fired := CheckStage(now, p, e, stages[j]);
          alerts := alerts + fired;
          assert EntriesOf(e, stages[..j + 1]) == EntriesOf(e, stages[..j]) + [Entry(e, stages[j])];
          assert (Entries(events[..i]) + EntriesOf(e, stages[..j + 1]))[..|Entries(events[..i])| + j] ==
                 Entries(events[..i]) + EntriesOf(e, stages[..j]);
          j := j + 1;
        }
        assert stages[..j] == stages;
        assert events[..i + 1][..i] == events[..i];
        i := i + 1;
      }
      assert events[..i] == events;
      ScanRecordsEveryAlert(now, events, prefs, old(notified));
    }
  }
}
