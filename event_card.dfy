/**
 * The event card: stage progress, the past rule and row style of its stage
 * list, the completion toggle, and the expand button that shows the stages
 * and attachments.
 */
module EventCard {
  import opened Types
  import opened Seqs

  predicate IsDone(s: Stage) { s.isCompleted }

  /** `event.stages?.filter(s => s.is_completed).length || 0` */
  function CompletedStages(e: Event): nat
  {
    |Filter(StagesOf(e), IsDone)|
  }

  /** `event.stages?.length || 0` */
  function TotalStages(e: Event): nat
  {
    |StagesOf(e)|
  }

  /** The progress percentage, exact: 0 without stages, completed/total·100 otherwise. */
  function Progress(e: Event): real
  {
    if TotalStages(e) > 0 then (CompletedStages(e) as real / TotalStages(e) as real) * 100.0 else 0.0
  }

  /**
   * Never more completed stages than stages; progress lies in [0, 100], is
   * 100 exactly when there are stages and all of them are completed, and is 0
   * exactly when none is.
   */
  lemma ProgressBounds(e: Event)
    ensures 0 <= CompletedStages(e) <= TotalStages(e)
    ensures 0.0 <= Progress(e) <= 100.0
    ensures Progress(e) == 100.0 <==> TotalStages(e) > 0 && forall s :: s in StagesOf(e) ==> s.isCompleted
    ensures Progress(e) == 0.0 <==> CompletedStages(e) == 0
  {
    FilterFullIffAll(StagesOf(e), IsDone);
    if TotalStages(e) > 0 {
      Percentage(CompletedStages(e), TotalStages(e));
    }
  }

  lemma Percentage(c: nat, t: nat)
    requires 0 < t && c <= t
    ensures 0.0 <= (c as real / t as real) * 100.0 <= 100.0
    ensures (c as real / t as real) * 100.0 == 100.0 <==> c == t
    ensures (c as real / t as real) * 100.0 == 0.0 <==> c == 0
  {
    var q := c as real / t as real;
    assert q * t as real == c as real;
    if q == 1.0 {
      assert c as real == t as real;
    }
  }

  /** isPast: the end is before now and the stage is open. */
  predicate IsPast(s: Stage, now: int)
  {
    s.deadlineEnd < now && !s.isCompleted
  }

  datatype RowStyle = Done | Overdue | Plain

  /** The row background: completed first, then past, then the default. */
  function StageRowStyle(s: Stage, now: int): (r: RowStyle)
    ensures r == Done <==> s.isCompleted
    ensures r == Overdue <==> IsPast(s, now)
    ensures r == Plain <==> !s.isCompleted && now <= s.deadlineEnd
  {
    if s.isCompleted then Done else if IsPast(s, now) then Overdue else Plain
  }

  /** The stage's round button asks for the negation of its completion. */
  function ToggleClick(s: Stage): (r: ToggleRequest)
    ensures r.stageId == s.id && r.isCompleted != s.isCompleted
  {
    ToggleRequest(s.id, !s.isCompleted)
  }

  /** The "n/m stages completed" button exists only for a non-empty stages list. */
  predicate ExpandButtonShown(e: Event)
  {
    e.stages.Some? && |e.stages.value| > 0
  }

  predicate StagesShown(e: Event, expanded: bool)
  {
    expanded && e.stages.Some?
  }

  predicate AttachmentsShown(e: Event, expanded: bool)
  {
    expanded && e.attachments.Some? && |e.attachments.value| > 0
  }

  /**
   * A card is expanded only after a click on its button, which exists only
   * while the event has stages; so a card whose event has no stages stays
   * collapsed and lists neither stages nor attachments, whatever it holds.
   */
  lemma CardWithoutStagesListsNothing(e: Event, expanded: bool)
    requires expanded ==> ExpandButtonShown(e)
    requires !ExpandButtonShown(e)
    ensures !StagesShown(e, expanded) && !AttachmentsShown(e, expanded)
  {
  }

  class CardView {
    var expanded: bool

    /** The card was expanded only by a click on the button shown for event e. */
    predicate ExpandedByButton(e: Event)
      reads this
    {
      expanded ==> ExpandButtonShown(e)
    }

    constructor()
      ensures !expanded
      ensures forall e :: ExpandedByButton(e)
    {
      expanded := false;
    }

    /** The expand button, rendered only for an event with stages, flips `expanded`. */
    method ToggleExpanded(e: Event)
      requires ExpandButtonShown(e)
      modifies this
      ensures expanded == !old(expanded)
      ensures ExpandedByButton(e)
    {
      expanded := !expanded;
    }

    /** What the collapsed or expanded card lists. */
    method Visible(e: Event) returns (stages: seq<Stage>, attachments: seq<Attachment>)
      ensures !expanded ==> stages == [] && attachments == []
      ensures expanded ==> stages == StagesOf(e)
      ensures attachments != [] <==> AttachmentsShown(e, expanded)
      ensures AttachmentsShown(e, expanded) ==> attachments == e.attachments.value
    {
      stages, attachments := [], [];
      if StagesShown(e, expanded) {
        stages := e.stages.value;
      }
      if AttachmentsShown(e, expanded) {
        attachments := e.attachments.value;
      }
    }
  }
}
