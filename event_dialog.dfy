/**
 * The create/edit event dialog: loading the form from an event, the stage,
 * tag and link list edits, and the submit guard. Every handler builds a new
 * form value from the old one.
 */
module EventDialog {
  import opened Types
  import opened Seqs

  /** A stage row of the form; `id` and `isCompleted` are present only for loaded stages. */
  datatype FormStage = FormStage(
    id: Option<string>,
    name: string,
    deadlineStart: Option<int>,
    deadlineEnd: Option<int>,
    isCompleted: Option<bool>)

  datatype FormAttachment = FormAttachment(name: string, kind: AttachmentKind, url: string)

  datatype DialogForm = DialogForm(
    title: string,
    description: string,
    venue: string,
    organizer: string,
    registrationLink: string,
    priority: Priority,
    categoryId: string,
    notes: string,
    eventDate: Option<int>,
    stages: seq<FormStage>,
    tagIds: seq<string>,
    attachments: seq<FormAttachment>)

  /** The link being typed in the attachments tab. */
  datatype NewLink = NewLink(name: string, url: string)

  const BlankStage := FormStage(None, "", None, None, None)

  const EmptyForm := DialogForm("", "", "", "", "", Medium, "", "", None, [BlankStage], [], [])

  function LoadStage(s: Stage): (r: FormStage)
    ensures r.id == Some(s.id) && r.name == s.name
    ensures r.deadlineStart == s.deadlineStart && r.deadlineEnd == Some(s.deadlineEnd)
    ensures r.isCompleted == Some(s.isCompleted)
  {
    FormStage(Some(s.id), s.name, s.deadlineStart, Some(s.deadlineEnd), Some(s.isCompleted))
  }

  function LoadStages(stages: seq<Stage>): (r: seq<FormStage>)
    ensures |r| == |stages| && forall k :: 0 <= k < |r| ==> r[k] == LoadStage(stages[k])
  {
    seq(|stages|, k requires 0 <= k < |stages| => LoadStage(stages[k]))
  }

  function TagIds(tags: seq<Tag>): (r: seq<string>)
    ensures |r| == |tags| && forall k :: 0 <= k < |r| ==> r[k] == tags[k].id
  {
    seq(|tags|, k requires 0 <= k < |tags| => tags[k].id)
  }

  function LoadAttachments(atts: seq<Attachment>): (r: seq<FormAttachment>)
    ensures |r| == |atts| && forall k :: 0 <= k < |r| ==> r[k] == FormAttachment(atts[k].name, atts[k].kind, atts[k].url)
  {
    seq(|atts|, k requires 0 <= k < |atts| => FormAttachment(atts[k].name, atts[k].kind, atts[k].url))
  }

  /** A nullable text column as the form holds it: '' when absent, the stored text otherwise. */
  predicate LoadsAs(o: Option<string>, text: string)
  {
    match o
    case None => text == ""
    case Some(v) => text == v
  }

  /**
   * The effect that fills the form whenever the dialog opens or its event
   * changes. Without an event the form is blank. With one, absent text fields
   * load as '' and present ones are kept; the single blank stage appears
   * exactly when the event has no stages list at all, while an empty list
   * loads as no stages; absent tag and attachment lists load as empty.
   */
  function LoadForm(event: Option<Event>): (r: DialogForm)
    ensures event.None? ==> r == EmptyForm
    ensures event.Some? ==> r.title == event.value.title && r.priority == event.value.priority
    ensures event.Some? ==> LoadsAs(event.value.description, r.description)
    ensures event.Some? ==> LoadsAs(event.value.venue, r.venue)
    ensures event.Some? ==> LoadsAs(event.value.organizer, r.organizer)
    ensures event.Some? ==> LoadsAs(event.value.registrationLink, r.registrationLink)
    ensures event.Some? ==> LoadsAs(event.value.categoryId, r.categoryId)
    ensures event.Some? ==> LoadsAs(event.value.notes, r.notes)
    ensures event.Some? ==> r.eventDate == event.value.eventDate
    ensures event.Some? ==> (r.stages == [BlankStage] <==> event.value.stages.None?)
    ensures event.Some? && event.value.stages == Some([]) ==> r.stages == []
    ensures event.Some? && event.value.stages.Some? ==> r.stages == LoadStages(event.value.stages.value)
    ensures event.Some? && event.value.stages.Some? ==>
            |r.stages| == |event.value.stages.value| &&
            forall k :: 0 <= k < |r.stages| ==> r.stages[k].id == Some(event.value.stages.value[k].id)
    ensures event.Some? ==> r.tagIds == if event.value.tags.Some? then TagIds(event.value.tags.value) else []
    ensures event.Some? ==>
            r.attachments == if event.value.attachments.Some? then LoadAttachments(event.value.attachments.value) else []
  {
    match event
    case None => EmptyForm
    case Some(e) =>
      var stages := match e.stages
        case Some(ss) =>
          assert |ss| > 0 ==> LoadStages(ss)[0].id.Some?;
          LoadStages(ss)
        case None => [BlankStage];
      DialogForm(
        e.title, OrEmpty(e.description), OrEmpty(e.venue), OrEmpty(e.organizer),
        OrEmpty(e.registrationLink), e.priority, OrEmpty(e.categoryId), OrEmpty(e.notes),
        e.eventDate, stages,
        match e.tags case Some(ts) => TagIds(ts) case None => [],
        match e.attachments case Some(atts) => LoadAttachments(atts) case None => [])
  }

  /** addStage: one blank stage at the end, the existing stages and every other field unchanged. */
  function AddStage(f: DialogForm): (r: DialogForm)
    ensures |r.stages| == |f.stages| + 1
    ensures r.stages[..|f.stages|] == f.stages && r.stages[|f.stages|] == BlankStage
    ensures r.(stages := f.stages) == f
  {
    f.(stages := f.stages + [BlankStage])
  }

  /** removeStage: the stage at the index goes, the others keep their order. */
  function RemoveStage(f: DialogForm, index: int): (r: DialogForm)
    ensures 0 <= index < |f.stages| ==> |r.stages| == |f.stages| - 1
    ensures 0 <= index < |f.stages| ==>
            r.stages[..index] == f.stages[..index] && r.stages[index..] == f.stages[index + 1..]
    ensures !(0 <= index < |f.stages|) ==> r == f
    ensures r.(stages := f.stages) == f
  {
    f.(stages := RemoveAt(f.stages, index))
  }

  /** Removing the stage just added gives the form back. */
  lemma RemoveUndoesAdd(f: DialogForm)
    ensures RemoveStage(AddStage(f), |f.stages|) == f
  {
  }

  /** The remove button is rendered only when there is more than one stage. */
  predicate RemoveShown(f: DialogForm) { |f.stages| > 1 }

  /** Through the buttons it renders, the form never loses its last stage. */
  lemma VisibleRemoveKeepsAStage(f: DialogForm, index: int)
    requires RemoveShown(f)
    ensures |RemoveStage(f, index).stages| >= 1
  {
  }

  datatype StageEdit = SetName(name: string) | SetStart(start: Option<int>) | SetEnd(end: Option<int>)

  /** `{ ...stage, [field]: value }` */
  function ApplyEdit(s: FormStage, edit: StageEdit): (r: FormStage)
    ensures edit.SetName? ==> r.name == edit.name && r.(name := s.name) == s
    ensures edit.SetStart? ==> r.deadlineStart == edit.start && r.(deadlineStart := s.deadlineStart) == s
    ensures edit.SetEnd? ==> r.deadlineEnd == edit.end && r.(deadlineEnd := s.deadlineEnd) == s
  {
    match edit
    case SetName(n) => s.(name := n)
    case SetStart(t) => s.(deadlineStart := t)
    case SetEnd(t) => s.(deadlineEnd := t)
  }

  /** updateStage: only the named field of the indexed stage changes. */
  function UpdateStage(f: DialogForm, index: nat, edit: StageEdit): (r: DialogForm)
    requires index < |f.stages|
    ensures |r.stages| == |f.stages|
    ensures forall j :: 0 <= j < |f.stages| && j != index ==> r.stages[j] == f.stages[j]
    ensures r.stages[index] == ApplyEdit(f.stages[index], edit)
    ensures r.(stages := f.stages) == f
  {
    f.(stages := f.stages[index := ApplyEdit(f.stages[index], edit)])
  }

  /** toggleTag: drops every copy of a present id, appends an absent one. */
  function ToggleTag(f: DialogForm, tagId: string): (r: DialogForm)
    ensures tagId in r.tagIds <==> tagId !in f.tagIds
    ensures forall t :: t != tagId ==> (t in r.tagIds <==> t in f.tagIds)
    ensures r.(tagIds := f.tagIds) == f
  {
    if tagId in f.tagIds then f.(tagIds := Filter(f.tagIds, id => id != tagId))
    else f.(tagIds := f.tagIds + [tagId])
  }

  /**
   * Toggling a tag twice restores which tags are selected; when the tag was
   * not selected it restores the form exactly.
   */
  lemma ToggleTwice(f: DialogForm, tagId: string)
    ensures forall t :: t in ToggleTag(ToggleTag(f, tagId), tagId).tagIds <==> t in f.tagIds
    ensures tagId !in f.tagIds ==> ToggleTag(ToggleTag(f, tagId), tagId) == f
  {
    if tagId !in f.tagIds {
      FilterAppend(f.tagIds, [tagId], id => id != tagId);
      FilterKeepsAll(f.tagIds, id => id != tagId);
    }
  }

  /**
   * addLink: with both a name and a url, appends one link attachment and
   * clears the input; otherwise changes nothing.
   */
  function AddLink(f: DialogForm, link: NewLink): (r: (DialogForm, NewLink))
    ensures link.name == "" || link.url == "" ==> r == (f, link)
    ensures link.name != "" && link.url != "" ==>
            r.0.attachments == f.attachments + [FormAttachment(link.name, LinkAttachment, link.url)] &&
            r.0.(attachments := f.attachments) == f &&
            r.1 == NewLink("", "")
  {
    if link.name == "" || link.url == "" then (f, link)
    else (f.(attachments := f.attachments + [FormAttachment(link.name, LinkAttachment, link.url)]), NewLink("", ""))
  }

  /** removeAttachment: only the indexed attachment goes. */
  function RemoveAttachment(f: DialogForm, index: int): (r: DialogForm)
    ensures 0 <= index < |f.attachments| ==>
            r.attachments == f.attachments[..index] + f.attachments[index + 1..]
    ensures !(0 <= index < |f.attachments|) ==> r == f
    ensures r.(attachments := f.attachments) == f
  {
    f.(attachments := RemoveAt(f.attachments, index))
  }

  /** Removing the link just added gives the form back. */
  lemma RemoveUndoesAddLink(f: DialogForm, link: NewLink)
    requires link.name != "" && link.url != ""
    ensures RemoveAttachment(AddLink(f, link).0, |f.attachments|) == f
  {
    assert (f.attachments + [FormAttachment(link.name, LinkAttachment, link.url)])[..|f.attachments|] == f.attachments;
  }

  /** What handleSubmit does: the form handed to onSubmit, and whether the dialog closes. */
  datatype SubmitOutcome = SubmitOutcome(submitted: Option<DialogForm>, closes: bool)

  /**
   * handleSubmit: an empty title neither submits nor closes; otherwise the
   * form is submitted and the dialog closes once onSubmit resolves (a
   * rejected onSubmit leaves it open).
   */
  function HandleSubmit(f: DialogForm, resolves: bool): (r: SubmitOutcome)
    ensures r.submitted.None? <==> f.title == ""
    ensures r.submitted.Some? ==> r.submitted.value == f
    ensures r.closes <==> f.title != "" && resolves
  {
    if f.title == "" then SubmitOutcome(None, false) else SubmitOutcome(Some(f), resolves)
  }

  /** The submit button: disabled while submitting or while the title is empty. */
  predicate SubmitEnabled(f: DialogForm, isSubmitting: bool)
  {
    !isSubmitting && f.title != ""
  }

  /** An enabled button always submits; a freshly opened blank dialog cannot submit. */
  lemma EnabledButtonSubmits(f: DialogForm, isSubmitting: bool, resolves: bool)
    ensures SubmitEnabled(f, isSubmitting) ==> HandleSubmit(f, resolves).submitted == Some(f)
    ensures HandleSubmit(LoadForm(None), resolves).submitted.None?
  {
  }
}
