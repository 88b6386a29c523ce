# Event Navigator — a Dafny model of its client logic

Event Navigator is a React client for tracking events (competitions,
hackathons, applications) and the deadline stages of each one. This project
models its client-side logic in Dafny and proves properties of that model:

- **Deadline reminders** (`notifications.dfy`). This is the core: the periodic
  `checkDeadlines` scan. It walks every stage of every event and raises
  on-day, next-day and seven-day reminders and a missed-deadline alert. Each
  alert is raised at most once while the hook stays mounted, kept so by a
  set of keys that lives as long as the mount (a remount or a reload starts
  it empty, and the same reminders fire again). The set is a field of a class, and the scan
  is a method with two nested loops. The method is proved equal to a fold
  over the (event, stage) pairs, and the properties are proved about that
  fold.
- **Timeline**: item building, date filter, sort, grouping by day (a loop
  that fills a map), item status and the toggle button.
- **Calendar**: stages and events on a day, dates to highlight, the start/end
  badge, day selection and month navigation.
- **The event dialog and its host pages**: form loading, the stage, tag and
  link editors, and the decision between create and update.
- **Dashboard**: deadline counters, completed count, search, and the quick
  create form.
- **Event card**: progress, row style, toggle request and the expand flag.
- **useEvents**: query result shaping, the event, stage and tag rows written
  on create and update, and the stage toggle row.
- **Settings**: preference defaults, optimistic update with revert, and the
  dark mode toggle.
- **Profile page and profile hook**: load and save mappings, avatar checks
  and storage path, and initials.
- **Password strength meter**.
- **Reset-password and sign-in pages**: the form rules, the per-field errors
  (`form_errors.dfy`, shared by both pages), the recovery-session decision,
  and the choice of failure message.

Shared modules:

- **Clock** measures time as integer milliseconds. The local calendar day of
  an instant is `(t + LocalOffsetMs) / MsPerDay`; weeks start on Sunday and
  months are civil months.
- **Types** holds the entities of `src/types/index.ts`, with `Option` for
  nullable and optional fields.
- **Seqs** holds `filter`, removal by index, a stable insertion sort and
  flattening.
- **Text** holds `startsWith`, `includes`, `split`/`join` and ASCII case
  mapping.

Each awaited call in a handler splits the handler into a `Start…` and a
`Finish…` method. The awaited result becomes a parameter of `Finish…`, so
the flags set before and cleared after the await can be observed.

The model follows the code where it departs from its own types:

- The stage rows loaded from the database have no `deadline` property. Yet
  the reminder scan, the dashboard counters and the row builders read
  `stage.deadline`. `Stage.deadline` is therefore an `Option<int>` that is
  `None` for loaded rows.
  - `Notifications.RowsWithoutDeadlineNeverAlert` proves that such rows never
    raise a reminder.
  - `Dashboard.StoredRowsCountNothing` proves that they never count as
    upcoming.
  - The row builders are modelled only for drafts that carry a `deadline`,
    as the dashboard's do. The event dialog's stages have none, so its
    submits throw before any stage row is written (see "## Left out"). Even
    for a dashboard draft, `deadline` is not a column of `event_stages`, whose
    insert requires `deadline_end`; the model does not check rows against
    the table's columns.
- In a zod object schema, `refine` still runs when a `min` rule has failed.
  So on the reset page a mismatch message overwrites a too-short message on
  `confirmPassword`.
- A display name made only of spaces counts as present, so its initials are
  empty and the email fallback is skipped.
- The stored preference flags are nullable. The reminder scan tests them
  for truthiness, so a null flag is off there (`Notifications.ScanPreferences`),
  while the settings page loads the same null as on.
- A failed preference write sets the flag to the negation of the value that
  was written. It does not restore the value from before the write.

## Model

| member | source | states |
|---|---|---|
| Notifications.DeadlineNotifier.Scan | src/hooks/useNotifications.tsx:95-159 | the nested loops raise exactly the alerts of the specification fold, in visiting order, and leave the notified set it computes; the set only grows |
| Notifications.DeadlineNotifier.CheckStage | src/hooks/useNotifications.tsx:104-157 | one stage's callback, with its four sequential checks and set updates, equals the stage pass of the specification |
| Notifications.DeadlineNotifier.constructor | src/hooks/useNotifications.tsx:17 | each mount of the hook starts with an empty notified set |
| Notifications.ScanGuard | src/hooks/useNotifications.tsx:95 | without preferences or without events nothing is raised and the set is unchanged |
| Notifications.StageFiresExactly | src/hooks/useNotifications.tsx:104-156 | a stage raises a reminder of a kind iff: it is not completed, its day key is unrecorded, and the kind's own flag and day hold; the missed alert needs only a past deadline and an unrecorded missed key, with no flag |
| Notifications.StagePassShape | src/hooks/useNotifications.tsx:104-156 | per stage: at most one upcoming reminder plus at most one missed alert; every alert names this stage and its deadline and had an unrecorded key; the set grows by exactly the alert keys |
| Notifications.SevenDayWindowIsDayPlusSeven | src/hooks/useNotifications.tsx:133-135 | the seven-day interval test holds iff the deadline's local day is today plus seven |
| Notifications.StageSettles | src/hooks/useNotifications.tsx:108-156 | running a stage's pass again on the set it produced raises nothing |
| Notifications.EntriesMembership | src/hooks/useNotifications.tsx:103-104 | the scan visits exactly the (event, stage) pairs of the given events |
| Notifications.ScanRecordsEveryAlert | src/hooks/useNotifications.tsx:103-157 | a scan's set grows by exactly the keys of its alerts; every alerted key was unrecorded; no key is alerted twice in one scan |
| Notifications.ScanAlertsComeFromOpenStages | src/hooks/useNotifications.tsx:62-159 | every alert comes from a listed, open stage with a deadline; it is destructive iff it is the missed alert; it plays the tone iff sound_enabled is set |
| Notifications.ScanIdempotent | src/hooks/useNotifications.tsx:103-157 | rerunning a scan with the same now, events and preferences raises and records nothing |
| Notifications.SuccessiveScansNeverRepeatAKey | src/hooks/useNotifications.tsx:108-156 | two successive scans on any inputs never alert the same key |
| Notifications.RecordedDayKeySilencesStage | src/hooks/useNotifications.tsx:108-110 | once a stage's day key is recorded, that stage raises nothing for that day, not even the missed alert |
| Notifications.ScanPreferences | src/hooks/useNotifications.tsx:63 | each flag the scan and playSound test is on iff the stored column is true; a null column is off |
| Notifications.RowsWithoutDeadlineNeverAlert | src/hooks/useNotifications.tsx:107 | stages without a `deadline` property never raise or record anything |
| Timeline.StageItems | src/pages/Timeline.tsx:48-64 | a stage gives its end item first, then its start item exactly when it has a start |
| Timeline.EventItemsMembership | src/pages/Timeline.tsx:44-67 | an item comes from an event's stages iff it is the end item of one of them, or its start item when a start exists |
| Timeline.ItemsMembership | src/pages/Timeline.tsx:43-68 | the timeline holds exactly the end items of all listed stages, and the start items of those that have a start |
| Timeline.EventItemsCount | src/pages/Timeline.tsx:44-67 | one end item per stage, and as many start items as stages with a start |
| Timeline.ItemsCount | src/pages/Timeline.tsx:43-68 | over all events: end items equal the stages, start items equal the stages with a start |
| Timeline.FiltersPartitionAtStartOfToday | src/pages/Timeline.tsx:71-76 | 'upcoming' keeps items from the start of today on; 'upcoming' and 'past' split the items between them; 'all' keeps every item |
| Timeline.VisibleItems | src/pages/Timeline.tsx:71-77 | the shown list is sorted by date and is a permutation of the items the filter keeps |
| Timeline.GroupByDay | src/pages/Timeline.tsx:80-85 | the reduce gives one key per day in order of first appearance; each day's group is that day's items in list order |
| Timeline.DaysInOrderSpec | src/pages/Timeline.tsx:80-85 | the group keys are distinct and are exactly the days of the items |
| Timeline.GroupsConcatenateToSorted | src/pages/Timeline.tsx:80-85 | on the sorted list, the groups read in key order give back the list |
| Timeline.ItemStatusConditions | src/pages/Timeline.tsx:113-119 | each of the five statuses holds iff its own condition holds and all earlier ones fail |
| Timeline.ToggleButton | src/pages/Timeline.tsx:269-276 | only end items have a toggle, and it asks for the negated completion of that stage |
| DialogHost.EventDialogHost.constructor | src/pages/Timeline.tsx:36-37 | the dialog starts closed with no event being edited |
| DialogHost.EventDialogHost.HandleEdit | src/pages/Timeline.tsx:87-90 | editing opens the dialog on that event |
| DialogHost.EventDialogHost.HandleDialogClose | src/pages/Timeline.tsx:92-95 | closing clears the edited event; opening keeps it |
| DialogHost.EventDialogHost.StartSubmit | src/pages/Timeline.tsx:97-102 | the request is an update of the edited event's id iff an event is being edited, otherwise a create, always with the form |
| DialogHost.EventDialogHost.FinishSubmit | src/pages/Timeline.tsx:103 | the edited event is cleared once the awaited save resolves |
| Calendar.Attach | src/pages/Calendar.tsx:42 | each selected stage is paired with its event, in order |
| Calendar.StagesForDateMembership | src/pages/Calendar.tsx:36-44 | a day lists a stage iff it belongs to a listed event and starts or ends on that day |
| Calendar.EventsForDateAreOwners | src/pages/Calendar.tsx:47-55 | a day lists an event iff the event is listed and one of its stages starts or ends on that day; no duplicates are added |
| Calendar.EventDatesAreItemDates | src/pages/Calendar.tsx:62-66 | an event's highlight dates are the dates of its timeline items, in the same order |
| Calendar.DatesAreTimelineDates | src/pages/Calendar.tsx:61-67 | the highlighted dates are the dates of the timeline items |
| Calendar.DatesCount | src/pages/Calendar.tsx:61-67 | there is one highlight date per stage end, plus one per stage start |
| Calendar.EventHighlight | src/pages/Calendar.tsx:61-67 | an event's dates hit a day iff one of its stages starts or ends on it |
| Calendar.HighlightIffListed | src/pages/Calendar.tsx:61-67 | a day is highlighted iff its stage list is non-empty |
| Calendar.Label | src/pages/Calendar.tsx:192-216 | the badge is 'Starts' iff the stage starts on the selected day, and otherwise 'Ends'; the shown time is that of the chosen end; for a listed stage it falls on the selected day |
| Calendar.YearMonth | src/pages/Calendar.tsx:164-165 | a month index is a year and a month in 1..12 |
| Calendar.CalendarPage.constructor | src/pages/Calendar.tsx:30-31 | today is selected and its month is shown |
| Calendar.CalendarPage.Select | src/pages/Calendar.tsx:163 | a picked date is selected; an undefined one is ignored |
| Calendar.CalendarPage.PreviousMonth | src/pages/Calendar.tsx:146 | the shown month moves back one and the selection stays |
| Calendar.CalendarPage.MonthChange | src/pages/Calendar.tsx:165 | the day picker's own navigation shows the month of the date it reports; the selection stays |
| Calendar.CalendarPage.NextMonth | src/pages/Calendar.tsx:153 | the shown month moves on one and the selection stays |
| EventDialog.LoadStage | src/components/EventDialog.tsx:64-70 | a stored stage loads with id, name, start, end and completion kept |
| EventDialog.LoadStages | src/components/EventDialog.tsx:64-70 | stages load one for one and in order |
| EventDialog.TagIds | src/components/EventDialog.tsx:71 | the form keeps the ids of the event's tags, in order |
| EventDialog.LoadAttachments | src/components/EventDialog.tsx:72-76 | attachments load one for one with name, kind and url |
| EventDialog.LoadForm | src/components/EventDialog.tsx:52-93 | no event gives the empty form; each of the six nullable texts loads as '' when absent and as stored otherwise; title, priority and event date are kept; present stages load one for one (an empty list stays empty), absent stages give one blank stage, and only then; tags load as their ids and attachments as (name, type, url), absent lists as empty |
| EventDialog.AddStage | src/components/EventDialog.tsx:101-106 | one blank stage is appended and nothing else changes |
| EventDialog.RemoveStage | src/components/EventDialog.tsx:108-113 | an index in range removes exactly that stage; any other index changes nothing |
| EventDialog.RemoveUndoesAdd | src/components/EventDialog.tsx:101-113 | removing the stage just added gives the form back |
| EventDialog.VisibleRemoveKeepsAStage | src/components/EventDialog.tsx:329 | the remove button shows only with two stages or more, so the form always keeps a stage |
| EventDialog.ApplyEdit | src/components/EventDialog.tsx:117 | an edit sets exactly the chosen field of the stage |
| EventDialog.UpdateStage | src/components/EventDialog.tsx:115-119 | only the stage at the index changes, and only by the edit |
| EventDialog.ToggleTag | src/components/EventDialog.tsx:121-128 | the tag's membership flips; every other tag keeps its membership |
| EventDialog.ToggleTwice | src/components/EventDialog.tsx:121-128 | toggling a tag twice yields the same tag membership, and the same form when the tag was absent |
| EventDialog.AddLink | src/components/EventDialog.tsx:130-137 | a link without a name or url changes nothing; otherwise it is appended as a link attachment and the draft is cleared |
| EventDialog.RemoveAttachment | src/components/EventDialog.tsx:160-165 | an index in range removes exactly that attachment; any other index changes nothing |
| EventDialog.RemoveUndoesAddLink | src/components/EventDialog.tsx:130-165 | removing the link just added gives the form back |
| EventDialog.HandleSubmit | src/components/EventDialog.tsx:95-99 | an empty title submits nothing; otherwise the form is submitted unchanged, and the dialog closes iff the save resolves |
| EventDialog.EnabledButtonSubmits | src/components/EventDialog.tsx:468 | an enabled button always submits; the empty form never does |
| Dashboard.UpcomingStagesSpec | src/pages/Dashboard.tsx:76-77 | a stage is upcoming iff it belongs to a listed event, is open and its deadline is after now |
| Dashboard.CountsOrdered | src/pages/Dashboard.tsx:79-81 | today's count is at most the week's and the month's, which are at most the upcoming count |
| Dashboard.StoredRowsCountNothing | src/pages/Dashboard.tsx:77 | stages without a `deadline` property are never upcoming, so every counter is 0 |
| Dashboard.CompletedEventsSpec | src/pages/Dashboard.tsx:78 | the completed count is at most the event count, with equality iff every event is completed |
| Dashboard.SearchSpec | src/pages/Dashboard.tsx:84-87 | the empty query keeps every event; the search ignores the case of the query |
| Dashboard.HandleCreateEvent | src/pages/Dashboard.tsx:38-52 | an empty title does nothing; otherwise the form is sent; on success the form resets to one blank stage and the dialog closes |
| Dashboard.AddDraft | src/pages/Dashboard.tsx:54-59 | one blank stage dated now is appended and nothing else changes |
| Dashboard.RemoveDraft | src/pages/Dashboard.tsx:61-66 | an index in range removes exactly that stage; any other index changes nothing |
| Dashboard.UpdateDraft | src/pages/Dashboard.tsx:68-72 | only the stage at the index changes, and only in the edited field |
| Dashboard.RemoveUndoesAdd | src/pages/Dashboard.tsx:54-66 | removing the stage just added gives the form back |
| EventCard.ProgressBounds | src/components/EventCard.tsx:40-42 | completed ≤ total; progress lies in 0..100, equals 100 iff there are stages and all are completed, and equals 0 iff none is completed |
| EventCard.StageRowStyle | src/components/EventCard.tsx:161-167 | completed rows are done; open rows past their end are overdue; all other rows are plain |
| EventCard.ToggleClick | src/components/EventCard.tsx:171 | the click asks for the negated completion of that stage |
| EventCard.CardView.constructor | src/components/EventCard.tsx:29 | a card starts collapsed, so it was not expanded by any button |
| EventCard.CardView.ToggleExpanded | src/components/EventCard.tsx:146-149 | the button, rendered only for an event with stages, flips the expanded flag |
| EventCard.CardView.Visible | src/components/EventCard.tsx:158-198 | a collapsed card shows nothing; an expanded one shows the event's stages, and the attachments iff there are any, even when the event has lost its stages since the card was expanded |
| EventCard.CardWithoutStagesListsNothing | src/components/EventCard.tsx:146-194 | a card not expanded while its event had stages lists neither stages nor attachments, even when attachments exist, since the expand button shows only for an event with stages |
| UseEvents.FindTag | src/hooks/useEvents.tsx:49 | the found tag is listed and has the id; nothing is found iff no listed tag has it |
| UseEvents.KnownTagsSpec | src/hooks/useEvents.tsx:47-50 | the joined tags are exactly those found for the rows; one per row with a known tag |
| UseEvents.KnownTagsOfNothing | src/hooks/useEvents.tsx:49-50 | with no tags loaded, no tag is joined |
| UseEvents.JoinTagsSpec | src/hooks/useEvents.tsx:47-50 | an event gets exactly the found tags of its own rows; missing rows or missing tags give [] |
| UseEvents.ShapeEvent | src/hooks/useEvents.tsx:42-51 | the stages come out sorted by sort_order as a permutation of those fetched; tags are joined; nothing else changes |
| UseEvents.EventsQuery | src/hooks/useEvents.tsx:12-54 | without a user the query yields []; otherwise each fetched event is shaped, in order |
| UseEvents.StageRows | src/hooks/useEvents.tsx:85-90 | one row per form stage, with its name and deadline, and sort_order equal to its position |
| UseEvents.SortRestoresFormOrder | src/hooks/useEvents.tsx:46 | sorting the stored stage rows of a form, in any fetch order, gives them back in form order |
| UseEvents.TagRows | src/hooks/useEvents.tsx:101-104 | one row per selected tag id, in order |
| UseEvents.TagRowsRoundTrip | src/hooks/useEvents.tsx:101-104 | joining the written tag rows gives back the selected tags, in order, when all are known |
| UseEvents.KnownAll | src/hooks/useEvents.tsx:47-50 | when every row's tag is known, one tag is joined per row, in order |
| Types.NullIfEmpty | src/hooks/useEvents.tsx:66 | a text is stored as null iff it is absent or empty, and unchanged otherwise |
| UseEvents.Create | src/hooks/useEvents.tsx:56-110 | without a user: 'Not authenticated'; otherwise, for a form whose stages carry a `deadline`, the event, stage and tag rows of the form are added |
| UseEvents.Update | src/hooks/useEvents.tsx:128-184 | without a user: 'Not authenticated'; otherwise, for a form whose stages carry a `deadline`, the event row is rewritten from the form |
| UseEvents.UpdateReflectsOnlyTheForm | src/hooks/useEvents.tsx:150-182 | for a form whose stages carry a `deadline` (the dashboard's drafts), after an update the event's stages and tags are exactly the form's; other events' rows are untouched |
| UseEvents.ToggleRow | src/hooks/useEvents.tsx:224-231 | only that stage changes: completion is set, and completed_at is non-null iff completed |
| UseEvents.ToggleTwice | src/hooks/useEvents.tsx:224-231 | toggling a stage from its button twice restores its completion, and completed_at is then set iff the stage is completed |
| Settings.WithFlag | src/pages/Settings.tsx:88 | the optimistic update sets flag k to the value and leaves the other flags alone |
| Settings.FlagsDetermine | src/pages/Settings.tsx:48-53 | preferences are determined by their four flags |
| Settings.RevertAfterFailure | src/pages/Settings.tsx:98-106 | the revert writes !value: this undoes a change to a new value, and flips back a flag that already had the value |
| Settings.LoadPreferences | src/pages/Settings.tsx:71-77 | a stored null flag loads as true; stored booleans are kept |
| Settings.PageAndScanReadNullFlagsApart | src/pages/Settings.tsx:73-76 | a null flag is on for the settings page but off for the reminder scan; with no null flag both read the row alike |
| Settings.SettingsPage.constructor | src/pages/Settings.tsx:48-56 | all four flags start true; the page is loading and not saving |
| Settings.SettingsPage.Mount | src/pages/Settings.tsx:58-83 | dark mode follows the class; without a user nothing loads and loading stays on; otherwise a row is loaded if read and loading ends |
| Settings.SettingsPage.StartUpdatePreference | src/pages/Settings.tsx:85-94 | nothing happens without a user; otherwise only flag k takes the value, saving starts and the write is (k, value) |
| Settings.SettingsPage.FinishUpdatePreference | src/pages/Settings.tsx:96-106 | saving ends; on failure the 'Failed to update preferences' error toast is raised and flag k becomes !value, nothing else changes; on success no toast and no change |
| Settings.SettingsPage.ToggleDarkMode | src/pages/Settings.tsx:109-119 | the mode flips, the class follows, and 'dark' or 'light' is stored to match |
| Profile.LoadProfile | src/pages/Profile.tsx:66-76 | each of the six text columns loads as '' when absent and as stored otherwise; the avatar url is kept as stored |
| Profile.SavePayload | src/pages/Profile.tsx:164-171 | each of the six text fields is sent as null when empty and unchanged otherwise |
| Profile.SaveThenLoad | src/pages/Profile.tsx:157-171 | loading the saved row gives the form back |
| Profile.LoadThenSave | src/pages/Profile.tsx:66-76 | saving a loaded row unedited writes null for each empty or absent text and keeps every other text |
| Profile.Ext | src/pages/Profile.tsx:114 | the extension holds no '.' |
| Profile.ExtSpec | src/pages/Profile.tsx:114 | the extension is the text after the last '.', or the whole name when it has none |
| Profile.CheckAvatar | src/pages/Profile.tsx:89-115 | a non-image is refused before the size is looked at; a file over 5·1024·1024 bytes is refused; otherwise the path is `<userId>/avatar.<ext>` |
| Profile.SizeBoundary | src/pages/Profile.tsx:102 | exactly 5 MiB is accepted, one byte more is refused, and a non-image is refused whatever its size |
| Profile.FirstCharsAreWordStarts | src/pages/Profile.tsx:192 | the first characters of the space-separated pieces are the word starts of the name |
| Profile.GetInitials | src/pages/Profile.tsx:190-195 | with a name: its upper-cased word starts, at most two; without one, the upper-cased first email character; otherwise 'U' |
| Profile.BlankNameGivesNoInitials | src/pages/Profile.tsx:191-192 | a name of spaces only gives empty initials, as written |
| Profile.TwoWordInitials | src/pages/Profile.tsx:190-195 | any two non-empty space-free words joined by a space give their two first letters, upper-cased, whatever the email |
| Profile.ProfilePage.constructor | src/pages/Profile.tsx:43-54 | the form starts blank with no avatar; the page is loading, not saving and not uploading |
| Profile.ProfilePage.Mount | src/pages/Profile.tsx:56-80 | without a user nothing changes and loading stays on; otherwise a row is loaded if read and loading ends |
| Profile.ProfilePage.StartAvatarChange | src/pages/Profile.tsx:87-111 | no file or no user does nothing; otherwise the checks decide, and uploading starts only for an accepted file |
| Profile.ProfilePage.FinishAvatarChange | src/pages/Profile.tsx:140-154 | a stored url replaces only the avatar; uploading ends on success and on failure |
| Profile.ProfilePage.StartSave | src/pages/Profile.tsx:157-171 | nothing happens without a user; otherwise saving starts with the save payload of the form |
| Profile.ProfilePage.FinishSave | src/pages/Profile.tsx:174 | saving ends whatever the outcome |
| UseProfile.Normalise | src/hooks/useProfile.tsx:34-42 | every field goes through `|| null` |
| UseProfile.NormaliseSpec | src/hooks/useProfile.tsx:34-42 | none of the seven columns of a normalised row is an empty text, and normalising twice changes nothing |
| UseProfile.HookInitials | src/hooks/useProfile.tsx:84-89 | the hook's initials follow the page's rule, applied to the stored display name |
| UseProfile.InitialsAgreeWithPage | src/hooks/useProfile.tsx:84-89 | for the same stored row, the hook and the page show the same initials |
| UseProfile.ProfileHook.constructor | src/hooks/useProfile.tsx:17-18 | no profile yet, and loading |
| UseProfile.ProfileHook.Fetch | src/hooks/useProfile.tsx:21-45 | loading always ends; the profile is replaced by the normalised row only when a user is set and a row was read |
| UseProfile.ProfileHook.OnChange | src/hooks/useProfile.tsx:61-73 | a payload with a new row replaces the whole profile with the normalised row |
| PasswordStrength.Strength | src/components/PasswordStrengthMeter.tsx:10-47 | an empty password gives 0 with no label or colour; otherwise the score is the scaled count of passed checks, and label and colour are those of its band; the score stays within 0..100 |
| PasswordStrength.RawScore | src/components/PasswordStrengthMeter.tsx:13-24 | at most 7 checks pass |
| PasswordStrength.Normalised | src/components/PasswordStrengthMeter.tsx:27 | the score is raw/7·100 capped at 100, and lies in 0..100 |
| PasswordStrength.NonEmptyScores | src/components/PasswordStrengthMeter.tsx:21-24 | every character falls in one of the four classes, so a shown password scores at least 1 and has a label |
| PasswordStrength.AppendNeverLowers | src/components/PasswordStrengthMeter.tsx:16-24 | appending characters never lowers the raw or the scaled score |
| PasswordStrength.BandsInPoints | src/components/PasswordStrengthMeter.tsx:32-44 | Weak iff at most 2 checks pass, Fair iff 3, Good iff 4 or 5, Strong iff 6 or 7 |
| PasswordStrength.TextColourAgreesWithBand | src/components/PasswordStrengthMeter.tsx:57-63 | exactly one text colour class applies, the one of the label's band |
| FormErrors.FieldOf | src/pages/Auth.tsx:45 | an issue is filed iff its path starts with a non-empty name |
| FormErrors.CollectErrors | src/pages/ResetPassword.tsx:87-90 | the forEach builds the error map of the issues in order |
| FormErrors.LastIssueWins | src/pages/ResetPassword.tsx:88-90 | a field has an error iff some issue names it, and the message is that of the last such issue |
| FormErrors.ErrorsOnlyForNamedFields | src/pages/Auth.tsx:43-46 | only fields that some issue names get an error |
| ResetPassword.ResetErrorsAre | src/pages/ResetPassword.tsx:13-19 | the error map for the two passwords, spelled out rule by rule |
| ResetPassword.ResetErrors | src/pages/ResetPassword.tsx:13-19 | a short password errs on `password`; on the confirmation, a mismatch gives "Passwords don't match" and otherwise a short one gives the length message; the form passes iff both have at least 6 characters and are equal |
| ResetPassword.SessionValid | src/pages/ResetPassword.tsx:42-61 | with a recovery link the session is valid iff setSession succeeds; otherwise iff a session already exists |
| ResetPassword.ResetPasswordPage.constructor | src/pages/ResetPassword.tsx:25-30 | loading, no valid session, no errors, not submitting |
| ResetPassword.ResetPasswordPage.HandleAuthRedirect | src/pages/ResetPassword.tsx:35-62 | setSession is called iff it is a recovery link, with no fallback; the session only becomes valid, by that decision; loading ends |
| ResetPassword.ResetPasswordPage.StartReset | src/pages/ResetPassword.tsx:79-96 | the errors are those of the rules; the update is sent, and submitting starts, iff no rule fails |
| ResetPassword.ResetPasswordPage.FinishReset | src/pages/ResetPassword.tsx:98-116 | submitting ends; a failure toasts its message; a success signs out and goes to /auth |
| Auth.AuthErrorsAre | src/pages/Auth.tsx:13-17 | the error map for the form, spelled out rule by rule |
| Auth.AuthErrors | src/pages/Auth.tsx:13-17 | under 6 characters gives 'Password must be at least 6 characters' on `password`; a bad address errs on `email`; the form passes iff neither |
| Auth.LoginFailure | src/pages/Auth.tsx:56-63 | 'Invalid login credentials' is reworded; other messages pass through verbatim |
| Auth.SignupFailure | src/pages/Auth.tsx:93-106 | a message containing 'already registered' gives the 'Account exists' toast with its fixed login hint; any other gives 'Signup failed' with the raw message |
| Auth.RegisteredAnywhere | src/pages/Auth.tsx:94 | the phrase anywhere in the message selects 'Account exists' |
| Auth.AuthPage.constructor | src/pages/Auth.tsx:23-27 | not submitting, no errors |
| Auth.AuthPage.OnUser | src/pages/Auth.tsx:29-33 | a signed-in user is sent to /dashboard |
| Auth.AuthPage.StartSubmit | src/pages/Auth.tsx:35-52 | the errors are those of the rules; the auth call is made, with submitting on, iff none fails |
| Auth.AuthPage.FinishLogin | src/pages/Auth.tsx:54-69 | submitting ends; the toast is the login failure or the welcome-back message |
| Auth.AuthPage.FinishSignup | src/pages/Auth.tsx:91-112 | submitting ends; the toast is the signup failure or the welcome message |
| Types.AllStagesMembership | src/pages/Dashboard.tsx:76 | a stage is among all stages iff it belongs to a listed event |

## Left out

- Supabase I/O is not modelled: queries, inserts, deletes, storage uploads,
  `getPublicUrl` and query caching. The data they return becomes a
  parameter, and the rows they write become values. The table model
  `UseEvents.Tables` stands in for the three tables.
- UseEvents.Create and UseEvents.Update model every write as succeeding,
  over forms whose stages carry a `deadline`. They do not model a failed
  insert after earlier writes went through, nor the error toasts; in
  particular they do not model the certain failure of an event-dialog submit
  with a stage, described below.
- The `setInterval` timer and effect re-runs are not modelled. Each scan is
  one call of `Scan` with the time `now` as a parameter; the notified set
  persisting across re-runs is kept.
- The browser Notification API is not modelled: neither the native
  notification raised under granted permission nor the permission request.
  Audio playback is reduced to `Alert.sound`, which treats the audio element
  as present.
- Toast rendering is out of scope; where a toast is modelled it is a value.
  The profile page's upload, save and validation toasts are not modelled
  beyond the check outcome.
- date-fns time zones, DST and locale are simplified. Local time is a fixed
  offset from UTC, and weeks start on Sunday. The Timeline date label
  (`getDateLabel`) and all `format` strings are not modelled; grouping uses
  the local day number in place of the 'yyyy-MM-dd' key, which is one-to-one
  on days.
- Case mapping covers ASCII letters only, and `length` counts characters,
  not UTF-16 code units.
- The email rule of the sign-in form is an input (`emailOk`), not zod's
  regular expression.
- The auth-state listener of the reset page is an asynchronous callback and
  is not modelled. Neither is `useAuth`.
- The stage-row builder is modelled over the dashboard's drafts, whose
  `StageDraft.deadline` it reads. The event dialog's submit, as the timeline
  and calendar pages pass it on unchanged, is not run through it: the
  dialog's stages carry `deadline_start` and `deadline_end` but no
  `deadline`, so `stage.deadline.toISOString()` throws on any dialog submit
  with a stage. That throw is not modelled. What it leaves behind is not
  modelled either: after a dialog create, the event row exists with no stage
  and no tag rows; after a dialog update, the event row is rewritten and its
  stage rows are deleted, while its tag rows stay as they were.
- The dialog's file-attachment handler is not modelled, because it depends
  on `URL.createObjectURL`.
- The profile page's cache-buster timestamp is not modelled: the stored url
  is a parameter.
- Settings' JSON export and download are not modelled (DOM only). Neither
  are the delete and status mutations of useEvents, the thin query wrappers
  (useCategories, useTags) or the theme toggle.
- Progress and the strength score use exact reals, not IEEE floating point.
