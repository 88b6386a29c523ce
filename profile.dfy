/**
 * The profile page: loading the stored profile into the form, the save
 * payload, the avatar checks and storage path, and the initials shown when
 * there is no avatar.
 */
module Profile {
  import opened Types
  import opened Text

  /** A profiles row; every text column is nullable. */
  datatype ProfileRow = ProfileRow(
    displayName: Option<string>,
    avatarUrl: Option<string>,
    bio: Option<string>,
    dateOfBirth: Option<string>,
    phone: Option<string>,
    location: Option<string>,
    website: Option<string>)

  /** The page's form state: texts default to '', the avatar url stays nullable. */
  datatype ProfileForm = ProfileForm(
    displayName: string,
    avatarUrl: Option<string>,
    bio: string,
    dateOfBirth: string,
    phone: string,
    location: string,
    website: string)

  const BlankForm := ProfileForm("", None, "", "", "", "", "")

  /** The six text columns the page edits. */
  datatype TextField = DisplayName | Bio | DateOfBirth | Phone | Location | Website

  function RowText(row: ProfileRow, fld: TextField): Option<string>
  {
    match fld
    case DisplayName => row.displayName
    case Bio => row.bio
    case DateOfBirth => row.dateOfBirth
    case Phone => row.phone
    case Location => row.location
    case Website => row.website
  }

  function FormText(f: ProfileForm, fld: TextField): string
  {
    match fld
    case DisplayName => f.displayName
    case Bio => f.bio
    case DateOfBirth => f.dateOfBirth
    case Phone => f.phone
    case Location => f.location
    case Website => f.website
  }

  /** The load mapping: every absent text becomes '', a present one is kept, the avatar url is kept as stored. */
  function LoadProfile(row: ProfileRow): (r: ProfileForm)
    ensures r.avatarUrl == row.avatarUrl
    ensures forall fld :: RowText(row, fld).None? ==> FormText(r, fld) == ""
    ensures forall fld :: RowText(row, fld).Some? ==> FormText(r, fld) == RowText(row, fld).value
  {
    ProfileForm(OrEmpty(row.displayName), row.avatarUrl, OrEmpty(row.bio), OrEmpty(row.dateOfBirth),
                OrEmpty(row.phone), OrEmpty(row.location), OrEmpty(row.website))
  }

  /** The columns handleSave writes. */
  datatype SaveRow = SaveRow(
    displayName: Option<string>,
    bio: Option<string>,
    dateOfBirth: Option<string>,
    phone: Option<string>,
    location: Option<string>,
    website: Option<string>)

  function SaveText(p: SaveRow, fld: TextField): Option<string>
  {
    match fld
    case DisplayName => p.displayName
    case Bio => p.bio
    case DateOfBirth => p.dateOfBirth
    case Phone => p.phone
    case Location => p.location
    case Website => p.website
  }

  /** The save payload: an empty field is sent as null, any other value unchanged. */
  function SavePayload(f: ProfileForm): (r: SaveRow)
    ensures forall fld :: SaveText(r, fld) == (if FormText(f, fld) == "" then None else Some(FormText(f, fld)))
  {
    SaveRow(NullIfEmpty(Some(f.displayName)), NullIfEmpty(Some(f.bio)), NullIfEmpty(Some(f.dateOfBirth)),
            NullIfEmpty(Some(f.phone)), NullIfEmpty(Some(f.location)), NullIfEmpty(Some(f.website)))
  }

  /** The stored row after a save. */
  function Saved(f: ProfileForm): ProfileRow
  {
    var p := SavePayload(f);
    ProfileRow(p.displayName, f.avatarUrl, p.bio, p.dateOfBirth, p.phone, p.location, p.website)
  }

  /** Saving the form and loading the stored row gives the form back. */
  lemma SaveThenLoad(f: ProfileForm)
    ensures LoadProfile(Saved(f)) == f
  {
  }

  /** Loading a stored row and saving it unedited writes null for every empty or absent text and keeps the rest. */
  lemma LoadThenSave(row: ProfileRow)
    ensures forall fld :: SaveText(SavePayload(LoadProfile(row)), fld) == NullIfEmpty(RowText(row, fld))
  {
  }

  datatype File = File(name: string, mimeType: string, size: nat)

  const MaxAvatarBytes := 5 * 1024 * 1024

  /** `file.name.split('.').pop()`: the text after the last '.', or the whole name. */
  function Ext(name: string): (r: string)
    ensures '.' !in r
  {
    var parts := Split(name, '.');
    SplitJoin(name, '.');
    assert parts[|parts| - 1] in parts;
    parts[|parts| - 1]
  }

  /** The extension is the text after the last '.', and a name without a '.' is its own extension. */
  lemma ExtSpec(stem: string, ext: string)
    requires '.' !in ext
    ensures Ext(stem + "." + ext) == ext
    ensures Ext(ext) == ext
  {
    SplitAround(stem, ext, '.');
    SplitWithout(ext, '.');
  }

  datatype AvatarCheck = InvalidType | TooLarge | Upload(path: string)

  /**
   * The avatar checks in order: a non-image is refused before its size is
   * looked at; a file over 5 MiB is refused, one of exactly 5 MiB is not;
   * an accepted file goes to `<userId>/avatar.<ext>`.
   */
  function CheckAvatar(userId: string, file: File): (r: AvatarCheck)
    ensures r == InvalidType <==> !HasPrefix(file.mimeType, "image/")
    ensures r == TooLarge <==> HasPrefix(file.mimeType, "image/") && file.size > MaxAvatarBytes
    ensures r.Upload? ==> r.path == userId + "/avatar." + Ext(file.name)
  {
    if !HasPrefix(file.mimeType, "image/") then InvalidType
    else if file.size > MaxAvatarBytes then TooLarge
    else Upload(userId + "/avatar." + Ext(file.name))
  }

  lemma SizeBoundary(userId: string, name: string)
    ensures CheckAvatar(userId, File(name, "image/png", MaxAvatarBytes)).Upload?
    ensures CheckAvatar(userId, File(name, "image/png", MaxAvatarBytes + 1)) == TooLarge
    ensures CheckAvatar(userId, File(name, "text/plain", MaxAvatarBytes + 1)) == InvalidType
  {
    assert HasPrefix("image/png", "image/");
    assert !HasPrefix("text/plain", "image/") by {
      assert "text/plain"[..6] != "image/" by { assert "text/plain"[0] != "image/"[0]; }
    }
  }

  function Take2(s: string): string
  {
    if |s| <= 2 then s else s[..2]
  }

  /** `parts.map(n => n[0]).join('')`: the first character of every non-empty part. */
  function FirstChars(parts: seq<string>): string
  {
    if parts == [] then "" else (if parts[0] != "" then [parts[0][0]] else "") + FirstChars(parts[1..])
  }

  /**
   * The word starts of a string, read left to right: every non-space
   * character that opens the string or follows a space.
   */
  function WordStarts(s: string, afterSpace: bool): string
  {
    if s == [] then ""
    else (if s[0] != ' ' && afterSpace then [s[0]] else "") + WordStarts(s[1..], s[0] == ' ')
  }

  /** The first characters of the space-separated pieces are the word starts. */
  lemma {:induction false} FirstCharsAreWordStarts(s: string)
    ensures FirstChars(Split(s, ' ')) == WordStarts(s, true)
    ensures FirstChars(Split(s, ' ')[1..]) == WordStarts(s, false)
  {
    if s != [] {
      FirstCharsAreWordStarts(s[1..]);
      var rest := Split(s[1..], ' ');
      if s[0] == ' ' {
        assert Split(s, ' ') == [""] + rest;
        assert ([""] + rest)[1..] == rest;
      } else {
        var parts := [[s[0]] + rest[0]] + rest[1..];
        assert Split(s, ' ') == parts;
        assert parts[1..] == rest[1..];
        assert FirstChars(rest) == (if rest[0] != "" then [rest[0][0]] else "") + FirstChars(rest[1..]);
      }
    }
  }

  /** A name of spaces only has no word starts. */
  lemma {:induction false} SpacesHaveNoWordStarts(s: string, afterSpace: bool)
    requires forall i :: 0 <= i < |s| ==> s[i] == ' '
    ensures WordStarts(s, afterSpace) == ""
  {
    if s != [] {
      SpacesHaveNoWordStarts(s[1..], true);
    }
  }

  /**
   * getInitials: with a display name, the upper-cased word starts, at most
   * two; without one, the upper-cased first character of the email; and 'U'
   * when there is no email either.
   */
  function GetInitials(displayName: string, email: Option<string>): (r: string)
    ensures displayName != "" ==> r == Take2(Upper(WordStarts(displayName, true)))
    ensures displayName == "" && email.Some? && email.value != "" ==> r == [UpperChar(email.value[0])]
    ensures displayName == "" && (email.None? || email.value == "") ==> r == "U"
    ensures |r| <= 2
  {
    if displayName != "" then
      FirstCharsAreWordStarts(displayName);
      Take2(Upper(FirstChars(Split(displayName, ' '))))
    else
      var fromEmail := match email case Some(e) => Upper(e[..if |e| > 0 then 1 else 0]) case None => "";
      if fromEmail != "" then fromEmail else "U"
  }

  /** A display name made only of spaces is non-empty, so the email fallback is skipped and the initials are empty. */
  lemma BlankNameGivesNoInitials(n: nat, email: Option<string>)
    requires n > 0
    ensures GetInitials(seq(n, _ => ' '), email) == ""
  {
    SpacesHaveNoWordStarts(seq(n, _ => ' '), true);
  }

  /** The word starts of a string with no space are its first character when the string opens a word, and nothing otherwise. */
  lemma {:induction false} OneWordStarts(w: string, afterSpace: bool)
    requires ' ' !in w
    ensures WordStarts(w, afterSpace) == if w != "" && afterSpace then [w[0]] else ""
  {
    if w != "" {
      assert w[0] in w;
      assert forall c :: c in w[1..] ==> c in w;
      OneWordStarts(w[1..], false);
    }
  }

  /** A word followed by a space contributes at most its first character, and the rest starts a new word. */
  lemma {:induction false} WordThenSpace(w: string, rest: string, afterSpace: bool)
    requires ' ' !in w
    ensures WordStarts(w + " " + rest, afterSpace) ==
            (if w != "" && afterSpace then [w[0]] else "") + WordStarts(rest, true)
  {
    if w == "" {
      assert w + " " + rest == [' '] + rest;
    } else {
      assert w[0] in w;
      assert forall c :: c in w[1..] ==> c in w;
      assert (w + " " + rest)[1..] == w[1..] + " " + rest;
      WordThenSpace(w[1..], rest, false);
    }
  }

  /** Two words separated by a space give their two first letters, upper-cased, whatever the email. */
  lemma TwoWordInitials(w1: string, w2: string, email: Option<string>)
    requires w1 != "" && w2 != "" && ' ' !in w1 && ' ' !in w2
    ensures GetInitials(w1 + " " + w2, email) == [UpperChar(w1[0]), UpperChar(w2[0])]
  {
    WordThenSpace(w1, w2, true);
    OneWordStarts(w2, true);
  }

  class ProfilePage {
    var profile: ProfileForm
    var isLoading: bool
    var isSaving: bool
    var isUploading: bool

    constructor()
      ensures profile == BlankForm && isLoading && !isSaving && !isUploading
    {
      profile := BlankForm;
      isLoading := true;
      isSaving := false;
      isUploading := false;
    }

    /** The mount effect: without a user it returns at once; a row read without error fills the form; loading then ends. */
    method Mount(user: Option<User>, fetched: Option<ProfileRow>)
      modifies this
      ensures user.None? ==> profile == old(profile) && isLoading == old(isLoading)
      ensures user.Some? ==> !isLoading && profile == if fetched.Some? then LoadProfile(fetched.value) else old(profile)
      ensures isSaving == old(isSaving) && isUploading == old(isUploading)
    {
      if user.None? {
        return;
      }
      if fetched.Some? {
        profile := LoadProfile(fetched.value);
      }
      isLoading := false;
    }

    /**
     * handleAvatarChange up to the upload: nothing without a file or a user,
     * a refusal for a failed check, and otherwise uploading starts with the
     * storage path.
     */
    method StartAvatarChange(user: Option<User>, file: Option<File>) returns (check: Option<AvatarCheck>)
      modifies this
      ensures file.None? || user.None? ==> check.None?
      ensures file.Some? && user.Some? ==> check == Some(CheckAvatar(user.value.id, file.value))
      ensures isUploading == (old(isUploading) || (check.Some? && check.value.Upload?))
      ensures profile == old(profile) && isLoading == old(isLoading) && isSaving == old(isSaving)
    {
      check := None;
      if file.None? || user.None? {
        return;
      }
      check := Some(CheckAvatar(user.value.id, file.value));
      if check.value.Upload? {
        isUploading := true;
      }
    }

    /**
     * handleAvatarChange after the upload: a stored url replaces the avatar;
     * uploading ends in the finally block, on success and on failure.
     */
    method FinishAvatarChange(avatarUrl: Option<string>)
      modifies this
      ensures !isUploading
      ensures profile == if avatarUrl.Some? then old(profile).(avatarUrl := avatarUrl) else old(profile)
      ensures isLoading == old(isLoading) && isSaving == old(isSaving)
    {
      if avatarUrl.Some? {
        profile := profile.(avatarUrl := avatarUrl);
      }
      isUploading := false;
    }

    /** handleSave up to its await: nothing without a user; otherwise saving starts with the payload. */
    method StartSave(user: Option<User>) returns (payload: Option<SaveRow>)
      modifies this
      ensures user.None? ==> payload.None? && isSaving == old(isSaving)
      ensures user.Some? ==> payload == Some(SavePayload(profile)) && isSaving
      ensures profile == old(profile) && isLoading == old(isLoading) && isUploading == old(isUploading)
    {
      payload := None;
      if user.None? {
        return;
      }
      isSaving := true;
      payload := Some(SavePayload(profile));
    }

    /** handleSave after its await: saving ends whatever the outcome. */
    method FinishSave()
      modifies this
      ensures !isSaving
      ensures profile == old(profile) && isLoading == old(isLoading) && isUploading == old(isUploading)
    {
      isSaving := false;
    }
  }
}
