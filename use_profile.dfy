/**
 * The profile hook: the loaded and pushed profile rows with every falsy
 * field normalised to null, the loading flag, and the same initials rule as
 * the profile page.
 */
module UseProfile {
  import opened Types
  import Profile

  /** Every field through `|| null`. */
  function Normalise(row: Profile.ProfileRow): (r: Profile.ProfileRow)
    ensures r.displayName == NullIfEmpty(row.displayName) && r.avatarUrl == NullIfEmpty(row.avatarUrl)
    ensures r.bio == NullIfEmpty(row.bio) && r.website == NullIfEmpty(row.website)
    ensures r.dateOfBirth == NullIfEmpty(row.dateOfBirth) && r.phone == NullIfEmpty(row.phone)
    ensures r.location == NullIfEmpty(row.location)
  {
    Profile.ProfileRow(NullIfEmpty(row.displayName), NullIfEmpty(row.avatarUrl), NullIfEmpty(row.bio),
                       NullIfEmpty(row.dateOfBirth), NullIfEmpty(row.phone), NullIfEmpty(row.location),
                       NullIfEmpty(row.website))
  }

  /** A normalised row holds no empty text, and normalising it again changes nothing. */
  lemma NormaliseSpec(row: Profile.ProfileRow)
    ensures Normalise(row).avatarUrl != Some("")
    ensures forall fld :: Profile.RowText(Normalise(row), fld) != Some("")
    ensures Normalise(Normalise(row)) == Normalise(row)
  {
  }

  /** getInitials: `profile?.display_name` decides, then the page's rule applies. */
  function HookInitials(profile: Option<Profile.ProfileRow>, email: Option<string>): (r: string)
    ensures var name := if profile.Some? then OrEmpty(profile.value.displayName) else "";
            r == Profile.GetInitials(name, email)
  {
    var name := match profile
      case Some(p) => OrEmpty(p.displayName)
      case None => "";
    Profile.GetInitials(name, email)
  }

  /** The hook and the page show the same initials for the same stored profile. */
  lemma InitialsAgreeWithPage(row: Profile.ProfileRow, email: Option<string>)
    ensures HookInitials(Some(Normalise(row)), email) == Profile.GetInitials(Profile.LoadProfile(row).displayName, email)
  {
    OrEmptyUndoesNullIfEmpty(row.displayName);
  }

  class ProfileHook {
    var profile: Option<Profile.ProfileRow>
    var isLoading: bool

    constructor()
      ensures profile.None? && isLoading
    {
      profile := None;
      isLoading := true;
    }

    /**
     * The fetch: without a user the profile stays as it is and loading ends;
     * a row read without error replaces it normalised; loading ends in every case.
     */
    method Fetch(user: Option<User>, fetched: Option<Profile.ProfileRow>)
      modifies this
      ensures !isLoading
      ensures profile == if user.Some? && fetched.Some? then Some(Normalise(fetched.value)) else old(profile)
    {
      if user.None? {
        isLoading := false;
        return;
      }
      if fetched.Some? {
        profile := Some(Normalise(fetched.value));
      }
      isLoading := false;
    }

    /** A change payload with a new row replaces the whole profile, normalised. */
    method OnChange(payloadNew: Option<Profile.ProfileRow>)
      modifies this
      ensures profile == if payloadNew.Some? then Some(Normalise(payloadNew.value)) else old(profile)
      ensures isLoading == old(isLoading)
    {
      if payloadNew.Some? {
        profile := Some(Normalise(payloadNew.value));
      }
    }
  }
}
