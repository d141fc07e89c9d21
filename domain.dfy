/** The signed-in principal, the role gates every screen shares, and the small value
    conventions (`x || null`, search and drop-down matching) the screens apply to records. */
module Domain {
  import opened Wrappers
  import opened JsText

  datatype UserRole = Scientist | LabManager | Reviewer

  /** The fields of a profile row that the core reads. */
  datatype Profile = Profile(id: string, email: string, full_name: Option<string>, role: UserRole)

  /** `profile?.role`: no role while there is no profile. */
  function RoleOf(profile: Option<Profile>): Option<UserRole> {
    match profile
    case None => None
    case Some(p) => Some(p.role)
  }

  /** `profile?.role !== 'reviewer'`: everyone but a reviewer may create records, and so
      may an absent profile (undefined differs from 'reviewer'). */
  function CanCreate(profile: Option<Profile>): (ok: bool)
    ensures ok <==> RoleOf(profile) != Some(Reviewer)
    ensures profile.None? ==> ok
  {
    profile.None? || profile.value.role != Reviewer
  }

  /** `profile?.role === 'lab_manager'`. */
  function IsLabManager(profile: Option<Profile>): (ok: bool)
    ensures ok <==> RoleOf(profile) == Some(LabManager)
    ensures ok ==> CanCreate(profile)
  {
    profile.Some? && profile.value.role == LabManager
  }

  /** The guard every create handler starts with, `if (!name.trim() || !profile) return`:
      a create goes ahead only with a profile and a name holding a non-whitespace character. */
  function CanSubmit(name: string, profile: Option<Profile>): (ok: bool)
    ensures ok <==> profile.Some? && exists i :: 0 <= i < |name| && !IsJsWhitespace(name[i])
  {
    var t := Trim(name);
    var k := LeadingWhitespace(name);
    assert t != "" ==> !IsJsWhitespace(name[k]) by {
      if t != "" {
        assert t[0] == name[k];
      }
    }
    assert t == "" ==> forall i :: 0 <= i < |name| ==> IsJsWhitespace(name[i]);
    t != "" && profile.Some?
  }

  /** `s || null` for a form string: the empty string is stored as null, any other string
      as itself. */
  function OrNull(s: string): (r: Option<string>)
    ensures r.None? <==> s == ""
    ensures r.Some? ==> r.value == s
  {
    if s == "" then None else Some(s)
  }

  /** `field.toLowerCase().includes(search.toLowerCase())`. */
  predicate SearchHit(field: string, search: string) {
    Includes(Lower(field), Lower(search))
  }

  /** `field?.toLowerCase().includes(q) ?? false`: a null field never matches. */
  predicate OptionalHit(field: Option<string>, search: string) {
    field.Some? && SearchHit(field.value, search)
  }

  /** `filter === 'All' || value === filter`. */
  predicate ChoiceMatches(filter: string, value: string) {
    filter == "All" || value == filter
  }

  /** The empty search matches every field. */
  lemma EmptySearchHits(field: string)
    ensures SearchHit(field, "")
  {
    assert Lower("") == [];
  }
}
