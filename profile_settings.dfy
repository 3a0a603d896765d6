/**
 * The profile tab of the admin panel: the saved display name, an edit buffer with an
 * editing flag, and the loading flag of the initial fetch.
 */
module ProfileSettings {
  import opened Optional
  import opened Backend
  import JsString

  /** `profile.display_name`, the edit buffer `displayName`, `isEditing` and `loading`. */
  datatype ProfileState = ProfileState(saved: Option<string>, buffer: string, isEditing: bool, loading: bool)

  const Initial := ProfileState(None, "", false, true)

  /** The error code of a single-row lookup that found no row. */
  const NotFound := "PGRST116"

  /** `fetchProfile` run to completion. */
  function Fetched(s: ProfileState, call: Call<DisplayNameRow>): (r: ProfileState)
    ensures !r.loading && r.isEditing == s.isEditing
    ensures (call.CallThrew? || (call.reply.error.Some? && call.reply.error.value.code != NotFound)) ==>
      r.saved == s.saved && r.buffer == s.buffer
    ensures call.Answered? && (call.reply.error.None? || call.reply.error.value.code == NotFound) ==>
      r.saved == (if call.reply.data.Some? then call.reply.data.value.display_name else None) &&
      r.buffer == r.saved.GetOr("")
  {
    match call
    case CallThrew => s.(loading := false)
    case Answered(reply) =>
      if reply.error.Some? && reply.error.value.code != NotFound then s.(loading := false)
      else
        var row := reply.data.GetOr(DisplayNameRow(None));
        s.(saved := row.display_name, buffer := row.display_name.GetOr(""), loading := false)
  }

  /** The row `updateProfile` upserts, keyed on `user_id`. */
  datatype Upsert = Upsert(user_id: Option<string>, display_name: Option<string>)

  function UpsertOf(s: ProfileState, user: Option<AuthUser>): (u: Upsert)
    ensures u.display_name == JsString.TrimmedOrNull(s.buffer)
    ensures u.user_id == if user.Some? then Some(user.value.id) else None
  {
    Upsert(if user.Some? then Some(user.value.id) else None, JsString.TrimmedOrNull(s.buffer))
  }

  /**
   * `updateProfile` run to completion. A thrown upsert and an upsert answering an error take the
   * same path, so both are `WriteFailed` here.
   */
  function Saved(s: ProfileState, outcome: WriteResult): (r: ProfileState)
    ensures outcome.WriteOk? ==> r == s.(saved := JsString.TrimmedOrNull(s.buffer), isEditing := false)
    ensures outcome.WriteFailed? ==> r == s
  {
    if outcome.WriteOk? then s.(saved := JsString.TrimmedOrNull(s.buffer), isEditing := false) else s
  }

  /** The cancel button: editing off and the buffer restored from the saved name. */
  function Cancelled(s: ProfileState): (r: ProfileState)
    ensures !r.isEditing && r.buffer == s.saved.GetOr("") && r.saved == s.saved && r.loading == s.loading
  {
    s.(isEditing := false, buffer := s.saved.GetOr(""))
  }

  /** What the read-only field shows: the saved name, or 'No display name set'. */
  function Shown(s: ProfileState): (r: string)
    ensures r != []
    ensures s.saved.Some? && s.saved.value != [] ==> r == s.saved.value
    ensures s.saved.None? || s.saved.value == [] ==> r == "No display name set"
  {
    JsString.Or(s.saved.GetOr(""), "No display name set")
  }

  /** The buffer mirrors the saved name. */
  predicate InSync(s: ProfileState) {
    s.buffer == s.saved.GetOr("")
  }

  /** A fetch that is not a real error, and a cancel, both leave the buffer mirroring the saved name. */
  lemma FetchAndCancelSync(s: ProfileState, call: Call<DisplayNameRow>)
    ensures call.Answered? && (call.reply.error.None? || call.reply.error.value.code == NotFound) ==> InSync(Fetched(s, call))
    ensures InSync(Cancelled(s))
  {
  }

  /** A profile that is not there yet (the not-found error) loads as an empty name. */
  lemma MissingProfileLoadsEmpty(s: ProfileState, message: string)
    ensures Fetched(s, Answered(Reply(None, Some(DbError(NotFound, message))))) ==
      s.(saved := None, buffer := "", loading := false)
  {
  }

  /**
   * Saving stores the trimmed buffer, and the read-only field then shows that trimmed name or,
   * for a blank buffer, the placeholder; cancelling afterwards replaces the untrimmed buffer
   * with the trimmed name.
   */
  lemma SaveThenCancel(s: ProfileState)
    ensures var t := Saved(s, WriteOk);
      !t.isEditing &&
      Shown(t) == (if JsString.AllWhitespace(s.buffer) then "No display name set" else JsString.Trim(s.buffer)) &&
      Cancelled(t).buffer == JsString.Trim(s.buffer)
  {
    JsString.TrimEmptyIffBlank(s.buffer);
  }

  /** A failed save changes nothing, so the user stays in the editor with the typed text. */
  lemma FailedSaveKeepsEditing(s: ProfileState, error: DbError)
    requires s.isEditing
    ensures Saved(s, WriteFailed(error)).isEditing && Saved(s, WriteFailed(error)).buffer == s.buffer
  {
  }

  /** The component's state. */
  class ProfileTab {
    var saved: Option<string>
    var buffer: string
    var isEditing: bool
    var loading: bool

    function State(): ProfileState
      reads this
    {
      ProfileState(saved, buffer, isEditing, loading)
    }

    constructor ()
      ensures State() == Initial
    {
      saved, buffer, isEditing, loading := None, "", false, true;
    }

    /** The effect on `[user]`: a fetch starts when, and only when, a user is present; without one the tab stays in its loading view. */
    method OnUser(user: Option<AuthUser>) returns (fetching: bool)
      ensures fetching <==> user.Some?
    {
      fetching := user.Some?;
    }

    method FetchProfile(call: Call<DisplayNameRow>)
      modifies this
      ensures State() == Fetched(old(State()), call)
    {
      if call.Answered? && !(call.reply.error.Some? && call.reply.error.value.code != NotFound) {
        var row := call.reply.data.GetOr(DisplayNameRow(None));
        saved := row.display_name;
        buffer := row.display_name.GetOr("");
      }
      loading := false;
    }

    /** `updateProfile`; `upsert` is the row it sends. */
    method UpdateProfile(user: Option<AuthUser>, outcome: WriteResult) returns (upsert: Upsert)
      modifies this
      ensures upsert == UpsertOf(old(State()), user)
      ensures State() == Saved(old(State()), outcome)
    {
      var s := State();
      var value := JsString.TrimmedOrNull(s.buffer);
      upsert := Upsert(if user.Some? then Some(user.value.id) else None, value);
      if outcome.WriteOk? {
        saved := value;
        isEditing := false;
        assert State() == s.(saved := value, isEditing := false);
      }
    }

    method Cancel()
      modifies this
      ensures State() == Cancelled(old(State()))
    {
      isEditing := false;
      buffer := saved.GetOr("");
    }

    method StartEditing()
      modifies this
      ensures State() == old(State()).(isEditing := true)
    {
      isEditing := true;
    }

    method EditBuffer(value: string)
      modifies this
      ensures State() == old(State()).(buffer := value)
    {
      buffer := value;
    }
  }
}
