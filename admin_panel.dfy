/**
 * The announcements tab of the admin panel: the access gate read from the authorization
 * context, the announcement form (title, text, creator name) with its edit/create dialog,
 * and the record a submit writes.
 */
module AdminPanel {
  import opened Optional
  import opened Backend
  import JsString
  import Auth

  // ---------------------------------------------------------------------------------------
  // Access gate
  // ---------------------------------------------------------------------------------------

  /** The page navigates to `/auth` once loading is over and there is no user or the user holds neither capability. */
  predicate MustRedirect(a: Auth.AuthState) {
    !a.loading && (a.user.None? || (!a.isAdmin && !a.isOverseer))
  }

  /** The announcements are fetched when there is a user holding either capability. */
  predicate ShouldFetch(a: Auth.AuthState) {
    a.user.Some? && (a.isAdmin || a.isOverseer)
  }

  /** While loading nobody is redirected; afterwards a viewer is either redirected or served, never both and never neither. */
  lemma GateDecides(a: Auth.AuthState)
    ensures a.loading ==> !MustRedirect(a)
    ensures !a.loading ==> (MustRedirect(a) <==> !ShouldFetch(a))
  {
  }

  /** Signing out, or a lookup round that throws, sends the viewer to the sign-in page. */
  lemma SignOutOrFailureRedirects(a: Auth.AuthState, s: Option<Session>)
    ensures Auth.UserOf(s).None? ==> MustRedirect(Auth.SessionChanged(a, s))
    ensures MustRedirect(Auth.Resolve(a, Auth.Threw))
  {
  }

  /**
   * Switching directly from one admin's session to another user's keeps the first user's
   * `isAdmin` when the second user's admin lookup errors: the second user passes the gate.
   */
  lemma ErroredLookupKeepsPreviousAdmin(a: Auth.AuthState, s: Session, err: DbError, name: Option<string>)
    requires a.isAdmin && s.user.Some?
    ensures var b := Auth.Resolve(Auth.SessionChanged(a, Some(s)),
                                  Auth.Settled(Reply(None, Some(err)), Reply(Some(false), None), Reply(Some(DisplayNameRow(name)), None)));
      b.user == s.user && b.isAdmin && !b.isOverseer && ShouldFetch(b) && !MustRedirect(b)
  {
  }

  // ---------------------------------------------------------------------------------------
  // The record a submit writes
  // ---------------------------------------------------------------------------------------

  /** The `announcementData` object. */
  datatype AnnouncementData = AnnouncementData(
    classroom_id: string,
    announcement_id: string,
    title: Option<string>,
    text: string,
    creator_name: string,
    creation_time: string)

  /** `profile?.display_name || creatorName.trim() || user?.email || 'Admin'`. */
  function CreatorName(profile: Option<DisplayNameRow>, creatorName: string, user: Option<AuthUser>): (r: string)
    ensures r != []
    ensures profile.Some? && profile.value.display_name.Some? && profile.value.display_name.value != [] ==>
      r == profile.value.display_name.value
    ensures (profile.None? || profile.value.display_name.None? || profile.value.display_name.value == []) ==>
      if JsString.Trim(creatorName) != [] then r == JsString.Trim(creatorName)
      else if user.Some? && user.value.email.Some? && user.value.email.value != [] then r == user.value.email.value
      else r == "Admin"
  {
    var fromProfile := if profile.Some? then profile.value.display_name.GetOr("") else "";
    var email := if user.Some? then user.value.email.GetOr("") else "";
    JsString.Or(fromProfile, JsString.Or(JsString.Trim(creatorName), JsString.Or(email, "Admin")))
  }

  /** `admin-${Date.now()}`: the prefix, then the decimal digits of the clock reading. */
  function AnnouncementId(nowMs: nat): (id: string)
    ensures |id| > 6 && id[..6] == "admin-"
    ensures JsString.AllDigits(id[6..]) && JsString.DigitsValue(id[6..]) == nowMs
  {
    var id := "admin-" + JsString.NatToString(nowMs);
    assert id[6..] == JsString.NatToString(nowMs);
    id
  }

  /**
   * The record built from the form; `nowMs` is `Date.now()` and `nowIso` the ISO rendering of
   * the same instant, both read from the clock.
   */
  function BuildAnnouncement(title: string, text: string, creatorName: string,
                             profile: Option<DisplayNameRow>, user: Option<AuthUser>,
                             nowMs: nat, nowIso: string): (d: AnnouncementData)
    ensures d.classroom_id == "admin-created"
    ensures d.announcement_id == AnnouncementId(nowMs)
    ensures d.text == JsString.Trim(text)
    ensures d.title == JsString.TrimmedOrNull(title)
    ensures d.creator_name == CreatorName(profile, creatorName, user)
    ensures d.creation_time == nowIso
  {
    AnnouncementData("admin-created", AnnouncementId(nowMs), JsString.TrimmedOrNull(title), JsString.Trim(text),
                     CreatorName(profile, creatorName, user), nowIso)
  }

  /** Stored text never has surrounding whitespace. */
  lemma StoredTextTrimmed(title: string, text: string, creatorName: string,
                          profile: Option<DisplayNameRow>, user: Option<AuthUser>, nowMs: nat, nowIso: string)
    ensures var d := BuildAnnouncement(title, text, creatorName, profile, user, nowMs, nowIso);
      JsString.Trim(d.text) == d.text && (d.title.Some? ==> JsString.Trim(d.title.value) == d.title.value)
  {
    var d := BuildAnnouncement(title, text, creatorName, profile, user, nowMs, nowIso);
    assert d.text == JsString.Trim(text);
    JsString.TrimIdempotent(text);
    if d.title.Some? {
      assert d.title.value == JsString.Trim(title);
      JsString.TrimIdempotent(title);
    }
  }

  // ---------------------------------------------------------------------------------------
  // The form
  // ---------------------------------------------------------------------------------------

  /** The form's state variables. */
  datatype Form = Form(
    title: string, text: string, creatorName: string,
    editingId: Option<string>, dialogOpen: bool, submitting: bool)

  const EmptyForm := Form("", "", "", None, false, false)

  /** The write a submit issues: an update of the row being edited, or an insert. */
  datatype Write = Insert(data: AnnouncementData) | Update(id: string, data: AnnouncementData)

  /** `if (editingId)`: a null or empty id is falsy. */
  predicate Editing(f: Form) {
    f.editingId.Some? && f.editingId.value != []
  }

  /** `resetForm`. */
  function Reset(f: Form): (r: Form)
    ensures r.title == "" && r.text == "" && r.creatorName == ""
    ensures r.editingId == None && !r.dialogOpen && r.submitting == f.submitting
  {
    f.(title := "", text := "", creatorName := "", editingId := None, dialogOpen := false)
  }

  /** `handleEdit`: the row's fields, null read as '', with the row's id and the dialog open. */
  function Edit(f: Form, row: AnnouncementRow): (r: Form)
    ensures r.editingId == Some(row.id) && r.dialogOpen && r.submitting == f.submitting
    ensures r.title == row.title.GetOr("") && r.text == row.text.GetOr("") && r.creatorName == row.creator_name.GetOr("")
  {
    f.(editingId := Some(row.id), title := row.title.GetOr(""), text := row.text.GetOr(""),
       creatorName := row.creator_name.GetOr(""), dialogOpen := true)
  }

  /** The write a valid submit issues. */
  function WriteOf(f: Form, data: AnnouncementData): (w: Write)
    ensures w.Update? <==> Editing(f)
    ensures w.Update? ==> w.id == f.editingId.value
    ensures w.data == data
  {
    if Editing(f) then Update(f.editingId.value, data) else Insert(data)
  }

  /** The effect of a whole submit: the new form, the write issued (if any) and whether a refetch follows. */
  datatype Submitted = Submitted(form: Form, write: Option<Write>, refetch: bool)

  /**
   * `handleSubmit` run to completion, given the display-name lookup's data, the clock and the
   * write's outcome.
   */
  function Submit(f: Form, profile: Option<DisplayNameRow>, user: Option<AuthUser>,
                  nowMs: nat, nowIso: string, outcome: WriteResult): Submitted
  {
    if JsString.Trim(f.text) == [] then Submitted(f, None, false)
    else Written(f, BuildAnnouncement(f.title, f.text, f.creatorName, profile, user, nowMs, nowIso), outcome)
  }

  /** A submit with non-blank text builds the record and hands it to `Written`. */
  lemma SubmitBuildsThenWrites(f: Form, profile: Option<DisplayNameRow>, user: Option<AuthUser>,
                               nowMs: nat, nowIso: string, outcome: WriteResult)
    requires JsString.Trim(f.text) != []
    ensures Submit(f, profile, user, nowMs, nowIso, outcome) ==
      Written(f, BuildAnnouncement(f.title, f.text, f.creatorName, profile, user, nowMs, nowIso), outcome)
  {
  }

  /** The second half of a valid submit, once the record is built: the write, then reset and refetch on success. */
  function Written(f: Form, data: AnnouncementData, outcome: WriteResult): Submitted {
    var w := WriteOf(f, data);
    if outcome.WriteOk? then Submitted(Reset(f).(submitting := false), Some(w), true)
    else Submitted(f.(submitting := false), Some(w), false)
  }

  /** A blank text is rejected before anything else: no write, no refetch, the form (and `submitting`) untouched. */
  lemma BlankTextRejected(f: Form, profile: Option<DisplayNameRow>, user: Option<AuthUser>,
                          nowMs: nat, nowIso: string, outcome: WriteResult)
    ensures JsString.AllWhitespace(f.text) <==> Submit(f, profile, user, nowMs, nowIso, outcome).write.None?
    ensures JsString.AllWhitespace(f.text) ==> Submit(f, profile, user, nowMs, nowIso, outcome) == Submitted(f, None, false)
  {
    JsString.TrimEmptyIffBlank(f.text);
  }

  /** A valid submit updates exactly the row being edited, or inserts when no row is being edited, with the built record. */
  lemma SubmitWritesBuiltRecord(f: Form, profile: Option<DisplayNameRow>, user: Option<AuthUser>,
                                nowMs: nat, nowIso: string, outcome: WriteResult)
    requires !JsString.AllWhitespace(f.text)
    ensures var s := Submit(f, profile, user, nowMs, nowIso, outcome);
      var data := BuildAnnouncement(f.title, f.text, f.creatorName, profile, user, nowMs, nowIso);
      s.write == Some(if Editing(f) then Update(f.editingId.value, data) else Insert(data))
  {
    JsString.TrimEmptyIffBlank(f.text);
  }

  /** After a write the form is reset and a refetch follows on success, and kept on failure; `submitting` ends false either way. */
  lemma SubmitOutcome(f: Form, profile: Option<DisplayNameRow>, user: Option<AuthUser>,
                      nowMs: nat, nowIso: string, outcome: WriteResult)
    requires !JsString.AllWhitespace(f.text)
    ensures var s := Submit(f, profile, user, nowMs, nowIso, outcome);
      !s.form.submitting &&
      (outcome.WriteOk? ==> s.refetch && s.form == EmptyForm) &&
      (outcome.WriteFailed? ==> !s.refetch && s.form == f.(submitting := false))
  {
    JsString.TrimEmptyIffBlank(f.text);
  }

  /** Editing a row and submitting unchanged text writes an update of that row. */
  lemma EditThenSubmitUpdatesRow(f: Form, row: AnnouncementRow, profile: Option<DisplayNameRow>, user: Option<AuthUser>,
                                 nowMs: nat, nowIso: string, outcome: WriteResult)
    requires row.id != [] && row.text.Some? && !JsString.AllWhitespace(row.text.value)
    ensures var s := Submit(Edit(f, row), profile, user, nowMs, nowIso, outcome);
      s.write.Some? && s.write.value.Update? && s.write.value.id == row.id &&
      s.write.value.data.text == JsString.Trim(row.text.value)
  {
    SubmitWritesBuiltRecord(Edit(f, row), profile, user, nowMs, nowIso, outcome);
  }

  /** The component's state. */
  class AnnouncementsTab {
    var announcements: seq<AnnouncementRow>
    var title: string
    var text: string
    var creatorName: string
    var editingId: Option<string>
    var dialogOpen: bool
    var submitting: bool

    function State(): Form
      reads this
    {
      Form(title, text, creatorName, editingId, dialogOpen, submitting)
    }

    constructor ()
      ensures State() == EmptyForm && announcements == []
    {
      announcements := [];
      title, text, creatorName := "", "", "";
      editingId, dialogOpen, submitting := None, false, false;
    }

    /** `fetchAnnouncements`: an error keeps the list; otherwise the rows, or none for a null `data`. */
    method FetchAnnouncements(reply: Reply<seq<AnnouncementRow>>)
      modifies this
      ensures State() == old(State())
      ensures announcements == if reply.error.Some? then old(announcements) else reply.data.GetOr([])
    {
      if reply.error.None? {
        announcements := reply.data.GetOr([]);
      }
    }

    method ResetForm()
      modifies this
      ensures State() == Reset(old(State())) && announcements == old(announcements)
    {
      title, text, creatorName := "", "", "";
      editingId := None;
      dialogOpen := false;
    }

    method HandleEdit(row: AnnouncementRow)
      modifies this
      ensures State() == Edit(old(State()), row) && announcements == old(announcements)
    {
      editingId := Some(row.id);
      title := row.title.GetOr("");
      text := row.text.GetOr("");
      creatorName := row.creator_name.GetOr("");
      dialogOpen := true;
    }

    /**
     * `handleSubmit`, run to completion; `write` is the write it issued and `refetch` says the
     * list is to be fetched again.
     */
    method HandleSubmit(profile: Option<DisplayNameRow>, user: Option<AuthUser>,
                        nowMs: nat, nowIso: string, outcome: WriteResult)
      returns (write: Option<Write>, refetch: bool)
      modifies this
      ensures Submitted(State(), write, refetch) == Submit(old(State()), profile, user, nowMs, nowIso, outcome)
      ensures announcements == old(announcements)
    {
      var f := State();
      if JsString.Trim(f.text) == [] {
        return None, false;
      }
      submitting := true;
      var data := BuildAnnouncement(f.title, f.text, f.creatorName, profile, user, nowMs, nowIso);
      SubmitBuildsThenWrites(f, profile, user, nowMs, nowIso, outcome);
      write, refetch := Commit(f, data, outcome);
    }

    /** The part of `handleSubmit` after the record is built: the write, the reset on success, `submitting` off. */
    method Commit(ghost f: Form, data: AnnouncementData, outcome: WriteResult) returns (write: Option<Write>, refetch: bool)
      requires State() == f.(submitting := true)
      modifies this
      ensures Submitted(State(), write, refetch) == Written(f, data, outcome)
      ensures announcements == old(announcements)
    {
      write := Some(WriteOf(State(), data));
      refetch := outcome.WriteOk?;
      if outcome.WriteOk? {
        ResetForm();
      }
      submitting := false;
    }
  }
}
