/**
 * The events tab of the admin panel: a six-field event form with an edit/create dialog,
 * its validation, the record a submit writes and the refetch of the event list.
 */
module EventManagement {
  import opened Optional
  import opened Backend
  import JsString

  /** A row of the `events` table. */
  datatype EventRow = EventRow(
    id: string, name: string, description: Option<string>, date: string, time: string,
    location: string, participants: string, created_by: string, created_at: string)

  /** The `eventData` object; `created_by` is `user?.id`, absent without a user. */
  datatype EventData = EventData(
    name: string, description: Option<string>, date: string, time: string,
    location: string, participants: string, created_by: Option<string>)

  /** The form's state variables. */
  datatype Form = Form(
    name: string, description: string, date: string, time: string,
    location: string, participants: string,
    editingId: Option<string>, dialogOpen: bool, submitting: bool)

  const EmptyForm := Form("", "", "", "", "", "", None, false, false)

  /** Every field but the description is required; name, location and participants must be non-blank. */
  predicate Complete(f: Form) {
    JsString.Trim(f.name) != [] && f.date != [] && f.time != [] &&
    JsString.Trim(f.location) != [] && JsString.Trim(f.participants) != []
  }

  /** The submit guard in terms of blankness: any blank required field rejects. */
  lemma CompleteIffNoBlankField(f: Form)
    ensures Complete(f) <==>
      !JsString.AllWhitespace(f.name) && f.date != [] && f.time != [] &&
      !JsString.AllWhitespace(f.location) && !JsString.AllWhitespace(f.participants)
  {
    JsString.TrimEmptyIffBlank(f.name);
    JsString.TrimEmptyIffBlank(f.location);
    JsString.TrimEmptyIffBlank(f.participants);
  }

  /** The record built from a form. */
  function BuildEvent(f: Form, user: Option<AuthUser>): (d: EventData)
    ensures d.name == JsString.Trim(f.name) && d.location == JsString.Trim(f.location)
    ensures d.participants == JsString.Trim(f.participants)
    ensures d.description == JsString.TrimmedOrNull(f.description)
    ensures d.date == f.date && d.time == f.time
    ensures d.created_by == if user.Some? then Some(user.value.id) else None
  {
    EventData(
      JsString.Trim(f.name),
      JsString.TrimmedOrNull(f.description),
      f.date, f.time, JsString.Trim(f.location), JsString.Trim(f.participants),
      if user.Some? then Some(user.value.id) else None)
  }

  /** A complete form yields a record whose required text fields are non-empty and trimmed. */
  lemma BuiltEventRequiredFields(f: Form, user: Option<AuthUser>)
    requires Complete(f)
    ensures var d := BuildEvent(f, user);
      d.name != [] && d.location != [] && d.participants != [] && d.date != [] && d.time != [] &&
      JsString.Trim(d.name) == d.name && JsString.Trim(d.location) == d.location &&
      JsString.Trim(d.participants) == d.participants
  {
    var d := BuildEvent(f, user);
    JsString.TrimOfTrimmed(d.name);
    JsString.TrimOfTrimmed(d.location);
    JsString.TrimOfTrimmed(d.participants);
  }

  /** The write a submit issues. */
  datatype Write = Insert(data: EventData) | Update(id: string, data: EventData)

  /** `if (editingId)`: a null or empty id is falsy. */
  predicate Editing(f: Form) {
    f.editingId.Some? && f.editingId.value != []
  }

  /** `resetForm`. */
  function Reset(f: Form): (r: Form)
    ensures r == EmptyForm.(submitting := f.submitting)
  {
    f.(name := "", description := "", date := "", time := "", location := "", participants := "",
       editingId := None, dialogOpen := false)
  }

  /** `handleEdit`: the row's fields, a null description read as '', the row's id, and the dialog open. */
  function Edit(f: Form, row: EventRow): (r: Form)
    ensures r.editingId == Some(row.id) && r.dialogOpen && r.submitting == f.submitting
    ensures r.name == row.name && r.description == row.description.GetOr("")
    ensures r.date == row.date && r.time == row.time
    ensures r.location == row.location && r.participants == row.participants
  {
    f.(editingId := Some(row.id), name := row.name, description := row.description.GetOr(""),
       date := row.date, time := row.time, location := row.location,
       participants := row.participants, dialogOpen := true)
  }

  datatype Submitted = Submitted(form: Form, write: Option<Write>, refetch: bool)

  /** `handleSubmit` run to completion, given the signed-in user and the write's outcome. */
  function Submit(f: Form, user: Option<AuthUser>, outcome: WriteResult): Submitted {
    if !Complete(f) then Submitted(f, None, false)
    else Written(f, BuildEvent(f, user), outcome)
  }

  /** The second half of a valid submit, once the record is built: the write, then reset and refetch on success. */
  function Written(f: Form, data: EventData, outcome: WriteResult): Submitted {
    var w := if Editing(f) then Update(f.editingId.value, data) else Insert(data);
    if outcome.WriteOk? then Submitted(Reset(f).(submitting := false), Some(w), true)
    else Submitted(f.(submitting := false), Some(w), false)
  }

  /** A complete form builds the record and hands it to `Written`. */
  lemma SubmitBuildsThenWrites(f: Form, user: Option<AuthUser>, outcome: WriteResult)
    requires Complete(f)
    ensures Submit(f, user, outcome) == Written(f, BuildEvent(f, user), outcome)
  {
  }

  /** An incomplete form is rejected with no write and no state change; a complete one always issues a write. */
  lemma IncompleteRejected(f: Form, user: Option<AuthUser>, outcome: WriteResult)
    ensures !Complete(f) <==> Submit(f, user, outcome).write.None?
    ensures !Complete(f) ==> Submit(f, user, outcome).form == f
  {
  }

  /** A complete form updates the row being edited, or inserts; success resets the form and refetches, failure keeps it; `submitting` ends false. */
  lemma SubmitOutcome(f: Form, user: Option<AuthUser>, outcome: WriteResult)
    requires Complete(f)
    ensures var s := Submit(f, user, outcome);
      s.write == Some(if Editing(f) then Update(f.editingId.value, BuildEvent(f, user)) else Insert(BuildEvent(f, user))) &&
      !s.form.submitting &&
      (outcome.WriteOk? ==> s.refetch && s.form == EmptyForm) &&
      (outcome.WriteFailed? ==> !s.refetch && s.form == f.(submitting := false))
  {
  }

  /** Editing a stored row and submitting it unchanged updates that row with the row's own trimmed values. */
  lemma EditThenSubmitRoundTrip(f: Form, row: EventRow, user: Option<AuthUser>, outcome: WriteResult)
    requires row.id != [] && Complete(Edit(f, row))
    requires JsString.Trim(row.name) == row.name && JsString.Trim(row.location) == row.location
    requires JsString.Trim(row.participants) == row.participants
    requires row.description.Some? ==> JsString.Trim(row.description.value) == row.description.value && row.description.value != []
    ensures var s := Submit(Edit(f, row), user, outcome);
      s.write.Some? && s.write.value.Update? && s.write.value.id == row.id &&
      s.write.value.data == EventData(row.name, row.description, row.date, row.time, row.location, row.participants,
                                      if user.Some? then Some(user.value.id) else None)
  {
    var g := Edit(f, row);
    assert Editing(g) && g.editingId.value == row.id;
    SubmitOutcome(g, user, outcome);
    EditedRowRebuilds(f, row, user);
    var s := Submit(g, user, outcome);
    assert s.write == Some(Update(row.id, BuildEvent(g, user)));
  }

  /** The record built from a freshly edited row carries the row's own values. */
  lemma EditedRowRebuilds(f: Form, row: EventRow, user: Option<AuthUser>)
    requires JsString.Trim(row.name) == row.name && JsString.Trim(row.location) == row.location
    requires JsString.Trim(row.participants) == row.participants
    requires row.description.Some? ==> JsString.Trim(row.description.value) == row.description.value && row.description.value != []
    ensures BuildEvent(Edit(f, row), user) ==
      EventData(row.name, row.description, row.date, row.time, row.location, row.participants,
                if user.Some? then Some(user.value.id) else None)
  {
    var g := Edit(f, row);
    if row.description.None? {
      assert JsString.AllWhitespace(g.description);
    } else {
      JsString.TrimEmptyIffBlank(g.description);
    }
    assert BuildEvent(g, user).description == row.description;
  }

  /** The component's state. */
  class EventsTab {
    var events: seq<EventRow>
    var name: string
    var description: string
    var date: string
    var time: string
    var location: string
    var participants: string
    var editingId: Option<string>
    var dialogOpen: bool
    var submitting: bool

    function State(): Form
      reads this
    {
      Form(name, description, date, time, location, participants, editingId, dialogOpen, submitting)
    }

    constructor ()
      ensures State() == EmptyForm && events == []
    {
      events := [];
      name, description, date, time, location, participants := "", "", "", "", "", "";
      editingId, dialogOpen, submitting := None, false, false;
    }

    /** `fetchEvents`: an error keeps the list; otherwise the rows, or none for a null `data`. */
    method FetchEvents(reply: Reply<seq<EventRow>>)
      modifies this
      ensures State() == old(State())
      ensures events == if reply.error.Some? then old(events) else reply.data.GetOr([])
    {
      if reply.error.None? {
        events := reply.data.GetOr([]);
      }
    }

    method ResetForm()
      modifies this
      ensures State() == Reset(old(State())) && events == old(events)
    {
      name, description, date, time, location, participants := "", "", "", "", "", "";
      editingId := None;
      dialogOpen := false;
    }

    method HandleEdit(row: EventRow)
      modifies this
      ensures State() == Edit(old(State()), row) && events == old(events)
    {
      editingId := Some(row.id);
      name := row.name;
      description := row.description.GetOr("");
      date := row.date;
      time := row.time;
      location := row.location;
      participants := row.participants;
      dialogOpen := true;
    }

    /** `handleSubmit`, run to completion; `refetch` says the list is to be fetched again. */
    method HandleSubmit(user: Option<AuthUser>, outcome: WriteResult) returns (write: Option<Write>, refetch: bool)
      modifies this
      ensures Submitted(State(), write, refetch) == Submit(old(State()), user, outcome)
      ensures events == old(events)
    {
      var f := State();
      if JsString.Trim(f.name) == [] || f.date == [] || f.time == [] ||
         JsString.Trim(f.location) == [] || JsString.Trim(f.participants) == [] {
        return None, false;
      }
      submitting := true;
      var data := BuildEvent(f, user);
      SubmitBuildsThenWrites(f, user, outcome);
      write, refetch := Commit(f, data, outcome);
    }

    /** The part of `handleSubmit` after the record is built: the write, the reset on success, `submitting` off. */
    method Commit(ghost f: Form, data: EventData, outcome: WriteResult) returns (write: Option<Write>, refetch: bool)
      requires State() == f.(submitting := true)
      modifies this
      ensures Submitted(State(), write, refetch) == Written(f, data, outcome)
      ensures events == old(events)
    {
      if editingId.Some? && editingId.value != [] {
        write := Some(Update(editingId.value, data));
      } else {
        write := Some(Insert(data));
      }
      refetch := outcome.WriteOk?;
      if outcome.WriteOk? {
        ResetForm();
      }
      submitting := false;
    }
  }
}
