/**
 * The public announcements section: the fetched rows rendered as cards (title and date
 * fallbacks, newlines turned into line breaks, optional creator line), a loading state, and
 * three built-in example announcements shown when there are no rows.
 */
module AnnouncementsSection {
  import opened Optional
  import opened Backend
  import JsString

  // ---------------------------------------------------------------------------------------
  // Text rules
  // ---------------------------------------------------------------------------------------

  /** What `formatDate` shows: 'Unknown date', or the locale rendering of a date string (left abstract). */
  datatype DateLabel = UnknownDate | Localized(dateString: string)

  /** `formatDate`: a null or empty argument gives 'Unknown date'. */
  function FormatDate(dateString: Option<string>): (r: DateLabel)
    ensures r.UnknownDate? <==> dateString.None? || dateString.value == []
    ensures r.Localized? ==> r.dateString == dateString.value
  {
    if dateString.None? || dateString.value == [] then UnknownDate else Localized(dateString.value)
  }

  /** What one character becomes under `replace(/\n/g, '<br />')`. */
  function ReplacePiece(c: char): (r: string)
    ensures '\n' !in r
  {
    if c == '\n' then "<br />" else [c]
  }

  /** `text.replace(/\n/g, '<br />')`. */
  function ReplaceNewlines(s: string): (r: string)
    ensures '\n' !in r
    ensures |r| == |s| + 5 * NewlineCount(s)
  {
    if s == [] then [] else ReplacePiece(s[0]) + ReplaceNewlines(s[1..])
  }

  function NewlineCount(s: string): nat {
    if s == [] then 0 else (if s[0] == '\n' then 1 else 0) + NewlineCount(s[1..])
  }

  /** The replacement works piece by piece: replacing a concatenation concatenates the replacements. */
  lemma {:induction false} ReplaceConcat(a: string, b: string)
    ensures ReplaceNewlines(a + b) == ReplaceNewlines(a) + ReplaceNewlines(b)
  {
    if a == [] {
      assert a + b == b;
    } else {
      assert (a + b)[0] == a[0] && (a + b)[1..] == a[1..] + b;
      ReplaceConcat(a[1..], b);
    }
  }

  /** Text without newlines is rendered as it is. */
  lemma {:induction false} ReplaceWithoutNewlines(s: string)
    requires '\n' !in s
    ensures ReplaceNewlines(s) == s
  {
    if s != [] {
      ReplaceWithoutNewlines(s[1..]);
    }
  }

  /** Replacing every line break and joining the lines with '<br />' are the same thing. */
  lemma {:induction false} ReplaceIsJoinOfLines(s: string)
    ensures ReplaceNewlines(s) == JsString.Join(JsString.Split(s, '\n'), "<br />")
  {
    var lines := JsString.Split(s, '\n');
    JsString.JoinSplit(s, '\n');
    JoinReplace(lines);
  }

  lemma {:induction false} JoinReplace(lines: seq<string>)
    requires forall i :: 0 <= i < |lines| ==> '\n' !in lines[i]
    ensures ReplaceNewlines(JsString.Join(lines, "\n")) == JsString.Join(lines, "<br />")
  {
    if |lines| == 1 {
      ReplaceWithoutNewlines(lines[0]);
    } else if |lines| > 1 {
      var rest := JsString.Join(lines[1..], "\n");
      ReplaceConcat(lines[0] + "\n", rest);
      ReplaceConcat(lines[0], "\n");
      ReplaceWithoutNewlines(lines[0]);
      JoinReplace(lines[1..]);
    }
  }

  // ---------------------------------------------------------------------------------------
  // Cards
  // ---------------------------------------------------------------------------------------

  /** The body of a card: the rendered HTML, or the 'No content' placeholder for a null or empty text. */
  datatype Content = Html(html: string) | NoContent

  /** The style class and icon colour of `getAnnouncementStyle` / `getIconColor`. */
  datatype Look = Success | Info | AnnouncementLook | Default

  /** Both switches: three specific cases, the default for any other (or absent) type. */
  function LookOf(kind: Option<string>): (r: Look)
    ensures r == Default <==> kind !in {Some("success"), Some("info"), Some("announcement")}
  {
    if kind == Some("success") then Success
    else if kind == Some("info") then Info
    else if kind == Some("announcement") then AnnouncementLook
    else Default
  }

  function StyleClass(look: Look): string {
    match look
    case Success => "border-l-4 border-l-green-500 bg-green-50 dark:bg-green-950/20"
    case Info => "border-l-4 border-l-blue-500 bg-blue-50 dark:bg-blue-950/20"
    case AnnouncementLook => "border-l-4 border-l-accent bg-accent/5"
    case Default => "border-l-4 border-l-primary bg-primary/5"
  }

  function IconColor(look: Look): string {
    match look
    case Success => "text-green-600"
    case Info => "text-blue-600"
    case AnnouncementLook => "text-accent"
    case Default => "text-primary"
  }

  /** The four looks have four different style classes and four different icon colours. */
  lemma LooksDistinct(a: Look, b: Look)
    requires a != b
    ensures StyleClass(a) != StyleClass(b) && IconColor(a) != IconColor(b)
  {
  }

  /** One rendered database announcement. */
  datatype Card = Card(key: string, title: string, date: DateLabel, content: Content, creator: Option<string>, look: Look)

  /** The card of one row: title falls back to 'Announcement', the date to `created_at`, the creator line only when truthy. */
  function CardOf(row: AnnouncementRow): (c: Card)
    ensures c.key == row.id && c.look == Default
    ensures c.title == if row.title.Some? && row.title.value != [] then row.title.value else "Announcement"
    ensures c.date == FormatDate(Some(if row.creation_time.Some? && row.creation_time.value != [] then row.creation_time.value else row.created_at))
    ensures c.content == if row.text.Some? && row.text.value != [] then Html(ReplaceNewlines(row.text.value)) else NoContent
    ensures c.creator == if row.creator_name.Some? && row.creator_name.value != [] then row.creator_name else None
  {
    Card(
      row.id,
      JsString.Or(row.title.GetOr(""), "Announcement"),
      FormatDate(Some(JsString.Or(row.creation_time.GetOr(""), row.created_at))),
      if JsString.Truthy(row.text.GetOr("")) then Html(ReplaceNewlines(row.text.value)) else NoContent,
      if JsString.Truthy(row.creator_name.GetOr("")) then row.creator_name else None,
      LookOf(None))
  }

  /** A row with a non-empty `created_at` always shows a date. */
  lemma KnownDateWhenCreatedAtPresent(row: AnnouncementRow)
    requires row.created_at != []
    ensures CardOf(row).date.Localized?
  {
  }

  /** One of the built-in example announcements. */
  datatype StaticAnnouncement = StaticAnnouncement(id: nat, kind: string, title: string, date: string, content: string)

  const StaticAnnouncements: seq<StaticAnnouncement> := [
    StaticAnnouncement(1, "success", "Congratulations to Our Winners!", "December 15, 2023",
      "Sarah Chen and Marcus Johnson placed 1st and 3rd respectively at the Regional Math Competition. Amazing work representing Breaking Math!"),
    StaticAnnouncement(2, "info", "Winter Break Meeting Schedule", "December 10, 2023",
      "Please note that our regular meetings will resume on January 8th, 2024. We'll be sending out competition prep materials during the break."),
    StaticAnnouncement(3, "announcement", "New Member Orientation", "December 8, 2023",
      "Welcome to all our new members who joined this month! Orientation session will be held next Wednesday at 3:30 PM in Room 205.")
  ]

  /** What the section shows. */
  datatype View = Spinner | Examples(items: seq<StaticAnnouncement>) | Cards(cards: seq<Card>)

  function Render(loading: bool, announcements: seq<AnnouncementRow>): (v: View)
    ensures loading <==> v.Spinner?
    ensures !loading && announcements == [] ==> v == Examples(StaticAnnouncements)
    ensures !loading && announcements != [] ==> v.Cards?
    ensures v.Cards? ==>
      |v.cards| == |announcements| > 0 &&
      (forall i :: 0 <= i < |announcements| ==> v.cards[i] == CardOf(announcements[i]))
  {
    if loading then Spinner
    else if announcements == [] then Examples(StaticAnnouncements)
    else Cards(seq(|announcements|, i requires 0 <= i < |announcements| => CardOf(announcements[i])))
  }

  /** The three examples each get their own look, while every database card gets the default look. */
  lemma ExampleLooks()
    ensures LookOf(Some(StaticAnnouncements[0].kind)) == Success
    ensures LookOf(Some(StaticAnnouncements[1].kind)) == Info
    ensures LookOf(Some(StaticAnnouncements[2].kind)) == AnnouncementLook
    ensures forall row :: CardOf(row).look == Default
  {
  }

  // ---------------------------------------------------------------------------------------
  // The component
  // ---------------------------------------------------------------------------------------

  class AnnouncementsList {
    var announcements: seq<AnnouncementRow>
    var loading: bool

    constructor ()
      ensures announcements == [] && loading
    {
      announcements, loading := [], true;
    }

    /** `fetchAnnouncements`: an error reply or a throw keeps the list; `loading` ends false on every path. */
    method FetchAnnouncements(call: Call<seq<AnnouncementRow>>)
      modifies this
      ensures !loading
      ensures announcements ==
        if call.Answered? && call.reply.error.None? then call.reply.data.GetOr([]) else old(announcements)
    {
      if call.Answered? && call.reply.error.None? {
        announcements := call.reply.data.GetOr([]);
      }
      loading := false;
    }
  }
}
