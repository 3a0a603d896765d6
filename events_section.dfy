/**
 * The events section: a fixed list of four events, shown as cards in the order they are
 * declared, each with a countdown to its date that freezes at its last positive reading.
 */
module EventsSection {
  import opened Optional
  import opened Countdown

  datatype Event = Event(
    id: nat, name: string, date: string, time: string,
    location: string, description: string, participants: string)

  /** The declared event list. */
  const Events: seq<Event> := [
    Event(1, "Regional Math Competition", "2026-01-15", "9:00 AM", "University of Toronto",
      "Annual regional mathematics competition featuring algebra, geometry, and calculus problems.",
      "All grades welcome"),
    Event(2, "Pi Day Celebration", "2026-03-14", "3:14 PM", "School Cafeteria",
      "Celebrating the mathematical constant \U{3C0} with games, puzzles, and of course, pie!",
      "Open to all students"),
    Event(3, "Math Olympics Training", "2026-02-20", "3:30 PM", "Room 205",
      "Intensive training session preparing for upcoming Math Olympics competition.",
      "Club members only"),
    Event(4, "Guest Speaker: Dr. Sarah Mitchell", "2026-01-28", "12:00 PM", "School Auditorium",
      "Renowned mathematician speaking about careers in applied mathematics and data science.",
      "All students invited")
  ]

  /** The keys of the rendered cards: `events.map(...)` keeps the list's order. */
  function CardKeys(events: seq<Event>): (r: seq<nat>)
    ensures |r| == |events|
    ensures forall i :: 0 <= i < |events| ==> r[i] == events[i].id
  {
    if events == [] then [] else [events[0].id] + CardKeys(events[1..])
  }

  /** JavaScript's `<` on strings: code-unit lexicographic order (on `YYYY-MM-DD` dates, date order). */
  predicate Before(a: string, b: string) {
    if a == [] then b != []
    else if b == [] then false
    else if a[0] != b[0] then a[0] < b[0]
    else Before(a[1..], b[1..])
  }

  predicate DateSorted(events: seq<Event>) {
    forall i, j :: 0 <= i < j < |events| ==> !Before(events[j].date, events[i].date)
  }

  /** The cards come out as declared, 1 2 3 4, which is not date order: the March event precedes the February one. */
  lemma DeclaredOrderIsNotDateOrder()
    ensures CardKeys(Events) == [1, 2, 3, 4]
    ensures !DateSorted(Events)
  {
    assert CardKeys(Events)[..] == [Events[0].id, Events[1].id, Events[2].id, Events[3].id];
    var feb, mar := Events[2].date, Events[1].date;
    assert feb == "2026-02-20" && mar == "2026-03-14";
    assert feb[..6] == mar[..6] && feb[6] < mar[6];
    BeforeAtFirstDifference(feb, mar, 6);
  }

  /** Two strings that agree up to position `k` and differ there compare by that character. */
  lemma {:induction false} BeforeAtFirstDifference(a: string, b: string, k: nat)
    requires k < |a| && k < |b| && a[..k] == b[..k] && a[k] < b[k]
    ensures Before(a, b)
  {
    if k > 0 {
      assert a[0] == a[..k][0] == b[..k][0] == b[0];
      assert a[1..][..k - 1] == a[1..k] == a[..k][1..];
      assert b[1..][..k - 1] == b[1..k] == b[..k][1..];
      BeforeAtFirstDifference(a[1..], b[1..], k - 1);
    }
  }

  /** One tick of an event card's timer: a non-positive difference leaves the reading as it was. */
  function TimerTick(t: TimeLeft, difference: int): (r: TimeLeft)
    ensures difference > 0 ==> r == Decompose(difference)
    ensures difference <= 0 ==> r == t
  {
    if difference > 0 then Decompose(difference) else t
  }

  function TimerRun(t: TimeLeft, differences: seq<int>): TimeLeft
    decreases |differences|
  {
    if differences == [] then t else TimerRun(TimerTick(t, differences[0]), differences[1..])
  }

  /** The last positive difference of a run, if any. */
  function LastPositive(differences: seq<int>): (r: Option<int>)
    ensures r.Some? ==> r.value > 0 && r.value in differences
    ensures r.None? <==> forall i :: 0 <= i < |differences| ==> differences[i] <= 0
  {
    if differences == [] then None
    else
      var last := differences[|differences| - 1];
      var init := differences[..|differences| - 1];
      assert forall i :: 0 <= i < |init| ==> init[i] == differences[i];
      if last > 0 then Some(last) else LastPositive(init)
  }

  /** The timer shows zeros until the first positive reading, and afterwards the decomposition of the latest positive one. */
  lemma {:induction false} TimerShowsLastPositive(differences: seq<int>)
    ensures TimerRun(Zero, differences) ==
      match LastPositive(differences) case None => Zero case Some(d) => Decompose(d)
    decreases |differences|
  {
    if differences != [] {
      var init := differences[..|differences| - 1];
      var last := differences[|differences| - 1];
      TimerShowsLastPositive(init);
      TimerRunSnoc(Zero, init, last);
      assert init + [last] == differences;
    }
  }

  lemma {:induction false} TimerRunSnoc(t: TimeLeft, differences: seq<int>, d: int)
    ensures TimerRun(t, differences + [d]) == TimerTick(TimerRun(t, differences), d)
    decreases |differences|
  {
    if differences == [] {
      assert [d][1..] == [];
    } else {
      assert (differences + [d])[1..] == differences[1..] + [d];
      TimerRunSnoc(TimerTick(t, differences[0]), differences[1..], d);
    }
  }

  /** The `CountdownTimer` component of one card. */
  class Timer {
    var timeLeft: TimeLeft

    constructor ()
      ensures timeLeft == Zero
    {
      timeLeft := Zero;
    }

    /** The interval callback, with the clock reading passed in as `difference`. */
    method Tick(difference: int)
      modifies this
      ensures timeLeft == TimerTick(old(timeLeft), difference)
    {
      if difference > 0 {
        timeLeft := Decompose(difference);
      }
    }
  }
}
