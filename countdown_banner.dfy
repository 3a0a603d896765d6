/**
 * The site-wide countdown banner: every second it reads the milliseconds left until the
 * first session, shows them split into days, hours, minutes and seconds, and hides itself
 * for good once the difference is no longer positive.
 */
module CountdownBanner {
  import opened Optional
  import opened Countdown

  /** The banner's two state variables. */
  datatype BannerState = BannerState(timeLeft: TimeLeft, isVisible: bool)

  const Initial := BannerState(Zero, true)

  /** One interval tick given the difference `target - now` in milliseconds. */
  function TickState(s: BannerState, difference: int): (r: BannerState)
    ensures difference > 0 ==> r.timeLeft == Decompose(difference) && r.isVisible == s.isVisible
    ensures difference <= 0 ==> r.timeLeft == s.timeLeft && !r.isVisible
  {
    if difference > 0 then s.(timeLeft := Decompose(difference)) else s.(isVisible := false)
  }

  /** The ticks of a run, oldest first. */
  function Run(s: BannerState, differences: seq<int>): BannerState
    decreases |differences|
  {
    if differences == [] then s
    else Run(TickState(s, differences[0]), differences[1..])
  }

  /** The rendered numbers, or nothing once the banner is hidden. */
  function Render(s: BannerState): (r: Option<seq<string>>)
    ensures r.None? <==> !s.isVisible
    ensures r.Some? ==> r.value == Display(s.timeLeft)
  {
    if !s.isVisible then None else Some(Display(s.timeLeft))
  }

  /** Nothing sets `isVisible` back to true: a hidden banner stays hidden and renders nothing. */
  lemma {:induction false} HiddenStaysHidden(s: BannerState, differences: seq<int>)
    requires !s.isVisible
    ensures !Run(s, differences).isVisible
    ensures Render(Run(s, differences)).None?
    decreases |differences|
  {
    if differences != [] {
      HiddenStaysHidden(TickState(s, differences[0]), differences[1..]);
    }
  }

  /** The banner is visible after a run exactly when every reading of the run was positive. */
  lemma {:induction false} VisibleIffAllPositive(differences: seq<int>)
    ensures Run(Initial, differences).isVisible <==> forall i :: 0 <= i < |differences| ==> differences[i] > 0
  {
    VisibleIffAllPositiveFrom(Initial, differences);
  }

  lemma {:induction false} VisibleIffAllPositiveFrom(s: BannerState, differences: seq<int>)
    requires s.isVisible
    ensures Run(s, differences).isVisible <==> forall i :: 0 <= i < |differences| ==> differences[i] > 0
    decreases |differences|
  {
    if differences != [] {
      var s' := TickState(s, differences[0]);
      if differences[0] > 0 {
        VisibleIffAllPositiveFrom(s', differences[1..]);
        assert forall i :: 1 <= i < |differences| ==> differences[i] == differences[1..][i - 1];
      } else {
        HiddenStaysHidden(s', differences[1..]);
      }
    }
  }

  /** A visible banner shows the decomposition of the latest reading. */
  lemma {:induction false} VisibleShowsLatest(differences: seq<int>)
    requires |differences| > 0
    ensures Run(Initial, differences).isVisible ==>
      differences[|differences| - 1] > 0 && Run(Initial, differences).timeLeft == Decompose(differences[|differences| - 1])
  {
    VisibleIffAllPositive(differences);
    RunSnoc(Initial, differences[..|differences| - 1], differences[|differences| - 1]);
    assert differences[..|differences| - 1] + [differences[|differences| - 1]] == differences;
  }

  lemma {:induction false} RunSnoc(s: BannerState, differences: seq<int>, d: int)
    ensures Run(s, differences + [d]) == TickState(Run(s, differences), d)
    decreases |differences|
  {
    if differences == [] {
      assert [d][1..] == [];
    } else {
      assert (differences + [d])[1..] == differences[1..] + [d];
      RunSnoc(TickState(s, differences[0]), differences[1..], d);
    }
  }

  /** The component's state and its interval callback. */
  class Banner {
    var timeLeft: TimeLeft
    var isVisible: bool

    function State(): BannerState
      reads this
    {
      BannerState(timeLeft, isVisible)
    }

    constructor ()
      ensures State() == Initial
    {
      timeLeft, isVisible := Zero, true;
    }

    /** The interval callback, with the clock reading passed in as `difference`. */
    method Tick(difference: int)
      modifies this
      ensures State() == TickState(old(State()), difference)
    {
      if difference > 0 {
        timeLeft := Decompose(difference);
      } else {
        isVisible := false;
      }
    }
  }
}
