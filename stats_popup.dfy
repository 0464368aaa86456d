/**
 * The "Generated!" popup: it appears with a four-second countdown, counts down once a
 * second while shown and not hovered, and disappears when the countdown runs out, when the
 * pointer leaves after it ran out, or when closed.
 */
module StatsPopup {

  // ---------------------------------------------------------------- text

  predicate IsDigit(c: char) {
    '0' <= c <= '9'
  }

  function DigitChar(d: int): (c: char)
    requires 0 <= d < 10
    ensures IsDigit(c) && c as int - '0' as int == d
  {
    (d + '0' as int) as char
  }

  /** The decimal rendering of a number, as a template literal prints a non-negative integer. */
  function Decimal(n: nat): (s: string)
    ensures |s| >= 1
    ensures forall i :: 0 <= i < |s| ==> IsDigit(s[i])
    ensures n > 0 ==> s[0] != '0'
  {
    if n < 10 then [DigitChar(n)] else Decimal(n / 10) + [DigitChar(n % 10)]
  }

  /** The value of a string of decimal digits. */
  function DigitsValue(s: string): nat
    requires forall i :: 0 <= i < |s| ==> IsDigit(s[i])
  {
    if s == [] then 0 else DigitsValue(s[..|s| - 1]) * 10 + DigitValue(s[|s| - 1])
  }

  function DigitValue(c: char): (d: nat)
    requires IsDigit(c)
    ensures d < 10
  {
    c as int - '0' as int
  }

  /** Reading the rendered digits back gives the number. */
  lemma {:induction false} DecimalRoundTrip(n: nat)
    ensures DigitsValue(Decimal(n)) == n
  {
    var s := Decimal(n);
    if n >= 10 {
      DecimalRoundTrip(n / 10);
      assert s[..|s| - 1] == Decimal(n / 10);
    }
  }

  /** Distinct numbers render differently. */
  lemma DecimalInjective(m: nat, n: nat)
    requires Decimal(m) == Decimal(n)
    ensures m == n
  {
    DecimalRoundTrip(m);
    DecimalRoundTrip(n);
  }

  const AutoDismissPrefix: string := "Auto-dismiss in "

  /** The line under the progress bar. */
  function StatusLabel(isHovered: bool, countdown: int): (s: string)
    ensures isHovered && countdown <= 0 ==> s == "Hover to keep open"
    ensures isHovered && countdown > 0 ==> s == "Paused - hover to keep open"
    ensures !isHovered && countdown <= 0 ==> s == "Dismissing..."
    ensures !isHovered && countdown > 0 ==> s == AutoDismissPrefix + Decimal(countdown) + "s"
  {
    if isHovered then
      if countdown <= 0 then "Hover to keep open" else "Paused - hover to keep open"
    else if countdown <= 0 then "Dismissing..."
    else AutoDismissPrefix + Decimal(countdown) + "s"
  }

  /**
   * The label tells the four cases apart, and while counting down it shows the exact
   * number of seconds left.
   */
  lemma StatusLabelDetermines(h1: bool, c1: int, h2: bool, c2: int)
    requires StatusLabel(h1, c1) == StatusLabel(h2, c2)
    ensures h1 == h2
    ensures c1 <= 0 <==> c2 <= 0
    ensures !h1 && c1 > 0 ==> c1 == c2
  {
    var s := StatusLabel(h1, c1);
    // the first character names the case
    assert s[0] == StatusLabel(h2, c2)[0];
    if !h1 && c1 > 0 {
      var d1, d2 := Decimal(c1), Decimal(c2);
      assert |d1| == |d2|;
      assert d1 == s[|AutoDismissPrefix|..|s| - 1] == d2;
      DecimalInjective(c1, c2);
    }
  }

  /** The unit after a count: "time", with an "s" exactly when the count is not 1. */
  function TimesWord(n: int): (s: string)
    ensures 4 <= |s| <= 5 && s[..4] == "time"
    ensures |s| == 5 <==> n != 1
    ensures |s| == 5 ==> s[4] == 's'
  {
    "time" + (if n != 1 then "s" else "")
  }

  // ---------------------------------------------------------------- state machine

  class GenerationStatsPopup {
    var isVisible: bool
    var countdown: int
    var isHovered: bool
    var isPaused: bool
    /** How many times the exit animation has been started and `onHide` scheduled after it. */
    var hidesScheduled: nat

    ghost predicate Valid()
      reads this
    {
      0 <= countdown <= 4
    }

    /** The mounted, not yet shown popup. */
    constructor ()
      ensures Valid()
      ensures !isVisible && countdown == 4 && !isHovered && !isPaused && hidesScheduled == 0
    {
      isVisible := false;
      countdown := 4;
      isHovered := false;
      isPaused := false;
      hidesScheduled := 0;
    }

    /** The `show` prop became true: visible again with a full countdown. */
    method Show()
      requires Valid()
      modifies this
      ensures Valid()
      ensures isVisible && countdown == 4 && !isPaused
      ensures isHovered == old(isHovered) && hidesScheduled == old(hidesScheduled)
    {
      isVisible := true;
      countdown := 4;
      isPaused := false;
    }

    /** The one-second interval fired; it only runs while shown, unpaused, unhovered and above 0. */
    method Tick()
      requires Valid()
      modifies this
      ensures Valid()
      ensures countdown == if old(isVisible) && !old(isPaused) && !old(isHovered) && old(countdown) > 0
                           then old(countdown) - 1 else old(countdown)
      ensures isVisible == old(isVisible) && isHovered == old(isHovered) && isPaused == old(isPaused)
      ensures hidesScheduled == old(hidesScheduled)
    {
      if isVisible && !isPaused && !isHovered && countdown > 0 {
        countdown := countdown - 1;
      }
    }

    /** The timer effect's dismissal: shown, unpaused, unhovered and run out means hide. */
    method TimerEffect()
      requires Valid()
      modifies this
      ensures Valid()
      ensures old(isVisible) && !old(isPaused) && !old(isHovered) && old(countdown) <= 0 ==>
                !isVisible && hidesScheduled == old(hidesScheduled) + 1
      ensures !(old(isVisible) && !old(isPaused) && !old(isHovered) && old(countdown) <= 0) ==>
                isVisible == old(isVisible) && hidesScheduled == old(hidesScheduled)
      ensures countdown == old(countdown) && isHovered == old(isHovered) && isPaused == old(isPaused)
    {
      if isVisible && !isPaused && !isHovered && countdown <= 0 {
        isVisible := false;
        hidesScheduled := hidesScheduled + 1;
      }
    }

    method MouseEnter()
      requires Valid()
      modifies this
      ensures Valid() && isHovered
      ensures isVisible == old(isVisible) && countdown == old(countdown) && isPaused == old(isPaused)
      ensures hidesScheduled == old(hidesScheduled)
    {
      isHovered := true;
    }

    /** The pointer left: hover ends, and a popup whose countdown ran out is hidden. */
    method MouseLeave()
      requires Valid()
      modifies this
      ensures Valid() && !isHovered
      ensures old(countdown) <= 0 ==> !isVisible && hidesScheduled == old(hidesScheduled) + 1
      ensures old(countdown) > 0 ==> isVisible == old(isVisible) && hidesScheduled == old(hidesScheduled)
      ensures countdown == old(countdown) && isPaused == old(isPaused)
    {
      isHovered := false;
      if countdown <= 0 {
        isVisible := false;
        hidesScheduled := hidesScheduled + 1;
      }
    }

    /** The close button: hidden whatever the countdown says. */
    method Close()
      requires Valid()
      modifies this
      ensures Valid() && !isVisible && hidesScheduled == old(hidesScheduled) + 1
      ensures countdown == old(countdown) && isHovered == old(isHovered) && isPaused == old(isPaused)
    {
      isVisible := false;
      hidesScheduled := hidesScheduled + 1;
    }
  }

  /**
   * Left alone, a shown popup is gone after four ticks; a pointer resting on it instead
   * keeps it open with its countdown untouched.
   */
  method AutoDismissScenario() returns (unattendedVisible: bool, hoveredVisible: bool, hoveredCountdown: int)
    ensures !unattendedVisible
    ensures hoveredVisible && hoveredCountdown == 4
  {
    var p := new GenerationStatsPopup();
    p.Show();
    p.Tick(); p.TimerEffect();
    p.Tick(); p.TimerEffect();
    p.Tick(); p.TimerEffect();
    p.Tick(); p.TimerEffect();
    unattendedVisible := p.isVisible;

    var q := new GenerationStatsPopup();
    q.Show();
    q.MouseEnter();
    q.Tick(); q.TimerEffect();
    q.Tick(); q.TimerEffect();
    q.Tick(); q.TimerEffect();
    q.Tick(); q.TimerEffect();
    q.Tick(); q.TimerEffect();
    hoveredVisible := q.isVisible;
    hoveredCountdown := q.countdown;
  }
}
