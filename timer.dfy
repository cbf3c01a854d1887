/** The level countdown (src/components/Timer.tsx). Each interval tick
    lowers the seconds left by one; the tick that finds one second or less
    calls the time-up handler and leaves zero. The interval only runs while
    the timer is active, and becoming active restarts the countdown. */
module Timer {

  /** The seconds left after one tick from `t`. */
  function TickValue(t: int): (r: int)
    ensures t >= 1 ==> 0 <= r < t
    ensures t <= 1 ==> r == 0
  {
    if t <= 1 then 0 else t - 1
  }

  /** Whether a tick from `t` calls the time-up handler. */
  predicate TickFires(t: int)
  {
    t <= 1
  }

  /** The seconds left after `k` ticks from `t`. */
  function AfterTicks(t: int, k: nat): int
  {
    if k == 0 then t else TickValue(AfterTicks(t, k - 1))
  }

  /** From `t` seconds, `k` ticks leave `t - k` seconds, or zero once the
      countdown has run out. */
  lemma {:induction false} AfterTicksValue(t: nat, k: nat)
    ensures AfterTicks(t, k) == if k < t then t - k else 0
  {
    if k > 0 {
      AfterTicksValue(t, k - 1);
    }
  }

  /** Starting from a time limit of at least one second, tick number `k + 1`
      calls the time-up handler exactly when `k + 1 >= timeLimit`: the first
      call comes on tick number `timeLimit`, and every later tick while still
      active calls it again. */
  lemma FiresFromTickTimeLimit(timeLimit: nat, k: nat)
    requires timeLimit >= 1
    ensures TickFires(AfterTicks(timeLimit, k)) <==> k + 1 >= timeLimit
  {
    AfterTicksValue(timeLimit, k);
  }

  /** The colour cues: warning at ten seconds or less, critical at five or less. */
  predicate IsWarning(timeLeft: int) { timeLeft <= 10 }
  predicate IsCritical(timeLeft: int) { timeLeft <= 5 }

  lemma CriticalIsWarning(timeLeft: int)
    ensures IsCritical(timeLeft) ==> IsWarning(timeLeft)
    ensures IsWarning(timeLeft) && !IsCritical(timeLeft) <==> 5 < timeLeft <= 10
  {
  }

  /** One mounted Timer component. The game gives each level a fresh one. */
  class Countdown {
    const timeLimit: nat
    var timeLeft: int
    var isActive: bool

    /** Seconds left never go below zero nor above the limit. */
    predicate Valid()
      reads this
    {
      0 <= timeLeft <= timeLimit
    }

    /** Mounting: `timeLeft` starts at the limit. */
    constructor(timeLimit: nat, isActive: bool)
      ensures Valid()
      ensures this.timeLimit == timeLimit && timeLeft == timeLimit && this.isActive == isActive
    {
      this.timeLimit := timeLimit;
      timeLeft := timeLimit;
      this.isActive := isActive;
    }

    /** One interval tick. No interval exists while inactive, so nothing happens;
        otherwise the countdown steps and `fired` says whether the time-up
        handler was called. */
    method Tick() returns (fired: bool)
      requires Valid()
      modifies this
      ensures Valid()
      ensures fired <==> old(isActive) && TickFires(old(timeLeft))
      ensures timeLeft == (if old(isActive) then TickValue(old(timeLeft)) else old(timeLeft))
      ensures isActive == old(isActive)
    {
      fired := false;
      if isActive {
        if timeLeft <= 1 {
          fired := true;
          timeLeft := 0;
        } else {
          timeLeft := timeLeft - 1;
        }
      }
    }

    /** A new `isActive` from the parent. The reset effect runs when the flag
        changes and restores the full limit when it became true. */
    method SetActive(active: bool)
      requires Valid()
      modifies this
      ensures Valid()
      ensures isActive == active
      ensures timeLeft == (if active && !old(isActive) then timeLimit else old(timeLeft))
    {
      if active && !isActive {
        timeLeft := timeLimit;
      }
      isActive := active;
    }
  }

  /** A freshly mounted active timer calls the time-up handler for the first
      time on tick number `timeLimit`. */
  method FirstTimeUp(timeLimit: nat) returns (ticks: nat)
    requires timeLimit >= 1
    ensures ticks == timeLimit
  {
    var t := new Countdown(timeLimit, true);
    ticks := 0;
    var fired := false;
    while !fired
      invariant t.Valid() && t.isActive && t.timeLimit == timeLimit
      invariant ticks <= timeLimit
      invariant !fired ==> t.timeLeft == timeLimit - ticks && ticks < timeLimit
      invariant fired ==> ticks == timeLimit
      decreases timeLimit - ticks, !fired
    {
      fired := t.Tick();
      ticks := ticks + 1;
    }
  }
}
