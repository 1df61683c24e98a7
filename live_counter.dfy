/** animatePlayerCountUpdate of live-ccp-updates.js: the counter starts from
    the number shown in the element (0 when that does not parse) and an
    interval moves it one unit toward the new count per callback, writing it
    into the element, until it equals the new count and the interval is
    cleared. */
module LiveCounter {
  import opened JsRuntime

  function Abs(x: int): nat {
    if x < 0 then -x else x
  }

  function Min(a: nat, b: nat): nat {
    if a <= b then a else b
  }

  /** `x` lies in the closed interval between `a` and `b`. */
  predicate Between(a: int, b: int, x: int) {
    (a <= x <= b) || (b <= x <= a)
  }

  /** `parseInt(playerCountElement.textContent) || 0`. */
  function StartValue(elementText: string): int {
    ParseIntOrZero(elementText)
  }

  /** One interval callback: the next value of currentAnimationCount. */
  function Step(current: int, target: int): (next: int)
    ensures Abs(target - next) == (if current == target then 0 else Abs(target - current) - 1)
    ensures Between(current, target, next) && Abs(next - current) <= 1
  {
    if current < target then current + 1
    else if current > target then current - 1
    else current
  }

  /** The value after `k` callbacks. */
  function After(start: int, target: int, k: nat): int {
    if k == 0 then start else Step(After(start, target, k - 1), target)
  }

  /** After `k` callbacks the counter has moved `k` units toward the target,
      or all the way if that is nearer. */
  lemma {:induction false} AfterMoves(start: int, target: int, k: nat)
    ensures After(start, target, k) ==
      if start <= target then start + Min(k, target - start) else start - Min(k, start - target)
  {
    if k > 0 {
      AfterMoves(start, target, k - 1);
    }
  }

  /** The counter never leaves the interval between start and target. */
  lemma AfterBetween(start: int, target: int, k: nat)
    ensures Between(start, target, After(start, target, k))
  {
    AfterMoves(start, target, k);
  }

  /** The counter equals the target exactly from |target - start| callbacks
      on, and never earlier. */
  lemma AfterReaches(start: int, target: int, k: nat)
    ensures After(start, target, k) == target <==> k >= Abs(target - start)
  {
    AfterMoves(start, target, k);
  }

  /** Once at the target, a further callback changes nothing. */
  lemma AfterStays(start: int, target: int, k: nat)
    requires After(start, target, k) == target
    ensures After(start, target, k + 1) == target
  {
  }

  /** A counter that starts at its target never moves. */
  lemma {:induction false} AfterFixed(start: int, k: nat)
    ensures After(start, start, k) == start
  {
    if k > 0 {
      AfterFixed(start, k - 1);
    }
  }

  /** A number the animation wrote into the element is where the next
      animation starts. */
  lemma StartFromWritten(n: int)
    ensures StartValue(IntToString(n)) == n
  {
    ParseIntOfIntToString(n);
  }

  /** One run of animatePlayerCountUpdate: the element, the local counter and
      whether the interval is still set. */
  class Animation {
    var text: string
    var current: int
    const target: int
    var running: bool
    ghost const initialText: string
    ghost const start: int
    ghost var ticks: nat

    ghost predicate Valid()
      reads this
    {
      start == StartValue(initialText) &&
      current == After(start, target, ticks) &&
      (running <==> ticks == 0 || current != target) &&
      text == (if ticks == 0 || start == target then initialText else IntToString(current))
    }

    constructor (elementText: string, newCount: int)
      ensures Valid() && running && ticks == 0
      ensures current == StartValue(elementText) && target == newCount && text == elementText
      ensures initialText == elementText
    {
      text := elementText;
      current := ParseIntOrZero(elementText);
      target := newCount;
      running := true;
      initialText := elementText;
      start := ParseIntOrZero(elementText);
      ticks := 0;
    }

    /** One firing of the interval; none happen once it is cleared. */
    method Tick()
      requires Valid()
      modifies this
      ensures Valid()
      ensures !old(running) ==> current == old(current) && text == old(text) && !running && ticks == old(ticks)
      ensures old(running) ==>
        current == Step(old(current), target) && ticks == old(ticks) + 1 &&
        running == (current != target) &&
        text == (if current != old(current) then IntToString(current) else old(text))
    {
      if !running {
        return;
      }
      if start == target {
        AfterFixed(start, ticks);
      }
      ghost var next := After(start, target, ticks + 1);
      assert next == Step(current, target);
      if current < target {
        current := current + 1;
        text := IntToString(current);
      } else if current > target {
        current := current - 1;
        text := IntToString(current);
      }
      if current == target {
        running := false;
      }
      assert current == next;
      ticks := ticks + 1;
    }
  }

  /** Drive one animation until its interval is cleared: how many callbacks
      ran and the text the element is left with. */
  method RunAnimation(elementText: string, newCount: int) returns (ticks: nat, finalText: string)
    ensures ticks == (if StartValue(elementText) == newCount then 1 else Abs(newCount - StartValue(elementText)))
    ensures finalText == (if StartValue(elementText) == newCount then elementText else IntToString(newCount))
    ensures StartValue(finalText) == newCount
  {
    var a := new Animation(elementText, newCount);
    ghost var start := a.start;
    ghost var d := Abs(newCount - start);
    ticks := 0;
    while a.running
      invariant a.Valid() && a.target == newCount && a.start == start && a.initialText == elementText
      invariant ticks == a.ticks
      invariant a.running ==> ticks < d || ticks == 0
      invariant !a.running ==> ticks >= 1 && ticks >= d
      invariant ticks <= d || ticks <= 1
      decreases d + 1 - ticks
    {
      a.Tick();
      ticks := ticks + 1;
      AfterReaches(start, newCount, ticks);
    }
    finalText := a.text;
    StartFromWritten(newCount);
  }
}
