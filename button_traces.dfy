/// What repeated polling does: the caller's loop calls ButtonTask once per
/// iteration, each time with the pin level and tick of that iteration. The
/// rules for each state, and the behaviour over whole sequences of polls
/// (debounce, long press, auto-repeat, release, polarity, tick wrap-around).
module ButtonTraces {
  import opened ButtonH
  import opened ButtonC

  /** What one call of ButtonTask reads: the pin level and the tick. */
  datatype Sample = Sample(level: Level, now: U32)

  /**
   * ButtonTask called once per sample, in order. Each call invokes at most
   * one callback, the configuration is never changed, and every callback is a
   * registered one receiving the button's number.
   */
  function Run(k: Key, samples: seq<Sample>): (r: StepResult)
    ensures |r.events| <= |samples|
    ensures r.next == k.(state := r.next.state, lastTick := r.next.lastTick)
    ensures forall e | e in r.events :: k.Slot(e.kind) == Some(e.handler) && e.number == k.numberBtn
    decreases |samples|
  {
    if samples == [] then StepResult(k, [])
    else
      var first := Step(k, samples[0].level, samples[0].now);
      var rest := Run(first.next, samples[1..]);
      StepResult(rest.next, first.events + rest.events)
  }

  // ---------------------------------------------------------------------------
  // One call, state by state, stated with the physical meaning of the pin

  /** IDLE: a press starts debouncing from `now`; otherwise nothing happens; no callback either way. */
  lemma IdleRule(k: Key, level: Level, now: U32)
    requires k.state == Idle
    ensures Step(k, level, now).events == []
    ensures Step(k, level, now).next ==
      if Asserted(level, k.reverseLogic) then k.(state := Debounce, lastTick := now) else k
  {
  }

  /** DEBOUNCE: wait until the debounce time has elapsed, then confirm the press (with its callback) or fall back to IDLE. */
  lemma DebounceRule(k: Key, level: Level, now: U32)
    requires k.state == Debounce
    ensures Elapsed(now, k.lastTick) < k.timerDebounce ==> Step(k, level, now) == StepResult(k, [])
    ensures Elapsed(now, k.lastTick) >= k.timerDebounce && Asserted(level, k.reverseLogic) ==>
      Step(k, level, now) ==
        StepResult(k.(state := Pressed, lastTick := now), Fire(k.buttonPressed, OnPress, k.numberBtn))
    ensures Elapsed(now, k.lastTick) >= k.timerDebounce && !Asserted(level, k.reverseLogic) ==>
      Step(k, level, now) == StepResult(k.(state := Idle), [])
  {
  }

  /** PRESSED: a release goes to RELEASE silently; holding past the long-press time goes to REPEAT with the long-press callback. */
  lemma PressedRule(k: Key, level: Level, now: U32)
    requires k.state == Pressed
    ensures !Asserted(level, k.reverseLogic) ==> Step(k, level, now) == StepResult(k.(state := Release), [])
    ensures Asserted(level, k.reverseLogic) && Elapsed(now, k.lastTick) >= k.timerLongPressed ==>
      Step(k, level, now) ==
        StepResult(k.(state := Repeat, lastTick := now), Fire(k.buttonLongPressed, OnLongPress, k.numberBtn))
    ensures Asserted(level, k.reverseLogic) && Elapsed(now, k.lastTick) < k.timerLongPressed ==>
      Step(k, level, now) == StepResult(k, [])
  {
  }

  /** REPEAT: a release goes to RELEASE_AFTER_REPEAT silently; each repeat period restarts the timer with the repeat callback. */
  lemma RepeatRule(k: Key, level: Level, now: U32)
    requires k.state == Repeat
    ensures !Asserted(level, k.reverseLogic) ==>
      Step(k, level, now) == StepResult(k.(state := ReleaseAfterRepeat), [])
    ensures Asserted(level, k.reverseLogic) && Elapsed(now, k.lastTick) >= k.timerRepeat ==>
      Step(k, level, now) == StepResult(k.(lastTick := now), Fire(k.buttonRepeat, OnRepeat, k.numberBtn))
    ensures Asserted(level, k.reverseLogic) && Elapsed(now, k.lastTick) < k.timerRepeat ==>
      Step(k, level, now) == StepResult(k, [])
  {
  }

  /** RELEASE and RELEASE_AFTER_REPEAT: their callback, then IDLE, whatever the pin and the tick. */
  lemma ReleaseRule(k: Key, level: Level, now: U32)
    requires k.state == Release || k.state == ReleaseAfterRepeat
    ensures Step(k, level, now) == StepResult(k.(state := Idle),
      if k.state == Release then Fire(k.buttonRelease, OnRelease, k.numberBtn)
      else Fire(k.buttonReleaseAfterRepeat, OnReleaseAfterRepeat, k.numberBtn))
  {
  }

  // ---------------------------------------------------------------------------
  // Sequences of calls

  /** Polling `a` and then `b` is polling `a + b`. */
  lemma {:induction false} RunAppend(k: Key, a: seq<Sample>, b: seq<Sample>)
    ensures Run(k, a + b) ==
      StepResult(Run(Run(k, a).next, b).next, Run(k, a).events + Run(Run(k, a).next, b).events)
    decreases |a|
  {
    if a == [] {
      assert a + b == b;
    } else {
      assert (a + b)[0] == a[0];
      assert (a + b)[1..] == a[1..] + b;
      var first := Step(k, a[0].level, a[0].now);
      RunAppend(first.next, a[1..], b);
      var mid := Run(first.next, a[1..]);
      assert Run(k, a) == StepResult(mid.next, first.events + mid.events);
      assert first.events + (mid.events + Run(mid.next, b).events) ==
        (first.events + mid.events) + Run(mid.next, b).events;
    }
  }

  /** Every sample has the button pressed. */
  predicate AllHeld(samples: seq<Sample>, r: ReverseLogic)
  {
    forall i | 0 <= i < |samples| :: Asserted(samples[i].level, r)
  }

  /** What holds of every sample holds of every sample after the first. */
  lemma HeldTail(samples: seq<Sample>, r: ReverseLogic)
    requires samples != []
    requires AllHeld(samples, r)
    ensures AllHeld(samples[1..], r)
  {
    forall i | 0 <= i < |samples[1..]| ensures Asserted(samples[1..][i].level, r) {
      assert samples[1..][i] == samples[i + 1];
    }
  }

  /** Every sample comes before `limit` milliseconds have elapsed since `start`. */
  predicate AllBefore(samples: seq<Sample>, start: U32, limit: U32)
  {
    forall i | 0 <= i < |samples| :: Elapsed(samples[i].now, start) < limit
  }

  /**
   * Debounce stability: while the debounce time has not elapsed the machine
   * stays in DEBOUNCE, whatever the pin does, and invokes nothing.
   */
  lemma {:induction false} DebounceWaits(k: Key, samples: seq<Sample>)
    requires k.state == Debounce
    requires AllBefore(samples, k.lastTick, k.timerDebounce)
    ensures Run(k, samples) == StepResult(k, [])
    decreases |samples|
  {
    if samples != [] {
      assert Elapsed(samples[0].now, k.lastTick) < k.timerDebounce;
      DebounceWaits(k, samples[1..]);
    }
  }

  /**
   * A press that is gone when the debounce time has elapsed is a bounce: the
   * machine returns to IDLE and no callback fires. One that is still there is
   * confirmed: PRESSED, timed from that poll, with the press callback.
   */
  lemma DebounceOutcome(k: Key, early: seq<Sample>, late: Sample)
    requires k.state == Debounce
    requires AllBefore(early, k.lastTick, k.timerDebounce)
    requires Elapsed(late.now, k.lastTick) >= k.timerDebounce
    ensures !Asserted(late.level, k.reverseLogic) ==> Run(k, early + [late]) == StepResult(k.(state := Idle), [])
    ensures Asserted(late.level, k.reverseLogic) ==>
      Run(k, early + [late]) ==
        StepResult(k.(state := Pressed, lastTick := late.now), Fire(k.buttonPressed, OnPress, k.numberBtn))
  {
    RunAppend(k, early, [late]);
    DebounceWaits(k, early);
    assert [late][1..] == [];
  }

  /**
   * While the button is held after a confirmed press the machine stays in
   * PRESSED or REPEAT and invokes only the long-press and repeat callbacks;
   * the long-press callback at most once and before any repeat, and not at
   * all once REPEAT has been reached.
   */
  lemma {:induction false} HeldStaysDown(k: Key, samples: seq<Sample>)
    requires k.state == Pressed || k.state == Repeat
    requires AllHeld(samples, k.reverseLogic)
    ensures Run(k, samples).next.state == Pressed || Run(k, samples).next.state == Repeat
    ensures k.state == Repeat ==> Run(k, samples).next.state == Repeat
    ensures forall e | e in Run(k, samples).events :: e.kind == OnLongPress || e.kind == OnRepeat
    ensures forall i | 0 < i < |Run(k, samples).events| :: Run(k, samples).events[i].kind == OnRepeat
    ensures k.state == Repeat ==> forall e | e in Run(k, samples).events :: e.kind == OnRepeat
    decreases |samples|
  {
    if samples != [] {
      assert Asserted(samples[0].level, k.reverseLogic);
      var first := Step(k, samples[0].level, samples[0].now);
      HeldTail(samples, k.reverseLogic);
      HeldStaysDown(first.next, samples[1..]);
      var rest := Run(first.next, samples[1..]);
      if first.next.state == Repeat {
        assert forall e | e in rest.events :: e.kind == OnRepeat;
      }
      if k.state == Repeat {
        assert forall e | e in first.events :: e.kind == OnRepeat;
      } else if first.next.state == Pressed {
        assert first.events == [];
      }
      assert Run(k, samples).events == first.events + rest.events;
    }
  }

  /**
   * Release symmetry: once a confirmed press has been held for any time,
   * releasing it and polling once more returns the machine to IDLE with
   * exactly one release-class callback (when registered), chosen by whether
   * the hold reached REPEAT.
   */
  lemma ReleaseAfterHold(k: Key, held: seq<Sample>, up: Sample, next: Sample)
    requires k.state == Pressed || k.state == Repeat
    requires AllHeld(held, k.reverseLogic)
    requires !Asserted(up.level, k.reverseLogic)
    ensures Run(k, held + [up, next]).next.state == Idle
    ensures Run(k, held + [up, next]).events ==
      Run(k, held).events +
        if Run(k, held).next.state == Repeat then Fire(k.buttonReleaseAfterRepeat, OnReleaseAfterRepeat, k.numberBtn)
        else Fire(k.buttonRelease, OnRelease, k.numberBtn)
  {
    RunAppend(k, held, [up, next]);
    HeldStaysDown(k, held);
    var h := Run(k, held).next;
    assert [up, next][1..] == [next];
    assert [next][1..] == [];
    var u := Step(h, up.level, up.now);
    assert u.events == [];
    assert u.next.state == (if h.state == Repeat then ReleaseAfterRepeat else Release);
    var v := Step(u.next, next.level, next.now);
    assert Run(u.next, [next]) == StepResult(v.next, v.events + []);
    assert Run(h, [up, next]) == StepResult(v.next, u.events + (v.events + []));
  }

  /** `n` polls' worth of the same callbacks. */
  function Times(evs: seq<Event>, n: nat): seq<Event>
  {
    if n == 0 then [] else evs + Times(evs, n - 1)
  }

  /**
   * Long-press waiting: while held in PRESSED before the long-press time has
   * elapsed since the press was confirmed, polls change nothing and invoke
   * nothing.
   */
  lemma {:induction false} PressedWaits(k: Key, samples: seq<Sample>)
    requires k.state == Pressed
    requires AllHeld(samples, k.reverseLogic)
    requires AllBefore(samples, k.lastTick, k.timerLongPressed)
    ensures Run(k, samples) == StepResult(k, [])
    decreases |samples|
  {
    if samples != [] {
      assert Asserted(samples[0].level, k.reverseLogic);
      assert Elapsed(samples[0].now, k.lastTick) < k.timerLongPressed;
      HeldTail(samples, k.reverseLogic);
      PressedWaits(k, samples[1..]);
    }
  }

  /**
   * Long-press threshold: after any number of waiting polls, the first held
   * poll at or past the long-press time goes to REPEAT, timed from that poll,
   * with the long-press callback.
   */
  lemma LongPressOutcome(k: Key, early: seq<Sample>, late: Sample)
    requires k.state == Pressed
    requires AllHeld(early, k.reverseLogic)
    requires AllBefore(early, k.lastTick, k.timerLongPressed)
    requires Asserted(late.level, k.reverseLogic)
    requires Elapsed(late.now, k.lastTick) >= k.timerLongPressed
    ensures Run(k, early + [late]) ==
      StepResult(k.(state := Repeat, lastTick := late.now), Fire(k.buttonLongPressed, OnLongPress, k.numberBtn))
  {
    RunAppend(k, early, [late]);
    PressedWaits(k, early);
    assert [late][1..] == [];
  }

  /** While held in REPEAT before the repeat time has elapsed since the last repeat, polls change nothing and invoke nothing. */
  lemma {:induction false} RepeatWaits(k: Key, samples: seq<Sample>)
    requires k.state == Repeat
    requires AllHeld(samples, k.reverseLogic)
    requires AllBefore(samples, k.lastTick, k.timerRepeat)
    ensures Run(k, samples) == StepResult(k, [])
    decreases |samples|
  {
    if samples != [] {
      assert Asserted(samples[0].level, k.reverseLogic);
      assert Elapsed(samples[0].now, k.lastTick) < k.timerRepeat;
      HeldTail(samples, k.reverseLogic);
      RepeatWaits(k, samples[1..]);
    }
  }

  /**
   * One repeat period: after any number of waiting polls, the first held poll
   * at or past the repeat time invokes the repeat callback and restarts the
   * period from that poll.
   */
  lemma RepeatOutcome(k: Key, early: seq<Sample>, late: Sample)
    requires k.state == Repeat
    requires AllHeld(early, k.reverseLogic)
    requires AllBefore(early, k.lastTick, k.timerRepeat)
    requires Asserted(late.level, k.reverseLogic)
    requires Elapsed(late.now, k.lastTick) >= k.timerRepeat
    ensures Run(k, early + [late]) ==
      StepResult(k.(lastTick := late.now), Fire(k.buttonRepeat, OnRepeat, k.numberBtn))
  {
    RunAppend(k, early, [late]);
    RepeatWaits(k, early);
    assert [late][1..] == [];
  }

  /** The polls of a hold cut into consecutive repeat periods, in order. */
  function Concat(periods: seq<seq<Sample>>): seq<Sample>
    decreases |periods|
  {
    if periods == [] then [] else periods[0] + Concat(periods[1..])
  }

  /**
   * Each period ends with its first poll at or past `period` after the end of
   * the one before it (the first: after `last`); every earlier poll of the
   * period comes before that.
   */
  predicate RepeatPeriods(last: U32, period: U32, periods: seq<seq<Sample>>)
    decreases |periods|
  {
    periods == [] ||
    (var p := periods[0];
     |p| > 0 &&
     AllBefore(p[..|p| - 1], last, period) &&
     Elapsed(p[|p| - 1].now, last) >= period &&
     RepeatPeriods(p[|p| - 1].now, period, periods[1..]))
  }

  /**
   * Repeat periodicity: while held in REPEAT and polled at any rate, the
   * repeat callback fires once per repeat period, for as long as the hold
   * lasts, each time on the first poll at or past the repeat time since the
   * previous repeat, and never in between.
   */
  lemma {:induction false} RepeatEveryPeriod(k: Key, periods: seq<seq<Sample>>)
    requires k.state == Repeat
    requires forall i | 0 <= i < |periods| :: AllHeld(periods[i], k.reverseLogic)
    requires RepeatPeriods(k.lastTick, k.timerRepeat, periods)
    ensures Run(k, Concat(periods)).events == Times(Fire(k.buttonRepeat, OnRepeat, k.numberBtn), |periods|)
    ensures Run(k, Concat(periods)).next.state == Repeat
    decreases |periods|
  {
    if periods != [] {
      var p := periods[0];
      var early, late := p[..|p| - 1], p[|p| - 1];
      assert AllHeld(p, k.reverseLogic);
      assert AllHeld(early, k.reverseLogic) by {
        forall i | 0 <= i < |early| ensures Asserted(early[i].level, k.reverseLogic) {
          assert early[i] == p[i];
        }
      }
      assert p == early + [late];
      RepeatOutcome(k, early, late);
      var k1 := k.(lastTick := late.now);
      var fire := Fire(k.buttonRepeat, OnRepeat, k.numberBtn);
      assert Run(k, p) == StepResult(k1, fire);
      var rest := periods[1..];
      assert RepeatPeriods(k1.lastTick, k1.timerRepeat, rest);
      assert forall i | 0 <= i < |rest| :: AllHeld(rest[i], k1.reverseLogic) by {
        forall i | 0 <= i < |rest| ensures AllHeld(rest[i], k1.reverseLogic) {
          assert rest[i] == periods[i + 1];
        }
      }
      RepeatEveryPeriod(k1, rest);
      assert Concat(periods) == p + Concat(rest);
      RunAppend(k, p, Concat(rest));
      assert Run(k, Concat(periods)).events == fire + Run(k1, Concat(rest)).events;
    }
  }

  // ---------------------------------------------------------------------------
  // Polarity

  function Opposite(r: ReverseLogic): ReverseLogic
  {
    if r == NonReverse then Reverse else NonReverse
  }

  /** The same polls with every pin level inverted. */
  function Inverted(samples: seq<Sample>): (r: seq<Sample>)
    ensures |r| == |samples|
    decreases |samples|
  {
    if samples == [] then [] else [Sample(1 - samples[0].level, samples[0].now)] + Inverted(samples[1..])
  }

  /**
   * Reverse polarity: a button wired the other way round, seeing the
   * inverted levels at the same ticks, goes through the same states and
   * invokes the same callbacks.
   */
  lemma {:induction false} PolarityMirror(k: Key, samples: seq<Sample>)
    ensures Run(k.(reverseLogic := Opposite(k.reverseLogic)), Inverted(samples)) ==
      StepResult(Run(k, samples).next.(reverseLogic := Opposite(k.reverseLogic)), Run(k, samples).events)
    decreases |samples|
  {
    if samples != [] {
      var m := k.(reverseLogic := Opposite(k.reverseLogic));
      var s := samples[0];
      assert Asserted(1 - s.level, m.reverseLogic) == Asserted(s.level, k.reverseLogic);
      var first := Step(k, s.level, s.now);
      assert Step(m, 1 - s.level, s.now) ==
        StepResult(first.next.(reverseLogic := m.reverseLogic), first.events);
      PolarityMirror(first.next, samples[1..]);
    }
  }

  // ---------------------------------------------------------------------------
  // Tick wrap-around

  /** The same polls, every tick moved `c` milliseconds later modulo 2^32. */
  function Shifted(samples: seq<Sample>, c: U32): (r: seq<Sample>)
    ensures |r| == |samples|
    decreases |samples|
  {
    if samples == [] then [] else [Sample(samples[0].level, WrapAdd(samples[0].now, c))] + Shifted(samples[1..], c)
  }

  /** Elapsed time does not depend on where the tick counter happens to wrap. */
  lemma ElapsedShift(now: U32, last: U32, c: U32)
    ensures Elapsed(WrapAdd(now, c), WrapAdd(last, c)) == Elapsed(now, last)
  {
    var e := Elapsed(now, last);
    assert WrapAdd(WrapAdd(last, c), e) == WrapAdd(now, c);
  }

  /**
   * Tick wrap-around: starting from a timestamp `c` milliseconds later and
   * polled at ticks `c` later, with the counter wrapping wherever it does,
   * the machine goes through the same states and invokes the same callbacks;
   * only its timestamp is moved by `c`.
   */
  lemma {:induction false} TickShift(k: Key, samples: seq<Sample>, c: U32)
    ensures Run(k.(lastTick := WrapAdd(k.lastTick, c)), Shifted(samples, c)) ==
      StepResult(Run(k, samples).next.(lastTick := WrapAdd(Run(k, samples).next.lastTick, c)), Run(k, samples).events)
    decreases |samples|
  {
    if samples != [] {
      var s := samples[0];
      ElapsedShift(s.now, k.lastTick, c);
      var first := Step(k, s.level, s.now);
      assert Step(k.(lastTick := WrapAdd(k.lastTick, c)), s.level, WrapAdd(s.now, c)) ==
        StepResult(first.next.(lastTick := WrapAdd(first.next.lastTick, c)), first.events);
      TickShift(first.next, samples[1..], c);
    }
  }

  // ---------------------------------------------------------------------------
  // A worked click across the wrap of the tick counter

  /** Timings 50/500/300 ms, active low, all five callbacks registered as functions 1 to 5, button number 7. */
  const ClickKey: Key :=
    Key(Idle, 0, 1, 0, 50, 500, 300, NonReverse, 7, Some(1), Some(2), Some(3), Some(4), Some(5))

  /**
   * A short click pressed 16 ms before the counter wraps: the press is
   * confirmed 60 ms later, after the wrap, and released before the long-press
   * time, giving exactly the press and the release callbacks.
   */
  lemma ShortClickAcrossWrap()
    ensures Run(ClickKey, [Sample(0, 0xFFFF_FFF0), Sample(0, 0xFFFF_FFFF), Sample(0, 44),
                           Sample(1, 100), Sample(1, 101)]) ==
      StepResult(ClickKey.(lastTick := 44), [Event(OnPress, 1, 7), Event(OnRelease, 4, 7)])
  {
    var k0 := ClickKey;
    var k1 := k0.(state := Debounce, lastTick := 0xFFFF_FFF0);
    var k2 := k1.(state := Pressed, lastTick := 44);
    assert Elapsed(0xFFFF_FFFF, 0xFFFF_FFF0) == 15;
    assert Elapsed(44, 0xFFFF_FFF0) == 60;
    assert Step(k0, 0, 0xFFFF_FFF0) == StepResult(k1, []);
    assert Step(k1, 0, 0xFFFF_FFFF) == StepResult(k1, []);
    assert Step(k1, 0, 44) == StepResult(k2, [Event(OnPress, 1, 7)]);
    assert Step(k2, 1, 100) == StepResult(k2.(state := Release), []);
    assert Step(k2.(state := Release), 1, 101) == StepResult(k2.(state := Idle), [Event(OnRelease, 4, 7)]);
  }
}
