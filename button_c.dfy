/// The polled button state machine: the per-state routines, the dispatcher
/// ButtonTask, initialisation, the timing setters and callback registration.
///
/// The GPIO read and the millisecond tick are the `level` and `now`
/// parameters of each routine; a callback invocation is an `Event` appended
/// to the routine's result.
module ButtonC {
  import opened ButtonH

  // ---------------------------------------------------------------------------
  // C expression semantics

  /** C `==`: an `int` that is 1 when the operands are equal and 0 otherwise. */
  function CEq(a: int, b: int): (r: int)
    ensures r == 1 || r == 0
    ensures r != 0 <==> a == b
  {
    if a == b then 1 else 0
  }

  /** C `c ? t : e`: `t` when `c` is non-zero. */
  function CCond(c: int, t: int, e: int): int
  {
    if c != 0 then t else e
  }

  // ---------------------------------------------------------------------------
  // Polarity

  /** The level a pressed button drives: low when NON_REVERSE, high when REVERSE. */
  function AssertedLevel(r: ReverseLogic): Level
  {
    if r == NonReverse then PinReset else PinSet
  }

  /** The button is physically pressed. */
  predicate Asserted(level: Level, r: ReverseLogic)
  {
    level == AssertedLevel(r)
  }

  /**
   * The press test of the idle and debounce routines. `==` binds tighter
   * than `?:`, so C reads it as `(read == (rev == 0)) ? RESET : SET` and uses
   * the value as the condition; for the two levels the HAL can return this
   * is exactly "pressed".
   */
  function PressTest(level: Level, r: ReverseLogic): (pressed: bool)
    ensures pressed <==> Asserted(level, r)
  {
    CCond(CEq(level, CEq(ReverseCode(r), 0)), PinReset, PinSet) != 0
  }

  /** The release test of the pressed and repeat routines, parsed the same way: exactly "not pressed". */
  function ReleaseTest(level: Level, r: ReverseLogic): (released: bool)
    ensures released <==> !Asserted(level, r)
  {
    CCond(CEq(level, CEq(ReverseCode(r), 0)), PinSet, PinReset) != 0
  }

  // ---------------------------------------------------------------------------
  // Time

  /** `a + d` in `uint32_t`: addition that wraps at 2^32. */
  function WrapAdd(a: U32, d: U32): (r: U32)
    ensures r == (a + d) % TWO32
  {
    if a + d < TWO32 then a + d else a + d - TWO32
  }

  /**
   * `now - last` in `uint32_t`: the number of milliseconds that takes the
   * tick from `last` to `now`, counting through one wrap-around.
   */
  function Elapsed(now: U32, last: U32): (e: U32)
    ensures WrapAdd(last, e) == now
    ensures forall d: U32 :: WrapAdd(last, d) == now ==> d == e
  {
    if last <= now then now - last else now + TWO32 - last
  }

  // ---------------------------------------------------------------------------
  // One evaluation, as values

  /** The record after one routine, and the callbacks that routine invoked, in order. */
  datatype StepResult = StepResult(next: Key, events: seq<Event>)

  /** `if (slot != NULL) slot(number)`. */
  function Fire(slot: Option<HandlerId>, kind: CallbackKind, number: U16): seq<Event>
  {
    match slot
    case None => []
    case Some(h) => [Event(kind, h, number)]
  }

  /** The callback a state's routine may invoke. */
  function CallbackOf(s: ButtonState): Option<CallbackKind>
  {
    match s
    case Idle => None
    case Debounce => Some(OnPress)
    case Pressed => Some(OnLongPress)
    case Repeat => Some(OnRepeat)
    case Release => Some(OnRelease)
    case ReleaseAfterRepeat => Some(OnReleaseAfterRepeat)
  }

  /** The edges of the state diagram IDLE → DEBOUNCE → PRESSED → REPEAT → RELEASE / RELEASE_AFTER_REPEAT → IDLE. */
  predicate Edge(from: ButtonState, to: ButtonState)
  {
    match from
    case Idle => to == Debounce
    case Debounce => to == Pressed || to == Idle
    case Pressed => to == Release || to == Repeat
    case Repeat => to == ReleaseAfterRepeat
    case Release => to == Idle
    case ReleaseAfterRepeat => to == Idle
  }

  function IdleStep(k: Key, level: Level, now: U32): StepResult
  {
    if PressTest(level, k.reverseLogic) then
      StepResult(k.(lastTick := now, state := Debounce), [])
    else
      StepResult(k, [])
  }

  function DebounceStep(k: Key, level: Level, now: U32): StepResult
  {
    if Elapsed(now, k.lastTick) >= k.timerDebounce then
      if PressTest(level, k.reverseLogic) then
        StepResult(k.(state := Pressed, lastTick := now), Fire(k.buttonPressed, OnPress, k.numberBtn))
      else
        StepResult(k.(state := Idle), [])
    else
      StepResult(k, [])
  }

  function PressedStep(k: Key, level: Level, now: U32): StepResult
  {
    if ReleaseTest(level, k.reverseLogic) then
      StepResult(k.(state := Release), [])
    else if Elapsed(now, k.lastTick) >= k.timerLongPressed then
      StepResult(k.(state := Repeat, lastTick := now), Fire(k.buttonLongPressed, OnLongPress, k.numberBtn))
    else
      StepResult(k, [])
  }

  function RepeatStep(k: Key, level: Level, now: U32): StepResult
  {
    if ReleaseTest(level, k.reverseLogic) then
      StepResult(k.(state := ReleaseAfterRepeat), [])
    else if Elapsed(now, k.lastTick) >= k.timerRepeat then
      StepResult(k.(lastTick := now), Fire(k.buttonRepeat, OnRepeat, k.numberBtn))
    else
      StepResult(k, [])
  }

  function ReleaseStep(k: Key): StepResult
  {
    StepResult(k.(state := Idle), Fire(k.buttonRelease, OnRelease, k.numberBtn))
  }

  function ReleaseAfterRepeatStep(k: Key): StepResult
  {
    StepResult(k.(state := Idle), Fire(k.buttonReleaseAfterRepeat, OnReleaseAfterRepeat, k.numberBtn))
  }

  /**
   * ButtonTask: exactly one routine, chosen by the current state. It follows
   * one edge of the state diagram at most, changes nothing but the state and
   * the last tick (which can only become `now`), and invokes at most one
   * callback: the one belonging to the state it ran in, with the button's
   * number, and only if that slot is registered.
   */
  function Step(k: Key, level: Level, now: U32): (r: StepResult)
    ensures r.next.state == k.state || Edge(k.state, r.next.state)
    ensures r.next == k.(state := r.next.state, lastTick := r.next.lastTick)
    ensures r.next.lastTick == k.lastTick || r.next.lastTick == now
    ensures |r.events| <= 1
    ensures forall e | e in r.events ::
      Some(e.kind) == CallbackOf(k.state) && k.Slot(e.kind) == Some(e.handler) && e.number == k.numberBtn
  {
    match k.state
    case Idle => IdleStep(k, level, now)
    case Debounce => DebounceStep(k, level, now)
    case Pressed => PressedStep(k, level, now)
    case Repeat => RepeatStep(k, level, now)
    case Release => ReleaseStep(k)
    case ReleaseAfterRepeat => ReleaseAfterRepeatStep(k)
  }

  // ---------------------------------------------------------------------------
  // The record, updated in place

  class Button {
    var state: ButtonState
    var gpioPort: PortId
    var gpioPin: U16
    var lastTick: U32
    var timerDebounce: U32
    var timerLongPressed: U32
    var timerRepeat: U32
    var reverseLogic: ReverseLogic
    var numberBtn: U16
    var buttonPressed: Option<HandlerId>
    var buttonLongPressed: Option<HandlerId>
    var buttonRepeat: Option<HandlerId>
    var buttonRelease: Option<HandlerId>
    var buttonReleaseAfterRepeat: Option<HandlerId>

    /** The record's contents as a value. */
    ghost function Model(): Key
      reads this
    {
      Key(state, gpioPort, gpioPin, lastTick, timerDebounce, timerLongPressed, timerRepeat,
          reverseLogic, numberBtn, buttonPressed, buttonLongPressed, buttonRepeat,
          buttonRelease, buttonReleaseAfterRepeat)
    }

    /** A record with static storage duration: all zero, so IDLE with every slot NULL. */
    constructor Zeroed()
      ensures StateCode(state) == 0
      ensures Model() == ZeroKey
    {
      state := Idle;
      gpioPort, gpioPin := 0, 0;
      lastTick := 0;
      timerDebounce, timerLongPressed, timerRepeat := 0, 0, 0;
      reverseLogic := NonReverse;
      numberBtn := 0;
      buttonPressed, buttonLongPressed, buttonRepeat := None, None, None;
      buttonRelease, buttonReleaseAfterRepeat := None, None;
    }

    /** ButtonInitKey: IDLE plus the given wiring, timings, polarity and number; the last tick and the slots keep their values. */
    method InitKey(port: PortId, pin: U16, debounce: U32, longPressed: U32, repeat: U32,
                   reverse: ReverseLogic, number: U16)
      modifies this
      ensures Model() == old(Model()).(state := Idle, gpioPort := port, gpioPin := pin,
                                       timerDebounce := debounce, timerLongPressed := longPressed,
                                       timerRepeat := repeat, reverseLogic := reverse, numberBtn := number)
    {
      state := Idle;
      gpioPort := port;
      gpioPin := pin;
      timerDebounce := debounce;
      timerLongPressed := longPressed;
      timerRepeat := repeat;
      reverseLogic := reverse;
      numberBtn := number;
    }

    method SetDebounceTime(ms: U32)
      modifies this
      ensures Model() == old(Model()).(timerDebounce := ms)
    {
      timerDebounce := ms;
    }

    method SetLongPressedTime(ms: U32)
      modifies this
      ensures Model() == old(Model()).(timerLongPressed := ms)
    {
      timerLongPressed := ms;
    }

    method SetRepeatTime(ms: U32)
      modifies this
      ensures Model() == old(Model()).(timerRepeat := ms)
    {
      timerRepeat := ms;
    }

    method RegisterPressCallback(callback: Option<HandlerId>)
      modifies this
      ensures Model() == old(Model()).(buttonPressed := callback)
    {
      buttonPressed := callback;
    }

    method RegisterLongPressedCallback(callback: Option<HandlerId>)
      modifies this
      ensures Model() == old(Model()).(buttonLongPressed := callback)
    {
      buttonLongPressed := callback;
    }

    method RegisterRepeatCallback(callback: Option<HandlerId>)
      modifies this
      ensures Model() == old(Model()).(buttonRepeat := callback)
    {
      buttonRepeat := callback;
    }

    method RegisterReleaseCallback(callback: Option<HandlerId>)
      modifies this
      ensures Model() == old(Model()).(buttonRelease := callback)
    {
      buttonRelease := callback;
    }

    method RegisterReleaseAfterRepeatCallback(callback: Option<HandlerId>)
      modifies this
      ensures Model() == old(Model()).(buttonReleaseAfterRepeat := callback)
    {
      buttonReleaseAfterRepeat := callback;
    }

    method IdleRoutine(level: Level, now: U32) returns (events: seq<Event>)
      modifies this
      ensures StepResult(Model(), events) == IdleStep(old(Model()), level, now)
    {
      events := [];
      if PressTest(level, reverseLogic) {
        lastTick := now;
        state := Debounce;
      }
    }

    method DebounceRoutine(level: Level, now: U32) returns (events: seq<Event>)
      modifies this
      ensures StepResult(Model(), events) == DebounceStep(old(Model()), level, now)
    {
      events := [];
      if Elapsed(now, lastTick) >= timerDebounce {
        if PressTest(level, reverseLogic) {
          state := Pressed;
          lastTick := now;
          if buttonPressed.Some? {
            events := [Event(OnPress, buttonPressed.value, numberBtn)];
          }
        } else {
          state := Idle;
        }
      }
    }

    method PressedRoutine(level: Level, now: U32) returns (events: seq<Event>)
      modifies this
      ensures StepResult(Model(), events) == PressedStep(old(Model()), level, now)
    {
      events := [];
      if ReleaseTest(level, reverseLogic) {
        state := Release;
      } else if Elapsed(now, lastTick) >= timerLongPressed {
        state := Repeat;
        lastTick := now;
        if buttonLongPressed.Some? {
          events := [Event(OnLongPress, buttonLongPressed.value, numberBtn)];
        }
      }
    }

    method RepeatRoutine(level: Level, now: U32) returns (events: seq<Event>)
      modifies this
      ensures StepResult(Model(), events) == RepeatStep(old(Model()), level, now)
    {
      events := [];
      if ReleaseTest(level, reverseLogic) {
        state := ReleaseAfterRepeat;
      } else if Elapsed(now, lastTick) >= timerRepeat {
        lastTick := now;
        if buttonRepeat.Some? {
          events := [Event(OnRepeat, buttonRepeat.value, numberBtn)];
        }
      }
    }

    method ReleaseRoutine() returns (events: seq<Event>)
      modifies this
      ensures StepResult(Model(), events) == ReleaseStep(old(Model()))
    {
      events := [];
      if buttonRelease.Some? {
        events := [Event(OnRelease, buttonRelease.value, numberBtn)];
      }
      state := Idle;
    }

    method ReleaseAfterRepeatRoutine() returns (events: seq<Event>)
      modifies this
      ensures StepResult(Model(), events) == ReleaseAfterRepeatStep(old(Model()))
    {
      events := [];
      if buttonReleaseAfterRepeat.Some? {
        events := [Event(OnReleaseAfterRepeat, buttonReleaseAfterRepeat.value, numberBtn)];
      }
      state := Idle;
    }

    /** ButtonTask: one poll of the button; `level` is the pin read and `now` the tick. */
    method Task(level: Level, now: U32) returns (events: seq<Event>)
      modifies this
      ensures StepResult(Model(), events) == Step(old(Model()), level, now)
    {
      match state
      case Idle => events := IdleRoutine(level, now);
      case Debounce => events := DebounceRoutine(level, now);
      case Pressed => events := PressedRoutine(level, now);
      case Repeat => events := RepeatRoutine(level, now);
      case Release => events := ReleaseRoutine();
      case ReleaseAfterRepeat => events := ReleaseAfterRepeatRoutine();
    }
  }
}
