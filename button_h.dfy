/// The declarations of the button driver's header: the state enumeration,
/// the GPIO polarity enumeration and the `button_t` record, as values.
/// The configuration macro RELEASE_AFTER_REPEAT_EN is fixed at 1, so the
/// sixth state and the fifth callback slot are always present.
module ButtonH {

  const TWO32: int := 0x1_0000_0000

  /** The C `uint32_t`: ticks, timestamps and timer thresholds. */
  type U32 = x: int | 0 <= x < 0x1_0000_0000

  /** The C `uint16_t`: GPIO pin masks and button numbers. */
  type U16 = x: int | 0 <= x < 0x1_0000

  /** A GPIO level as the HAL returns it: GPIO_PIN_RESET (0) or GPIO_PIN_SET (1). */
  type Level = l: int | 0 <= l <= 1

  const PinReset: Level := 0
  const PinSet: Level := 1

  /** The address of a GPIO port: an identity the driver only stores. */
  type PortId = nat

  /** The identity of a callback function; `None` in a slot stands for NULL. */
  type HandlerId = nat

  datatype Option<T> = None | Some(value: T)

  /** BUTTON_STATE. */
  datatype ButtonState = Idle | Debounce | Pressed | Repeat | Release | ReleaseAfterRepeat

  /** The integer value C gives each enumerator: IDLE is 0, the rest follow in order. */
  function StateCode(s: ButtonState): (c: nat)
    ensures c < 6
    ensures c == 0 <==> s == Idle
  {
    match s
    case Idle => 0
    case Debounce => 1
    case Pressed => 2
    case Repeat => 3
    case Release => 4
    case ReleaseAfterRepeat => 5
  }

  /** ReverseLogicGpio_t: NON_REVERSE means active low, REVERSE active high. */
  datatype ReverseLogic = NonReverse | Reverse

  function ReverseCode(r: ReverseLogic): (c: nat)
    ensures c <= 1
    ensures c == 0 <==> r == NonReverse
  {
    if r == NonReverse then 0 else 1
  }

  /** The five callback slots of `button_t`. */
  datatype CallbackKind = OnPress | OnLongPress | OnRepeat | OnRelease | OnReleaseAfterRepeat

  /** One callback invocation: which slot, which function, and the button number it received. */
  datatype Event = Event(kind: CallbackKind, handler: HandlerId, number: U16)

  /** The contents of a `button_t`. */
  datatype Key = Key(
    state: ButtonState,
    gpioPort: PortId,
    gpioPin: U16,
    lastTick: U32,
    timerDebounce: U32,
    timerLongPressed: U32,
    timerRepeat: U32,
    reverseLogic: ReverseLogic,
    numberBtn: U16,
    buttonPressed: Option<HandlerId>,
    buttonLongPressed: Option<HandlerId>,
    buttonRepeat: Option<HandlerId>,
    buttonRelease: Option<HandlerId>,
    buttonReleaseAfterRepeat: Option<HandlerId>)
  {
    /** The slot that holds the callback of the given kind. */
    function Slot(kind: CallbackKind): Option<HandlerId>
    {
      match kind
      case OnPress => buttonPressed
      case OnLongPress => buttonLongPressed
      case OnRepeat => buttonRepeat
      case OnRelease => buttonRelease
      case OnReleaseAfterRepeat => buttonReleaseAfterRepeat
    }
  }

  /** A `button_t` with static storage duration before any call: every field zero, every slot NULL. */
  const ZeroKey: Key :=
    Key(Idle, 0, 0, 0, 0, 0, 0, NonReverse, 0, None, None, None, None, None)
}
