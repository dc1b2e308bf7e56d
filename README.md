# Polled button state machine

This project models a button driver for microcontrollers. The driver turns a
bouncing mechanical contact on a GPIO pin into callbacks: press, long press,
auto-repeat, release, and release after a repeat.

The caller owns a `button_t` record per button and calls `ButtonTask` on every
loop iteration. Each call runs exactly one per-state routine, chosen by the
current state. Depending on the state, that routine reads the pin level
through `HAL_GPIO_ReadPin` and the millisecond tick through `HAL_GetTick`. It
may change the state and the last-tick timestamp, and it may invoke one
registered callback with the button's number. The states are IDLE → DEBOUNCE →
PRESSED → REPEAT → RELEASE / RELEASE_AFTER_REPEAT → IDLE. The model gives each
call one pin level and one tick (see "## Left out").

Files:

- `button_h.dfy` (module `ButtonH`): the header's declarations. It holds the
  `BUTTON_STATE` and `ReverseLogicGpio_t` enumerations with their C values, the
  `uint32_t`/`uint16_t` ranges, and `Key`, the contents of a `button_t` as a
  value.
- `button_c.dfy` (module `ButtonC`): the driver. This module has three parts:
  - The two pin tests, exactly as C parses them. The functions `CEq` and
    `CCond` give C's `==` and `?:` their integer meaning.
  - `uint32_t` subtraction of ticks (`Elapsed`).
  - The routines written twice. Each is a function on `Key` values: `IdleStep`
    … `ReleaseAfterRepeatStep`, and `Step` for `ButtonTask`. Each is also a
    method of the class `Button`, whose fields are the fields of `button_t`
    and are updated in place. Every method is proved to change the record
    exactly as its function says.
- `button_traces.dfy` (module `ButtonTraces`): `Run` is the caller's loop,
  calling `ButtonTask` once per sample. This module holds the rule of each
  state, stated with the pin's physical meaning. It also holds what sequences
  of polls do: debounce, long press, auto-repeat, release, reverse polarity and
  tick wrap-around.

How the model stands in for the C code:

- The pin read becomes the `level` parameter of a call, and the tick read
  becomes the `now` parameter.
- A callback slot is an `Option<HandlerId>`, where `None` stands for NULL.
- Invoking a callback appends `Event(kind, handler, number)` to the events the
  call returns.

## Model

| member | source | states |
|---|---|---|
| `ButtonH.StateCode` | button.h:15-25 | the six states have C values 0 to 5, and the value is 0 exactly for IDLE |
| `ButtonH.ReverseCode` | button.h:27-30 | polarity is two-valued: NON_REVERSE is 0 and REVERSE is 1 |
| `ButtonC.PressTest` | button.c:73-84 | the press test, as C parses it (`(read == (rev == 0)) ? RESET : SET`), is true exactly when the pin is at the pressed level (low for NON_REVERSE, high for REVERSE) |
| `ButtonC.ReleaseTest` | button.c:102-119 | the release test, parsed the same way, is true exactly when the pin is not at the pressed level |
| `ButtonC.Elapsed` | button.c:82 | `now - LastTick` in `uint32_t` is the unique value in 0..2^32-1 that takes `LastTick` to `now` with wrap-around |
| `ButtonC.Step` | button.c:156-186 | one `ButtonTask` call follows at most one edge of the state diagram and changes only the state and the last tick (the tick only to `now`); it invokes at most one callback, the one belonging to the current state, only if registered, with the button's number |
| `ButtonC.Button.Zeroed` | button.h:33-56 | a statically allocated record starts all-zero: its state has C value 0, which is IDLE, and every slot is NULL |
| `ButtonC.Button.InitKey` | button.c:14-26 | the state becomes IDLE; port, pin, the three timings, polarity and number are stored exactly; the last tick and the five slots are unchanged |
| `ButtonC.Button.SetDebounceTime` | button.c:28-31 | only the debounce time changes |
| `ButtonC.Button.SetLongPressedTime` | button.c:33-36 | only the long-press time changes |
| `ButtonC.Button.SetRepeatTime` | button.c:38-41 | only the repeat time changes |
| `ButtonC.Button.RegisterPressCallback` | button.c:44-47 | only the press slot changes |
| `ButtonC.Button.RegisterLongPressedCallback` | button.c:49-52 | only the long-press slot changes |
| `ButtonC.Button.RegisterRepeatCallback` | button.c:54-57 | only the repeat slot changes |
| `ButtonC.Button.RegisterReleaseCallback` | button.c:59-62 | only the release slot changes |
| `ButtonC.Button.RegisterReleaseAfterRepeatCallback` | button.c:64-69 | only the release-after-repeat slot changes |
| `ButtonC.Button.IdleRoutine` | button.c:71-78 | the record and the callbacks invoked are those of the IDLE rule (`IdleStep`) |
| `ButtonC.Button.DebounceRoutine` | button.c:80-98 | the record and the callbacks invoked are those of the DEBOUNCE rule (`DebounceStep`) |
| `ButtonC.Button.PressedRoutine` | button.c:100-115 | the record and the callbacks invoked are those of the PRESSED rule (`PressedStep`) |
| `ButtonC.Button.RepeatRoutine` | button.c:117-135 | the record and the callbacks invoked are those of the REPEAT rule (`RepeatStep`) |
| `ButtonC.Button.ReleaseRoutine` | button.c:137-144 | the release callback if registered, then IDLE |
| `ButtonC.Button.ReleaseAfterRepeatRoutine` | button.c:145-154 | the release-after-repeat callback if registered, then IDLE |
| `ButtonC.Button.Task` | button.c:156-186 | the in-place update and the callbacks invoked are exactly those of `Step` |
| `ButtonTraces.Run` | button.c:156-186 | over any sequence of polls there are at most as many callbacks as polls; the configuration never changes; every callback is a registered one receiving the button's number |
| `ButtonTraces.IdleRule` | button.c:71-78 | IDLE: if pressed, go to DEBOUNCE with last tick = now, otherwise nothing changes; no callback either way |
| `ButtonTraces.DebounceRule` | button.c:80-98 | DEBOUNCE: before the debounce time nothing changes; after it, still pressed goes to PRESSED with last tick = now and the press callback, released goes to IDLE with no callback |
| `ButtonTraces.PressedRule` | button.c:100-115 | PRESSED: released goes to RELEASE silently with the last tick kept; held past the long-press time goes to REPEAT with last tick = now and the long-press callback; otherwise nothing changes |
| `ButtonTraces.RepeatRule` | button.c:117-135 | REPEAT: released goes to RELEASE_AFTER_REPEAT silently; held past the repeat time stays in REPEAT with last tick = now and the repeat callback; otherwise nothing changes |
| `ButtonTraces.ReleaseRule` | button.c:137-154 | RELEASE and RELEASE_AFTER_REPEAT invoke their own callback and go to IDLE without reading the pin or the tick and without touching the last tick |
| `ButtonTraces.RunAppend` | button.c:156-186 | polling one sequence and then another is the same as polling their concatenation |
| `ButtonTraces.DebounceWaits` | button.c:80-98 | while the debounce time has not elapsed, DEBOUNCE holds whatever the pin does, with no callback |
| `ButtonTraces.DebounceOutcome` | button.c:80-98 | after a debounce wait, a press gone at the threshold poll is rejected (IDLE, no callback); one still present is confirmed (PRESSED, timed from that poll, press callback) |
| `ButtonTraces.HeldStaysDown` | button.c:100-135 | while held after a confirmed press, the machine stays in PRESSED/REPEAT and invokes only long-press and repeat callbacks; long press at most once, before any repeat, and never once in REPEAT |
| `ButtonTraces.ReleaseAfterHold` | button.c:100-154 | after any hold, a release and one more poll return to IDLE with exactly one release-class callback (if registered): release after repeat if the hold reached REPEAT, plain release otherwise |
| `ButtonTraces.PressedWaits` | button.c:100-115 | held in PRESSED, polls before the long-press time change nothing and invoke nothing |
| `ButtonTraces.LongPressOutcome` | button.c:100-115 | held in PRESSED, after any waiting polls, the first poll at or past the long-press time goes to REPEAT, timed from that poll, with the long-press callback |
| `ButtonTraces.RepeatWaits` | button.c:117-135 | held in REPEAT, polls before the repeat time change nothing and invoke nothing |
| `ButtonTraces.RepeatOutcome` | button.c:117-135 | held in REPEAT, after any waiting polls, the first poll at or past the repeat time invokes the repeat callback and restarts the period from that poll |
| `ButtonTraces.RepeatEveryPeriod` | button.c:117-135 | held in REPEAT and polled at any rate, the repeat callback fires exactly once per repeat period, on the first poll at or past the repeat time since the previous repeat, and the machine stays in REPEAT |
| `ButtonTraces.PolarityMirror` | button.c:71-135 | a button of the opposite polarity that sees inverted levels at the same ticks goes through the same states with the same callbacks |
| `ButtonTraces.ElapsedShift` | button.c:82 | elapsed time is unchanged when both ticks are moved by the same amount modulo 2^32 |
| `ButtonTraces.TickShift` | button.c:71-186 | moving the timestamp and every poll's tick by the same amount modulo 2^32 (whatever the counter wraps) gives the same states and callbacks |
| `ButtonTraces.ShortClickAcrossWrap` | button.c:71-186 | with timings 50/500/300, a short click pressed just before the 32-bit tick wraps gives exactly the press callback and then the release callback |

## Left out

- `button_cfg.h` is not part of this model. It holds preprocessor configuration for a newer generation of the library, which `button.c` does not include, and it contains no logic.
- The newer generation's features do not exist in `button.c`, so they are not modelled: multi-click counting, release debouncing, the idle callback, status codes, and tick-source registration. That generation also keeps a separate last-click timestamp. In `button.c`, confirming a press sets `LastTick`, and the model follows `button.c`.
- `HAL_GPIO_ReadPin` and `HAL_GetTick` are hardware I/O, so they become the `level` and `now` parameters of each call. A routine that does not read the pin or the tick ignores the parameter. DEBOUNCE reads the pin only once the debounce time has elapsed (button.c:84). RELEASE and RELEASE_AFTER_REPEAT read neither. DEBOUNCE, PRESSED and REPEAT read the tick twice (button.c:82 and 87, 106 and 109, 127 and 129). The model uses one reading per call, so it assumes both readings are equal.
- `GpioPort` and `GpioPin` are stored by `ButtonInitKey` and passed to every `HAL_GPIO_ReadPin` (button.c:73, 84, 102, 119). The model keeps them as uninterpreted identities: a `nat` for the port address and a `uint16_t` for the pin. It does not connect the `level` parameter to them, so it does not capture which pin is read.
- A callback is a function pointer stored through a `void *` cast. The model keeps only its identity, and it represents running the callback by recording the call. What the callback itself does is outside the driver.
- `RELEASE_AFTER_REPEAT_EN` is fixed at 1, as the header sets it. The build with the macro at 0 has only five states, and it sends REPEAT to RELEASE on release. That build is not modelled.
- A `switch` on a `State` value outside the enumeration would do nothing. The model's state type has only the six enumerators, so such values cannot occur.
- `ButtonC.Button.Zeroed`: models only a record with static storage duration, which C zero-fills. An automatic `button_t` has indeterminate `LastTick` and callback slots until they are set, because `ButtonInitKey` sets neither. That case is not modelled.
- Concurrent calls, including calls from interrupt context, are not modelled. The driver assumes a single sequential caller per button.
