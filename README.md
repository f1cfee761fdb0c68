# Progress display server — a Dafny model

This project models the progress display server of RPCS3 (`rpcs3/Emu/system_progress.cpp`).
Producer threads elsewhere publish a label pointer (`g_progr`) and four `u32` counters
(`g_progr_ftotal`, `g_progr_fdone`, `g_progr_ptotal`, `g_progr_pdone`) in process-wide
atomics. One server thread (`progress_dialog_server::operator()`) waits for a label. It then
picks how the session is shown: a native overlay dialog, a fallback host dialog,
overlay messages only, or nothing. It polls the atomics once per tick and pushes a
percentage and a status line whenever something changed. When the label is cleared it
closes the dialog and subtracts what it last saw from the shared counters. The destructor
resets all the atomics.

Modules:

- `Counters` (`counters.dfy`): the `u32` counter type and wrap-around addition and subtraction.
- `Percent` (`percent.dfy`): the percentage of lines 157-159, over naturals with exact division.
- `StatusText` (`status_text.dfy`): the status line of lines 161-166. It includes `%u` decimal
  formatting and a reader for that line, so the round trip shows which pairs appear and
  with which numbers.
- `SystemProgress` (`system_progress.dfy`):
  - the shared atomics as class `SharedProgress`;
  - the main-thread queue behind `Emu.CallFromMainThread` as class `MainThread`;
  - the fallback dialog's close callback;
  - the server as class `ProgressServer`.

  The server's endless loop is cut into step methods: `IdleTick`, `SessionTick`, `Drain`
  and `Destroy`. The pure decisions inside them are functions with lemmas:
  - `SelectTarget` picks the session's target;
  - `Tick` diffs a poll against the last snapshot and says what is pushed;
  - `Closing` gives the teardown calls;
  - `StoppingCalls` gives the exit calls.

  The steps take these as parameters:
  - `aborting`: the thread's abort state;
  - `Environment`: renderer, display manager, the message-only workaround flag and the
    dialog factory;
  - `hint`: the compile-hint configuration flag.

  Calls the server thread makes itself are appended to `ProgressServer.ui`. Work it posts to
  the main thread is appended to `MainThread.tasks` and never run. The label is modelled by
  its identity (`LabelId`), because the server compares pointers, not strings.

Behaviour of the code worth knowing:

- With only file counters (ftotal=10, fdone=5, ptotal=0, pdone=0) the code gives 0%, not 50%.
  Only `fdone` is raised to at least 1, so `pdone = 0` makes the numerator 0
  (`Percent.NoModulesDoneIsZero`).
- Message-only mode needs a renderer and the workaround flag. Outside message-only mode, with
  no native dialog (neither new nor kept from an earlier session) and no dialog from the
  factory, the session has no dialog at all (`NoDialog`). It still computes the percentage,
  but pushes it nowhere, and it does not refresh the message queue.
- In message-only mode, a poll that sees a change skips the message-queue refresh (the
  `continue` at line 152). Only polls that see no change refresh the queue.
- `native_dlg` is declared before the outer loop (line 37), so it outlives its session. A later
  session that is not message-only and does not create a native dialog keeps pushing updates
  to that earlier native dialog. That happens when the session finds no renderer, or a
  renderer without a display manager while the workaround flag is off
  (`SystemProgress.LaterSessionReusesNativeDialog`). Such a session never creates a fallback
  dialog. At exit, the stopping text goes to the last native dialog even when the session
  that ended was message-only.
- One expected file that is not done yet does not hold the percentage back. `fdone = 0` is
  raised to 1 like `ftotal = 1`, so with all modules done the dialog shows 100% while the
  status line still reads "file 0 of 1" (`Percent.OneUncompiledFileShowsComplete`). The comment
  at line 156 suggests the file axis was meant to keep the percentage below 100 there.

## Model

| member | source | states |
|---|---|---|
| `Counters.WrapAdd` | rpcs3/Emu/system_progress.cpp:15-18 | `u32` addition: the plain sum below 2^32, the sum minus 2^32 above |
| `Counters.WrapSub` | rpcs3/Emu/system_progress.cpp:217-220 | `-=` on a `u32`: adding the subtrahend back gives the original; no wrap when the subtrahend is not larger; a wrapped result is larger than the original |
| `Counters.SubtractOwnContribution` | rpcs3/Emu/system_progress.cpp:216-221 | subtracting one session's contribution from a shared counter leaves exactly what the other sessions added, even across wrap-around |
| `Percent.AtLeastOne` | rpcs3/Emu/system_progress.cpp:157-158 | `max(x, 1)`: at least 1 and at least x, and either 1 or x itself (x whenever x is not 0) |
| `Percent.Done` | rpcs3/Emu/system_progress.cpp:158 | the numerator `pdone * max(fdone, 1)` is at least pdone, and 0 exactly when pdone is 0 |
| `Percent.Total` | rpcs3/Emu/system_progress.cpp:157 | the denominator `max(ptotal,1) * max(ftotal,1)` is never zero |
| `Percent.Percent` | rpcs3/Emu/system_progress.cpp:157-159 | the percentage is at most 100; it is 100 exactly when done >= total; below 100 it is the floor of 100*done/total |
| `Percent.NoModulesDoneIsZero` | rpcs3/Emu/system_progress.cpp:158 | with pdone = 0 the percentage is 0, whatever the file counters are |
| `Percent.CompleteIff` | rpcs3/Emu/system_progress.cpp:157-159 | with done counters not above their totals, 100% exactly when a module total is known, all modules are done and max(fdone,1) == max(ftotal,1): every file done, or at most one file expected and none done |
| `Percent.OneUncompiledFileShowsComplete` | rpcs3/Emu/system_progress.cpp:156-159 | with one expected file not done and all p >= 1 modules done, the percentage is 100 |
| `Percent.MonotoneInModulesDone` | rpcs3/Emu/system_progress.cpp:157-159 | more modules done never lowers the percentage |
| `Percent.Examples` | rpcs3/Emu/system_progress.cpp:157-159 | worked values: (0,0,4,2) gives 50, (10,5,0,0) gives 0, (0,0,0,0) gives 0, (3,3,2,2) gives 100 |
| `StatusText.Decimal` | rpcs3/Emu/system_progress.cpp:164-166 | `%u` output is a non-empty run of digits with no leading zero (a leading '0' only in "0" itself) |
| `StatusText.Status` | rpcs3/Emu/system_progress.cpp:161-166 | the status line starts with "Progress:" and is exactly that iff both totals are 0 |
| `StatusText.DecimalRoundTrip` | rpcs3/Emu/system_progress.cpp:164-166 | reading back the printed digits gives the counter |
| `StatusText.StatusRoundTrip` | rpcs3/Emu/system_progress.cpp:161-166 | the status line reads back to: the file pair iff ftotal != 0, the module pair iff ptotal != 0, with the same numbers; the comma is there exactly when both pairs are |
| `StatusText.StatusShape` | rpcs3/Emu/system_progress.cpp:161-166 | the line starts with "Progress:" and is exactly "Progress:" iff both totals are 0 |
| `StatusText.ExampleBoth` | rpcs3/Emu/system_progress.cpp:161-166 | ftotal=3, fdone=1, ptotal=2, pdone=0 gives "Progress: file 1 of 3, module 0 of 2" |
| `StatusText.ExampleFilesOnly` | rpcs3/Emu/system_progress.cpp:163-164 | ftotal=3, fdone=1, ptotal=0 gives "Progress: file 1 of 3" |
| `StatusText.ExampleModulesOnly` | rpcs3/Emu/system_progress.cpp:165-166 | ftotal=0, ptotal=4, pdone=2 gives "Progress: module 2 of 4" |
| `SystemProgress.MessageOnlyMode` | rpcs3/Emu/system_progress.cpp:64-76 | message-only mode needs a renderer, and with a renderer it is exactly the workaround flag |
| `SystemProgress.SharedProgress.Observe` | rpcs3/Emu/system_progress.cpp:123-128 | one poll reads the label identity and each of the four counters as they are |
| `SystemProgress.SelectTarget` | rpcs3/Emu/system_progress.cpp:64-112 | message-only iff renderer and workaround flag; a new native dialog iff renderer, display manager and no workaround, otherwise the old native handle is kept; native target iff not message-only and a native handle exists; fallback iff not message-only, no native handle and the factory gives a dialog |
| `SystemProgress.SelectionOnFirstSession` | rpcs3/Emu/system_progress.cpp:67-112 | with no earlier native dialog: native iff renderer, display manager and no workaround; else fallback iff message-only is off and the factory gives a dialog; else no dialog |
| `SystemProgress.LaterSessionReusesNativeDialog` | rpcs3/Emu/system_progress.cpp:67-91 | a session that is not message-only and creates no native dialog targets the native dialog kept from an earlier session (line 37), and never gets a fallback dialog |
| `SystemProgress.WorkaroundIgnoredWithoutRenderer` | rpcs3/Emu/system_progress.cpp:67-76 | without a renderer the workaround flag does not affect the selection |
| `SystemProgress.Tick` | rpcs3/Emu/system_progress.cpp:121-193 | a poll changes iff label identity or a counter differs; the session ends iff it changed and the label is null, pushing nothing; an unchanged poll pushes only the message-only queue refresh; message-only never pushes a percentage or posts a task; a pushed percentage is at most 100 |
| `SystemProgress.UpdateCarriesSnapshot` | rpcs3/Emu/system_progress.cpp:144-183 | a changed poll with a label sets the new label, the status line and the percentage of the new counters on the native dialog, or posts them for the fallback dialog; message-only emits only the optional compile hint |
| `SystemProgress.TicksNeverRequestShutdown` | rpcs3/Emu/system_progress.cpp:121-193 | polling never posts a shutdown request |
| `SystemProgress.Closing` | rpcs3/Emu/system_progress.cpp:200-214 | teardown issues at most one call, never a shutdown request, and any call made on the server thread is a native close |
| `SystemProgress.ClosingClosesOnlySessionDialog` | rpcs3/Emu/system_progress.cpp:200-214 | teardown closes only the session's own dialog, at most one call: native closed directly, fallback closed through the main thread, nothing in message-only or no-dialog mode |
| `SystemProgress.StoppingCalls` | rpcs3/Emu/system_progress.cpp:224-228 | calls are issued iff a native dialog exists and `stopping` is set, and then they are exactly the stopping text followed by a refresh on that dialog |
| `SystemProgress.FallbackClosed` | rpcs3/Emu/system_progress.cpp:96-106 | closing the fallback dialog posts one graceful shutdown and sets `canceled` |
| `SystemProgress.SharedProgress.constructor` | rpcs3/Emu/system_progress.cpp:14-24 | the atomics start with a null label, zero counters and both flags false |
| `SystemProgress.ProgressServer.constructor` | rpcs3/Emu/system_progress.cpp:37-38 | the loop starts with no native dialog and clears `stopping` |
| `SystemProgress.ProgressServer.Terminate` | rpcs3/Emu/system_progress.cpp:224-228 | the loop ends; only the stopping calls are issued |
| `SystemProgress.ProgressServer.IdleTick` | rpcs3/Emu/system_progress.cpp:40-118 | on stop or abort the loop ends without touching the atomics, the target or the snapshot; with no label nothing at all changes; with a label, `canceled` is cleared, the target is selected once, the native dialog is shown or the fallback dialog's creation posted, and the snapshot starts at the label with zero counters |
| `SystemProgress.ProgressServer.SessionTick` | rpcs3/Emu/system_progress.cpp:121-193 | on stop or abort the loop ends, closing nothing; otherwise the poll's effects are those of `Tick`, the snapshot becomes the current shared state, the target is unchanged, and the phase moves to draining iff the session ended |
| `SystemProgress.ProgressServer.Drain` | rpcs3/Emu/system_progress.cpp:195-221 | on stop or abort the loop ends without closing or decrementing; otherwise the target is closed and each shared counter is decremented (mod 2^32) by the last observed value, never reset |
| `SystemProgress.ProgressServer.Destroy` | rpcs3/Emu/system_progress.cpp:231-238 | all four counters become 0 and the label null, whatever they were |

## Left out

- Threads, waits and timeouts: `thread_ctrl::wait_for`, the 5-second wait on
  `is_initialized`, and `thread_ctrl::state()`. Each becomes a step call, and the abort state
  is the `aborting` input. Reads of the five atomics in one poll happen at one instant, so
  torn snapshots are not modelled. Producers may still act between any two steps, including
  between the last poll and `Drain`.
- `g_progr_ptotal.notify_all()` (line 221): waking other threads is not modelled.
- Dialog internals and rendering: `show`, `set_text`, `progress_bar_set_*`, `close`, `refresh`,
  `Create`, `SetMsg`, `Close`, `show_ppu_compile_notification` and `refresh_message_queue` are
  recorded as calls or tasks. The dialog type flags (lines 78-83, 93-95) are not recorded.
  Whether the host dialog's own `Close(true)` invokes `on_close` depends on dialog code that
  is not part of this model. `FallbackClosed` is the callback on its own.
- `Emu.CallFromMainThread` and `Emu.GracefulShutdown`: posted tasks are queued and never run.
  The log notice of line 101 is not modelled.
- Configuration and global lookups (`g_cfg`, `g_fxo`, `rsx::get_current_renderer`) are the
  `Environment` and `hint` inputs.
- Label strings are modelled by identity only. The native dialog's text is the label's
  identity, not its characters.
- Percent.Percent: uses exact natural-number division instead of `done * 100.` in double
  precision, `fmin`, the cast to `f32` and `floor`. For very large counters, or quotients just
  below an integer, the floating-point value shown can differ by one.
- The producer side of the atomics (setting the label, incrementing counters) lives in other
  files. The two client methods `CanceledFallbackSession` and `OverlappingSessions` write the
  fields directly, as a producer would.
