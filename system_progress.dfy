/**
 * The progress display server of system_progress.cpp.
 *
 * Producers elsewhere publish a label pointer (`text`) and four u32 counters in process-wide
 * atomics (`SharedProgress`). One server thread waits for a label, picks how to show
 * progress for that session, polls the atomics once per tick and pushes an update
 * whenever anything changed, and when the label is cleared closes the dialog and
 * subtracts what it last saw from the shared counters.
 *
 * The server's unbounded loop is cut into its steps: `IdleTick` (one pass of the idle
 * wait, ending in a session start when a label is present), `SessionTick` (one pass of
 * the polling loop), `Drain` (the end of a session) and `Destroy` (the destructor).
 * Waits, the renderer and overlay lookups, the configuration and the thread's abort
 * state are inputs of the steps. Calls the server makes on the overlay and on the
 * compile-notification queue are recorded in `ui`; work it hands to the main thread
 * through `Emu.CallFromMainThread` is appended to `MainThread.tasks` and never run.
 */
module SystemProgress {
  import opened Wrappers
  import opened Counters
  import Percent
  import StatusText

  /** Identity of the label pointer `g_progr`; the server compares pointers, not text. */
  type LabelId = nat

  /** Identity of a dialog object created by the server. */
  type DialogId = nat

  /** One read of the label and the four counters (the poll of lines 123-128). */
  datatype Snapshot = Snapshot(text: Option<LabelId>, ftotal: u32, fdone: u32, ptotal: u32, pdone: u32)

  datatype Text = Label(id: LabelId) | Literal(s: string)

  /** Calls the server thread makes itself: on a native overlay dialog or the notification queue. */
  datatype UiCall =
    | NativeShow(dialog: DialogId, title: LabelId)
    | NativeBarMessage(dialog: DialogId, message: string)
    | NativeSetText(dialog: DialogId, content: Text)
    | NativeBarValue(dialog: DialogId, percent: nat)
    | NativeClose(dialog: DialogId)
    | NativeRefresh(dialog: DialogId)
    | CompileHint
    | RefreshMessageQueue

  /** Work handed to the main thread, fire and forget. */
  datatype MainTask =
    | FallbackCreate(dialog: DialogId, title: LabelId)
    | FallbackUpdate(dialog: DialogId, title: LabelId, message: string, percent: nat)
    | FallbackClose(dialog: DialogId)
    | GracefulShutdown

  datatype Effects = Effects(ui: seq<UiCall>, tasks: seq<MainTask>)

  /**
   * What the session start finds: whether a renderer exists, whether it has an overlay
   * display manager, the message-only workaround flag, and whether the host's dialog
   * factory returns a dialog.
   */
  datatype Environment = Environment(renderer: bool, displayManager: bool, messageOnlyWorkaround: bool, dialogFactory: bool)

  /** How a session shows progress. */
  datatype Target = Native(dialog: DialogId) | Fallback(dialog: DialogId) | MessageOnly | NoDialog

  /** The session's target and the server's native dialog handle after the start. */
  datatype Selection = Selection(target: Target, native: Option<DialogId>)

  datatype Phase = Idle | Active | Draining | Stopped

  /** What one poll found and what it pushed. */
  datatype TickOutcome = TickOutcome(changed: bool, ended: bool, effects: Effects)

  const PLEASE_WAIT: string := "Please wait"
  const STOPPING: string := "Stopping. Please wait..."

  /** The workaround flag is consulted only when a renderer exists (line 74). */
  function MessageOnlyMode(env: Environment): (r: bool)
    ensures r ==> env.renderer
    ensures env.renderer ==> r == env.messageOnlyWorkaround
  {
    env.renderer && env.messageOnlyWorkaround
  }

  /**
   * Target selection at session start (lines 64-112). The native handle is not reset
   * between sessions (it is declared before the outer loop), so a session that finds no
   * renderer keeps using the native dialog of an earlier session, if there was one.
   */
  function SelectTarget(env: Environment, native: Option<DialogId>, newId: DialogId): (r: Selection)
    ensures r.target == MessageOnly <==> MessageOnlyMode(env)
    ensures r.native == Some(newId) || r.native == native
    ensures env.renderer && env.displayManager && !env.messageOnlyWorkaround ==> r.native == Some(newId)
    ensures !(env.renderer && env.displayManager && !env.messageOnlyWorkaround) ==> r.native == native
    ensures r.target.Native? <==> !MessageOnlyMode(env) && r.native.Some?
    ensures r.target.Native? ==> r.native == Some(r.target.dialog)
    ensures r.target.Fallback? <==> !MessageOnlyMode(env) && r.native.None? && env.dialogFactory
    ensures r.target.Fallback? ==> r.target.dialog == newId
  {
    var native' := if env.renderer && env.displayManager && !env.messageOnlyWorkaround then Some(newId) else native;
    var target :=
      if MessageOnlyMode(env) then MessageOnly
      else if native'.Some? then Native(native'.value)
      else if env.dialogFactory then Fallback(newId)
      else NoDialog;
    Selection(target, native')
  }

  /**
   * For a server that has not shown a native dialog yet: Native iff a renderer with a
   * display manager exists and the workaround is off; otherwise Fallback iff message-only
   * mode is off and the factory gives a dialog; otherwise no dialog at all.
   */
  lemma SelectionOnFirstSession(env: Environment, newId: DialogId)
    ensures SelectTarget(env, None, newId).target == Native(newId) <==>
              env.renderer && env.displayManager && !env.messageOnlyWorkaround
    ensures SelectTarget(env, None, newId).target == Fallback(newId) <==>
              !MessageOnlyMode(env) && !(env.renderer && env.displayManager) && env.dialogFactory
    ensures SelectTarget(env, None, newId).target == NoDialog <==>
              !MessageOnlyMode(env) && !(env.renderer && env.displayManager) && !env.dialogFactory
  {
  }

  /**
   * A later session that is not message-only and creates no native dialog of its own
   * keeps the earlier session's native dialog as its target, so it gets no fallback dialog.
   */
  lemma LaterSessionReusesNativeDialog(env: Environment, kept: DialogId, newId: DialogId)
    requires !MessageOnlyMode(env) && !(env.renderer && env.displayManager)
    ensures SelectTarget(env, Some(kept), newId) == Selection(Native(kept), Some(kept))
  {
  }

  /** Without a renderer the workaround flag makes no difference. */
  lemma WorkaroundIgnoredWithoutRenderer(env: Environment, native: Option<DialogId>, newId: DialogId)
    requires !env.renderer
    ensures SelectTarget(env.(messageOnlyWorkaround := true), native, newId)
         == SelectTarget(env.(messageOnlyWorkaround := false), native, newId)
  {
  }

  /** One poll of the session loop (lines 121-193), given the last observed snapshot. */
  function Tick(target: Target, last: Snapshot, now: Snapshot, hint: bool): (r: TickOutcome)
    ensures r.changed <==> now != last
    ensures r.ended <==> now != last && now.text.None?
    ensures r.ended ==> r.effects == Effects([], [])
    ensures !r.changed ==> r.effects == Effects(if target == MessageOnly then [RefreshMessageQueue] else [], [])
    ensures target == MessageOnly ==> r.effects.tasks == [] && forall c | c in r.effects.ui :: c == CompileHint || c == RefreshMessageQueue
    ensures target == NoDialog ==> r.effects == Effects([], [])
    ensures forall c | c in r.effects.ui :: c.NativeBarValue? ==> c.percent <= 100
    ensures forall t | t in r.effects.tasks :: t.FallbackUpdate? && t.percent <= 100
  {
    if now == last then
      TickOutcome(false, false, Effects(if target == MessageOnly then [RefreshMessageQueue] else [], []))
    else if now.text.None? then
      TickOutcome(true, true, Effects([], []))
    else if target == MessageOnly then
      TickOutcome(true, false, Effects(if hint then [CompileHint] else [], []))
    else
      var percent := Percent.Percent(now.ftotal, now.fdone, now.ptotal, now.pdone);
      var message := StatusText.Status(now.ftotal, now.fdone, now.ptotal, now.pdone);
      match target
      case Native(d) =>
        TickOutcome(true, false, Effects([NativeSetText(d, Label(now.text.value)), NativeBarMessage(d, message), NativeBarValue(d, percent)], []))
      case Fallback(d) =>
        TickOutcome(true, false, Effects([], [FallbackUpdate(d, now.text.value, message, percent)]))
      case NoDialog =>
        TickOutcome(true, false, Effects([], []))
  }

  /**
   * A changed poll with a label pushes the new label, the status line and the
   * percentage of the new snapshot to the dialog, in that order.
   */
  lemma UpdateCarriesSnapshot(target: Target, last: Snapshot, now: Snapshot, hint: bool)
    requires now != last && now.text.Some?
    ensures target.Native? ==>
              Tick(target, last, now, hint).effects ==
              Effects([NativeSetText(target.dialog, Label(now.text.value)),
                       NativeBarMessage(target.dialog, StatusText.Status(now.ftotal, now.fdone, now.ptotal, now.pdone)),
                       NativeBarValue(target.dialog, Percent.Percent(now.ftotal, now.fdone, now.ptotal, now.pdone))], [])
    ensures target.Fallback? ==>
              Tick(target, last, now, hint).effects ==
              Effects([], [FallbackUpdate(target.dialog, now.text.value,
                                          StatusText.Status(now.ftotal, now.fdone, now.ptotal, now.pdone),
                                          Percent.Percent(now.ftotal, now.fdone, now.ptotal, now.pdone))])
    ensures target == MessageOnly ==>
              Tick(target, last, now, hint).effects == Effects(if hint then [CompileHint] else [], [])
  {
  }

  /** The polling loop never asks for a shutdown: only the fallback dialog's close callback does. */
  lemma TicksNeverRequestShutdown(target: Target, last: Snapshot, now: Snapshot, hint: bool)
    ensures GracefulShutdown !in Tick(target, last, now, hint).effects.tasks
  {
  }

  /** Closing the session's target at normal teardown (lines 200-214). */
  function Closing(target: Target): (e: Effects)
    ensures |e.ui| + |e.tasks| <= 1
    ensures GracefulShutdown !in e.tasks
    ensures forall c | c in e.ui :: c.NativeClose?
  {
    match target
    case Native(d) => Effects([NativeClose(d)], [])
    case Fallback(d) => Effects([], [FallbackClose(d)])
    case MessageOnly => Effects([], [])
    case NoDialog => Effects([], [])
  }

  /**
   * Teardown closes the session's own dialog and nothing else: the native one directly,
   * the fallback one through the main thread, and in message-only mode nothing at all.
   */
  lemma ClosingClosesOnlySessionDialog(target: Target)
    ensures Closing(target).ui != [] <==> target.Native?
    ensures Closing(target).tasks != [] <==> target.Fallback?
    ensures forall c | c in Closing(target).ui :: c.NativeClose? && target.Native? && c.dialog == target.dialog
    ensures forall t | t in Closing(target).tasks :: t.FallbackClose? && target.Fallback? && t.dialog == target.dialog
    ensures |Closing(target).ui| + |Closing(target).tasks| <= 1
  {
  }

  /** What the server does to a native dialog as it stops (lines 224-228). */
  function StoppingCalls(native: Option<DialogId>, stopping: bool): (c: seq<UiCall>)
    ensures c != [] <==> native.Some? && stopping
    ensures native.Some? && stopping ==>
              c == [NativeSetText(native.value, Literal(STOPPING)), NativeRefresh(native.value)]
  {
    if native.Some? && stopping then [NativeSetText(native.value, Literal(STOPPING)), NativeRefresh(native.value)] else []
  }

  /** The process-wide atomics of lines 14-24. */
  class SharedProgress {
    var text: Option<LabelId>
    var ftotal: u32
    var fdone: u32
    var ptotal: u32
    var pdone: u32
    var canceled: bool
    var stopping: bool

    constructor ()
      ensures text == None && ftotal == 0 && fdone == 0 && ptotal == 0 && pdone == 0
      ensures !canceled && !stopping
    {
      text, ftotal, fdone, ptotal, pdone := None, 0, 0, 0, 0;
      canceled, stopping := false, false;
    }

    /** The label and the four counters as one value. */
    function Observe(): (s: Snapshot)
      reads this
      ensures s.text == text && s.ftotal == ftotal && s.fdone == fdone && s.ptotal == ptotal && s.pdone == pdone
    {
      Snapshot(text, ftotal, fdone, ptotal, pdone)
    }
  }

  /** The main thread's queue behind `Emu.CallFromMainThread`. */
  class MainThread {
    var tasks: seq<MainTask>

    constructor ()
      ensures tasks == []
    {
      tasks := [];
    }
  }

  /**
   * The fallback dialog's close callback (lines 96-106): it queues a graceful shutdown
   * on the main thread and marks the progress as canceled.
   */
  method FallbackClosed(shared: SharedProgress, host: MainThread)
    modifies shared`canceled, host
    ensures shared.canceled
    ensures host.tasks == old(host.tasks) + [GracefulShutdown]
  {
    host.tasks := host.tasks + [GracefulShutdown];
    shared.canceled := true;
  }

  /** `progress_dialog_server`: the loop's local state between steps. */
  class ProgressServer {
    const shared: SharedProgress
    const host: MainThread
    var phase: Phase
    /** `native_dlg`, kept across sessions (line 37). */
    var native: Option<DialogId>
    /** The session's choice of lines 64-112. */
    var target: Target
    /** `text1`, `ftotal`, `fdone`, `ptotal`, `pdone` (lines 114-118). */
    var last: Snapshot
    /** Calls made on the server thread, oldest first. */
    var ui: seq<UiCall>
    /** Identity the next created dialog gets. */
    var nextDialog: DialogId

    ghost predicate Valid()
      reads this
    {
      (native.Some? ==> native.value < nextDialog) &&
      (target.Native? ==> native == Some(target.dialog)) &&
      (target.Fallback? ==> native.None? && target.dialog < nextDialog)
    }

    /** Entry of the server loop (lines 37-38): no native dialog yet, `stopping` cleared. */
    constructor (shared: SharedProgress, host: MainThread)
      modifies shared`stopping
      ensures Valid() && this.shared == shared && this.host == host
      ensures phase == Idle && native == None && target == NoDialog && ui == [] && nextDialog == 0
      ensures last == Snapshot(None, 0, 0, 0, 0)
      ensures !shared.stopping
    {
      this.shared := shared;
      this.host := host;
      phase := Idle;
      native := None;
      target := NoDialog;
      last := Snapshot(None, 0, 0, 0, 0);
      ui := [];
      nextDialog := 0;
      new;
      shared.stopping := false;
    }

    /** The loop's exit (lines 224-228); the dialog is left open. */
    method Terminate()
      requires Valid() && phase != Stopped
      modifies this`phase, this`ui
      ensures Valid() && phase == Stopped
      ensures ui == old(ui) + StoppingCalls(native, shared.stopping)
    {
      ui := ui + StoppingCalls(native, shared.stopping);
      phase := Stopped;
    }

    /**
     * One pass of the idle wait (lines 40-61 and the session start up to line 118).
     * On stop or abort the loop ends; with no label nothing happens; with a label a
     * session starts: `canceled` is cleared, the target is chosen once, and the
     * snapshot starts from the label with all counters at zero.
     */
    method IdleTick(aborting: bool, env: Environment)
      requires Valid() && phase == Idle
      modifies this, shared`canceled, host
      ensures Valid()
      ensures unchanged(shared`text, shared`ftotal, shared`fdone, shared`ptotal, shared`pdone, shared`stopping)
      ensures old(shared.stopping) || aborting ==>
                phase == Stopped && ui == old(ui) + StoppingCalls(old(native), old(shared.stopping)) &&
                unchanged(shared, host) && native == old(native) &&
                target == old(target) && last == old(last) && nextDialog == old(nextDialog)
      ensures !(old(shared.stopping) || aborting) && old(shared.text).None? ==>
                unchanged(this, shared, host)
      ensures !(old(shared.stopping) || aborting) && old(shared.text).Some? ==>
                var sel := SelectTarget(env, old(native), old(nextDialog));
                var text := old(shared.text).value;
                phase == Active && !shared.canceled &&
                target == sel.target && native == sel.native && nextDialog == old(nextDialog) + 1 &&
                last == Snapshot(old(shared.text), 0, 0, 0, 0) &&
                ui == old(ui) + (if sel.native != old(native) then [NativeShow(sel.native.value, text), NativeBarMessage(sel.native.value, PLEASE_WAIT)] else []) &&
                host.tasks == old(host.tasks) + (if sel.target.Fallback? then [FallbackCreate(sel.target.dialog, text)] else [])
    {
      if shared.stopping || aborting {
        Terminate();
        return;
      }
      if shared.text.None? {
        return;
      }
      var text := shared.text.value;
      shared.canceled := false;
      var newId := nextDialog;
      var sel := SelectTarget(env, native, newId);
      if sel.native != native {
        ui := ui + [NativeShow(newId, text), NativeBarMessage(newId, PLEASE_WAIT)];
      }
      if sel.target.Fallback? {
        host.tasks := host.tasks + [FallbackCreate(newId, text)];
      }
      native, target, nextDialog := sel.native, sel.target, newId + 1;
      last := Snapshot(Some(text), 0, 0, 0, 0);
      phase := Active;
    }

    /**
     * One pass of the polling loop (lines 121-193). On stop or abort the loop ends
     * without closing anything; otherwise the shared state is read and diffed against
     * the last snapshot, which it then replaces, and the effects of `Tick` are issued.
     */
    method SessionTick(aborting: bool, hint: bool)
      requires Valid() && phase == Active
      modifies this`phase, this`ui, this`last, host
      ensures Valid() && target == old(target) && native == old(native)
      ensures old(shared.stopping) || aborting ==>
                phase == Stopped && ui == old(ui) + StoppingCalls(native, shared.stopping) &&
                last == old(last) && unchanged(host)
      ensures !(old(shared.stopping) || aborting) ==>
                var o := Tick(target, old(last), shared.Observe(), hint);
                last == shared.Observe() &&
                ui == old(ui) + o.effects.ui && host.tasks == old(host.tasks) + o.effects.tasks &&
                phase == (if o.ended then Draining else Active)
    {
      if shared.stopping || aborting {
        Terminate();
        return;
      }
      var now := shared.Observe();
      var o := Tick(target, last, now, hint);
      last := now;
      ui := ui + o.effects.ui;
      host.tasks := host.tasks + o.effects.tasks;
      if o.ended {
        phase := Draining;
      }
    }

    /**
     * The end of a session (lines 195-221). On stop or abort the loop ends and neither
     * closes the dialog nor touches the counters. Otherwise the target is closed and the
     * last observed counters are subtracted (u32 wrap-around) from the shared ones, so
     * whatever other sessions added since stays.
     */
    method Drain(aborting: bool)
      requires Valid() && phase == Draining
      modifies this`phase, this`ui, shared`ftotal, shared`fdone, shared`ptotal, shared`pdone, host
      ensures Valid() && target == old(target) && native == old(native) && last == old(last)
      ensures old(shared.stopping) || aborting ==>
                phase == Stopped && ui == old(ui) + StoppingCalls(native, shared.stopping) &&
                unchanged(shared, host)
      ensures !(old(shared.stopping) || aborting) ==>
                phase == Idle &&
                ui == old(ui) + Closing(target).ui && host.tasks == old(host.tasks) + Closing(target).tasks &&
                shared.fdone == WrapSub(old(shared.fdone), last.fdone) &&
                shared.pdone == WrapSub(old(shared.pdone), last.pdone) &&
                shared.ftotal == WrapSub(old(shared.ftotal), last.ftotal) &&
                shared.ptotal == WrapSub(old(shared.ptotal), last.ptotal)
    {
      if shared.stopping || aborting {
        Terminate();
        return;
      }
      var e := Closing(target);
      ui := ui + e.ui;
      host.tasks := host.tasks + e.tasks;
      shared.fdone := WrapSub(shared.fdone, last.fdone);
      shared.pdone := WrapSub(shared.pdone, last.pdone);
      shared.ftotal := WrapSub(shared.ftotal, last.ftotal);
      shared.ptotal := WrapSub(shared.ptotal, last.ptotal);
      phase := Idle;
    }

    /** The destructor (lines 231-238): every counter back to zero and the label to null. */
    method Destroy()
      modifies shared`text, shared`ftotal, shared`fdone, shared`ptotal, shared`pdone
      ensures shared.Observe() == Snapshot(None, 0, 0, 0, 0)
    {
      shared.ftotal := 0;
      shared.fdone := 0;
      shared.ptotal := 0;
      shared.pdone := 0;
      shared.text := None;
    }
  }

  /**
   * A client of the step contracts: a session shown in a fallback dialog, and the user
   * closing that dialog: the shutdown is asked for once, and a later poll that sees no
   * change pushes nothing.
   */
  method CanceledFallbackSession()
  {
    var shared := new SharedProgress();
    var host := new MainThread();
    var server := new ProgressServer(shared, host);
    shared.text, shared.ptotal := Some(7), 4;
    server.IdleTick(false, Environment(false, false, false, true));
    assert server.target == Fallback(0) && host.tasks == [FallbackCreate(0, 7)];
    shared.pdone := 2;
    server.SessionTick(false, false);
    assert |host.tasks| == 2 && host.tasks[1].FallbackUpdate? && host.tasks[1].percent <= 100;
    ghost var pushed := host.tasks;
    FallbackClosed(shared, host);
    assert server.last == shared.Observe();
    server.SessionTick(false, false);
    assert host.tasks == pushed + [GracefulShutdown];
    assert shared.canceled && server.phase == Active;
  }

  /**
   * A client of the step contracts: a second producer adds modules between the server's
   * last poll and its cleanup, and keeps them.
   */
  method OverlappingSessions()
  {
    var shared := new SharedProgress();
    var host := new MainThread();
    var server := new ProgressServer(shared, host);
    shared.text, shared.ptotal, shared.pdone := Some(7), 4, 2;
    server.IdleTick(false, Environment(false, false, false, false));
    assert server.target == NoDialog;
    shared.text := None;
    server.SessionTick(false, false);
    assert server.phase == Draining && server.last == Snapshot(None, 0, 0, 4, 2);
    shared.ptotal := shared.ptotal + 5;
    server.Drain(false);
    assert shared.ptotal == 5 && shared.pdone == 0 && server.phase == Idle;
    assert host.tasks == [];
  }
}
