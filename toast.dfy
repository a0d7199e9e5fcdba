/**
 * The self-dismissing toast (src/components/UI/Toast.jsx) as an object: its
 * `visible` state, the timers its effect schedules and cancels, and the
 * `onDismiss` calls. Each method is proved to move the object exactly as the
 * corresponding function of ToastSpec moves its value.
 */
module Toast {
  import opened Timers
  import ToastSpec

  class SelfDismissingToast {
    const kind: string
    const message: string
    var visible: bool
    var mounted: bool
    var now: nat
    var timers: seq<Timer<ToastSpec.ToastAction>>
    var dismissals: nat

    ghost function State(): ToastSpec.ToastState
      reads this
    {
      ToastSpec.ToastState(visible, mounted, now, timers, dismissals)
    }

    /** Mounting at time `now`: visible, with the fade scheduled by the effect. */
    constructor (kind: string, message: string, now: nat)
      ensures this.kind == kind && this.message == message
      ensures State() == ToastSpec.Mount(now)
    {
      this.kind := kind;
      this.message := message;
      visible := true;
      mounted := true;
      this.now := now;
      timers := [Timer(now + ToastSpec.ShowFor, ToastSpec.Fade)];
      dismissals := 0;
    }

    /** The effect's cleanup. */
    method Unmount()
      requires mounted
      modifies this
      ensures State() == ToastSpec.Unmount(old(State()))
    {
      mounted := false;
      timers := Cancel(timers, ToastSpec.Fade);
    }

    /** Time passes, up to the next pending callback. */
    method Elapse(dt: nat)
      modifies this
      ensures State() == ToastSpec.Elapse(old(State()), dt)
    {
      if timers == [] || now + dt <= timers[0].due {
        now := now + dt;
      }
    }

    /** The event loop runs the next pending callback. */
    method FireNextTimer()
      modifies this
      ensures State() == ToastSpec.FireNext(old(State()))
    {
      if timers == [] {
        return;
      }
      var t := timers[0];
      now := t.due;
      timers := timers[1..];
      match t.action {
        case Fade =>
          visible := false;
          timers := Schedule(timers, Timer(t.due + ToastSpec.FadeFor, ToastSpec.Dismiss));
        case Dismiss =>
          dismissals := dismissals + 1;
      }
    }
  }
}
