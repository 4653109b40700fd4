/** `output/output.c` and the two ends of a frame in `render/renderer.c`: when an output is drawn, when
    a page flip is submitted, and which framebuffer the display scans out meanwhile. The kernel's side
    of a flip is part of the state; whether its calls succeed is up to the environment. */
module FrameSchedule {
  datatype Option<T> = None | Some(value: T)

  /** A framebuffer of the swapchain; every mode change makes a new pair. */
  datatype Framebuffer = Framebuffer(generation: nat, index: nat)

  /** What the calls into the GPU and the kernel return during one schedule_pageflip. */
  datatype Outcome = Outcome(rendered: bool, fenced: bool, accepted: bool)

  predicate Fine(r: Outcome) { r.rendered && r.fenced && r.accepted }

  // ---------------------------------------------------------------- the state of one output

  /** The compositor's fields, what the kernel keeps (`scanout`, `inFlight`), and versions of the picture:
      requested, drawn, submitted to the kernel, on the screen. `modeset`: the mode change that made this
      swapchain reached the display; `flipped`: a flip has completed since; `sound`: every call into the
      GPU and the kernel has succeeded so far. */
  datatype Screen = Screen(front: nat, generation: nat, waiting: bool, needRedraw: bool,
                           scanout: Option<Framebuffer>, inFlight: Option<Framebuffer>,
                           requested: nat, drawn: nat, submitted: nat, visible: nat,
                           modeset: bool, flipped: bool, sound: bool)
  {
    function Back(): Framebuffer
      requires front <= 1
    {
      Framebuffer(generation, 1 - front)
    }

    function Front(): Framebuffer { Framebuffer(generation, front) }

    /** Holds at all times. */
    predicate Valid() {
      && front <= 1
      && visible <= submitted <= drawn <= requested
      && (needRedraw <==> drawn < requested)
      && (inFlight.Some? ==> waiting && inFlight.value == Back())
      && (flipped ==> scanout == Some(Front()))
      && (!flipped ==>
        if modeset then scanout == Some(Back()) else scanout.None? || scanout.value.generation < generation)
      && (sound ==> submitted == drawn && (waiting <==> inFlight.Some?) && (inFlight.None? ==> visible == submitted))
    }

    /** Holds between two events: as long as nothing has failed, a picture that is not on the screen
        yet is on its way, and an idle output shows the last picture asked for. */
    predicate AtRest() {
      sound ==> (needRedraw ==> waiting) && (!waiting ==> visible == requested)
    }

    /** Does schedule_pageflip draw? */
    predicate Draws() { needRedraw && !waiting }
  }

  const DARK := Screen(0, 0, false, false, None, None, 0, 0, 0, 0, false, false, true)

  /** The framebuffer that is drawn into is the one on the screen exactly between a mode change and the
      first flip that completes after it. */
  lemma DrawsOnScreen(s: Screen)
    requires s.Valid()
    ensures s.scanout == Some(s.Back()) <==> s.modeset && !s.flipped
    ensures s.Draws() && s.sound ==> s.inFlight.None?
  {
  }

  // ---------------------------------------------------------------- what can happen to one output

  function Scheduled(s: Screen, r: Outcome): Screen
    requires s.front <= 1
  {
    if !s.Draws() then s
    else
      var drawn := if r.rendered then s.requested else s.drawn;
      var flies := r.fenced && r.accepted;
      s.(needRedraw := !r.rendered, drawn := drawn, waiting := r.fenced, sound := s.sound && Fine(r),
         inFlight := if flies then Some(s.Back()) else None, submitted := if flies then drawn else s.submitted)
  }

  /** schedule_pageflip fails exactly when it draws and the fence or the commit fails. */
  predicate Fails(s: Screen, r: Outcome) { s.Draws() && !(r.fenced && r.accepted) }

  function FlipDone(s: Screen): Screen
    requires s.front <= 1
  {
    s.(front := 1 - s.front, waiting := false, flipped := true, scanout := s.inFlight, inFlight := None,
      visible := s.submitted)
  }

  function Committed(s: Screen, r: Outcome): Screen
    requires s.front <= 1
  {
    Scheduled(s.(requested := s.requested + 1, needRedraw := true), r)
  }

  /** A new swapchain; the mode change itself shows its back buffer. */
  function Swapped(s: Screen, modesetOk: bool): Screen {
    var generation := s.generation + 1;
    s.(generation := generation, front := 0, flipped := false, modeset := modesetOk,
      scanout := if modesetOk then Some(Framebuffer(generation, 1)) else s.scanout)
  }

  function Switched(s: Screen, modesetOk: bool, r: Outcome): Screen { Committed(Swapped(s, modesetOk), r) }

  lemma SwappedValid(s: Screen, modesetOk: bool)
    requires s.Valid() && !s.waiting
    ensures Swapped(s, modesetOk).Valid()
  {
  }

  lemma ScheduledValid(s: Screen, r: Outcome)
    requires s.Valid()
    ensures Scheduled(s, r).Valid() && Scheduled(s, r).AtRest()
    ensures Fine(r) ==> !Fails(s, r) && !Scheduled(s, r).Draws()
  {
  }

  lemma FlipDoneValid(s: Screen)
    requires s.Valid() && s.inFlight.Some?
    ensures FlipDone(s).Valid() && FlipDone(s).scanout == Some(FlipDone(s).Front())
  {
  }

  lemma CommittedValid(s: Screen, r: Outcome)
    requires s.Valid()
    ensures Committed(s, r).Valid() && Committed(s, r).AtRest()
    ensures !s.waiting && Fine(r) ==> Committed(s, r).submitted == Committed(s, r).requested
  {
  }

  lemma SwitchedValid(s: Screen, modesetOk: bool, r: Outcome)
    requires s.Valid() && !s.waiting
    ensures Switched(s, modesetOk, r).Valid() && Switched(s, modesetOk, r).AtRest()
    ensures Fine(r) ==> Switched(s, modesetOk, r).submitted == Switched(s, modesetOk, r).requested
  {
  }

  class Output {
    var front: nat
    var generation: nat
    var waiting: bool
    var needRedraw: bool

    // the display, as the kernel keeps it
    var scanout: Option<Framebuffer>
    var inFlight: Option<Framebuffer>

    // versions of the picture
    ghost var requested: nat
    ghost var drawn: nat
    ghost var submitted: nat
    ghost var visible: nat

    ghost var modeset: bool
    ghost var flipped: bool
    ghost var sound: bool

    ghost function Now(): Screen
      reads this
    {
      Screen(front, generation, waiting, needRedraw, scanout, inFlight, requested, drawn, submitted, visible, modeset,
        flipped, sound)
    }

    constructor ()
      ensures Now() == DARK
    {
      front, generation, waiting, needRedraw := 0, 0, false, false;
      scanout, inFlight := None, None;
      requested, drawn, submitted, visible := 0, 0, 0, 0;
      modeset, flipped, sound := false, false, true;
    }

    // ------------------------------------------------------------ the kernel

    /** Submit a nonblocking flip. The kernel has room for one. */
    method KernelFlip(fb: Framebuffer, accepted: bool) returns (status: int)
      requires inFlight.None?
      modifies this`inFlight
      ensures inFlight == if accepted then Some(fb) else None
      ensures status == if accepted then 0 else -1
    {
      if accepted {
        inFlight := Some(fb);
        return 0;
      }
      return -1;
    }

    /** The kernel latches the submitted framebuffer and reports it. */
    method KernelComplete()
      requires inFlight.Some?
      modifies this`inFlight, this`scanout, this`visible
      ensures inFlight == None && scanout == old(inFlight) && visible == submitted
    {
      scanout := inFlight;
      inFlight := None;
      visible := submitted;
    }

    // ------------------------------------------------------------ on_redraw

    /** c_renderer_begin and c_renderer_commit around drawing the scene. What is drawn into is the back
        buffer; nothing is in flight, so the display is not about to switch to it, and once a flip has
        completed it is not what the display shows. */
    method Redraw(rendered: bool) returns (target: Framebuffer)
      requires Now().Valid() && inFlight.None? && Now().Draws()
      modifies this`needRedraw, this`drawn, this`sound
      ensures target == Now().Back() == old(Now().Back()) && (flipped ==> scanout.Some? && scanout != Some(target))
      ensures Now() ==
        old(Now()).(needRedraw := !rendered, drawn := if rendered then requested else old(drawn), sound := old(sound) &&
          rendered)
    {
      target := Framebuffer(generation, if front == 0 then 1 else 0);
      sound := sound && rendered;
      if !rendered { return; }
      needRedraw := false;
      drawn := requested;
    }

    // ------------------------------------------------------------ schedule_pageflip, page_flip_handler

    /** What is drawn is also what is submitted. */
    method SchedulePageflip(r: Outcome) returns (status: int, ghost target: Option<Framebuffer>)
      requires Now().Valid()
      modifies this
      ensures Now() == Scheduled(old(Now()), r) && Now().Valid() && Now().AtRest()
      ensures status == if Fails(old(Now()), r) then -1 else 0
      ensures target.Some? <==> old(Now().Draws())
      ensures target.Some? ==> (flipped ==> scanout != target) && (inFlight.Some? ==> inFlight == target)
    {
      ScheduledValid(Now(), r);
      status, target := 0, None;
      if needRedraw && !waiting {
        var drawnInto := Redraw(r.rendered);
        target := Some(drawnInto);
        sound := sound && Fine(r);
        if !r.fenced { return -1, target; }
        status := KernelFlip(Framebuffer(generation, 1 - front), r.accepted);
        if r.accepted { submitted := drawn; }
        waiting := true;
      }
    }

    method PageFlipHandler()
      requires Now().Valid() && inFlight.Some?
      modifies this
      ensures Now() == FlipDone(old(Now())) && Now().Valid()
    {
      FlipDoneValid(Now());
      KernelComplete();
      front := 1 - front;
      waiting := false;
      flipped := true;
    }

    // ------------------------------------------------------------ c_output_commit, c_output_set_mode

    method Commit(r: Outcome) returns (status: int)
      requires Now().Valid()
      modifies this
      ensures Now() == Committed(old(Now()), r) && Now().Valid() && Now().AtRest()
      ensures status == if !old(waiting) && !(r.fenced && r.accepted) then -1 else 0
    {
      requested := requested + 1;
      needRedraw := true;
      ghost var target;
      status, target := SchedulePageflip(r);
    }

    /** The part of c_output_set_mode after the wait. */
    method SwitchMode(modesetOk: bool, r: Outcome)
      requires Now().Valid() && !waiting
      modifies this
      ensures Now() == Switched(old(Now()), modesetOk, r) && Now().Valid() && Now().AtRest()
    {
      SwitchedValid(Now(), modesetOk, r);
      SwappedValid(Now(), modesetOk);
      hide Scheduled;
      generation := generation + 1;
      front := 0;
      flipped := false;
      modeset := modesetOk;
      if modesetOk { scanout := Some(Framebuffer(generation, 1)); }
      var _ := Commit(r);
    }
  }

  // ---------------------------------------------------------------- all outputs of one GPU

  predicate Distinct<T(==)>(s: seq<T>) { forall i, j :: 0 <= i < j < |s| ==> s[i] != s[j] }

  predicate AllValid(a: seq<Screen>) { forall k :: 0 <= k < |a| ==> a[k].Valid() }

  predicate AllAtRest(a: seq<Screen>) { forall k :: 0 <= k < |a| ==> a[k].AtRest() }

  /** As long as nothing has failed, no request for a redraw is forgotten: the output waits for a flip,
      or another one does, and the next report draws them all. */
  predicate NoneForgotten(a: seq<Screen>) {
    (forall k :: 0 <= k < |a| ==> a[k].sound) ==> AllAtRest(a) || exists j :: 0 <= j < |a| && a[j].inFlight.Some?
  }

  /** The kernel can report the flips of these outputs: each has one in flight. */
  predicate Reportable(a: seq<Screen>, done: seq<nat>) {
    Distinct(done) && forall k :: 0 <= k < |done| ==> done[k] < |a| && a[done[k]].inFlight.Some?
  }

  /** The flips in `done` have been reported. */
  function Reported(a: seq<Screen>, done: seq<nat>): (b: seq<Screen>)
    requires AllValid(a)
    ensures |b| == |a| && forall k :: 0 <= k < |a| ==> b[k] == if k in done then FlipDone(a[k]) else a[k]
  {
    seq(|a|, k requires 0 <= k < |a| && a[k].front <= 1 => if k in done then FlipDone(a[k]) else a[k])
  }

  lemma ReportedValid(a: seq<Screen>, done: seq<nat>)
    requires AllValid(a) && Reportable(a, done)
    ensures AllValid(Reported(a, done))
  {
    forall k | 0 <= k < |a| ensures Reported(a, done)[k].Valid() {
      if k in done {
        var i :| 0 <= i < |done| && done[i] == k;
        FlipDoneValid(a[k]);
      }
    }
  }

  class Manager {
    const outputs: seq<Output>

    constructor (outputs: seq<Output>)
      requires Distinct(outputs)
      ensures this.outputs == outputs
    {
      this.outputs := outputs;
    }

    ghost function Now(): (a: seq<Screen>)
      reads this, outputs
      ensures |a| == |outputs| && forall k :: 0 <= k < |a| ==> a[k] == outputs[k].Now()
    {
      seq(|outputs|, k requires 0 <= k < |outputs| reads outputs => outputs[k].Now())
    }

    ghost predicate Valid()
      reads this, outputs
    {
      Distinct(outputs) && AllValid(Now())
    }

    predicate Ready(done: seq<nat>)
      requires Valid()
      reads this, outputs
      ensures Ready(done) <==> Reportable(Now(), done)
    {
      assert forall k :: 0 <= k < |done| && done[k] < |outputs| ==>
        Now()[done[k]].inFlight == outputs[done[k]].inFlight;
      Distinct(done) && forall k :: 0 <= k < |done| ==> done[k] < |outputs| && outputs[done[k]].inFlight.Some?
    }

    /** handle_drm_event: the flips in `done` are reported in this order. */
    method HandleDrmEvent(done: seq<nat>)
      requires Valid() && Reportable(Now(), done)
      modifies outputs
      ensures Valid() && Now() == Reported(old(Now()), done)
    {
      hide FlipDone, Reported;
      ghost var a := Now();
      ReportedValid(a, done);
      var i := 0;
      while i < |done|
        invariant 0 <= i <= |done|
        invariant forall k :: 0 <= k < |outputs| ==> outputs[k].Now() == if k in done[..i] then FlipDone(a[k]) else a[k]
      {
        assert done[i] !in done[..i];
        assert done[..i + 1] == done[..i] + [done[i]];
        assert outputs[done[i]].Now() == a[done[i]];
        outputs[done[i]].PageFlipHandler();
        forall k | 0 <= k < |outputs| && k != done[i] ensures outputs[k] != outputs[done[i]] { }
        i := i + 1;
      }
      assert done[..i] == done;
      assert Now() == Reported(a, done);
    }

    /** drm_callback: report the flips, then give every output the chance to draw. Stops with an error
        exactly at the first output whose flip cannot be submitted. */
    method DrmCallback(done: seq<nat>, outcomes: seq<Outcome>) returns (fatal: bool)
      requires Valid() && Reportable(Now(), done) && |outcomes| == |outputs|
      modifies outputs
      ensures Valid()
      ensures fatal <==> !GoesOn(old(Now()), Report(done, outcomes))
      ensures !fatal ==> Now() == Next(old(Now()), Report(done, outcomes))
    {
      hide Scheduled, Fails, Reported, AllScheduled;
      ghost var a := Reported(Now(), done);
      HandleDrmEvent(done);
      var i := 0;
      while i < |outputs|
        invariant 0 <= i <= |outputs| && AllValid(a)
        invariant forall k :: 0 <= k < i ==> outputs[k].Now() == Scheduled(a[k], outcomes[k])
        invariant forall k :: i <= k < |outputs| ==> outputs[k].Now() == a[k]
        invariant forall k :: 0 <= k < |outputs| ==> outputs[k].Now().Valid()
        invariant forall k :: 0 <= k < i ==> !Fails(a[k], outcomes[k])
      {
        forall k | 0 <= k < |outputs| && k != i ensures outputs[k] != outputs[i] { }
        ghost var target;
        var status;
        status, target := outputs[i].SchedulePageflip(outcomes[i]);
        if status != 0 { return true; }
        i := i + 1;
      }
      assert Now() == AllScheduled(a, outcomes);
      return false;
    }

    /** c_output_commit */
    method OutputCommit(i: nat, r: Outcome) returns (status: int)
      requires Valid() && i < |outputs|
      modifies outputs[i]
      ensures Valid() && Now() == Next(old(Now()), Request(i, r))
      ensures status == if !old(outputs[i].waiting) && !(r.fenced && r.accepted) then -1 else 0
    {
      ghost var a := Now();
      CommittedValid(a[i], r);
      forall k | 0 <= k < |outputs| && k != i ensures outputs[k] != outputs[i] { }
      status := outputs[i].Commit(r);
      assert Now() == a[i := Committed(a[i], r)];
    }

    /** c_output_set_mode: `reports` are the reports the kernel delivers while the output's flip is
        pending; if they end before it, the call has not returned yet. */
    method SetMode(i: nat, reports: seq<seq<nat>>, modesetOk: bool, r: Outcome) returns (returned: bool)
      requires Valid() && i < |outputs|
      modifies outputs
      ensures Valid()
      ensures returned <==> GoesOn(old(Now()), Mode(i, reports, modesetOk, r))
      ensures returned ==> Now() == Next(old(Now()), Mode(i, reports, modesetOk, r))
    {
      hide Waited, Reported;
      ghost var start := Now();
      var b := 0;
      assert reports[0..] == reports;
      while outputs[i].waiting && b < |reports| && Ready(reports[b])
        invariant 0 <= b <= |reports| && Valid()
        invariant Waited(start, i, reports) == Waited(Now(), i, reports[b..])
      {
        ReportedValid(Now(), reports[b]);
        WaitedNext(Now(), i, reports, b);
        HandleDrmEvent(reports[b]);
        b := b + 1;
      }
      WaitedNow(Now(), i, reports, b);
      if outputs[i].waiting { return false; }
      ghost var a := Now();
      SwitchedValid(a[i], modesetOk, r);
      forall k | 0 <= k < |outputs| && k != i ensures outputs[k] != outputs[i] { }
      outputs[i].SwitchMode(modesetOk, r);
      assert Now() == a[i := Switched(a[i], modesetOk, r)];
      return true;
    }

    /** One turn of the event loop. */
    method Take(input: Input) returns (goesOn: bool)
      requires Valid()
      modifies outputs
      ensures Valid()
      ensures goesOn <==> GoesOn(old(Now()), input)
      ensures goesOn ==> Now() == Next(old(Now()), input)
    {
      hide AllValid, Reported, AllScheduled, Waited, Reportable, AllSubmitted;
      match input {
        case Report(done, outcomes) =>
          if !Ready(done) || |outcomes| != |outputs| { return false; }
          var fatal := DrmCallback(done, outcomes);
          return !fatal;
        case Request(i, r) =>
          if i >= |outputs| { return false; }
          var _ := OutputCommit(i, r);
          return true;
        case Mode(i, reports, modesetOk, r) =>
          if i >= |outputs| { return false; }
          goesOn := SetMode(i, reports, modesetOk, r);
      }
    }
  }

  /** Every output has had the chance to draw. */
  function AllScheduled(a: seq<Screen>, outcomes: seq<Outcome>): (b: seq<Screen>)
    requires AllValid(a) && |outcomes| == |a|
    ensures |b| == |a| && forall k :: 0 <= k < |a| ==> b[k] == Scheduled(a[k], outcomes[k])
  {
    seq(|a|, k requires 0 <= k < |a| && a[k].front <= 1 => Scheduled(a[k], outcomes[k]))
  }

  predicate AllSubmitted(a: seq<Screen>, outcomes: seq<Outcome>)
    requires |outcomes| == |a|
  {
    forall k :: 0 <= k < |a| ==> !Fails(a[k], outcomes[k])
  }

  /** The outputs once reports have ended the wait of output i, if they do. */
  function Waited(a: seq<Screen>, i: nat, reports: seq<seq<nat>>): (b: Option<seq<Screen>>)
    requires AllValid(a) && i < |a|
    ensures b.Some? ==> AllValid(b.value) && |b.value| == |a| && !b.value[i].waiting
    decreases |reports|
  {
    if !a[i].waiting then Some(a)
    else if reports == [] || !Reportable(a, reports[0]) then None
    else
      ReportedValid(a, reports[0]);
      Waited(Reported(a, reports[0]), i, reports[1..])
  }

  lemma WaitedNext(a: seq<Screen>, i: nat, reports: seq<seq<nat>>, b: nat)
    requires AllValid(a) && i < |a| && a[i].waiting && b < |reports| && Reportable(a, reports[b])
    ensures AllValid(Reported(a, reports[b]))
    ensures Waited(a, i, reports[b..]) == Waited(Reported(a, reports[b]), i, reports[b + 1..])
  {
    hide Reported, Reportable;
    ReportedValid(a, reports[b]);
    assert reports[b..][0] == reports[b] && reports[b..][1..] == reports[b + 1..];
  }

  lemma WaitedNow(a: seq<Screen>, i: nat, reports: seq<seq<nat>>, b: nat)
    requires AllValid(a) && i < |a| && b <= |reports|
    requires a[i].waiting && b < |reports| ==> !Reportable(a, reports[b])
    ensures Waited(a, i, reports[b..]) == if a[i].waiting then None else Some(a)
  {
    hide Reported, Reportable;
    assert b < |reports| ==> reports[b..][0] == reports[b];
  }

  /** The first n reports can be delivered one after the other. */
  predicate Deliverable(a: seq<Screen>, reports: seq<seq<nat>>, n: nat)
    requires n <= |reports|
  {
    n > 0 ==>
      var before := Delivered(a, reports, n - 1);
      Deliverable(a, reports, n - 1) && AllValid(before) && Reportable(before, reports[n - 1])
  }

  /** The outputs as the first n reports leave them. */
  function Delivered(a: seq<Screen>, reports: seq<seq<nat>>, n: nat): (b: seq<Screen>)
    requires n <= |reports|
    ensures |b| == |a|
  {
    if n == 0 then a
    else
      var before := Delivered(a, reports, n - 1);
      if AllValid(before) then Reported(before, reports[n - 1]) else before
  }

  /** A report ends the wait of the outputs it names. */
  lemma ReportEndsWait(a: seq<Screen>, reports: seq<seq<nat>>, n: nat, i: nat)
    requires n < |reports| && Deliverable(a, reports, n + 1) && i < |a| && i in reports[n]
    ensures !Delivered(a, reports, n + 1)[i].waiting
  {
  }

  /** Where the wait ends: after the least number of reports that leave output i idle. */
  predicate WaitEnds(a: seq<Screen>, i: nat, reports: seq<seq<nat>>, n: nat)
    requires i < |a| && n <= |reports|
  {
    && Deliverable(a, reports, n) && !Delivered(a, reports, n)[i].waiting
    && forall m :: 0 <= m < n ==> Delivered(a, reports, m)[i].waiting
  }

  /** Delivering the first report and then n others. */
  lemma {:induction false} DeliveredRest(a: seq<Screen>, reports: seq<seq<nat>>, n: nat)
    requires AllValid(a) && n < |reports| && Reportable(a, reports[0])
    ensures AllValid(Reported(a, reports[0]))
    ensures Delivered(a, reports, n + 1) == Delivered(Reported(a, reports[0]), reports[1..], n)
    ensures Deliverable(a, reports, n + 1) <==> Deliverable(Reported(a, reports[0]), reports[1..], n)
  {
    ReportedValid(a, reports[0]);
    assert Delivered(a, reports, 0) == a;
    if n > 0 {
      DeliveredRest(a, reports, n - 1);
      assert reports[1..][n - 1] == reports[n];
    } else {
      assert Delivered(a, reports, 1) == Reported(a, reports[0]);
    }
  }

  lemma WaitShifts(a: seq<Screen>, i: nat, reports: seq<seq<nat>>, n: nat)
    requires i < |a| && 0 < n <= |reports| && WaitEnds(a, i, reports, n)
    ensures AllValid(a) && Reportable(a, reports[0]) && a[i].waiting && AllValid(Reported(a, reports[0]))
    ensures WaitEnds(Reported(a, reports[0]), i, reports[1..], n - 1)
    ensures Delivered(Reported(a, reports[0]), reports[1..], n - 1) == Delivered(a, reports, n)
  {
    hide *;
    StillWaits(a, i, reports, n, 0);
    NoneDelivered(a, reports);
    EndsNow(a, i, reports, n);
    FirstDelivered(a, reports, n);
    DeliveredRest(a, reports, n - 1);
    forall m: nat | m < n - 1 ensures Delivered(Reported(a, reports[0]), reports[1..], m)[i].waiting {
      RestWaits(a, i, reports, n, m);
    }
    EndsSo(Reported(a, reports[0]), i, reports[1..], n - 1);
  }

  lemma EndsSo(a: seq<Screen>, i: nat, reports: seq<seq<nat>>, n: nat)
    requires i < |a| && n <= |reports| && Deliverable(a, reports, n) && !Delivered(a, reports, n)[i].waiting
    requires forall m: nat :: m < n ==> Delivered(a, reports, m)[i].waiting
    ensures WaitEnds(a, i, reports, n)
  {
    hide Delivered, Deliverable;
  }

  lemma EndsNow(a: seq<Screen>, i: nat, reports: seq<seq<nat>>, n: nat)
    requires i < |a| && n <= |reports| && WaitEnds(a, i, reports, n)
    ensures Deliverable(a, reports, n) && !Delivered(a, reports, n)[i].waiting
  {
    hide Delivered, Deliverable;
  }

  lemma RestWaits(a: seq<Screen>, i: nat, reports: seq<seq<nat>>, n: nat, m: nat)
    requires AllValid(a) && i < |a| && m < n - 1 < |reports| && Reportable(a, reports[0]) && WaitEnds(a, i, reports, n)
    ensures AllValid(Reported(a, reports[0])) && Delivered(Reported(a, reports[0]), reports[1..], m)[i].waiting
  {
    hide AllValid, Reportable, Reported, Delivered, Deliverable, WaitEnds;
    DeliveredRest(a, reports, m);
    StillWaits(a, i, reports, n, m + 1);
  }

  lemma StillWaits(a: seq<Screen>, i: nat, reports: seq<seq<nat>>, n: nat, m: nat)
    requires i < |a| && m < n <= |reports| && WaitEnds(a, i, reports, n)
    ensures Delivered(a, reports, m)[i].waiting
  {
    hide Delivered, Deliverable;
  }

  lemma NoneDelivered(a: seq<Screen>, reports: seq<seq<nat>>)
    ensures Delivered(a, reports, 0) == a
  {
  }

  lemma {:induction false} WaitedDelivers(a: seq<Screen>, i: nat, reports: seq<seq<nat>>, n: nat)
    requires AllValid(a) && i < |a| && n <= |reports| && WaitEnds(a, i, reports, n)
    ensures Waited(a, i, reports) == Some(Delivered(a, reports, n))
    decreases n
  {
    hide AllValid, Reportable, Reported, WaitEnds;
    if n > 0 {
      WaitShifts(a, i, reports, n);
      WaitedDelivers(Reported(a, reports[0]), i, reports[1..], n - 1);
    } else {
      WaitOver(a, i, reports);
    }
  }

  lemma WaitOver(a: seq<Screen>, i: nat, reports: seq<seq<nat>>)
    requires i < |a| && WaitEnds(a, i, reports, 0)
    ensures !a[i].waiting && Delivered(a, reports, 0) == a
  {
  }

  lemma {:induction false} FirstDelivered(a: seq<Screen>, reports: seq<seq<nat>>, n: nat)
    requires 0 < n <= |reports| && Deliverable(a, reports, n)
    ensures AllValid(a) && Reportable(a, reports[0])
    decreases n
  {
    if n > 1 { FirstDelivered(a, reports, n - 1); } else { assert Delivered(a, reports, 0) == a; }
  }

  /** If some of the reports leave output i idle, there is a least number of them. */
  lemma {:induction false} SomeWaitEnds(a: seq<Screen>, i: nat, reports: seq<seq<nat>>, n: nat) returns (m: nat)
    requires i < |a| && n <= |reports| && Deliverable(a, reports, n) && !Delivered(a, reports, n)[i].waiting
    ensures m <= n && WaitEnds(a, i, reports, m)
    decreases n
  {
    if k :| 0 <= k < n && !Delivered(a, reports, k)[i].waiting {
      DeliverableBefore(a, reports, k, n);
      m := SomeWaitEnds(a, i, reports, k);
    } else {
      m := n;
    }
  }

  lemma {:induction false} DeliverableBefore(a: seq<Screen>, reports: seq<seq<nat>>, k: nat, n: nat)
    requires k <= n <= |reports| && Deliverable(a, reports, n)
    ensures Deliverable(a, reports, k)
    decreases n
  {
    if k < n { DeliverableBefore(a, reports, k, n - 1); }
  }

  /** A mode change of an output whose flip one of the reports ends returns. By then the output is idle, all
      others are as the reports up to there left them, and the output has a new swapchain and one more
      request. */
  lemma SetModeReturns(a: seq<Screen>, i: nat, reports: seq<seq<nat>>, b: nat, modesetOk: bool, r: Outcome)
    returns (n: nat)
    requires AllValid(a) && i < |a| && b < |reports| && Deliverable(a, reports, b + 1) && i in reports[b]
    ensures n <= b + 1 && WaitEnds(a, i, reports, n) && GoesOn(a, Mode(i, reports, modesetOk, r))
    ensures var w, next := Delivered(a, reports, n), Next(a, Mode(i, reports, modesetOk, r));
      && |next| == |a| && (forall k :: 0 <= k < |a| && k != i ==> next[k] == w[k])
      && next[i].generation == w[i].generation + 1 && next[i].front == 0 && next[i].requested == w[i].requested + 1
      && next[i].modeset == modesetOk && !next[i].flipped
  {
    ReportEndsWait(a, reports, b, i);
    n := SomeWaitEnds(a, i, reports, b + 1);
    WaitedDelivers(a, i, reports, n);
  }

  /** It returns only then. */
  lemma SetModeWaits(a: seq<Screen>, i: nat, reports: seq<seq<nat>>, modesetOk: bool, r: Outcome)
    returns (n: nat)
    requires AllValid(a) && i < |a| && GoesOn(a, Mode(i, reports, modesetOk, r))
    ensures n <= |reports| && WaitEnds(a, i, reports, n)
  {
    n := WaitedEnds(a, i, reports);
  }

  lemma {:induction false} WaitedEnds(a: seq<Screen>, i: nat, reports: seq<seq<nat>>) returns (n: nat)
    requires AllValid(a) && i < |a| && Waited(a, i, reports).Some?
    ensures n <= |reports| && WaitEnds(a, i, reports, n)
    decreases |reports|
  {
    hide AllValid, Reportable, Reported, WaitEnds, Delivered, Deliverable;
    if a[i].waiting {
      ReportedValid(a, reports[0]);
      var m := WaitedEnds(Reported(a, reports[0]), i, reports[1..]);
      n := m + 1;
      WaitsOneMore(a, i, reports, m);
    } else {
      n := 0;
      EndsAtOnce(a, i, reports);
    }
  }

  lemma EndsAtOnce(a: seq<Screen>, i: nat, reports: seq<seq<nat>>)
    requires i < |a| && !a[i].waiting
    ensures WaitEnds(a, i, reports, 0)
  {
    assert Delivered(a, reports, 0) == a;
  }

  lemma WaitsOneMore(a: seq<Screen>, i: nat, reports: seq<seq<nat>>, m: nat)
    requires AllValid(a) && i < |a| && a[i].waiting && m < |reports| && Reportable(a, reports[0])
    requires WaitEnds(Reported(a, reports[0]), i, reports[1..], m)
    ensures WaitEnds(a, i, reports, m + 1)
  {
    hide AllValid, Reportable, Reported, Delivered, Deliverable;
    DeliveredRest(a, reports, m);
    forall k | 0 <= k < m + 1 ensures Delivered(a, reports, k)[i].waiting {
      if k > 0 { DeliveredRest(a, reports, k - 1); } else { NoneDelivered(a, reports); }
    }
  }

  // ---------------------------------------------------------------- runs

  /** What can happen to the outputs, with what the kernel and the GPU contribute. */
  datatype Input =
    | Report(done: seq<nat>, outcomes: seq<Outcome>)
    | Request(i: nat, r: Outcome)
    | Mode(i: nat, reports: seq<seq<nat>>, modesetOk: bool, r: Outcome)

  /** Does the event loop go on after this input? It ends at a fatal error, inside a mode change that
      still waits, and at an input that cannot occur. */
  predicate GoesOn(a: seq<Screen>, input: Input)
    requires AllValid(a)
  {
    match input
    case Report(done, outcomes) => Reportable(a, done) && |outcomes| == |a| && AllSubmitted(Reported(a, done), outcomes)
    case Request(i, _) => i < |a|
    case Mode(i, reports, _, _) => i < |a| && Waited(a, i, reports).Some?
  }

  function Next(a: seq<Screen>, input: Input): (b: seq<Screen>)
    requires AllValid(a) && GoesOn(a, input)
    ensures AllValid(b) && |b| == |a|
  {
    match input
    case Report(done, outcomes) =>
      ReportedValid(a, done);
      AllScheduledValid(Reported(a, done), outcomes);
      AllScheduled(Reported(a, done), outcomes)
    case Request(i, r) =>
      CommittedValid(a[i], r);
      a[i := Committed(a[i], r)]
    case Mode(i, reports, modesetOk, r) =>
      var w := Waited(a, i, reports).value;
      SwitchedValid(w[i], modesetOk, r);
      w[i := Switched(w[i], modesetOk, r)]
  }

  lemma AllScheduledValid(a: seq<Screen>, outcomes: seq<Outcome>)
    requires AllValid(a) && |outcomes| == |a|
    ensures AllValid(AllScheduled(a, outcomes)) && AllAtRest(AllScheduled(a, outcomes))
  {
    forall k | 0 <= k < |a| ensures Scheduled(a[k], outcomes[k]).Valid() && Scheduled(a[k], outcomes[k]).AtRest() {
      ScheduledValid(a[k], outcomes[k]);
    }
  }

  predicate IsRun(n: nat, inputs: seq<Input>, trace: seq<seq<Screen>>) {
    && 1 <= |trace| <= |inputs| + 1 && trace[0] == seq(n, _ => DARK)
    && (forall t :: 0 <= t < |trace| ==> Shown(n, trace[t]))
    && (forall t :: 0 <= t < |trace| - 1 ==> Takes(trace[t], inputs[t], trace[t + 1]))
  }

  predicate Shown(n: nat, a: seq<Screen>) { |a| == n && AllValid(a) }

  predicate Takes(a: seq<Screen>, input: Input, b: seq<Screen>) {
    AllValid(a) && GoesOn(a, input) && b == Next(a, input)
  }

  lemma StepOf(n: nat, inputs: seq<Input>, trace: seq<seq<Screen>>, t: nat)
    requires IsRun(n, inputs, trace) && t < |trace| - 1
    ensures Shown(n, trace[t]) && Shown(n, trace[t + 1]) && t < |inputs| && Takes(trace[t], inputs[t], trace[t + 1])
  {
    hide Takes, Shown;
  }

  lemma TakenOn(n: nat, inputs: seq<Input>, trace: seq<seq<Screen>>, b: seq<Screen>)
    requires IsRun(n, inputs, trace) && |trace| <= |inputs| && AllValid(trace[|trace| - 1])
    requires GoesOn(trace[|trace| - 1], inputs[|trace| - 1])
    requires b == Next(trace[|trace| - 1], inputs[|trace| - 1])
    ensures IsRun(n, inputs, trace + [b])
  {
    hide AllValid, GoesOn, Next;
    assert Shown(n, trace[|trace| - 1]);
    var longer := trace + [b];
    forall t | 0 <= t < |longer| - 1 ensures Takes(longer[t], inputs[t], longer[t + 1]) {
      if t < |trace| - 1 { assert Takes(trace[t], inputs[t], trace[t + 1]); }
    }
    forall t | 0 <= t < |longer| ensures Shown(n, longer[t]) {
      if t < |trace| { assert Shown(n, trace[t]); }
    }
  }

  method Start(n: nat) returns (m: Manager)
    ensures fresh(m) && m.Valid() && |m.outputs| == n && m.Now() == seq(n, _ => DARK)
    ensures forall k :: 0 <= k < n ==> fresh(m.outputs[k])
  {
    var outputs: seq<Output> := [];
    while |outputs| < n
      invariant |outputs| <= n && Distinct(outputs)
      invariant forall k :: 0 <= k < |outputs| ==> fresh(outputs[k]) && outputs[k].Now() == DARK
    {
      var o := new Output();
      outputs := outputs + [o];
    }
    m := new Manager(outputs);
    assert m.Now() == seq(n, _ => DARK);
  }

  /** Everything the compositor does with `n` outputs while its event loop runs: it takes every input up
      to the first after which the loop does not go on. */
  method Run(n: nat, inputs: seq<Input>) returns (m: Manager, taken: nat, ghost trace: seq<seq<Screen>>)
    ensures fresh(m) && m.Valid() && |m.outputs| == n && taken <= |inputs|
    ensures IsRun(n, inputs, trace) && |trace| == taken + 1
    ensures AllValid(trace[taken])
    ensures if taken == |inputs| then m.Now() == trace[taken] else !GoesOn(trace[taken], inputs[taken])
    ensures NoneForgotten(trace[taken])
  {
    hide AllValid, NoneForgotten, Distinct, Takes, GoesOn, Next, IsRun;
    m := Start(n);
    taken, trace := 0, [m.Now()];
    DarkRun(n, inputs);
    var goesOn := true;
    while goesOn && taken < |inputs|
      invariant taken <= |inputs| && m.Valid() && |m.outputs| == n
      invariant IsRun(n, inputs, trace) && |trace| == taken + 1 && AllValid(trace[taken])
      invariant goesOn ==> m.Now() == trace[taken]
      invariant !goesOn ==> taken < |inputs| && !GoesOn(trace[taken], inputs[taken])
      invariant forall k :: 0 <= k < |m.outputs| ==> fresh(m.outputs[k])
    {
      goesOn := m.Take(inputs[taken]);
      if goesOn {
        TakenOn(n, inputs, trace, m.Now());
        trace := trace + [m.Now()];
        taken := taken + 1;
      }
    }
    NothingForgotten(n, inputs, trace, taken);
  }

  lemma DarkRun(n: nat, inputs: seq<Input>)
    ensures AllValid(seq(n, _ => DARK)) && IsRun(n, inputs, [seq(n, _ => DARK)])
  {
    assert Shown(n, seq(n, _ => DARK));
  }

  // ---------------------------------------------------------------- no redraw is lost

  /** In every run, as long as nothing fails, what is to be drawn will be drawn by the next report. */
  lemma {:induction false} NothingForgotten(n: nat, inputs: seq<Input>, trace: seq<seq<Screen>>, t: nat)
    requires IsRun(n, inputs, trace) && t < |trace|
    ensures NoneForgotten(trace[t])
  {
    hide IsRun, Shown, GoesOn, Next, NoneForgotten;
    if t == 0 {
      RestAtStart(n, inputs, trace);
    } else {
      StepOf(n, inputs, trace, t - 1);
      NothingForgotten(n, inputs, trace, t - 1);
      NextForgetsNothing(trace[t - 1], inputs[t - 1]);
    }
  }

  lemma RestAtStart(n: nat, inputs: seq<Input>, trace: seq<seq<Screen>>)
    requires IsRun(n, inputs, trace)
    ensures NoneForgotten(trace[0])
  {
    hide Shown, Takes;
  }

  lemma NextForgetsNothing(a: seq<Screen>, input: Input)
    requires AllValid(a) && GoesOn(a, input) && NoneForgotten(a)
    ensures NoneForgotten(Next(a, input))
  {
    match input {
      case Report(done, outcomes) =>
        ReportedValid(a, done);
        AllScheduledValid(Reported(a, done), outcomes);
      case Request(i, r) =>
        CommitForgetsNothing(a, i, r);
      case Mode(i, reports, modesetOk, r) =>
        var w := Waited(a, i, reports).value;
        SwitchedFlies(w[i], modesetOk, r);
        assert Next(a, input)[i] == Switched(w[i], modesetOk, r);
    }
  }

  lemma SwitchedFlies(s: Screen, modesetOk: bool, r: Outcome)
    requires s.Valid() && !s.waiting
    ensures Switched(s, modesetOk, r).sound ==> Switched(s, modesetOk, r).inFlight.Some?
  {
  }

  lemma CommitForgetsNothing(a: seq<Screen>, i: nat, r: Outcome)
    requires AllValid(a) && i < |a| && NoneForgotten(a)
    ensures NoneForgotten(a[i := Committed(a[i], r)])
  {
    var b := a[i := Committed(a[i], r)];
    CommittedValid(a[i], r);
    if forall k :: 0 <= k < |b| ==> b[k].sound {
      assert b[i].sound && b[i].inFlight.Some?;
    }
  }

  /** Versions only grow, whatever happens to an output. */
  predicate Grows(s: Screen, t: Screen) {
    s.requested <= t.requested && s.submitted <= t.submitted && s.visible <= t.visible
  }

  lemma {:induction false} WaitedGrows(a: seq<Screen>, i: nat, reports: seq<seq<nat>>, k: nat)
    requires AllValid(a) && i < |a| && k < |a| && Waited(a, i, reports).Some?
    ensures Grows(a[k], Waited(a, i, reports).value[k])
    decreases |reports|
  {
    if a[i].waiting {
      ReportedValid(a, reports[0]);
      WaitedGrows(Reported(a, reports[0]), i, reports[1..], k);
    }
  }

  lemma NextGrows(a: seq<Screen>, input: Input, k: nat)
    requires AllValid(a) && GoesOn(a, input) && k < |a|
    ensures Grows(a[k], Next(a, input)[k])
  {
    match input {
      case Report(done, outcomes) => ReportedValid(a, done);
      case Request(i, r) =>
      case Mode(i, reports, modesetOk, r) => WaitedGrows(a, i, reports, k);
    }
  }

  lemma StepGrows(n: nat, inputs: seq<Input>, trace: seq<seq<Screen>>, t: nat, k: nat)
    requires IsRun(n, inputs, trace) && t < |trace| - 1 && k < n
    ensures |trace[t]| == n == |trace[t + 1]| && Grows(trace[t][k], trace[t + 1][k])
  {
    hide IsRun, AllValid, GoesOn, Next, Grows;
    StepOf(n, inputs, trace, t);
    NextGrows(trace[t], inputs[t], k);
  }

  lemma ShownAt(n: nat, inputs: seq<Input>, trace: seq<seq<Screen>>, t: nat)
    requires IsRun(n, inputs, trace) && t < |trace|
    ensures |trace[t]| == n
  {
    hide Takes;
    assert Shown(n, trace[t]);
  }

  lemma {:induction false} TraceGrows(n: nat, inputs: seq<Input>, trace: seq<seq<Screen>>, i: nat, j: nat, k: nat)
    requires IsRun(n, inputs, trace) && i <= j < |trace| && k < n
    ensures |trace[i]| == n == |trace[j]| && Grows(trace[i][k], trace[j][k])
    decreases j
  {
    hide IsRun;
    ShownAt(n, inputs, trace, i);
    if i < j {
      TraceGrows(n, inputs, trace, i, j - 1, k);
      StepGrows(n, inputs, trace, j - 1, k);
    }
  }

  /** A report of an output's flip shows what was submitted before it, and everything asked for before it
      is submitted then. */
  lemma ReportCatchesUp(a: seq<Screen>, input: Input, b: seq<Screen>, k: nat)
    requires Takes(a, input, b) && input.Report? && k in input.done && k < |a|
    ensures |b| == |a| == |input.outcomes| && b[k].visible == a[k].submitted
    ensures a[k].sound && input.outcomes[k].rendered ==> b[k].submitted == b[k].requested == a[k].requested
  {
    ReportedValid(a, input.done);
  }

  predicate Reports(input: Input, k: nat) { input.Report? && k in input.done }

  predicate Renders(input: Input, k: nat) { input.Report? && k < |input.outcomes| && input.outcomes[k].rendered }

  /** No requested redraw is lost: what was asked for before one report of an output's flip is on the
      screen after the next. */
  lemma RequestsReachScreen(n: nat, inputs: seq<Input>, trace: seq<seq<Screen>>, i: nat, j: nat, k: nat)
    requires IsRun(n, inputs, trace) && i < j < |trace| - 1 && k < |trace[i]|
    requires Reports(inputs[i], k) && Reports(inputs[j], k) && Renders(inputs[i], k) && trace[i][k].sound
    ensures k < |trace[j + 1]| && trace[j + 1][k].visible >= trace[i][k].requested
  {
    hide IsRun, Takes, AllValid;
    StepOf(n, inputs, trace, i);
    StepOf(n, inputs, trace, j);
    ReportCatchesUp(trace[i], inputs[i], trace[i + 1], k);
    ReportCatchesUp(trace[j], inputs[j], trace[j + 1], k);
    TraceGrows(n, inputs, trace, i + 1, j, k);
  }

  /** How often output k was asked to redraw. */
  function Requests(inputs: seq<Input>, k: nat): nat {
    if inputs == [] then 0
    else
      var last := inputs[|inputs| - 1];
      Requests(inputs[..|inputs| - 1], k) + (if !last.Report? && last.i == k then 1 else 0)
  }

  lemma {:induction false} WaitedRequests(a: seq<Screen>, i: nat, reports: seq<seq<nat>>, k: nat)
    requires AllValid(a) && i < |a| && k < |a| && Waited(a, i, reports).Some?
    ensures Waited(a, i, reports).value[k].requested == a[k].requested
    decreases |reports|
  {
    if a[i].waiting {
      ReportedValid(a, reports[0]);
      WaitedRequests(Reported(a, reports[0]), i, reports[1..], k);
    }
  }

  /** Versions count requests: the picture an idle output shows is the last one asked for. */
  lemma {:induction false} VersionsCountRequests(n: nat, inputs: seq<Input>, trace: seq<seq<Screen>>, t: nat, k: nat)
    requires IsRun(n, inputs, trace) && t < |trace| && k < n
    ensures k < |trace[t]| && trace[t][k].requested == Requests(inputs[..t], k)
  {
    hide AllValid, Next;
    assert Shown(n, trace[t]);
    if t > 0 {
      StepOf(n, inputs, trace, t - 1);
      VersionsCountRequests(n, inputs, trace, t - 1, k);
      assert inputs[..t][..t - 1] == inputs[..t - 1];
      NextRequests(trace[t - 1], inputs[t - 1], k);
    }
  }

  lemma NextRequests(a: seq<Screen>, input: Input, k: nat)
    requires AllValid(a) && GoesOn(a, input) && k < |a|
    ensures Next(a, input)[k].requested == a[k].requested + (if !input.Report? && input.i == k then 1 else 0)
  {
    match input {
      case Report(done, _) => ReportedValid(a, done);
      case Request(_, _) =>
      case Mode(i, reports, _, _) => WaitedRequests(a, i, reports, k);
    }
  }

  /** A report is fatal exactly when some output has something to draw, is free to draw it by then, and its
      flip cannot be submitted. */
  lemma ReportFatal(a: seq<Screen>, done: seq<nat>, outcomes: seq<Outcome>)
    requires AllValid(a) && Reportable(a, done) && |outcomes| == |a|
    ensures !GoesOn(a, Report(done, outcomes)) <==> exists k ::
      0 <= k < |a| && a[k].needRedraw && (k in done || !a[k].waiting) && !(outcomes[k].fenced && outcomes[k].accepted)
  {
    var b := Reported(a, done);
    forall k | 0 <= k < |a|
      ensures Fails(b[k], outcomes[k]) <==>
        a[k].needRedraw && (k in done || !a[k].waiting) && !(outcomes[k].fenced && outcomes[k].accepted) { }
  }

  /** The output waits for a flip that the kernel has not taken. */
  predicate Stuck(s: Screen) { s.waiting && s.inFlight.None? }

  /** A drawing whose commit the kernel refuses leaves the output so. */
  lemma RefusedFlipSticks(s: Screen, r: Outcome)
    requires s.Valid() && s.inFlight.None?
    ensures Stuck(Scheduled(s, r)) <==> Stuck(s) || (s.Draws() && r.fenced && !r.accepted)
  {
  }

  lemma {:induction false} WaitedStuck(a: seq<Screen>, i: nat, reports: seq<seq<nat>>, k: nat)
    requires AllValid(a) && i < |a| && k < |a| && Stuck(a[k]) && Waited(a, i, reports).Some?
    ensures i != k && Waited(a, i, reports).value[k] == a[k]
    decreases |reports|
  {
    if a[i].waiting {
      ReportedValid(a, reports[0]);
      WaitedStuck(Reported(a, reports[0]), i, reports[1..], k);
    }
  }

  /** Nothing brings such an output back: it is never drawn or shown again, and a mode change of it waits
      for ever. */
  lemma StuckStays(a: seq<Screen>, input: Input, b: seq<Screen>, k: nat)
    requires Takes(a, input, b) && k < |a| && Stuck(a[k])
    ensures |b| == |a| && Stuck(b[k]) && b[k].drawn == a[k].drawn && b[k].visible == a[k].visible
    ensures !(input.Mode? && input.i == k)
  {
    match input {
      case Report(done, _) => ReportedValid(a, done);
      case Request(_, _) =>
      case Mode(i, reports, _, _) => WaitedStuck(a, i, reports, k);
    }
  }

  /** And then it waits for good. */
  lemma {:induction false} StuckForGood(n: nat, inputs: seq<Input>, trace: seq<seq<Screen>>, i: nat, j: nat, k: nat)
    requires IsRun(n, inputs, trace) && i <= j < |trace| && k < n && k < |trace[i]| && Stuck(trace[i][k])
    ensures k < |trace[j]| && Stuck(trace[j][k]) && trace[j][k].visible == trace[i][k].visible
    ensures forall t :: i <= t < j ==> !(inputs[t].Mode? && inputs[t].i == k)
    decreases j
  {
    hide IsRun, Takes, Stuck;
    if i < j {
      StuckForGood(n, inputs, trace, i, j - 1, k);
      StepOf(n, inputs, trace, j - 1);
      StuckStays(trace[j - 1], inputs[j - 1], trace[j], k);
    }
  }

  /** A run where the first frame is drawn into the framebuffer the display already shows, and then
      flipped to itself. */
  method FirstFrameOnScreen() returns (o: Output)
    ensures fresh(o) && o.Now().Valid() && o.inFlight == o.scanout == Some(o.Now().Back())
  {
    o := new Output();
    o.SwitchMode(true, Outcome(true, true, true));
  }
}
