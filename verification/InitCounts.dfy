/**
 Nested initialisation: many displays over one device, a driver display per device that must be
 initialised for the first of them and terminated after the last.

 What the driver answers is a parameter of every operation.
 */
module InitCounts {
  type DisplayId = nat
  type DeviceId = nat

  /** A call into the driver and its answer. */
  datatype Call = DriverInitialize(ok: bool) | DriverTerminate(ok: bool)

  /** WlEglDeviceDpy with the driver calls made for it. */
  datatype Device = Device(initCount: nat, calls: seq<Call>)

  /** WlEglDisplay. */
  datatype Display = Display(device: DeviceId, initCount: nat, useInitRefCount: bool)

  datatype DeviceResult = DeviceResult(device: Device, ok: bool)
  datatype DisplayResult = DisplayResult(display: Display, device: Device, ok: bool)

  function Called(d: Device, call: Call): Device {
    d.(calls := d.calls + [call])
  }

  /** wlInternalInitialize. */
  function InternalInitialize(d: Device, driverOk: bool): DeviceResult {
    if d.initCount > 0 then DeviceResult(d.(initCount := d.initCount + 1), true)
    else if driverOk then DeviceResult(Called(d, DriverInitialize(true)).(initCount := 1), true)
    else DeviceResult(Called(d, DriverInitialize(false)), false)
  }

  /** wlInternalTerminate. */
  function InternalTerminate(d: Device, driverOk: bool): DeviceResult {
    if d.initCount == 0 then DeviceResult(d, true)
    else if d.initCount > 1 then DeviceResult(d.(initCount := d.initCount - 1), true)
    else if driverOk then DeviceResult(Called(d, DriverTerminate(true)).(initCount := 0), true)
    else DeviceResult(Called(d, DriverTerminate(false)), false)
  }

  /** The driver call in wlFreeInternalDisplay; its answer is ignored. */
  function FreeInternalDisplay(d: Device, driverOk: bool): Device {
    if d.initCount > 0 then Called(d, DriverTerminate(driverOk)) else d
  }

  /** terminateDisplay. */
  function TerminateDisplay(p: Display, d: Device, globalTeardown: bool, driverOk: bool): DisplayResult {
    if p.initCount == 0 then DisplayResult(p, d, true)
    else if p.initCount > 1 && !globalTeardown then DisplayResult(p.(initCount := p.initCount - 1), d, true)
    else
      var r := InternalTerminate(d, driverOk);
      if !r.ok && !globalTeardown then DisplayResult(p, r.device, false)
      else DisplayResult(p.(initCount := 0), r.device, true)
  }

  /** What happens after the driver is initialised: registry, queue and listeners in place or not. */
  datatype Answers = Answers(initialized: bool, setUp: bool, terminated: bool)

  /** wlEglInitializeHook. */
  function InitializeDisplay(p: Display, d: Device, a: Answers): DisplayResult {
    if p.initCount > 0
    then DisplayResult(if p.useInitRefCount then p.(initCount := p.initCount + 1) else p, d, true)
    else
      var r := InternalInitialize(d, a.initialized);
      if !r.ok then DisplayResult(p, r.device, false)
      else if a.setUp then DisplayResult(p.(initCount := 1), r.device, true)
      else TerminateDisplay(p.(initCount := 1), r.device, false, a.terminated).(ok := false)
  }

  // ------------------------------------------------------------------ in place

  class DeviceDpy {
    var initCount: nat
    var calls: seq<Call>

    ghost function View(): Device
      reads this
    {
      Device(initCount, calls)
    }

    constructor ()
      ensures View() == Device(0, [])
    {
      initCount, calls := 0, [];
    }

    method Initialize(driverOk: bool) returns (ok: bool)
      modifies this
      ensures DeviceResult(View(), ok) == InternalInitialize(old(View()), driverOk)
      ensures calls == old(calls) + if old(initCount) == 0 then [DriverInitialize(driverOk)] else []
    {
      if initCount == 0 {
        calls := calls + [DriverInitialize(driverOk)];
        if !driverOk {
          return false;
        }
      }
      initCount := initCount + 1;
      return true;
    }

    method Terminate(driverOk: bool) returns (ok: bool)
      modifies this
      ensures DeviceResult(View(), ok) == InternalTerminate(old(View()), driverOk)
      ensures calls == old(calls) + if old(initCount) == 1 then [DriverTerminate(driverOk)] else []
    {
      if initCount > 0 {
        if initCount == 1 {
          calls := calls + [DriverTerminate(driverOk)];
          if !driverOk {
            return false;
          }
        }
        initCount := initCount - 1;
      }
      return true;
    }
  }

  class DisplayObject {
    const devDpy: DeviceDpy
    const id: DeviceId
    const useInitRefCount: bool
    var initCount: nat

    ghost function View(): Display
      reads this
    {
      Display(id, initCount, useInitRefCount)
    }

    constructor (devDpy: DeviceDpy, id: DeviceId, useInitRefCount: bool)
      ensures this.devDpy == devDpy && View() == Display(id, 0, useInitRefCount)
    {
      this.devDpy, this.id, this.useInitRefCount, initCount := devDpy, id, useInitRefCount, 0;
    }

    method Terminate(globalTeardown: bool, driverOk: bool) returns (ok: bool)
      modifies this, devDpy
      ensures DisplayResult(View(), devDpy.View(), ok) ==
              TerminateDisplay(old(View()), old(devDpy.View()), globalTeardown, driverOk)
      ensures globalTeardown ==> ok && initCount == 0
    {
      if initCount == 0 {
        return true;
      }
      if initCount > 1 && !globalTeardown {
        initCount := initCount - 1;
        return true;
      }
      var terminated := devDpy.Terminate(driverOk);
      if !terminated {
        if !globalTeardown {
          return false;
        }
      }
      initCount := 0;
      return true;
    }

    method Initialize(a: Answers) returns (ok: bool)
      modifies this, devDpy
      ensures DisplayResult(View(), devDpy.View(), ok) == InitializeDisplay(old(View()), old(devDpy.View()), a)
    {
      if initCount > 0 {
        if useInitRefCount {
          initCount := initCount + 1;
        }
        return true;
      }
      var initialized := devDpy.Initialize(a.initialized);
      if !initialized {
        return false;
      }
      initCount := 1;
      if !a.setUp {
        var _ := Terminate(false, a.terminated);
        return false;
      }
      return true;
    }
  }

  // ------------------------------------------------------------------ all displays of a platform

  datatype State = State(displays: map<DisplayId, Display>, devices: map<DeviceId, Device>)

  const EMPTY := State(map[], map[])

  datatype Op =
    | GetDisplay(p: DisplayId, d: DeviceId, useInitRefCount: bool)   // a new display, and its device if new
    | Initialize(p: DisplayId, answers: Answers)
    | Terminate(p: DisplayId, driverOk: bool)

  predicate Possible(s: State, op: Op) {
    match op
    case GetDisplay(p, _, _) => p !in s.displays
    case Initialize(p, _) => p in s.displays && s.displays[p].device in s.devices
    case Terminate(p, _) => p in s.displays && s.displays[p].device in s.devices
  }

  function Put(s: State, p: DisplayId, r: DisplayResult): State {
    State(s.displays[p := r.display], s.devices[r.display.device := r.device])
  }

  function Apply(s: State, op: Op): State
    requires Possible(s, op)
  {
    match op
    case GetDisplay(p, d, useInitRefCount) =>
      State(s.displays[p := Display(d, 0, useInitRefCount)],
            if d in s.devices then s.devices else s.devices[d := Device(0, [])])
    case Initialize(p, answers) =>
      Put(s, p, InitializeDisplay(s.displays[p], s.devices[s.displays[p].device], answers))
    case Terminate(p, driverOk) =>
      Put(s, p, TerminateDisplay(s.displays[p], s.devices[s.displays[p].device], false, driverOk))
  }

  predicate CanRun(s: State, ops: seq<Op>)
    decreases |ops|
  {
    ops == [] || (Possible(s, ops[0]) && CanRun(Apply(s, ops[0]), ops[1..]))
  }

  function Run(s: State, ops: seq<Op>): State
    requires CanRun(s, ops)
    decreases |ops|
  {
    if ops == [] then s else Run(Apply(s, ops[0]), ops[1..])
  }

  // ------------------------------------------------------------------ the law

  /** The displays of a device that are initialised. */
  function Users(displays: map<DisplayId, Display>, d: DeviceId): set<DisplayId> {
    set p | p in displays && displays[p].device == d && displays[p].initCount > 0
  }

  /** Whether the driver is initialised after some calls. */
  function Live(calls: seq<Call>): bool {
    if calls == [] then false
    else
      match calls[|calls| - 1]
      case DriverInitialize(ok) => ok || Live(calls[..|calls| - 1])
      case DriverTerminate(ok) => !ok && Live(calls[..|calls| - 1])
  }

  /** The driver is asked to initialise only when it is not initialised, and to terminate only when it is:
      the calls that succeed alternate. */
  predicate Alternate(calls: seq<Call>) {
    forall k :: 0 <= k < |calls| ==> (calls[k].DriverTerminate? <==> Live(calls[..k]))
  }

  predicate DeviceInv(d: Device) {
    Alternate(d.calls) && (Live(d.calls) <==> d.initCount > 0)
  }

  predicate DisplayInv(p: Display) {
    !p.useInitRefCount ==> p.initCount <= 1
  }

  /** A device counts its initialised displays. */
  predicate CountsUsers(s: State, d: DeviceId)
    requires d in s.devices
  {
    s.devices[d].initCount == |Users(s.displays, d)|
  }

  ghost predicate Inv(s: State) {
    && (forall p :: p in s.displays ==> DisplayInv(s.displays[p]) && s.displays[p].device in s.devices)
    && (forall d :: d in s.devices ==> DeviceInv(s.devices[d]))
    && (forall d :: d in s.devices ==> CountsUsers(s, d))
  }

  lemma CalledAlternates(d: Device, call: Call)
    requires Alternate(d.calls) && (call.DriverTerminate? <==> Live(d.calls))
    ensures Alternate(Called(d, call).calls)
    ensures Live(Called(d, call).calls) <==> (if call.ok then call.DriverInitialize? else Live(d.calls))
  {
    var calls := Called(d, call).calls;
    assert calls[..|d.calls|] == d.calls;
    forall k | 0 <= k < |calls|
      ensures calls[k].DriverTerminate? <==> Live(calls[..k])
    {
      if k < |d.calls| {
        assert calls[..k] == d.calls[..k];
      }
    }
  }

  lemma DeviceStaysInv(d: Device, ok: bool)
    requires DeviceInv(d)
    ensures DeviceInv(InternalInitialize(d, ok).device)
    ensures DeviceInv(InternalTerminate(d, ok).device)
  {
    if d.initCount == 0 {
      CalledAlternates(d, DriverInitialize(ok));
    } else {
      CalledAlternates(d, DriverTerminate(ok));
    }
  }

  function One(b: bool): int {
    if b then 1 else 0
  }

  /** What a call does to the two counts: the device's moves with whether the display is initialised. */
  predicate Moves(p: Display, d: Device, r: DisplayResult) {
    && r.display.device == p.device && r.display.useInitRefCount == p.useInitRefCount
    && (DisplayInv(p) ==> DisplayInv(r.display))
    && DeviceInv(r.device)
    && r.device.initCount - One(r.display.initCount > 0) == d.initCount - One(p.initCount > 0)
  }

  lemma TerminateMoves(p: Display, d: Device, driverOk: bool)
    requires DeviceInv(d) && (p.initCount > 0 ==> d.initCount > 0)
    ensures Moves(p, d, TerminateDisplay(p, d, false, driverOk))
  {
    DeviceStaysInv(d, driverOk);
  }

  lemma InitializeMoves(p: Display, d: Device, a: Answers)
    requires DeviceInv(d)
    ensures Moves(p, d, InitializeDisplay(p, d, a))
  {
    if p.initCount == 0 {
      DeviceStaysInv(d, a.initialized);
      var r := InternalInitialize(d, a.initialized);
      if r.ok {
        TerminateMoves(p.(initCount := 1), r.device, a.terminated);
      }
    }
  }

  lemma UsersChange(displays: map<DisplayId, Display>, p: DisplayId, next: Display, d: DeviceId)
    requires p in displays && next.device == displays[p].device
    ensures |Users(displays[p := next], d)| ==
            |Users(displays, d)| +
            if next.device == d then One(next.initCount > 0) - One(displays[p].initCount > 0) else 0
    ensures displays[p].device == d && displays[p].initCount > 0 ==> |Users(displays, d)| > 0
  {
    var others := Users(displays, d) - {p};
    var before, after := displays[p].device == d && displays[p].initCount > 0, next.device == d && next.initCount > 0;
    assert Users(displays, d) == if before then others + {p} else others;
    assert Users(displays[p := next], d) == if after then others + {p} else others;
  }

  lemma PutKeepsInv(s: State, p: DisplayId, r: DisplayResult)
    requires Inv(s) && p in s.displays
    requires Moves(s.displays[p], s.devices[s.displays[p].device], r)
    ensures Inv(Put(s, p, r))
  {
    var next := Put(s, p, r);
    forall d | d in next.devices
      ensures CountsUsers(next, d)
    {
      UsersChange(s.displays, p, r.display, d);
      assert CountsUsers(s, d);
    }
  }

  lemma NewDisplayKeepsInv(s: State, p: DisplayId, d: DeviceId, useInitRefCount: bool)
    requires Inv(s) && p !in s.displays
    ensures Inv(Apply(s, GetDisplay(p, d, useInitRefCount)))
  {
    var next := Apply(s, GetDisplay(p, d, useInitRefCount));
    forall e | e in next.devices
      ensures CountsUsers(next, e)
    {
      assert Users(next.displays, e) == Users(s.displays, e);
      if e in s.devices {
        assert CountsUsers(s, e);
      } else {
        assert Users(s.displays, e) == {};
      }
    }
  }

  lemma ApplyKeepsInv(s: State, op: Op)
    requires Inv(s) && Possible(s, op)
    ensures Inv(Apply(s, op))
  {
    match op {
      case GetDisplay(p, d, useInitRefCount) => NewDisplayKeepsInv(s, p, d, useInitRefCount);
      case Initialize(p, answers) =>
        var display, device := s.displays[p], s.devices[s.displays[p].device];
        InitializeMoves(display, device, answers);
        PutKeepsInv(s, p, InitializeDisplay(display, device, answers));
      case Terminate(p, driverOk) =>
        var display, device := s.displays[p], s.devices[s.displays[p].device];
        UsersChange(s.displays, p, display, display.device);
        assert CountsUsers(s, display.device);
        TerminateMoves(display, device, driverOk);
        PutKeepsInv(s, p, TerminateDisplay(display, device, false, driverOk));
    }
  }

  lemma {:induction false} RunKeepsInv(s: State, ops: seq<Op>)
    requires Inv(s) && CanRun(s, ops)
    ensures Inv(Run(s, ops))
    decreases |ops|
  {
    if ops != [] {
      ApplyKeepsInv(s, ops[0]);
      RunKeepsInv(Apply(s, ops[0]), ops[1..]);
    }
  }

  /** Over every run of hook calls, failed ones included: a device counts its initialised displays, its
      driver is initialised exactly while there is one, the driver calls alternate, and a display that does
      not ask for reference counting is capped at one. */
  lemma NestedCounts(ops: seq<Op>)
    requires CanRun(EMPTY, ops)
    ensures var s := Run(EMPTY, ops);
      && (forall d :: d in s.devices ==>
            && s.devices[d].initCount == |Users(s.displays, d)|
            && (Live(s.devices[d].calls) <==> Users(s.displays, d) != {})
            && Alternate(s.devices[d].calls))
      && (forall p :: p in s.displays && !s.displays[p].useInitRefCount ==> s.displays[p].initCount <= 1)
  {
    RunKeepsInv(EMPTY, ops);
    var s := Run(EMPTY, ops);
    forall d | d in s.devices
      ensures s.devices[d].initCount == |Users(s.displays, d)|
      ensures Live(s.devices[d].calls) <==> Users(s.displays, d) != {}
      ensures Alternate(s.devices[d].calls)
    {
      assert CountsUsers(s, d);
      assert DeviceInv(s.devices[d]);
    }
    forall p | p in s.displays && !s.displays[p].useInitRefCount
      ensures s.displays[p].initCount <= 1
    {
      assert DisplayInv(s.displays[p]);
    }
  }

  /** A display that is not initialised is untouched by a failed eglInitialize, unless the driver also
      refuses to terminate: only then it stays initialised although the call failed. */
  lemma FailedInitialize(p: Display, d: Device, a: Answers)
    requires DeviceInv(d) && !InitializeDisplay(p, d, a).ok
    ensures var r := InitializeDisplay(p, d, a);
      && p.initCount == 0
      && r.device.initCount - d.initCount == r.display.initCount
      && (r.display.initCount == 1 <==> d.initCount == 0 && a.initialized && !a.setUp && !a.terminated)
  {
  }

  lemma UsersCounted(s: State, p: DisplayId)
    requires Inv(s) && p in s.displays
    ensures var d := s.displays[p].device;
      && d in s.devices
      && (s.devices[d].initCount > 0 <==> Users(s.displays, d) != {})
      && (p in Users(s.displays, d) ==> (s.devices[d].initCount == 1 <==> Users(s.displays, d) == {p}))
  {
    var d := s.displays[p].device;
    var others := Users(s.displays, d) - {p};
    assert CountsUsers(s, d);
    if p in Users(s.displays, d) {
      assert Users(s.displays, d) == others + {p};
    }
  }

  /** After any run eglInitialize is true if and only if the display is initialised already, or its set-up
      succeeds and the driver agrees unless another display has it running; then the display is initialised. */
  lemma InitializeAnswers(ops: seq<Op>, p: DisplayId, a: Answers)
    requires CanRun(EMPTY, ops) && p in Run(EMPTY, ops).displays
    ensures var s := Run(EMPTY, ops);
      var d := s.displays[p].device;
      var users := Users(s.displays, d);
      && d in s.devices
      && var ok := InitializeDisplay(s.displays[p], s.devices[d], a).ok;
      && (ok <==> p in users || (a.setUp && (users != {} || a.initialized)))
      && (ok ==> p in Users(Apply(s, Initialize(p, a)).displays, d))
  {
    RunKeepsInv(EMPTY, ops);
    UsersCounted(Run(EMPTY, ops), p);
  }

  /** After any run eglTerminate is false if and only if the driver refuses the last termination of the last
      user of the device; then every display is left as it was.  A true answer to the last one ends its use. */
  lemma TerminateAnswers(ops: seq<Op>, p: DisplayId, driverOk: bool)
    requires CanRun(EMPTY, ops) && p in Run(EMPTY, ops).displays
    ensures var s := Run(EMPTY, ops);
      var d := s.displays[p].device;
      && d in s.devices
      && var ok, after := TerminateDisplay(s.displays[p], s.devices[d], false, driverOk).ok,
           Apply(s, Terminate(p, driverOk)).displays;
      && (!ok <==> Users(s.displays, d) == {p} && s.displays[p].initCount == 1 && !driverOk)
      && (!ok ==> after == s.displays)
      && (ok && s.displays[p].initCount == 1 ==> p !in Users(after, d))
  {
    RunKeepsInv(EMPTY, ops);
    UsersCounted(Run(EMPTY, ops), p);
  }

  /** Such a call: the first eglInitialize of a display starts the driver, its set-up fails, and the driver
      refuses to stop again. */
  lemma FailedInitializeLingers()
    ensures var ops := [GetDisplay(0, 0, false), Initialize(0, Answers(true, false, false))];
      CanRun(EMPTY, ops) && 0 in Run(EMPTY, ops).displays && Run(EMPTY, ops).displays[0].initCount == 1
      && !InitializeDisplay(Display(0, 0, false), Device(0, []), Answers(true, false, false)).ok
  {
    var create, init := GetDisplay(0, 0, false), Initialize(0, Answers(true, false, false));
    RunTwo(EMPTY, create, init);
  }

  lemma RunTwo(s: State, a: Op, b: Op)
    requires Possible(s, a) && Possible(Apply(s, a), b)
    ensures CanRun(s, [a, b]) && Run(s, [a, b]) == Apply(Apply(s, a), b)
  {
    var t := Apply(s, a);
    assert [a, b][1..] == [b] && [b][1..] == [];
    var u := Apply(t, b);
    assert CanRun(u, []) && Run(u, []) == u;
    assert CanRun(t, [b]) && Run(t, [b]) == u;
  }

  /** eglInitialize called n times, with a driver and a set-up that do not fail. */
  function InitializeTimes(p: Display, d: Device, n: nat): DisplayResult {
    if n == 0 then DisplayResult(p, d, true)
    else var r := InitializeTimes(p, d, n - 1); InitializeDisplay(r.display, r.device, Answers(true, true, true))
  }

  /** eglTerminate called m times, with a driver that agrees. */
  function TerminateTimes(p: Display, d: Device, m: nat): DisplayResult {
    if m == 0 then DisplayResult(p, d, true)
    else var r := TerminateTimes(p, d, m - 1); TerminateDisplay(r.display, r.device, false, true)
  }

  lemma {:induction false} InitializedTimes(p: Display, d: Device, n: nat)
    requires p.initCount == 0 && n > 0
    ensures var r := InitializeTimes(p, d, n);
      && r.display == p.(initCount := if p.useInitRefCount then n else 1)
      && r.device == InternalInitialize(d, true).device
  {
    if n > 1 {
      InitializedTimes(p, d, n - 1);
    } else {
      assert InitializeTimes(p, d, 0) == DisplayResult(p, d, true);
    }
  }

  /** How often eglTerminate has to be called: as often as eglInitialize with useInitRefCount, once
      without.  Until then the device keeps its share, then it is as many users short as before. */
  lemma {:induction false} NestingBalances(p: Display, d: Device, n: nat, m: nat)
    requires p.initCount == 0 && n > 0
    ensures var r := InitializeTimes(p, d, n);
      var t := TerminateTimes(r.display, r.device, m);
      var needed := if p.useInitRefCount then n else 1;
      && (m < needed ==> t.display.initCount == needed - m && t.device == r.device)
      && (m >= needed ==> t.display.initCount == 0 && t.device.initCount == d.initCount)
  {
    InitializedTimes(p, d, n);
    if m > 0 {
      NestingBalances(p, d, n, m - 1);
    }
  }

  // ------------------------------------------------------------------ global teardown

  /** wlEglDestroyAllDisplays on one display of the list. */
  function TearDownOne(s: State, p: DisplayId, driverOk: bool): State
    requires p in s.displays && s.displays[p].device in s.devices
  {
    var r := TerminateDisplay(s.displays[p], s.devices[s.displays[p].device], true, driverOk);
    State(s.displays - {p}, s.devices[r.display.device := r.device])
  }

  predicate InList(s: State, list: seq<DisplayId>) {
    && (forall i :: 0 <= i < |list| ==> list[i] in s.displays && s.displays[list[i]].device in s.devices)
    && (forall i, j :: 0 <= i < j < |list| ==> list[i] != list[j])
  }

  /** The loop over the display list, with the driver's answer for each display. */
  function TearDown(s: State, list: seq<DisplayId>, answers: seq<bool>): State
    requires InList(s, list) && |answers| == |list|
    decreases |list|
  {
    if list == [] then s else TearDown(TearDownOne(s, list[0], answers[0]), list[1..], answers[1..])
  }

  lemma UsersWithout(displays: map<DisplayId, Display>, p: DisplayId, d: DeviceId)
    requires p in displays
    ensures |Users(displays - {p}, d)| ==
            |Users(displays, d)| - One(displays[p].device == d && displays[p].initCount > 0)
    ensures displays[p].device == d && displays[p].initCount > 0 ==> |Users(displays, d)| > 0
  {
    var others := Users(displays, d) - {p};
    assert Users(displays, d) ==
      if displays[p].device == d && displays[p].initCount > 0 then others + {p} else others;
    assert Users(displays - {p}, d) == others;
  }

  /** Teardown takes a display off its device's count, unless it was the last one and the driver refused:
      exactly then the device stays counted with no display left. */
  lemma TearDownOneCounts(s: State, p: DisplayId, driverOk: bool)
    requires Inv(s) && p in s.displays
    ensures var d, next := s.displays[p].device, TearDownOne(s, p, driverOk);
      CountsUsers(next, d) <==> !(s.displays[p].initCount > 0 && s.devices[d].initCount == 1 && !driverOk)
  {
    var d := s.displays[p].device;
    UsersWithout(s.displays, p, d);
    assert CountsUsers(s, d);
  }

  /** Such a teardown: one display, initialised once, and a driver that refuses to stop. */
  lemma RefusedTeardownCounts()
    ensures var ops := [GetDisplay(0, 0, false), Initialize(0, Answers(true, true, true))];
      && CanRun(EMPTY, ops) && 0 in Run(EMPTY, ops).displays && Run(EMPTY, ops).displays[0].device == 0
      && 0 in Run(EMPTY, ops).devices
      && var next := TearDownOne(Run(EMPTY, ops), 0, false);
         0 in next.devices && next.displays == map[] && next.devices[0].initCount == 1 && !CountsUsers(next, 0)
  {
    var create, init := GetDisplay(0, 0, false), Initialize(0, Answers(true, true, true));
    RunTwo(EMPTY, create, init);
    var s := Apply(Apply(EMPTY, create), init);
    var next := TearDownOne(s, 0, false);
    assert next.displays == map[];
    assert Users(next.displays, 0) == {};
  }

  /** During teardown a device counts its displays, or it has none left and the driver refused. */
  predicate TornInv(s: State, d: DeviceId)
    requires d in s.devices
  {
    && DeviceInv(s.devices[d])
    && (CountsUsers(s, d) || (Users(s.displays, d) == {} && s.devices[d].initCount == 1 && Refused(s.devices[d].calls)))
  }

  /** The driver refused the last call. */
  predicate Refused(calls: seq<Call>) {
    calls != [] && calls[|calls| - 1] == DriverTerminate(false)
  }

  lemma TearDownOneKeepsInv(s: State, p: DisplayId, driverOk: bool, d: DeviceId)
    requires p in s.displays && s.displays[p].device in s.devices && d in s.devices && TornInv(s, d)
    ensures TornInv(TearDownOne(s, p, driverOk), d)
  {
    var next := TearDownOne(s, p, driverOk);
    UsersWithout(s.displays, p, d);
    if s.displays[p].device == d {
      DeviceStaysInv(s.devices[d], driverOk);
    }
    if Users(s.displays, d) == {} {
      assert Users(next.displays, d) == {};
    }
    if |Users(next.displays, d)| == 0 {
      assert Users(next.displays, d) == {};
    }
  }

  lemma {:induction false} TearDownKeepsInv(s: State, list: seq<DisplayId>, answers: seq<bool>, d: DeviceId)
    requires InList(s, list) && |answers| == |list| && d in s.devices && TornInv(s, d)
    ensures d in TearDown(s, list, answers).devices && TornInv(TearDown(s, list, answers), d)
    decreases |list|
  {
    if list != [] {
      TearDownOneKeepsInv(s, list[0], answers[0], d);
      TearDownKeepsInv(TearDownOne(s, list[0], answers[0]), list[1..], answers[1..], d);
    }
  }

  lemma {:induction false} TearDownEmpties(s: State, list: seq<DisplayId>, answers: seq<bool>, p: DisplayId)
    requires InList(s, list) && |answers| == |list|
    requires p !in s.displays || p in list
    ensures p !in TearDown(s, list, answers).displays
    decreases |list|
  {
    if list != [] {
      TearDownEmpties(TearDownOne(s, list[0], answers[0]), list[1..], answers[1..], p);
    }
  }

  /** Global teardown after any run: for each device the loop over the displays and the freeing of the
      device keep the driver calls alternating, the freeing asks the driver again exactly if it refused the
      loop's last terminate, and the driver is left initialised only if it refused twice. */
  lemma TeardownSettles(ops: seq<Op>, list: seq<DisplayId>, answers: seq<bool>, d: DeviceId, last: bool)
    requires CanRun(EMPTY, ops) && InList(Run(EMPTY, ops), list) && |answers| == |list|
    requires forall p :: p in Run(EMPTY, ops).displays ==> p in list
    requires d in Run(EMPTY, ops).devices
    ensures var torn := TearDown(Run(EMPTY, ops), list, answers);
      && d in torn.devices && torn.displays == map[]
      && var device := torn.devices[d];
         var freed := FreeInternalDisplay(device, last);
         && Alternate(freed.calls)
         && (freed != device <==> Live(device.calls))
         && (Live(device.calls) ==> device.calls[|device.calls| - 1] == DriverTerminate(false))
         && (Live(freed.calls) ==> !last)
  {
    var s := Run(EMPTY, ops);
    RunKeepsInv(EMPTY, ops);
    assert CountsUsers(s, d);
    TearDownKeepsInv(s, list, answers, d);
    var torn := TearDown(s, list, answers);
    forall p
      ensures p !in torn.displays
    {
      TearDownEmpties(s, list, answers, p);
    }
    assert torn.displays == map[];
    assert Users(torn.displays, d) == {};
    if torn.devices[d].initCount > 0 {
      CalledAlternates(torn.devices[d], DriverTerminate(last));
    }
  }
}
