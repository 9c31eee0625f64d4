/** The global low-level keyboard hook (KeyboardHook.cs): a filter that
    recognises Win+Space and lets the chord through only on the third press
    in a quick series, plus the install/uninstall/dispose lifecycle of the
    hook handle.

    The Win32 calls are replaced by inputs and outputs: the callback receives
    the hook's arguments, the two `GetAsyncKeyState` results and the value of
    `Environment.TickCount`, and returns what the hook returns (suppress, or
    hand the event on with `CallNextHookEx`) plus the status event it raises. */
module KeyboardHook {
  import opened Basics
  import Numerals

  const WmKeyDown: int := 0x0100
  const WmSysKeyDown: int := 0x0104
  const VkSpace: int := 0x20

  /** Presses further apart than this (in milliseconds) start a new series. */
  const PressTimeout: int := 300

  /** The press that lets the chord through. */
  const PressThreshold: nat := 3

  /** The counter fields `_pressCount` and `_lastPressTime`. */
  datatype PressCounter = PressCounter(pressCount: nat, lastPressTime: Int32)

  /** Both fields start at zero. */
  const InitialCounter := PressCounter(0, 0)

  /** What the hook does with a chord press. */
  datatype Verdict = Block | Allow

  /** The status event raised for a chord press. */
  datatype Status = Blocked(count: nat) | Switching

  /** The outcome of one chord press. */
  datatype Press = Press(counter: PressCounter, verdict: Verdict, status: Status)

  /** The arguments of one hook call: `nCode`, the message in `wParam`, and
      the virtual-key code read from the `KBDLLHOOKSTRUCT` behind `lParam`. */
  datatype KeyEvent = KeyEvent(nCode: int, message: int, vkCode: int)

  /** The results of `GetAsyncKeyState(VK_LWIN)` and `GetAsyncKeyState(VK_RWIN)`
      (virtual keys 0x5B and 0x5C) sampled while the callback runs. */
  datatype WinKeys = WinKeys(left: bv16, right: bv16)

  /** What the callback returns: 1 (the key is swallowed), `CallNextHookEx`
      with the event's own arguments, or `CallNextHookEx(hook, 0, 0, 0)`. */
  datatype HookReturn = Suppress | Forward(event: KeyEvent) | ForwardCleared

  /** One callback: the counter afterwards, the return, and the status event
      raised (if any). */
  datatype Callback = Callback(counter: PressCounter, ret: HookReturn, status: Option<Status>)

  /** The hook object: `_hookId` (0 is `IntPtr.Zero`), `_disposed`,
      `IsEnabled` and the press counter. */
  datatype Hook = Hook(hookId: int, disposed: bool, enabled: bool, counter: PressCounter)

  /** A freshly constructed hook: not installed, enabled. */
  const NewHook := Hook(0, false, true, InitialCounter)

  /** The calls into user32 the lifecycle makes. */
  datatype OsCall = SetWindowsHook | UnhookWindowsHook(handle: int)

  /** The high bit of a `GetAsyncKeyState` result: the key is down now. */
  predicate IsDown(state: bv16)
  {
    state & 0x8000 != 0
  }

  /** Milliseconds since the previous press, as `int` subtraction on tick
      counts (it wraps around when the tick count does). */
  function Elapsed(c: PressCounter, now: Int32): Int32
  {
    Sub32(now, c.lastPressTime)
  }

  /** The previous series has expired: strictly more than the timeout passed. */
  predicate TimedOut(c: PressCounter, now: Int32)
  {
    Elapsed(c, now) > PressTimeout
  }

  /** One chord press with a threshold of `k` presses: restart the count when
      the previous press is too old, stamp the time, count the press, and
      let the chord through (resetting the count) when it reaches `k`. */
  function HandleChord(k: nat, c: PressCounter, now: Int32): (p: Press)
    requires 1 <= k
    ensures p.counter.lastPressTime == now
    ensures p.counter.pressCount < k
    ensures p.verdict == Allow <==> p.status == Switching
    ensures p.verdict == Allow ==> p.counter.pressCount == 0
    ensures p.verdict == Block ==> 1 <= p.counter.pressCount && p.status == Blocked(p.counter.pressCount)
    ensures TimedOut(c, now) ==> (p.verdict == Allow <==> k == 1)
    ensures TimedOut(c, now) && 1 < k ==> p.counter.pressCount == 1
    ensures !TimedOut(c, now) && c.pressCount + 1 < k ==> p.verdict == Block && p.counter.pressCount == c.pressCount + 1
    ensures !TimedOut(c, now) && c.pressCount + 1 >= k ==> p.verdict == Allow
  {
    var count := (if TimedOut(c, now) then 0 else c.pressCount) + 1;
    if count >= k then Press(PressCounter(0, now), Allow, Switching)
    else Press(PressCounter(count, now), Block, Blocked(count))
  }

  /** `HandleWinSpace` as written: the threshold is 3. */
  function HandleWinSpace(c: PressCounter, now: Int32): (p: Press)
    ensures p.counter.lastPressTime == now
    ensures 0 <= p.counter.pressCount <= 2
    ensures p.verdict == Allow <==> (!TimedOut(c, now) && c.pressCount >= 2)
    ensures p.verdict == Block ==> p.status == Blocked(p.counter.pressCount)
    ensures p.verdict == Allow ==> p.status == Switching && p.counter.pressCount == 0
    ensures TimedOut(c, now) ==> p == Press(PressCounter(1, now), Block, Blocked(1))
    ensures !TimedOut(c, now) && c.pressCount < 2 ==>
      p.verdict == Block && p.counter.pressCount == c.pressCount + 1
  {
    HandleChord(PressThreshold, c, now)
  }

  /** The test `HookCallback` makes before touching the counter. */
  predicate IsChord(enabled: bool, e: KeyEvent, keys: WinKeys)
  {
    && e.nCode >= 0
    && enabled
    && (e.message == WmKeyDown || e.message == WmSysKeyDown)
    && e.vkCode == VkSpace
    && (IsDown(keys.left) || IsDown(keys.right))
  }

  /** `HookCallback`: a chord press goes through `HandleWinSpace`; anything
      else is handed to the next hook untouched. */
  function HookCallback(h: Hook, e: KeyEvent, keys: WinKeys, now: Int32): (r: Callback)
    ensures IsChord(h.enabled, e, keys) ==> r.status.Some?
    ensures IsChord(h.enabled, e, keys) ==>
      var p := HandleWinSpace(h.counter, now);
      r.counter == p.counter && r.status == Some(p.status) &&
      (r.ret == Suppress <==> p.verdict == Block)
    ensures !IsChord(h.enabled, e, keys) ==> r == Callback(h.counter, Forward(e), None)
    ensures r.ret == Suppress <==> r.status.Some? && r.status.value.Blocked?
    ensures r.ret == ForwardCleared <==> r.status == Some(Switching)
    ensures r.status.Some? ==> r.counter.lastPressTime == now && r.counter.pressCount <= 2
  {
    if IsChord(h.enabled, e, keys) then
      var p := HandleWinSpace(h.counter, now);
      Callback(p.counter, if p.verdict == Block then Suppress else ForwardCleared, Some(p.status))
    else
      Callback(h.counter, Forward(e), None)
  }

  /** A Space key-down is the chord when either Win key is held, whichever
      one it is, and not otherwise. "Held" is the top bit of the key state:
      a state of at least 0x8000 read as unsigned. The low bit ("pressed
      since the last query") does not count. */
  lemma EitherWinKeyQualifies(e: KeyEvent, left: bv16, right: bv16)
    requires e.nCode >= 0
    requires e.message == WmKeyDown || e.message == WmSysKeyDown
    requires e.vkCode == VkSpace
    ensures IsChord(true, e, WinKeys(left, right)) <==> (left >= 0x8000 || right >= 0x8000)
    ensures !IsChord(false, e, WinKeys(left, right))
  {
  }

  /** The text the `StatusChanged` event carries. */
  function StatusText(s: Status): (t: string)
    ensures s == Switching ==> t == "Switching..."
    ensures s.Blocked? ==> 7 <= |t| && t[..5] == "no! (" && t[|t| - 1] == ')'
    ensures s.Blocked? ==> Numerals.AllDigits(t[5..|t| - 1]) && Numerals.Parse(t[5..|t| - 1], 10) == s.count
    ensures s.Blocked? ==> forall i :: 5 <= i < |t| - 1 ==> '0' <= t[i] <= '9'
    ensures s.Blocked? && s.count != 0 ==> t[5] != '0'
  {
    match s
    case Switching => "Switching..."
    case Blocked(n) =>
      var digits := Numerals.Decimal(n);
      var t := "no! (" + digits + ")";
      assert t[5..|t| - 1] == digits;
      t
  }

  /** The status texts of distinct statuses differ. */
  lemma StatusTextInjective(s1: Status, s2: Status)
    requires StatusText(s1) == StatusText(s2)
    ensures s1 == s2
  {
  }

  /** `Install`: a no-op when a handle is already set; otherwise the handle
      becomes what `SetWindowsHookEx` returned (`granted`, 0 on failure). */
  function Install(h: Hook, granted: int): (r: (Hook, seq<OsCall>))
    ensures h.hookId != 0 ==> r == (h, [])
    ensures h.hookId == 0 ==> r.0 == h.(hookId := granted) && r.1 == [SetWindowsHook]
  {
    if h.hookId != 0 then (h, []) else (h.(hookId := granted), [SetWindowsHook])
  }

  /** `Uninstall`: unhooks a set handle and clears it. */
  function Uninstall(h: Hook): (r: (Hook, seq<OsCall>))
    ensures r.0 == h.(hookId := 0)
    ensures h.hookId != 0 ==> r.1 == [UnhookWindowsHook(h.hookId)]
    ensures h.hookId == 0 ==> r.1 == []
  {
    if h.hookId != 0 then (h.(hookId := 0), [UnhookWindowsHook(h.hookId)]) else (h, [])
  }

  /** `Dispose`: uninstalls the first time only. */
  function Dispose(h: Hook): (r: (Hook, seq<OsCall>))
    ensures r.0.disposed
    ensures !h.disposed ==> r.0.hookId == 0
    ensures !h.disposed ==> r.1 == Uninstall(h).1
    ensures r.0.counter == h.counter && r.0.enabled == h.enabled
    ensures h.disposed ==> r == (h, [])
  {
    if h.disposed then (h, [])
    else
      var (u, calls) := Uninstall(h);
      (u.(disposed := true), calls)
  }

  /** A freshly constructed hook installs with one call, and the first chord
      it sees is blocked as press 1 whatever the tick count: either the
      series has expired, or it continues from a count of zero. */
  lemma NewHookFirstPress(granted: int, e: KeyEvent, keys: WinKeys, now: Int32)
    requires IsChord(NewHook.enabled, e, keys)
    ensures Install(NewHook, granted).1 == [SetWindowsHook]
    ensures HookCallback(NewHook, e, keys, now) ==
      Callback(PressCounter(1, now), Suppress, Some(Blocked(1)))
  {
  }

  /** Uninstalling twice makes no further call and changes nothing. */
  lemma UninstallIdempotent(h: Hook)
    ensures Uninstall(Uninstall(h).0) == (Uninstall(h).0, [])
  {
  }

  /** Disposing twice unhooks at most once in total. */
  lemma DisposeUnhooksAtMostOnce(h: Hook)
    ensures |Dispose(h).1| + |Dispose(Dispose(h).0).1| <= 1
    ensures Dispose(Dispose(h).0) == (Dispose(h).0, [])
  {
  }

  /** An installed hook is not replaced by a second `Install`. */
  lemma InstallKeepsHandle(h: Hook, g1: int, g2: int)
    requires g1 != 0
    ensures var h1 := Install(h, g1).0; Install(h1, g2) == (h1, [])
  {
  }

  // ---------------------------------------------------------------------
  // Series of presses

  /** Replays chord presses at the given tick counts, one outcome each. */
  function Replay(k: nat, c: PressCounter, times: seq<Int32>): (ps: seq<Press>)
    requires 1 <= k
    ensures |ps| == |times|
    decreases |times|
  {
    if times == [] then []
    else
      var p := HandleChord(k, c, times[0]);
      [p] + Replay(k, p.counter, times[1..])
  }

  /** Every press comes at most the timeout after the one before it (the
      first one after `last`). */
  predicate QuickSeries(last: Int32, times: seq<Int32>)
    decreases |times|
  {
    times != [] ==> Sub32(times[0], last) <= PressTimeout && QuickSeries(times[0], times[1..])
  }

  lemma ModStep(a: nat, j: nat, k: nat)
    requires 1 <= k
    ensures ((a + 1) % k + j + 1) % k == (a + (j + 1) + 1) % k
  {
    var q := (a + 1) / k;
    var y := (a + 1) % k + j + 1;
    assert a + (j + 1) + 1 == y + q * k;
    ModUnique(y + q * k, k, y / k + q, y % k);
  }

  /** Euclidean division is determined by quotient and remainder. */
  lemma ModUnique(n: int, k: int, q: int, r: int)
    requires 1 <= k && 0 <= r < k && n == q * k + r
    ensures n % k == r
  {
    var d := q - n / k;
    assert n % k - r == d * k;
  }

  /** Within a quick series every k-th press (counting the presses already
      on the counter) is let through and the count wraps to 0 there. */
  lemma {:induction false} QuickSeriesCycles(k: nat, c: PressCounter, times: seq<Int32>)
    requires 1 <= k && c.pressCount < k
    requires QuickSeries(c.lastPressTime, times)
    ensures forall i :: 0 <= i < |times| ==>
      Replay(k, c, times)[i].counter.pressCount == (c.pressCount + i + 1) % k
    ensures forall i :: 0 <= i < |times| ==>
      (Replay(k, c, times)[i].verdict == Allow <==> (c.pressCount + i + 1) % k == 0)
    decreases |times|
  {
    if times != [] {
      var p := HandleChord(k, c, times[0]);
      assert p.counter.pressCount == (c.pressCount + 1) % k;
      var rest := times[1..];
      QuickSeriesCycles(k, p.counter, rest);
      var ps := Replay(k, c, times);
      forall i | 1 <= i < |times|
        ensures ps[i].counter.pressCount == (c.pressCount + i + 1) % k
      {
        assert ps[i] == Replay(k, p.counter, rest)[i - 1];
        ModStep(c.pressCount, i - 1, k);
      }
    }
  }

  /** A press after the timeout behaves exactly like the first press of a
      fresh series. */
  lemma TimeoutRestartsSeries(k: nat, c: PressCounter, now: Int32)
    requires 1 <= k
    requires TimedOut(c, now)
    ensures HandleChord(k, c, now) == HandleChord(k, PressCounter(0, now), now)
  {
  }

  /** Three quick presses from a zero count: blocked as "no! (1)", blocked as
      "no! (2)", then let through as "Switching..." with the count back at 0. */
  lemma ThreeQuickPresses(c: PressCounter, t1: Int32, t2: Int32, t3: Int32)
    requires c.pressCount == 0
    requires Sub32(t2, t1) <= PressTimeout && Sub32(t3, t2) <= PressTimeout
    ensures var p1 := HandleWinSpace(c, t1);
            var p2 := HandleWinSpace(p1.counter, t2);
            var p3 := HandleWinSpace(p2.counter, t3);
            && p1.verdict == Block && StatusText(p1.status) == "no! (1)"
            && p2.verdict == Block && StatusText(p2.status) == "no! (2)"
            && p3.verdict == Allow && StatusText(p3.status) == "Switching..."
            && p3.counter == PressCounter(0, t3)
  {
    assert Numerals.Decimal(1) == "1";
    assert Numerals.Decimal(2) == "2";
  }

  /** A gap of exactly the timeout continues the series; one millisecond more
      restarts it. */
  lemma TimeoutIsStrict(c: PressCounter)
    requires c.lastPressTime < TwoTo31 - PressTimeout - 1
    requires c.pressCount == 1
    ensures HandleWinSpace(c, c.lastPressTime + PressTimeout).counter.pressCount == 2
    ensures HandleWinSpace(c, c.lastPressTime + PressTimeout + 1).counter.pressCount == 1
  {
  }

  /** Presses at 0, 50 and 100 ms after a long pause: blocked, blocked, let
      through. */
  lemma ScenarioQuick()
    ensures var ps := Replay(PressThreshold, PressCounter(0, -1000), [0, 50, 100]);
            && ps[0].verdict == Block && ps[1].verdict == Block && ps[2].verdict == Allow
            && ps[2].counter.pressCount == 0
  {
  }

  /** Presses at 0, 50 and 500 ms: the third comes too late and starts over
      at 1. */
  lemma ScenarioExpired()
    ensures var ps := Replay(PressThreshold, PressCounter(0, -1000), [0, 50, 500]);
            && ps[0].verdict == Block && ps[1].verdict == Block && ps[2].verdict == Block
            && ps[2].status == Blocked(1) && ps[2].counter.pressCount == 1
  {
  }

  /** Across the tick counter's wrap from 2^31-1 to -2^31 a 200 ms gap is
      still a quick press. */
  lemma TickWrapStaysQuick()
    ensures var c := PressCounter(1, TwoTo31 - 100);
            HandleWinSpace(c, -TwoTo31 + 100).counter.pressCount == 2
  {
  }
}
