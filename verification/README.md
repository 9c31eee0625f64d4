# KeyboardLayoutWatcher in Dafny

This project models the core of KeyboardLayoutWatcher, a Windows tray utility
that does two things. It shows the active keyboard layout and alerts when it
changes. It also guards the Win+Space layout-switch chord, so that a single
accidental press does not switch layouts. The model covers four parts:

- **The Win+Space press gate** (`keyboard_hook.dfy`, module `KeyboardHook`).
  The low-level keyboard hook counts Win+Space presses. A press more than
  300 ms after the previous one restarts the count. The first two presses of
  a series are swallowed and reported as "no! (n)". The third is let
  through, reported as "Switching...", and the count goes back to zero. The
  tick count is a 32-bit `int` that wraps, and the model wraps it too. The
  threshold is a parameter `k ≥ 1` in `HandleChord`; `HandleWinSpace` is the
  instance with `k = 3`, as the source hard-codes. The hook's
  install/uninstall/dispose lifecycle is modelled as the list of calls it
  makes to the operating system.
- **Layout naming** (`layout_info.dfy`, module `KeyboardLayoutInfo`). A
  layout handle (HKL) splits into a language id (bits 0-15) and a keyboard
  id (bits 16-31). The keyboard id is written as an eight-digit KLID and
  looked up in a table of 30 friendly names; an unknown id falls back to the
  KLID itself. The module also covers the culture lookup and the
  foreground-window query.
  - The source keys its dictionary by KLID strings. The model keys the same
    30 entries by keyboard id. This is faithful because the KLID of a
    keyboard id is determined by it and `KlidInjective` proves that
    different ids give different KLIDs, so a KLID string matches a key
    exactly when the ids are equal.
  - `KlidIsPaddedX4` proves that the KLID is what the .NET formatting chain
    `ToString("X4").PadLeft(8, '0')` produces.
  - `numerals.dfy` (module `Numerals`) models the .NET numeral formatting
    (`ToString()`, `ToString("X")`, `ToString("X4")`, `PadLeft`) against a
    reference `Parse`.
- **The main window's layout watch** (`form.dfy`, module `MainForm`).
  - `UpdateLayoutDisplay` is edge-triggered on the last handle seen. It
    renders the status text through the localiser, mirrors it into the tray
    tooltip, and raises the change alert, but never for the first layout
    seen. It is split into a state step (`Observe`) and a rendering step
    (`Render`).
  - The form repeats the layout naming with its own copy of the table, and
    the model proves the two namings agree.
  - The 200 ms poll and the `WM_INPUTLANGCHANGE` message both feed the same
    update.
  - A language switch (`RefreshLocalizedUI`) forgets the last handle, so
    the layout is displayed again in the new language. As
    `RefreshRedisplays` states, when alerts are on this also re-raises the
    change alert for an unchanged layout.
  - The settings handlers do nothing while `LoadSettings` is filling the
    controls. The stored Win+Space press count is shown clamped to 2..5.
- **The tray tooltip** (`tray.dfy`, module `TrayManager`). Text longer than
  63 characters is cut to 60 characters plus "...".

Shared vocabulary lives in `basics.dfy` (module `Basics`): an option type,
the C# `ushort`/`int`/`long` ranges, and wrapping 32-bit subtraction.

The foreign calls are parameters:
- `Environment.TickCount` is `now`;
- `GetAsyncKeyState` is the `WinKeys` record;
- `SetWindowsHookEx` is the handle it returned, and its effects are the
  returned `OsCall` list;
- `GetForegroundWindow`, `GetWindowThreadProcessId` and
  `GetKeyboardLayout` are the `foreground`, `threadOf` and `layoutOf`
  arguments;
- `new CultureInfo(id).DisplayName` is `cultureOf`, returning `None` where
  the constructor throws;
- `Localization.Lang` is `lang`, applied to a `Message` record holding the
  template key and placeholder values.

The name comes from bits 16-31 of the handle only. The handle 0x0000ABCD
is named "00000000" (`NameOfLowHalfOnly`). "0000ABCD" is the name of a
handle whose bits 16-31 are 0xABCD (`NameOfUnknown`).

## Model

| member | source | states |
|---|---|---|
| Basics.Sub32 | KeyboardHook.cs:114-117 | `currentTime - _lastPressTime` on C# `int`: equals the true difference when it fits and wraps by 2^32 otherwise |
| KeyboardHook.HandleChord | KeyboardHook.cs:112-138 | one chord press with threshold k: the time is stamped; the count stays below k; a press more than 300 ms after the last restarts the count at 1; the press is let through (status "Switching", count reset to 0) exactly when the count reaches k, otherwise it is swallowed with status Blocked(count) |
| KeyboardHook.HandleWinSpace | KeyboardHook.cs:112-138 | with the source's threshold 3: the count stays in 0..2, and a press is let through exactly when it is not timed out and two presses are already counted; a timed-out press is always swallowed as the first of a new series; a quick press from a count below 2 is swallowed and adds one to the count |
| KeyboardHook.HookCallback | KeyboardHook.cs:85-110 | only a key-down or sys-key-down of Space with either Win key held, with nCode ≥ 0 and the hook enabled, reaches the counter; every other event is forwarded unchanged with the counter untouched; a counted press takes the counter and the status `HandleWinSpace` gives it, raises exactly that one status, is suppressed exactly when `HandleWinSpace` blocks it, and is forwarded with cleared arguments exactly when it switches |
| KeyboardHook.EitherWinKeyQualifies | KeyboardHook.cs:87-101 | for a Space key-down with nCode ≥ 0, the chord is recognised exactly when the left or the right Win key's state has its top bit set (held now), and never while the hook is disabled |
| KeyboardHook.StatusText | KeyboardHook.cs:128-134 | the status string is "Switching..." or "no! (n)" whose digits are decimal (0-9), read back as the count and have no leading zero |
| KeyboardHook.StatusTextInjective | KeyboardHook.cs:128-134 | different statuses give different status strings |
| KeyboardHook.Install | KeyboardHook.cs:65-74 | with a handle already set nothing happens; otherwise one SetWindowsHookEx call is made and its result becomes the handle |
| KeyboardHook.Uninstall | KeyboardHook.cs:76-83 | the handle ends at zero and UnhookWindowsHookEx is called once exactly when a handle was set |
| KeyboardHook.Dispose | KeyboardHook.cs:140-153 | the hook ends disposed; the first dispose clears the handle and makes exactly the calls `Uninstall` makes (one UnhookWindowsHookEx when a handle was set); a second dispose does nothing; the counter and enabled flag are untouched |
| KeyboardHook.UninstallIdempotent | KeyboardHook.cs:76-83 | uninstalling again makes no call and changes nothing |
| KeyboardHook.DisposeUnhooksAtMostOnce | KeyboardHook.cs:146-153 | disposing twice unhooks at most once in total and the second dispose is a no-op |
| KeyboardHook.NewHookFirstPress | KeyboardHook.cs:51-74 | a new hook (count 0, time 0, enabled, no handle) installs with one call, and its first chord is swallowed as "no! (1)" at any tick count |
| KeyboardHook.InstallKeepsHandle | KeyboardHook.cs:65-67 | once installed with a non-zero handle, a second install keeps it and makes no call |
| KeyboardHook.QuickSeriesCycles | KeyboardHook.cs:116-131 | in any series of presses each within 300 ms of the previous one, press i leaves the count at (c + i + 1) mod k and is let through exactly when that is 0, i.e. every k-th press switches |
| KeyboardHook.TimeoutRestartsSeries | KeyboardHook.cs:116-123 | a press after the timeout behaves exactly like the first press from a zero count |
| KeyboardHook.ThreeQuickPresses | KeyboardHook.cs:112-138 | three quick presses from zero report "no! (1)", "no! (2)", "Switching..." and leave the count at 0 |
| KeyboardHook.TimeoutIsStrict | KeyboardHook.cs:117 | a gap of exactly 300 ms continues the series; 301 ms restarts it |
| KeyboardHook.ScenarioQuick | KeyboardHook.cs:112-138 | presses at 0, 50, 100 ms after a pause: blocked, blocked, switched |
| KeyboardHook.ScenarioExpired | KeyboardHook.cs:112-138 | presses at 0, 50, 500 ms: the third starts over as "no! (1)" |
| KeyboardHook.TickWrapStaysQuick | KeyboardHook.cs:114-117 | across the tick counter's wrap from 2^31-1 to -2^31 a 200 ms gap still counts as quick |
| Numerals.Format | KeyboardLayoutInfo.cs:65 | the shortest numeral of n in a base: non-empty, digits below the base, reading back as n, "0" for zero and no leading zero otherwise |
| Numerals.FormatWidth | KeyboardLayoutInfo.cs:64-65 | a number below base^w has at most w digits, so `ToString("X4")` of a `ushort` is exactly four digits |
| Numerals.PadLeft | KeyboardLayoutInfo.cs:65 | `PadLeft` keeps the text as a suffix, fills the front with the pad character and reaches the width |
| Numerals.ParseZeroPadded | KeyboardLayoutInfo.cs:65 | zero padding does not change the value a numeral denotes |
| Numerals.Hex | Form1.cs:546 | `ToString("X")` reads back as the number, is "0" for zero and has no leading zero otherwise |
| Numerals.HexPadded | KeyboardLayoutInfo.cs:65 | `ToString("X4")` reads back as the number and is exactly as long as the larger of four and the number of hex digits, so zeros are added only to reach four |
| Numerals.HexPaddedInjective | KeyboardLayoutInfo.cs:65 | different numbers have different padded numerals |
| Numerals.Decimal | KeyboardHook.cs:134 | `ToString()` of the count in "no! (n)" is decimal digits reading back as the count, "0" for zero and with no leading zero otherwise |
| KeyboardLayoutInfo.KeyboardId | KeyboardLayoutInfo.cs:64 | `(ushort)(h >> 16)`: for every `long` handle, including sign-extended negative ones, handle ≡ keyboard id · 2^16 + language id (mod 2^32), and for a handle of 32 bits the equation is exact |
| KeyboardLayoutInfo.KeyboardIdOfSignExtended | KeyboardLayoutInfo.cs:64 | the sign-extended handle 0xFFFFFFFFF0020409 (the `long` -0x0FFDFBF7) has keyboard id 0xF002 and language id 0x0409 |
| KeyboardLayoutInfo.LangId | KeyboardLayoutInfo.cs:76 | `(ushort)h`: the low 16 bits, congruent to the handle mod 2^16 |
| KeyboardLayoutInfo.Klid | KeyboardLayoutInfo.cs:65 | the KLID is eight upper-case hex digits starting "0000" that read back as the keyboard id |
| KeyboardLayoutInfo.KlidIsPaddedX4 | KeyboardLayoutInfo.cs:65 | `ToString("X4").PadLeft(8, '0')` of a keyboard id is four zeros followed by its four hex digits |
| KeyboardLayoutInfo.X4Digits | KeyboardLayoutInfo.cs:65 | `ToString("X4")` of every `ushort` is its four hex digits, most significant first |
| KeyboardLayoutInfo.KlidInjective | KeyboardLayoutInfo.cs:65-67 | different keyboard ids have different KLIDs, so keying the table by id is the same as keying it by KLID |
| KeyboardLayoutInfo.GetLayoutName | KeyboardLayoutInfo.cs:62-72 | the table's friendly name of the keyboard id when listed, otherwise the KLID |
| KeyboardLayoutInfo.NameIgnoresLanguage | KeyboardLayoutInfo.cs:64-71 | handles with the same bits 16-31 get the same name whatever their language half |
| KeyboardLayoutInfo.UnknownNameReadsBack | KeyboardLayoutInfo.cs:65-71 | an unlisted layout is named by eight hex digits that read back as its keyboard id |
| KeyboardLayoutInfo.NameOfUs | KeyboardLayoutInfo.cs:21 | handle 0x04090409 is named "US" |
| KeyboardLayoutInfo.NameOfGerman | KeyboardLayoutInfo.cs:22 | handle 0x04070407 is named "German" |
| KeyboardLayoutInfo.NameOfChineseSimplified | KeyboardLayoutInfo.cs:50 | handle 0x08040804 is named "Chinese (Simplified)" |
| KeyboardLayoutInfo.NameOfLowHalfOnly | KeyboardLayoutInfo.cs:64-71 | every handle below 2^16 (such as 0x0000ABCD) is named "00000000" |
| KeyboardLayoutInfo.NameOfUnknown | KeyboardLayoutInfo.cs:64-71 | a handle with keyboard id 0xABCD is named "0000ABCD" whatever its language half |
| KeyboardLayoutInfo.KlidOfCanadianFrench | KeyboardLayoutInfo.cs:26 | the table key "00000C0C" is the KLID of keyboard id 0x0C0C |
| KeyboardLayoutInfo.GetCultureInfo | KeyboardLayoutInfo.cs:74-85 | the culture depends on the language id (low 16 bits) only, and is absent when construction throws |
| KeyboardLayoutInfo.GetCurrentLayout | KeyboardLayoutInfo.cs:53-60 | the zero handle without a foreground window, otherwise the layout of that window's thread |
| TrayManager.UpdateTooltip | TrayManager.cs:63-69 | the tooltip is at most 63 characters; text of 63 or fewer is kept as is; longer text becomes its first 60 characters then "..."; the result is exactly 63 characters exactly when the text had at least 63 |
| TrayManager.UpdateTooltipIdempotent | TrayManager.cs:66-67 | truncating a tooltip again changes nothing |
| TrayManager.LongTextsCollide | TrayManager.cs:66-67 | over-long texts that share their first 60 characters give the same tooltip |
| MainForm.FormTableMatches | Form1.cs:30-62 | the window's copy of the friendly-name table equals the layout naming table |
| MainForm.FormLayoutName | Form1.cs:511-530 | the window's naming: its table's name for the keyboard id, otherwise the KLID |
| MainForm.FormNameAgrees | Form1.cs:511-530 | the window names every handle exactly as `GetLayoutName` does |
| MainForm.Unsigned64 | Form1.cs:546 | a `long` read as 64 unsigned bits: below 2^64, congruent mod 2^64, unchanged when non-negative |
| MainForm.HandleHex | Form1.cs:546 | `"0x" + ToString("X")` of the handle: 1 to 16 hex digits after "0x" that read back as the handle's 64-bit two's complement, "0x0" for zero and no leading zero otherwise |
| MainForm.HandleHexInjective | Form1.cs:546 | different handles are printed differently |
| MainForm.LayoutMessage | Form1.cs:532-548 | the status request always carries the layout name; with a known culture it uses "status.layout_display" with exactly the keys `:layout` and `:language` (the language's display name), otherwise "status.layout_display_hkl" with exactly `:layout` and `:hkl` (the hex handle) |
| MainForm.HklMessageIdentifiesHandle | Form1.cs:543-548 | when the culture is unknown, equal status requests mean equal handles |
| MainForm.Observe | Form1.cs:506-509 | the watch's state step: the last handle becomes the reading; a change is displayed exactly when the handle differs, otherwise nothing changes; the first-layout flag becomes set on a change; the change alerts exactly when a layout was seen before and alerts are on |
| MainForm.Render | Form1.cs:532-557 | the text is the localised status, the tooltip its truncation, and the alert (when raised) names the layout as `GetLayoutName` does |
| MainForm.UpdateLayoutDisplay | Form1.cs:504-559 | the same handle again has no effect; a new handle is remembered with the first-layout flag set and is displayed; the tooltip is the truncated status text; an alert is raised exactly when a layout was seen before and alerts are on |
| MainForm.UpdateIsEdgeTriggered | Form1.cs:506-509 | reading the same handle right after an update displays nothing |
| MainForm.FirstLayoutNotAlerted | Form1.cs:554-558 | the first non-zero layout after start-up is displayed without an alert |
| MainForm.PollTick | Form1.cs:300-308 | without a foreground window the tick does nothing; otherwise it is exactly `WM_INPUTLANGCHANGE` delivering the foreground thread's layout |
| MainForm.WndProc | Form1.cs:623-632 | messages other than `WM_INPUTLANGCHANGE` leave the watch alone and display nothing; that message runs `UpdateLayoutDisplay` on its `LParam` |
| MainForm.PollAfterPushIsQuiet | Form1.cs:300-308 | a poll that reads the layout a message just delivered displays nothing |
| MainForm.RefreshLocalizedUI | Form1.cs:479-480 | the last handle is cleared and the first-layout flag kept |
| MainForm.RefreshRedisplays | Form1.cs:479-480 | after a language switch the next non-zero reading is displayed again in the new language, with an alert when a layout was seen before and alerts are on |
| MainForm.AlertsAfterFirst | Form1.cs:554-558 | over any series of readings, every displayed change but the first is alerted exactly when alerts are on, and the first only if a layout had been seen before |
| MainForm.ChangesAlternate | Form1.cs:506-509 | over any series of readings, consecutive displayed changes show different handles |
| MainForm.SteadyLayoutShownOnce | Form1.cs:506-509 | a handle read n times in a row is displayed once if it is new and not at all otherwise |
| MainForm.ClampPressCount | Form1.cs:320 | the press count shown is in 2..5, equal to the stored count when that is in range, else the nearer bound |
| MainForm.ClampIdempotentMonotone | Form1.cs:320 | clamping twice is clamping once, and clamping keeps the order of counts |
| MainForm.LoadSettings | Form1.cs:312-335 | the controls show the stored flags, the blocking choice and its negation, and the stored count clamped to 2..5 (`ClampPressCount`), and enable the count only when multiple presses are allowed |
| MainForm.CheckBoxChanged | Form1.cs:401-413 | while loading nothing is stored or saved; otherwise the four check boxes are stored and saved and the other settings kept |
| MainForm.RadioButtonChanged | Form1.cs:415-428 | while loading nothing changes; otherwise the blocking choice is stored and saved and the count control is enabled exactly when multiple presses are allowed |
| MainForm.PressCountChanged | Form1.cs:430-439 | while loading nothing changes; otherwise the count is stored and saved |
| MainForm.LanguageChanged | Form1.cs:441-455 | a selected language other than the current one is stored, saved, made current, and the layout watch forgets its last handle; otherwise nothing changes |
| MainForm.LoadingSavesNothing | Form1.cs:403-443 | no settings handler stores or saves anything while loading |
| MainForm.CheckBoxesRoundTrip | Form1.cs:324-327 | the controls filled from the settings, handed back to the check-box handler, store the same flags |
| MainForm.PressCountRoundTrip | Form1.cs:320 | a stored count handed back through the control comes back clamped to 2..5 |

## Left out

- The Win32 plumbing is not modelled: hook registration details, module handles, `CallNextHookEx`'s effect, and marshalling of `KBDLLHOOKSTRUCT`. Its inputs and outputs are parameters and return values, as described above.
- The `StatusChanged` event and the cross-thread `BeginInvoke` that shows it are not modelled. The model returns the status the event would carry.
- The finalizer `~KeyboardHook` is the same path as `Dispose` and has no separate member.
- `Install` does not check `_disposed`, so a disposed hook can be installed again. The model keeps that behaviour and does not claim otherwise.
- The window uses a `KeyboardHook(Localization)` constructor and `BlockCompletely` / `RequiredPressCount` properties that KeyboardHook.cs does not declare. Their semantics are not modelled; the press gate is the hard-coded threshold of 3. For the same reason, the unclamped count that `LoadSettings` hands to the hook (Form1.cs:333) is not modelled.
- The window builds its tray manager as `new TrayManager(this.Icon, _localization)` (Form1.cs:290) and calls `RefreshLocalization()` on it (Form1.cs:477). TrayManager.cs has neither: its constructor takes only an icon (TrayManager.cs:18-23). The tooltip modelled is TrayManager.cs's `UpdateTooltip`, and the tray's localisation is not modelled.
- The settings the window reads (`WinSpaceBlockCompletely`, `WinSpacePressCount`, `LaunchOnStartup`, `Language`) are not declared in AppSettings.cs, which declares only `ShowAlertOnLayoutChange`, `MinimizeOnStart`, `MinimizeToTray` and `BlockWinSpace`. The `Settings` record holds the fields the window uses, and their persistence is not modelled.
- Localisation and cultures are not modelled: template rendering, the language files, and `CultureInfo` are parameters.
- `RefreshLocalizedUI` also relabels controls and the tray menu; only its reset of the layout watch is modelled.
- User-interface work is not modelled: the alert form, the status tooltip, the tray menu, theming, `MainFormUI.cs` and `LayoutAlertDialog.cs`.
- Startup-registry access is not modelled. `IsStartupEnabled` is the `startupEnabled` parameter, and `SetStartupEnabled` is not modelled.
- The language drop-down selection loop in `Form1_Shown` is not modelled.
- The 200 ms timer scheduling is not modelled; one tick is one call to `PollTick`.
- TrayManager.UpdateTooltip: lengths count Dafny characters, while C# `Length` counts UTF-16 code units. The model therefore does not show that `Substring(0, 60)` can split a surrogate pair.
- KeyboardLayoutInfo.GetCultureInfo: the culture is reduced to its display name, the only part the window uses.
