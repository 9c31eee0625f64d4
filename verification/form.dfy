/** The main window's layout watch (Form1.cs): the layout is read on a
    200 ms poll of the foreground window and on `WM_INPUTLANGCHANGE`; a change
    of handle is displayed in the label, the window title and the tray
    tooltip, and raises an alert once the first layout has been seen. Also the
    settings handlers, which do nothing while the settings are being loaded
    into the controls. Localisation, the culture lookup and the window queries
    are foreign calls and appear as parameters. */
module MainForm {
  import opened Basics
  import opened KeyboardLayoutInfo
  import Numerals
  import TrayManager

  const WmInputLangChange: int := 0x0051

  /** The window's own copy of the friendly-name table, keyed by keyboard id
      for the same reason as `LayoutNamesById`. */
  const FormLayoutNames: map<UInt16, string> := map[

    0x0409 := "US",
    0x0407 := "German",
    0x0809 := "UK",
    0x040C := "French",
    0x0410 := "Italian",
    0x0C0C := "Canadian French",
    0x0416 := "Portuguese (Brazil)",
    0x0816 := "Portuguese (Portugal)",
    0x040A := "Spanish",
    0x0413 := "Dutch",
    0x041D := "Swedish",
    0x0414 := "Norwegian",
    0x040B := "Finnish",
    0x0406 := "Danish",
    0x0415 := "Polish",
    0x0405 := "Czech",
    0x041B := "Slovak",
    0x040E := "Hungarian",
    0x0418 := "Romanian",
    0x0402 := "Bulgarian",
    0x0419 := "Russian",
    0x0422 := "Ukrainian",
    0x0408 := "Greek",
    0x041F := "Turkish",
    0x040D := "Hebrew",
    0x0401 := "Arabic",
    0x0411 := "Japanese",
    0x0412 := "Korean",
    0x0404 := "Chinese (Traditional)",
    0x0804 := "Chinese (Simplified)"
  ]

  /** Both copies of the table hold the same 30 entries. */
  lemma FormTableMatches()
    ensures FormLayoutNames == LayoutNamesById
  {
  }

  /** The naming in `UpdateLayoutDisplay`, using the window's own table. */
  function FormLayoutName(layout: Int64): (name: string)
    ensures KeyboardId(layout) in FormLayoutNames ==> name == FormLayoutNames[KeyboardId(layout)]
    ensures KeyboardId(layout) !in FormLayoutNames ==> name == Klid(KeyboardId(layout))
  {
    var id := KeyboardId(layout);
    if id in FormLayoutNames then FormLayoutNames[id] else Klid(id)
  }

  /** The window names every layout exactly as `GetLayoutName` does. */
  lemma FormNameAgrees(layout: Int64)
    ensures FormLayoutName(layout) == GetLayoutName(layout)
  {
    FormTableMatches();
  }

  /** The 64 bits of a `long` read as an unsigned number, as `ToString("X")`
      prints a negative `long` (its two's complement). */
  function Unsigned64(v: Int64): (u: nat)
    ensures u < TwoTo64
    ensures (u - v) % TwoTo64 == 0
    ensures 0 <= v ==> u == v
  {
    if v < 0 then v + TwoTo64 else v
  }

  /** `$"0x{layout.ToInt64():X}"`: the raw handle in hexadecimal. */
  function HandleHex(v: Int64): (s: string)
    ensures 3 <= |s| <= 18
    ensures s[..2] == "0x"
    ensures Numerals.AllDigits(s[2..]) && Numerals.Parse(s[2..], 16) == Unsigned64(v)
    ensures v == 0 ==> s == "0x0"
    ensures v != 0 ==> s[2] != '0'
  {
    SixteenDigits();
    Numerals.FormatWidth(Unsigned64(v), 16, 16);
    var s := "0x" + Numerals.Hex(Unsigned64(v));
    assert s[2..] == Numerals.Hex(Unsigned64(v));
    s
  }

  lemma SixteenDigits()
    ensures Numerals.Pow(16, 16) == TwoTo64
  {
    assert Numerals.Pow(16, 1) == 0x10;
    assert Numerals.Pow(16, 2) == 0x100;
    assert Numerals.Pow(16, 3) == 0x1000;
    assert Numerals.Pow(16, 4) == 0x1_0000;
    assert Numerals.Pow(16, 5) == 0x10_0000;
    assert Numerals.Pow(16, 6) == 0x100_0000;
    assert Numerals.Pow(16, 7) == 0x1000_0000;
    assert Numerals.Pow(16, 8) == 0x1_0000_0000;
    assert Numerals.Pow(16, 9) == 0x10_0000_0000;
    assert Numerals.Pow(16, 10) == 0x100_0000_0000;
    assert Numerals.Pow(16, 11) == 0x1000_0000_0000;
    assert Numerals.Pow(16, 12) == 0x1_0000_0000_0000;
    assert Numerals.Pow(16, 13) == 0x10_0000_0000_0000;
    assert Numerals.Pow(16, 14) == 0x100_0000_0000_0000;
    assert Numerals.Pow(16, 15) == 0x1000_0000_0000_0000;
  }

  /** Different handles are printed differently. */
  lemma HandleHexInjective(a: Int64, b: Int64)
    requires HandleHex(a) == HandleHex(b)
    ensures a == b
  {
    assert HandleHex(a)[2..] == HandleHex(b)[2..];
  }

  /** A localisation request: a template key and its placeholder values. The
      rendered text is `lang(m)` for a `lang` supplied by the caller. */
  datatype Message = Message(key: string, args: map<string, string>)

  /** The status text request for a layout: with the language's display name
      when the culture is known, otherwise with the raw handle. */
  function LayoutMessage(layout: Int64, cultureOf: UInt16 -> Option<string>): (m: Message)
    ensures ":layout" in m.args && m.args[":layout"] == FormLayoutName(layout)
    ensures cultureOf(LangId(layout)).Some? ==> m.args.Keys == {":layout", ":language"}
    ensures cultureOf(LangId(layout)).None? ==> m.args.Keys == {":layout", ":hkl"}
    ensures cultureOf(LangId(layout)).Some? ==>
      m.key == "status.layout_display" && ":language" in m.args &&
      m.args[":language"] == cultureOf(LangId(layout)).value
    ensures cultureOf(LangId(layout)).None? ==>
      m.key == "status.layout_display_hkl" && ":hkl" in m.args &&
      m.args[":hkl"] == HandleHex(layout)
  {
    var name := FormLayoutName(layout);
    match GetCultureInfo(layout, cultureOf)
    case Some(culture) =>
      PairKeys(":layout", ":language", name, culture);
      Message("status.layout_display", map[":layout" := name, ":language" := culture])
    case None =>
      var hkl := HandleHex(layout);
      PairKeys(":layout", ":hkl", name, hkl);
      Message("status.layout_display_hkl", map[":layout" := name, ":hkl" := hkl])
  }

  /** A two-entry dictionary initialiser has exactly its two keys. */
  lemma PairKeys<K, V>(a: K, b: K, x: V, y: V)
    ensures map[a := x, b := y].Keys == {a, b}
  {
  }

  /** When the culture is unknown the message still identifies the handle. */
  lemma HklMessageIdentifiesHandle(a: Int64, b: Int64, cultureOf: UInt16 -> Option<string>)
    requires cultureOf(LangId(a)).None? && cultureOf(LangId(b)).None?
    requires LayoutMessage(a, cultureOf) == LayoutMessage(b, cultureOf)
    ensures a == b
  {
    assert LayoutMessage(a, cultureOf).args[":hkl"] == LayoutMessage(b, cultureOf).args[":hkl"];
    HandleHexInjective(a, b);
  }

  /** What the window needs from outside: the alert setting, the culture
      lookup (`new CultureInfo(langId).DisplayName`, `None` when it throws)
      and the localiser. */
  datatype Env = Env(showAlert: bool, cultureOf: UInt16 -> Option<string>, lang: Message -> string)

  /** `_lastLayout` and `_initialLayoutSet`. */
  datatype LayoutWatch = LayoutWatch(lastLayout: Int64, initialLayoutSet: bool)

  const InitialWatch: LayoutWatch := LayoutWatch(0, false)

  /** A change the watch decided to display: the new handle and whether an
      alert goes with it. */
  datatype Change = Change(layout: Int64, alerted: bool)

  /** The watch after one reading, and the change to display, if any. */
  datatype Step = Step(watch: LayoutWatch, change: Option<Change>)

  /** The state part of `UpdateLayoutDisplay`: a handle equal to the last one
      is ignored; a new one is remembered and displayed, with an alert unless
      it is the first one displayed. */
  function Observe(w: LayoutWatch, layout: Int64, showAlert: bool): (r: Step)
    ensures r.watch.lastLayout == layout
    ensures r.change.Some? <==> layout != w.lastLayout
    ensures r.change.None? ==> r.watch == w
    ensures r.watch.initialLayoutSet <==> w.initialLayoutSet || r.change.Some?
    ensures r.change.Some? ==> r.change.value.layout == layout
    ensures r.change.Some? ==> (r.change.value.alerted <==> w.initialLayoutSet && showAlert)
  {
    if layout == w.lastLayout then Step(w, None)
    else Step(LayoutWatch(layout, true), Some(Change(layout, w.initialLayoutSet && showAlert)))
  }

  /** What a displayed change shows: the status text (label and window
      title), the tray tooltip, and the layout name of the alert if one is
      raised. */
  datatype Display = Display(text: string, tooltip: string, alert: Option<string>)

  /** The display part of `UpdateLayoutDisplay`. */
  function Render(c: Change, env: Env): (d: Display)
    ensures d.text == env.lang(LayoutMessage(c.layout, env.cultureOf))
    ensures d.tooltip == TrayManager.UpdateTooltip(d.text)
    ensures d.alert.Some? <==> c.alerted
    ensures d.alert.Some? ==> d.alert.value == GetLayoutName(c.layout)
  {
    FormNameAgrees(c.layout);
    var text := env.lang(LayoutMessage(c.layout, env.cultureOf));
    Display(text, TrayManager.UpdateTooltip(text), if c.alerted then Some(FormLayoutName(c.layout)) else None)
  }

  /** The watch after an update and what it displayed, if anything. */
  datatype Observation = Observation(watch: LayoutWatch, display: Option<Display>)

  /** `UpdateLayoutDisplay`: a handle equal to the last one is ignored; a new
      one is remembered, displayed, and alerted unless it is the first. */
  function UpdateLayoutDisplay(w: LayoutWatch, layout: Int64, env: Env): (r: Observation)
    ensures layout == w.lastLayout ==> r == Observation(w, None)
    ensures layout != w.lastLayout ==> r.watch == LayoutWatch(layout, true) && r.display.Some?
    ensures r.display.Some? ==>
      r.display.value.text == env.lang(LayoutMessage(layout, env.cultureOf)) &&
      r.display.value.tooltip == TrayManager.UpdateTooltip(r.display.value.text) &&
      (r.display.value.alert.Some? <==> w.initialLayoutSet && env.showAlert) &&
      (r.display.value.alert.Some? ==> r.display.value.alert.value == GetLayoutName(layout))
  {
    var step := Observe(w, layout, env.showAlert);
    match step.change
    case None => Observation(step.watch, None)
    case Some(c) => Observation(step.watch, Some(Render(c, env)))
  }

  /** Seeing the same handle twice displays it once. */
  lemma UpdateIsEdgeTriggered(w: LayoutWatch, layout: Int64, env: Env)
    ensures var o := UpdateLayoutDisplay(w, layout, env);
      UpdateLayoutDisplay(o.watch, layout, env) == Observation(o.watch, None)
  {
  }

  /** The first layout read after start-up is displayed but never alerted. */
  lemma FirstLayoutNotAlerted(layout: Int64, env: Env)
    requires layout != 0
    ensures var o := UpdateLayoutDisplay(InitialWatch, layout, env);
      o.display.Some? && o.display.value.alert == None
  {
  }

  /** The poll tick: nothing without a foreground window, otherwise the
      layout of its thread goes through `UpdateLayoutDisplay`, exactly as the
      `WM_INPUTLANGCHANGE` message would deliver it. */
  function PollTick(w: LayoutWatch, foreground: int, threadOf: int -> int, layoutOf: int -> Int64, env: Env): (r: Observation)
    ensures foreground == 0 ==> r == Observation(w, None)
    ensures foreground != 0 ==>
      r == WndProc(w, WmInputLangChange, GetCurrentLayout(foreground, threadOf, layoutOf), env)
  {
    if foreground == 0 then Observation(w, None)
    else UpdateLayoutDisplay(w, layoutOf(threadOf(foreground)), env)
  }

  /** `WndProc`: only `WM_INPUTLANGCHANGE` touches the watch; its `LParam`
      is the new layout handle. */
  function WndProc(w: LayoutWatch, msg: int, lParam: Int64, env: Env): (r: Observation)
    ensures msg != WmInputLangChange ==> r == Observation(w, None)
    ensures msg == WmInputLangChange ==> r == UpdateLayoutDisplay(w, lParam, env)
    ensures msg == WmInputLangChange && lParam != w.lastLayout ==> r.watch.lastLayout == lParam
  {
    if msg == WmInputLangChange then UpdateLayoutDisplay(w, lParam, env) else Observation(w, None)
  }

  /** A poll that finds the layout a push already delivered shows nothing
      more, and the other way round. */
  lemma PollAfterPushIsQuiet(w: LayoutWatch, foreground: int, threadOf: int -> int, layoutOf: int -> Int64, env: Env)
    requires foreground != 0
    ensures var pushed := WndProc(w, WmInputLangChange, layoutOf(threadOf(foreground)), env);
      PollTick(pushed.watch, foreground, threadOf, layoutOf, env) == Observation(pushed.watch, None)
  {
  }

  /** The layout part of `RefreshLocalizedUI`: forget the last handle so the
      next reading is displayed in the new language. */
  function RefreshLocalizedUI(w: LayoutWatch): (r: LayoutWatch)
    ensures r.lastLayout == 0
    ensures r.initialLayoutSet == w.initialLayoutSet
  {
    w.(lastLayout := 0)
  }

  /** After a language switch the current (non-zero) layout is displayed
      again with the new localiser, even if it has not changed; when the
      first layout has been seen and alerts are on, that redisplay raises an
      alert too. */
  lemma RefreshRedisplays(w: LayoutWatch, layout: Int64, env: Env)
    requires layout != 0
    ensures var o := UpdateLayoutDisplay(RefreshLocalizedUI(w), layout, env);
      o.display.Some? &&
      o.display.value.text == env.lang(LayoutMessage(layout, env.cultureOf)) &&
      (o.display.value.alert.Some? <==> w.initialLayoutSet && env.showAlert)
  {
  }

  /** The changes a series of layout readings displays, in order. */
  function Changes(w: LayoutWatch, layouts: seq<Int64>, showAlert: bool): (cs: seq<Change>)
    ensures |cs| <= |layouts|
    decreases |layouts|
  {
    if layouts == [] then []
    else
      var step := Observe(w, layouts[0], showAlert);
      (if step.change.Some? then [step.change.value] else []) + Changes(step.watch, layouts[1..], showAlert)
  }

  /** Every change but the first is alerted exactly when alerts are on; the
      first is alerted when, besides, a layout had been displayed before. */
  predicate AlertedAfterFirst(cs: seq<Change>, showAlert: bool, seenBefore: bool)
  {
    forall i :: 0 <= i < |cs| ==> (cs[i].alerted <==> showAlert && (0 < i || seenBefore))
  }

  /** Over any series of readings, only the very first display after start-up
      goes without an alert; every later one is alerted exactly when alerts
      are on. */
  lemma {:induction false} AlertsAfterFirst(w: LayoutWatch, layouts: seq<Int64>, showAlert: bool)
    ensures AlertedAfterFirst(Changes(w, layouts, showAlert), showAlert, w.initialLayoutSet)
    decreases |layouts|
  {
    if layouts != [] {
      var step := Observe(w, layouts[0], showAlert);
      var rest := Changes(step.watch, layouts[1..], showAlert);
      var cs := Changes(w, layouts, showAlert);
      AlertsAfterFirst(step.watch, layouts[1..], showAlert);
      if step.change.Some? {
        assert cs == [step.change.value] + rest;
        forall i | 0 < i < |cs|
          ensures cs[i].alerted <==> showAlert
        {
          assert cs[i] == rest[i - 1];
        }
      } else {
        assert cs == rest;
      }
    }
  }

  /** Consecutive displays show different handles, and the first differs
      from the handle the watch started with. */
  lemma {:induction false} ChangesAlternate(w: LayoutWatch, layouts: seq<Int64>, showAlert: bool)
    ensures var cs := Changes(w, layouts, showAlert);
      (0 < |cs| ==> cs[0].layout != w.lastLayout) &&
      forall i :: 0 < i < |cs| ==> cs[i].layout != cs[i - 1].layout
    decreases |layouts|
  {
    if layouts != [] {
      var step := Observe(w, layouts[0], showAlert);
      var rest := Changes(step.watch, layouts[1..], showAlert);
      var cs := Changes(w, layouts, showAlert);
      ChangesAlternate(step.watch, layouts[1..], showAlert);
      if step.change.Some? {
        assert cs == [step.change.value] + rest;
        forall i | 0 < i < |cs|
          ensures cs[i].layout != cs[i - 1].layout
        {
          assert cs[i] == rest[i - 1];
          if i == 1 {
            assert cs[0].layout == step.watch.lastLayout;
          } else {
            assert cs[i - 1] == rest[i - 2];
          }
        }
      } else {
        assert cs == rest;
      }
    }
  }

  /** A layout that stays put is displayed at most once, however often it is
      read. */
  lemma {:induction false} SteadyLayoutShownOnce(w: LayoutWatch, layout: Int64, n: nat, showAlert: bool)
    ensures |Changes(w, Repeat(layout, n), showAlert)| == if 0 < n && layout != w.lastLayout then 1 else 0
    decreases n
  {
    if 0 < n {
      var step := Observe(w, layout, showAlert);
      assert Repeat(layout, n)[1..] == Repeat(layout, n - 1);
      SteadyLayoutShownOnce(step.watch, layout, n - 1, showAlert);
    }
  }

  /** `Math.Max(2, Math.Min(5, n))`: the stored press count as the
      numeric control shows it. */
  function ClampPressCount(n: Int32): (r: int)
    ensures 2 <= r <= 5
    ensures 2 <= n <= 5 ==> r == n
    ensures n < 2 ==> r == 2
    ensures n > 5 ==> r == 5
  {
    if n < 2 then 2 else if n > 5 then 5 else n
  }

  /** Clamping a value already in range changes nothing, and clamping keeps
      the order of the counts. */
  lemma ClampIdempotentMonotone(a: Int32, b: Int32)
    ensures ClampPressCount(ClampPressCount(a)) == ClampPressCount(a)
    ensures a <= b ==> ClampPressCount(a) <= ClampPressCount(b)
  {
  }

  /** The persisted settings the window reads and writes. */
  datatype Settings = Settings(
    showAlertOnLayoutChange: bool,
    minimizeOnStart: bool,
    minimizeToTray: bool,
    launchOnStartup: bool,
    winSpaceBlockCompletely: bool,
    winSpacePressCount: Int32,
    language: Option<string>)

  /** The state of the settings controls. */
  datatype Controls = Controls(
    showAlert: bool,
    minimizeOnStart: bool,
    minimizeToTray: bool,
    launchOnStartup: bool,
    blockCompletely: bool,
    allowMultiPress: bool,
    pressCount: int,
    pressCountEnabled: bool)

  /** `LoadSettings`: the controls showing the stored settings.
      `startupEnabled` is what the registry says about launching on start-up. */
  function LoadSettings(s: Settings, startupEnabled: bool): (c: Controls)
    ensures c.blockCompletely == s.winSpaceBlockCompletely
    ensures c.allowMultiPress == !c.blockCompletely
    ensures c.pressCountEnabled == c.allowMultiPress
    ensures 2 <= c.pressCount <= 5
    ensures 2 <= s.winSpacePressCount <= 5 ==> c.pressCount == s.winSpacePressCount
    ensures c.pressCount == ClampPressCount(s.winSpacePressCount)
    ensures c.showAlert == s.showAlertOnLayoutChange
    ensures c.minimizeOnStart == s.minimizeOnStart && c.minimizeToTray == s.minimizeToTray
    ensures c.launchOnStartup == startupEnabled
  {
    Controls(
      s.showAlertOnLayoutChange, s.minimizeOnStart, s.minimizeToTray, startupEnabled,
      s.winSpaceBlockCompletely, !s.winSpaceBlockCompletely,
      ClampPressCount(s.winSpacePressCount), !s.winSpaceBlockCompletely)
  }

  /** What a settings handler did: the settings afterwards and whether they
      were saved. */
  datatype Handled = Handled(settings: Settings, saved: bool)

  /** `CheckBox_CheckedChanged`: copies the four check boxes into the
      settings and saves them, unless the settings are still being loaded. */
  function CheckBoxChanged(loading: bool, s: Settings, c: Controls): (r: Handled)
    ensures loading ==> r == Handled(s, false)
    ensures !loading ==> r.saved
    ensures !loading ==>
      r.settings.showAlertOnLayoutChange == c.showAlert &&
      r.settings.minimizeOnStart == c.minimizeOnStart &&
      r.settings.minimizeToTray == c.minimizeToTray &&
      r.settings.launchOnStartup == c.launchOnStartup
    ensures r.settings.winSpaceBlockCompletely == s.winSpaceBlockCompletely
    ensures r.settings.winSpacePressCount == s.winSpacePressCount
    ensures r.settings.language == s.language
  {
    if loading then Handled(s, false)
    else Handled(s.(showAlertOnLayoutChange := c.showAlert, minimizeOnStart := c.minimizeOnStart,
                    minimizeToTray := c.minimizeToTray, launchOnStartup := c.launchOnStartup), true)
  }

  /** `RadioButton_CheckedChanged`: stores the blocking choice and enables
      the press count control only when several presses are allowed. */
  function RadioButtonChanged(loading: bool, s: Settings, c: Controls): (r: (Handled, Controls))
    ensures loading ==> r == (Handled(s, false), c)
    ensures !loading ==> r.0.saved && r.0.settings == s.(winSpaceBlockCompletely := c.blockCompletely)
    ensures !loading ==> r.1.pressCountEnabled == c.allowMultiPress
    ensures r.1.(pressCountEnabled := c.pressCountEnabled) == c
  {
    if loading then (Handled(s, false), c)
    else (Handled(s.(winSpaceBlockCompletely := c.blockCompletely), true), c.(pressCountEnabled := c.allowMultiPress))
  }

  /** `NudPressCount_ValueChanged`: stores the press count. */
  function PressCountChanged(loading: bool, s: Settings, c: Controls): (r: Handled)
    requires -TwoTo31 <= c.pressCount < TwoTo31
    ensures loading ==> r == Handled(s, false)
    ensures !loading ==> r.saved && r.settings == s.(winSpacePressCount := c.pressCount)
  {
    if loading then Handled(s, false) else Handled(s.(winSpacePressCount := c.pressCount), true)
  }

  /** `CmbLanguage_SelectedIndexChanged`: a selected language other than the
      current one is stored, becomes current, and the interface is refreshed,
      which makes the layout watch forget its last handle. */
  function LanguageChanged(loading: bool, s: Settings, selected: Option<string>, current: string, w: LayoutWatch)
    : (r: (Handled, string, LayoutWatch))
    ensures var switched := !loading && selected.Some? && selected.value != current;
      (switched ==> r == (Handled(s.(language := selected), true), selected.value, RefreshLocalizedUI(w))) &&
      (!switched ==> r == (Handled(s, false), current, w))
  {
    if loading then (Handled(s, false), current, w)
    else match selected
      case Some(code) =>
        if code != current then (Handled(s.(language := selected), true), code, RefreshLocalizedUI(w))
        else (Handled(s, false), current, w)
      case None => (Handled(s, false), current, w)
  }

  /** While `LoadSettings` fills the controls, no handler stores or saves
      anything, whatever the controls show. */
  lemma LoadingSavesNothing(s: Settings, c: Controls, selected: Option<string>, current: string, w: LayoutWatch)
    requires -TwoTo31 <= c.pressCount < TwoTo31
    ensures CheckBoxChanged(true, s, c) == Handled(s, false)
    ensures RadioButtonChanged(true, s, c).0 == Handled(s, false)
    ensures PressCountChanged(true, s, c) == Handled(s, false)
    ensures LanguageChanged(true, s, selected, current, w).0 == Handled(s, false)
  {
  }

  /** The controls filled from stored settings, handed straight back to the
      check-box handler, store the same four flags (and the start-up flag the
      registry reported). */
  lemma CheckBoxesRoundTrip(s: Settings, startupEnabled: bool)
    ensures CheckBoxChanged(false, s, LoadSettings(s, startupEnabled)).settings
      == s.(launchOnStartup := startupEnabled)
  {
  }

  /** A stored press count outside 2..5 is shown clamped, so handing the
      controls back to the press count handler stores the clamped value. */
  lemma PressCountRoundTrip(s: Settings, startupEnabled: bool)
    ensures var c := LoadSettings(s, startupEnabled);
      PressCountChanged(false, s, c).settings.winSpacePressCount == ClampPressCount(s.winSpacePressCount)
  {
  }
}
