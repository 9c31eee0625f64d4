/** The tray icon's tooltip (TrayManager.cs): `NotifyIcon.Text` holds at most
    63 characters, so longer text is cut to 60 characters and an ellipsis. */
module TrayManager {

  /** The longest text a tray tooltip may hold. */
  const TooltipLimit: nat := 63

  /** How much of an over-long text is kept before the ellipsis. */
  const KeptPrefix: nat := 60

  const Ellipsis: string := "..."

  /** `UpdateTooltip`: the text the tray icon ends up showing. */
  function UpdateTooltip(text: string): (shown: string)
    ensures |shown| <= TooltipLimit
    ensures |shown| == TooltipLimit <==> |text| >= TooltipLimit
    ensures |text| <= TooltipLimit ==> shown == text
    ensures |text| > TooltipLimit ==> shown[..KeptPrefix] == text[..KeptPrefix]
    ensures |text| > TooltipLimit ==> shown[KeptPrefix..] == Ellipsis
  {
    if |text| > TooltipLimit then text[..KeptPrefix] + Ellipsis else text
  }

  /** Cutting a tooltip a second time changes nothing. */
  lemma UpdateTooltipIdempotent(text: string)
    ensures UpdateTooltip(UpdateTooltip(text)) == UpdateTooltip(text)
  {
  }

  /** Two texts that agree on their first 60 characters and are both too long
      end up as the same tooltip: whatever follows is lost. */
  lemma LongTextsCollide(a: string, b: string)
    requires |a| > TooltipLimit && |b| > TooltipLimit
    requires a[..KeptPrefix] == b[..KeptPrefix]
    ensures UpdateTooltip(a) == UpdateTooltip(b)
  {
  }
}
