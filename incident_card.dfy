/** The badge classes of an incident card (src/components/incident-card.tsx:39-50). */
module IncidentCard {
  import opened Types

  const HighColor := "bg-red-600 text-white border-red-700"
  const MediumColor := "bg-amber-600 text-white border-amber-700"
  const LowColor := "bg-emerald-600 text-white border-emerald-700"
  const DefaultColor := "bg-slate-600 text-white border-slate-700"

  /** `getSeverityColor`: a switch over the severity string with a default branch. */
  function SeverityColor(severity: string): (r: string)
    ensures r in {HighColor, MediumColor, LowColor, DefaultColor}
    ensures r == DefaultColor <==> severity !in {"High", "Medium", "Low"}
  {
    match severity
    case "High" => HighColor
    case "Medium" => MediumColor
    case "Low" => LowColor
    case _ => DefaultColor
  }

  /** Each severity value gets its own palette, never the default. */
  lemma SeverityColorOfLevel(level: Severity)
    ensures SeverityColor(SeverityName(level))
         == match level
            case High => HighColor
            case Medium => MediumColor
            case Low => LowColor
    ensures SeverityColor(SeverityName(level)) != DefaultColor
  {
  }

  /** Distinct severities get distinct classes. */
  lemma SeverityColorInjective(a: Severity, b: Severity)
    requires SeverityColor(SeverityName(a)) == SeverityColor(SeverityName(b))
    ensures a == b
  {
  }
}
