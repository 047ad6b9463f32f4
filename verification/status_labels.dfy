/** The status badge and sub-status label tables. The trip list and the trip detail page each
    declare the same two tables; they are defined once here. */
module StatusLabels {
  import opened Common

  /** The six lifecycle states a trip goes through. */
  const KnownStatuses: set<string> :=
    {"solicitado", "cotizando", "confirmado", "en_asignacion", "en_curso", "finalizado"}

  /** The five sub-states of a trip in progress, which are also the states a check-in reports. */
  const KnownSubStatuses: set<string> :=
    {"llegue_a_cargar", "cargado_saliendo", "en_camino", "llegue_a_destino", "descargado"}

  const FallbackColor := "bg-gray-100 text-gray-800"

  datatype Badge = Badge(color: string, text: string)

  /** `statusConfig[status]`, the entry for a known status. */
  function ConfiguredBadge(status: string): Option<Badge> {
    match status
    case "solicitado" => Some(Badge("bg-blue-100 text-blue-800", "Solicitado"))
    case "cotizando" => Some(Badge("bg-yellow-100 text-yellow-800", "Cotizando"))
    case "confirmado" => Some(Badge("bg-green-100 text-green-800", "Confirmado"))
    case "en_asignacion" => Some(Badge("bg-purple-100 text-purple-800", "En Asignación"))
    case "en_curso" => Some(Badge("bg-indigo-100 text-indigo-800", "En Curso"))
    case "finalizado" => Some(Badge("bg-gray-100 text-gray-800", "Finalizado"))
    case _ => None
  }

  /** `statusConfig[status] || { color: gray, label: status }`. A known status gets its own
      non-empty label; any other status is shown as the raw string in gray. */
  function StatusBadge(status: string): (b: Badge)
    ensures status in KnownStatuses ==> b.text != "" && b.text != status
    ensures status !in KnownStatuses ==> b == Badge(FallbackColor, status)
  {
    match ConfiguredBadge(status)
    case Some(config) => config
    case None => Badge(FallbackColor, status)
  }

  /** `subStatusLabels[subStatus] || null`: a label exactly for the five known sub-states;
      a missing or unknown sub-status yields no label. */
  function SubStatusLabel(subStatus: Option<string>): (r: Option<string>)
    ensures r.Some? <==> subStatus.Some? && subStatus.value in KnownSubStatuses
    ensures r.Some? ==> r.value != ""
  {
    if subStatus.None? then None
    else
      match subStatus.value
      case "llegue_a_cargar" => Some("🚚 Llegué a cargar")
      case "cargado_saliendo" => Some("📦 Cargado, saliendo")
      case "en_camino" => Some("🛣️ En camino")
      case "llegue_a_destino" => Some("📍 Llegué a destino")
      case "descargado" => Some("✅ Descargado")
      case _ => None
  }

  /** The two labels are distinct for distinct known sub-states, so the label identifies the state. */
  lemma SubStatusLabelInjective(a: string, b: string)
    requires a in KnownSubStatuses && b in KnownSubStatuses && a != b
    ensures SubStatusLabel(Some(a)) != SubStatusLabel(Some(b))
  {
  }
}
