/** The colour of the status tag shown in the table and in the map popups. */
module StatusTag {
  import opened Records

  /** The antd tag colours the dashboard uses. */
  predicate IsTagColor(c: string) {
    c == "processing" || c == "success" || c == "error" || c == "default"
  }

  /** `statusToTagColor`: the tag colour for a status value. Any string is accepted; only the
      three known statuses get a colour of their own, every other value gets "default". */
  function TagColor(status: string): (color: string)
    ensures IsTagColor(color)
    ensures color == "default" <==> !IsKnownStatus(status)
    ensures status == InProgress ==> color == "processing"
    ensures status == Resolved ==> color == "success"
    ensures status == Rejected ==> color == "error"
  {
    match status
    case "В работе" => "processing"
    case "Решено" => "success"
    case "Отклонено" => "error"
    case _ => "default"
  }

  /** Distinct known statuses get distinct colours, so the colour of a known status tells
      which status it is. */
  lemma TagColorDistinguishesKnown(s: string, t: string)
    requires IsKnownStatus(s) && IsKnownStatus(t)
    ensures TagColor(s) == TagColor(t) <==> s == t
  {
  }
}
