/** The dashboard overview's order badges
    (src/components/dashboard/Overview.tsx): the badge colour and the
    Portuguese label for an order's status string. */
module Overview {
  import opened Types

  /** The statuses the overview gives a label of its own. */
  const Labelled: set<string> := {"pending", "preparing", "ready", "delivered"}

  /** `getStatusColor`: pending, preparing and ready have colours of their
      own; delivered and every other string share the muted one. */
  function StatusColor(status: string): (color: string)
    ensures color in {"bg-warning", "bg-primary", "bg-success", "bg-muted"}
    ensures color == "bg-muted" <==> status !in {"pending", "preparing", "ready"}
    ensures status == "pending" <==> color == "bg-warning"
    ensures status == "preparing" <==> color == "bg-primary"
    ensures status == "ready" <==> color == "bg-success"
  {
    match status
    case "pending" => "bg-warning"
    case "preparing" => "bg-primary"
    case "ready" => "bg-success"
    case "delivered" => "bg-muted"
    case _ => "bg-muted"
  }

  /** `getStatusText`: the four labelled statuses get their Portuguese
      label; any other string is shown as it is. */
  function StatusText(status: string): (text: string)
    ensures status !in Labelled ==> text == status
    ensures status == "pending" ==> text == "Pendente"
    ensures status == "preparing" ==> text == "Preparando"
    ensures status == "ready" ==> text == "Pronto"
    ensures status == "delivered" ==> text == "Entregue"
  {
    match status
    case "pending" => "Pendente"
    case "preparing" => "Preparando"
    case "ready" => "Pronto"
    case "delivered" => "Entregue"
    case _ => status
  }

  /** Over the statuses an order can have, the muted colour marks exactly
      the delivered and the cancelled ones. */
  lemma MutedStatuses(s: OrderStatus)
    ensures StatusColor(s.Name()) == "bg-muted" <==> s == Delivered || s == Cancelled
  {
  }

  /** A cancelled order has no label of its own: its raw status string is
      shown, while every other status is translated. */
  lemma CancelledShownRaw(s: OrderStatus)
    ensures StatusText(s.Name()) == s.Name() <==> s == Cancelled
  {
  }

  /** Different statuses get different labels, so the label tells the
      status apart. */
  lemma LabelsDistinct(a: OrderStatus, b: OrderStatus)
    ensures StatusText(a.Name()) == StatusText(b.Name()) ==> a == b
  {
  }
}
