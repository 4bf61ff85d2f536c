/** The admin orders page: the status filter, the status badge's label and
    the update a row's "Gestionar" dialog sends. */
module AdminOrders {
  import opened Prelude
  import Orders

  /** An order as listed, with its document id. */
  datatype Row = Row(id: string, order: Orders.Order)

  /** An entry of `STATUS_OPTIONS`. */
  datatype StatusOption = StatusOption(value: string, title: string, color: string)

  const StatusOptions: seq<StatusOption> := [
    StatusOption("pending", "Pendiente", "bg-yellow-100 text-yellow-800"),
    StatusOption("shipped", "Enviado", "bg-blue-100 text-blue-800"),
    StatusOption("delivered", "Entregado", "bg-green-100 text-green-800"),
    StatusOption("cancelled", "Cancelado", "bg-red-100 text-red-800")
  ]

  const AllStatuses: string := "all"
  const UnknownColor: string := "bg-gray-100 text-gray-800"

  /** `filteredOrders`; the list is absent while it loads. */
  function FilteredOrders(orders: Option<seq<Row>>, selected: string): (r: Option<seq<Row>>)
    ensures selected == AllStatuses ==> r == orders
    ensures r.Some? <==> orders.Some?
    ensures selected != AllStatuses && r.Some? ==>
              (forall i :: 0 <= i < |r.value| ==> r.value[i] in orders.value && r.value[i].order.status == selected)
    ensures selected != AllStatuses && r.Some? ==>
              (forall i :: 0 <= i < |orders.value| && orders.value[i].order.status == selected ==> orders.value[i] in r.value)
    ensures selected != AllStatuses && r.Some? ==> Subsequence(r.value, orders.value)
    ensures selected != AllStatuses && r.Some? ==> forall x {:trigger multiset(r.value)[x]} ::
              multiset(r.value)[x] == if x.order.status == selected then multiset(orders.value)[x] else 0
  {
    if selected == AllStatuses then orders
    else match orders
      case None => None
      case Some(rows) => Some(Filter(rows, (row: Row) => row.order.status == selected))
  }

  /** `STATUS_OPTIONS.find((s) => s.value === status)` */
  function FindOption(options: seq<StatusOption>, status: string): (r: Option<StatusOption>)
    ensures r.Some? ==> exists k :: 0 <= k < |options| && options[k] == r.value && r.value.value == status
                          && forall j :: 0 <= j < k ==> options[j].value != status
    ensures r.None? ==> forall i :: 0 <= i < |options| ==> options[i].value != status
  {
    if |options| == 0 then None
    else if options[0].value == status then Some(options[0])
    else
      assert forall k :: 0 < k < |options| ==> options[k] == options[1..][k - 1];
      FindOption(options[1..], status)
  }

  /** The badge text: the option's label, or the raw status. */
  function StatusLabel(status: string): (r: string)
    ensures FindOption(StatusOptions, status).Some? ==> r == FindOption(StatusOptions, status).value.title
    ensures FindOption(StatusOptions, status).None? ==> r == status
  {
    match FindOption(StatusOptions, status)
    case Some(o) => OrElse(o.title, status)
    case None => status
  }

  /** The badge colour, grey for an unknown status. */
  function StatusColor(status: string): (r: string)
    ensures FindOption(StatusOptions, status).None? ==> r == UnknownColor
    ensures FindOption(StatusOptions, status).Some? ==> r == FindOption(StatusOptions, status).value.color
  {
    match FindOption(StatusOptions, status)
    case Some(o) => OrElse(o.color, UnknownColor)
    case None => UnknownColor
  }

  /** The four known statuses read in Spanish. */
  lemma KnownStatusLabels()
    ensures StatusLabel("pending") == "Pendiente" && StatusLabel("shipped") == "Enviado"
    ensures StatusLabel("delivered") == "Entregado" && StatusLabel("cancelled") == "Cancelado"
  {
    assert StatusOptions[0].value == "pending";
    assert StatusOptions[1..][0].value == "shipped";
    assert StatusOptions[1..][1..][0].value == "delivered";
    assert StatusOptions[1..][1..][1..][0].value == "cancelled";
  }

  /** Any other status is shown as stored, in grey. */
  lemma UnknownStatusLabel(other: string)
    requires other != "pending" && other != "shipped" && other != "delivered" && other != "cancelled"
    ensures StatusLabel(other) == other && StatusColor(other) == UnknownColor
  {
    assert FindOption(StatusOptions, other).None?;
  }

  /** The dialog's fields: the chosen status and the tracking number typed. */
  datatype Dialog = Dialog(newStatus: string, tracking: string)

  /** The dialog as a row opens it: the current status and
      `order.tracking_number || ""`. */
  function OpenDialog(row: Row): (d: Dialog)
    ensures d.newStatus == row.order.status
    ensures row.order.trackingNumber.Some? ==> d.tracking == row.order.trackingNumber.value
    ensures row.order.trackingNumber.None? ==> d.tracking == ""
  {
    Dialog(row.order.status, row.order.trackingNumber.GetOr(""))
  }

  /** The arguments of `updateOrderStatus`. */
  datatype UpdateRequest = UpdateRequest(id: string, status: string, tracking: Option<string>)

  /** `handleUpdate()`: the chosen status whatever the current one, and
      `trackingNumber || null` whatever the status. */
  function HandleUpdate(row: Row, d: Dialog): (r: UpdateRequest)
    ensures r.id == row.id && r.status == d.newStatus
    ensures r.tracking.Some? <==> d.tracking != ""
    ensures r.tracking.Some? ==> r.tracking.value == d.tracking
  {
    UpdateRequest(row.id, d.newStatus, if d.tracking != "" then Some(d.tracking) else None)
  }

  /** The stored order after the request is applied at `now`. */
  function Apply(row: Row, req: UpdateRequest, now: Orders.Timestamp): (o: Orders.Order)
    ensures o.status == req.status && o.updatedAt == Some(now)
  {
    Orders.UpdateOrderStatus(row.order, req.status, req.tracking, now)
  }

  /** Saving the dialog untouched changes nothing but the update time. */
  lemma SaveUntouched(row: Row, now: Orders.Timestamp)
    ensures Apply(row, HandleUpdate(row, OpenDialog(row)), now) == row.order.(updatedAt := Some(now))
  {
  }

  /** A tracking number typed while "shipped" was chosen is still written
      after switching to another status. */
  lemma TrackingKeptForAnyStatus(row: Row, tracking: string, status: string, now: Orders.Timestamp)
    requires tracking != ""
    ensures Apply(row, HandleUpdate(row, Dialog(status, tracking)), now).trackingNumber == Some(tracking)
    ensures Apply(row, HandleUpdate(row, Dialog(status, tracking)), now).status == status
  {
  }

  /** Clearing the field sends null, which leaves the stored tracking number
      in place: a tracking number cannot be removed from this page. */
  lemma TrackingCannotBeCleared(row: Row, status: string, now: Orders.Timestamp)
    ensures Apply(row, HandleUpdate(row, Dialog(status, "")), now).trackingNumber == row.order.trackingNumber
  {
  }
}
