/**
  The three source tables of the sales/inventory/logistics dashboard (orders,
  order line items, supply records), their cleaned forms, the per-material
  supply aggregate and the unified order x item x supply record every metric
  reads.  Dates are day numbers; the order date also keeps its time of day,
  which only the analysis span of the stock list reads.  Money, prices, stock
  and lead times are exact reals.  A spreadsheet blank (NaN/NaT) is `None`.
 */
module Tables {
  import opened Seqs

  datatype Option<+T> = None | Some(value: T)

  datatype Result<+T, +E> = Ok(value: T) | Err(error: E)

  /** The present values of a list of optional cells, in list order, blanks skipped. */
  function Values<K(==,!new)>(ks: seq<Option<K>>): (r: seq<K>)
    ensures forall k :: k in r <==> Some(k) in ks
    ensures NoDups(ks) ==> NoDups(r)
  {
    if ks == [] then []
    else
      var init := ks[..|ks| - 1];
      var r := Values(init);
      assert forall x :: x in ks <==> x in init || x == ks[|ks| - 1];
      if ks[|ks| - 1].None? then r
      else
        assert NoDups(ks) ==> ks[|ks| - 1] !in init;
        r + [ks[|ks| - 1].value]
  }

  /** The group labels of a `groupby` on a column with blanks: the labels of
      `Seqs.Keys` with the blank one dropped, as pandas' `dropna=True` does.
      pandas also sorts the labels; here they keep their order of first
      appearance, which only the order of groups on a chart depends on. */
  function PresentKeys<T, K(==,!new)>(s: seq<T>, key: T -> Option<K>): (r: seq<K>)
    ensures NoDups(r)
    ensures forall k :: k in r <==> exists i :: 0 <= i < |s| && key(s[i]) == Some(k)
  {
    Values(Keys(s, key))
  }

  /** A spreadsheet cell before numeric coercion. */
  datatype Cell = Num(x: real) | Text(s: string) | Blank

  /** Status value that marks a cancelled order. */
  const Canceled: string := "canceled"

  /** Name given to a unified row whose material name is missing. */
  const NotInformed: string := "Não informado"

  /** The order columns the core reads, after renaming. */
  datatype OrderFields = OrderFields(
    orderDay: Option<int>,     // data_pedido, normalised to its day
    orderTime: DaySecond,      // data_pedido's time of day, in seconds
    shippedDay: Option<int>,   // data_envio
    deliveryDay: Option<int>,  // data_entrega
    deadlineDay: Option<int>,  // prazo_entrega_transportadora
    invoice: Option<real>,     // valor_nf
    carrier: Option<string>,   // transportadora
    status: Option<string>)    // status_pedido

  /** Seconds in a day. */
  const DaySeconds: int := 86400

  /** A time of day, in seconds after midnight. */
  type DaySecond = s: int | 0 <= s < DaySeconds

  /** An order row as loaded: the identifier is still an uncoerced cell. */
  datatype RawOrder = RawOrder(id: Cell, fields: OrderFields)

  /** A cleaned order: integer identifier and delivery time in days (possibly negative). */
  datatype Order = Order(id: int, fields: OrderFields, deliveryDays: Option<int>)

  /** A line-item row as loaded; its material id may be blank. */
  datatype RawItem = RawItem(
    orderId: Cell, materialId: Option<int>, name: Option<string>, category: Option<string>, price: Cell)

  /** A cleaned line item: the order key coerced to a number (or missing), the
      price coerced with 0 for failures, and one unit per row. */
  datatype Item = Item(
    orderKey: Option<real>, materialId: Option<int>, name: Option<string>, category: Option<string>,
    price: real, quantity: int)

  /** A supply row: material id, stock (`quantity` renamed), discontinued flag and lead time, each possibly blank. */
  datatype SupplyRow = SupplyRow(
    materialId: Option<int>, stock: Option<real>, discontinued: Option<bool>, leadtime: Option<real>)

  /** The per-material supply rollup; a material id is present on every aggregate row. */
  datatype SupplyAgg = SupplyAgg(
    materialId: int, stock: real, discontinued: Option<bool>, leadtime: Option<real>)

  /** One aggregate row per material. */
  predicate UniqueMaterials(aggs: seq<SupplyAgg>) {
    forall i, j :: 0 <= i < j < |aggs| ==> aggs[i].materialId != aggs[j].materialId
  }

  /** A line item after the left join with the supply aggregate; the supply
      columns are `None` when the item found no aggregate row. */
  datatype ItemSupply = ItemSupply(
    item: Item, stock: Option<real>, discontinued: Option<bool>, leadtime: Option<real>)

  /** One row of the unified table: an order, the item-supply row it joined
      with (none for an order without items) and the material name with the
      missing-name default applied. */
  datatype Unified = Unified(order: Order, line: Option<ItemSupply>, name: string)

  function OrderIdOf(u: Unified): int { u.order.id }

  /** No two rows belong to the same order (a table after `drop_duplicates(subset='id_pedido')`). */
  predicate DistinctOrders(rows: seq<Unified>) {
    forall i, j :: 0 <= i < j < |rows| ==> rows[i].order.id != rows[j].order.id
  }

  function CarrierOf(u: Unified): Option<string> { u.order.fields.carrier }

  function MaterialOf(u: Unified): Option<int> {
    if u.line.Some? then u.line.value.item.materialId else None
  }

  function DiscontinuedOf(u: Unified): Option<bool> {
    if u.line.Some? then u.line.value.discontinued else None
  }

  function StockOf(u: Unified): Option<real> {
    if u.line.Some? then u.line.value.stock else None
  }

  /** Units sold on this row; a row without an item contributes nothing to a sum. */
  function QuantityOf(u: Unified): int {
    if u.line.Some? then u.line.value.item.quantity else 0
  }

  /** The order of this row was cancelled (a missing status is not `canceled`). */
  predicate IsCanceled(u: Unified) {
    u.order.fields.status == Some(Canceled)
  }
}
