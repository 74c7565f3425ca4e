/**
 * Order lookup: the `/order <id>` handler, a total map from an order id to
 * exactly one status sentence.
 */
module OrderLookup {
  import opened Common
  import opened Text

  /**
   * One record of the order store. Each optional field holds the text Python
   * prints for the stored JSON value; `otherKeys` records whether the JSON
   * object has keys besides the five the handler reads.
   */
  datatype Order = Order(
    status: Option<string>,
    etaDays: Option<string>,
    carrier: Option<string>,
    deliveredAt: Option<string>,
    note: Option<string>,
    otherKeys: bool)

  /** An empty JSON object, which Python treats as false. */
  predicate IsEmptyRecord(o: Order) {
    o.status.None? && o.etaDays.None? && o.carrier.None? && o.deliveredAt.None?
    && o.note.None? && !o.otherKeys
  }

  /** How an f-string renders `order.get(key)`: a missing key prints as `None`. */
  function Show(field: Option<string>): string {
    match field
    case None => "None"
    case Some(v) => v
  }

  const TransitStatus: string := "in_transit"
  const DeliveredStatus: string := "delivered"
  const ProcessingStatus: string := "processing"

  /** The sentence heads that tell the three known statuses apart. */
  function InTransitHead(id: string): string { "Заказ #" + id + " в пути." }
  function DeliveredHead(id: string): string { "Заказ #" + id + " доставлен " }
  function ProcessingHead(id: string): string { "Заказ #" + id + " в обработке." }

  function NotFoundText(id: string): string {
    "Заказ с номером " + id + " не найден. Пожалуйста, проверьте номер."
  }

  function InTransitText(id: string, eta: string, carrier: string): string {
    InTransitHead(id) + " Примерный срок доставки: " + eta + " дня. " + "Перевозчик: " + carrier + "."
  }

  function DeliveredText(id: string, date: string): string {
    DeliveredHead(id) + date + "."
  }

  function ProcessingText(id: string, note: string): string {
    ProcessingHead(id) + " " + note + "."
  }

  function UnknownStatusText(id: string): string {
    "Неизвестный статус для заказа #" + id + "."
  }

  /** A record that is present and not empty, so that its status is read. */
  predicate Known(orders: map<string, Order>, id: string) {
    id in orders && !IsEmptyRecord(orders[id])
  }

  predicate HasStatus(orders: map<string, Order>, id: string, status: string) {
    Known(orders, id) && orders[id].status == Some(status)
  }

  /** The not-found sentence is given exactly when the record is absent or empty; every sentence ends with a full stop. */
  function GetOrderStatus(orders: map<string, Order>, id: string): (r: string)
    ensures r == NotFoundText(id) <==> !Known(orders, id)
    ensures r != [] && r[|r| - 1] == '.'
  {
    NotFoundShape(id);
    if !Known(orders, id) then NotFoundText(id)
    else
      var order := orders[id];
      if order.status == Some(TransitStatus) then
        InTransitShape(id, Show(order.etaDays), Show(order.carrier));
        InTransitText(id, Show(order.etaDays), Show(order.carrier))
      else if order.status == Some(DeliveredStatus) then
        DeliveredShape(id, Show(order.deliveredAt));
        DeliveredText(id, Show(order.deliveredAt))
      else if order.status == Some(ProcessingStatus) then
        ProcessingShape(id, Show(order.note));
        ProcessingText(id, Show(order.note))
      else
        UnknownStatusText(id)
  }

  // ------------------------------------------------------------- lemmas

  lemma AppendPrefix(a: string, b: string)
    ensures StartsWith(a + b, a)
  {
    assert (a + b)[..|a|] == a;
  }

  /** The not-found sentence starts with no status head and is not the unknown-status sentence. */
  lemma NotFoundShape(id: string)
    ensures !StartsWith(NotFoundText(id), InTransitHead(id))
    ensures !StartsWith(NotFoundText(id), DeliveredHead(id))
    ensures !StartsWith(NotFoundText(id), ProcessingHead(id))
    ensures NotFoundText(id) != UnknownStatusText(id)
  {
    var nf := NotFoundText(id);
    assert nf[6] == 'с' && nf[0] == 'З';
    assert InTransitHead(id)[6] == '#' && DeliveredHead(id)[6] == '#' && ProcessingHead(id)[6] == '#';
    assert UnknownStatusText(id)[0] == 'Н';
  }

  /** The unknown-status sentence starts with no status head. */
  lemma UnknownShape(id: string)
    ensures !StartsWith(UnknownStatusText(id), InTransitHead(id))
    ensures !StartsWith(UnknownStatusText(id), DeliveredHead(id))
    ensures !StartsWith(UnknownStatusText(id), ProcessingHead(id))
  {
    assert UnknownStatusText(id)[0] == 'Н';
    assert InTransitHead(id)[0] == 'З' && DeliveredHead(id)[0] == 'З' && ProcessingHead(id)[0] == 'З';
  }

  /** An in-transit sentence starts with its own head and with no other. */
  lemma InTransitShape(id: string, eta: string, carrier: string)
    ensures var r := InTransitText(id, eta, carrier);
      StartsWith(r, InTransitHead(id)) && !StartsWith(r, DeliveredHead(id)) && !StartsWith(r, ProcessingHead(id))
  {
    var n := |id|;
    var r := InTransitText(id, eta, carrier);
    assert r == InTransitHead(id) + (" Примерный срок доставки: " + eta + " дня. " + "Перевозчик: " + carrier + ".");
    AppendPrefix(InTransitHead(id), " Примерный срок доставки: " + eta + " дня. " + "Перевозчик: " + carrier + ".");
    assert r[n + 8] == 'в' && r[n + 10] == 'п';
    assert DeliveredHead(id)[n + 8] == 'д' && ProcessingHead(id)[n + 10] == 'о';
  }

  /** A delivered sentence starts with its own head and with no other. */
  lemma DeliveredShape(id: string, date: string)
    ensures var r := DeliveredText(id, date);
      StartsWith(r, DeliveredHead(id)) && !StartsWith(r, InTransitHead(id)) && !StartsWith(r, ProcessingHead(id))
  {
    var n := |id|;
    var r := DeliveredText(id, date);
    AppendPrefix(DeliveredHead(id), date + ".");
    assert r == DeliveredHead(id) + (date + ".");
    assert r[n + 8] == 'д';
    assert InTransitHead(id)[n + 8] == 'в' && ProcessingHead(id)[n + 8] == 'в';
  }

  /** A processing sentence starts with its own head and with no other. */
  lemma ProcessingShape(id: string, note: string)
    ensures var r := ProcessingText(id, note);
      StartsWith(r, ProcessingHead(id)) && !StartsWith(r, InTransitHead(id)) && !StartsWith(r, DeliveredHead(id))
  {
    var n := |id|;
    var r := ProcessingText(id, note);
    AppendPrefix(ProcessingHead(id), " " + note + ".");
    assert r == ProcessingHead(id) + (" " + note + ".");
    assert r[n + 8] == 'в' && r[n + 10] == 'о';
    assert InTransitHead(id)[n + 10] == 'п' && DeliveredHead(id)[n + 8] == 'д';
  }

  /**
   * The lookup is total and picks exactly one sentence shape: not-found for a
   * missing or empty record, one head per known status, and the
   * unknown-status sentence for every other record.
   */
  lemma GetOrderStatusCases(orders: map<string, Order>, id: string)
    ensures GetOrderStatus(orders, id) == NotFoundText(id) <==> !Known(orders, id)
    ensures StartsWith(GetOrderStatus(orders, id), InTransitHead(id)) <==> HasStatus(orders, id, TransitStatus)
    ensures StartsWith(GetOrderStatus(orders, id), DeliveredHead(id)) <==> HasStatus(orders, id, DeliveredStatus)
    ensures StartsWith(GetOrderStatus(orders, id), ProcessingHead(id)) <==> HasStatus(orders, id, ProcessingStatus)
    ensures GetOrderStatus(orders, id) == UnknownStatusText(id) <==>
      Known(orders, id) && orders[id].status !in {Some(TransitStatus), Some(DeliveredStatus), Some(ProcessingStatus)}
  {
    NotFoundShape(id);
    UnknownShape(id);
    if Known(orders, id) {
      var o := orders[id];
      if o.status == Some(TransitStatus) {
        InTransitShape(id, Show(o.etaDays), Show(o.carrier));
      } else if o.status == Some(DeliveredStatus) {
        DeliveredShape(id, Show(o.deliveredAt));
      } else if o.status == Some(ProcessingStatus) {
        ProcessingShape(id, Show(o.note));
      }
    }
  }

  /** Every sentence quotes the id verbatim, and each known status quotes its own fields. */
  lemma GetOrderStatusMentions(orders: map<string, Order>, id: string)
    ensures ContainsAt(GetOrderStatus(orders, id), id, if Known(orders, id) && orders[id].status in {Some(TransitStatus), Some(DeliveredStatus), Some(ProcessingStatus)} then 7 else if Known(orders, id) then 31 else 16)
    ensures HasStatus(orders, id, TransitStatus) ==>
      Contains(GetOrderStatus(orders, id), Show(orders[id].etaDays))
      && Contains(GetOrderStatus(orders, id), Show(orders[id].carrier))
    ensures HasStatus(orders, id, DeliveredStatus) ==> Contains(GetOrderStatus(orders, id), Show(orders[id].deliveredAt))
    ensures HasStatus(orders, id, ProcessingStatus) ==> Contains(GetOrderStatus(orders, id), Show(orders[id].note))
  {
    var r := GetOrderStatus(orders, id);
    var n := |id|;
    if !Known(orders, id) {
      assert r[16..16 + n] == id;
    } else {
      var o := orders[id];
      if o.status == Some(TransitStatus) {
        var eta, car := Show(o.etaDays), Show(o.carrier);
        assert r[7..7 + n] == id;
        var k := n + 41;
        assert r[k..k + |eta|] == eta;
        var m := k + |eta| + 6 + 12;
        assert r[m..m + |car|] == car;
        assert ContainsAt(r, eta, k) && ContainsAt(r, car, m);
      } else if o.status == Some(DeliveredStatus) {
        var date := Show(o.deliveredAt);
        assert r[7..7 + n] == id;
        assert r[n + 18..n + 18 + |date|] == date;
        assert ContainsAt(r, date, n + 18);
      } else if o.status == Some(ProcessingStatus) {
        var note := Show(o.note);
        assert r[7..7 + n] == id;
        assert r[n + 21..n + 21 + |note|] == note;
        assert ContainsAt(r, note, n + 21);
      } else {
        assert r[31..31 + n] == id;
      }
    }
  }

  /** Every sentence is already stripped: it starts with a letter and ends with a full stop. */
  lemma GetOrderStatusTrimmed(orders: map<string, Order>, id: string)
    ensures Strip(GetOrderStatus(orders, id)) == GetOrderStatus(orders, id)
  {
    var r := GetOrderStatus(orders, id);
    NotFoundShape(id);
    UnknownShape(id);
    assert r == NotFoundText(id) || r == UnknownStatusText(id) || StartsWith(r, InTransitHead(id))
      || StartsWith(r, DeliveredHead(id)) || StartsWith(r, ProcessingHead(id)) by {
      GetOrderStatusCases(orders, id);
    }
    assert r[0] == 'З' || r[0] == 'Н' by {
      assert NotFoundText(id)[0] == 'З' && UnknownStatusText(id)[0] == 'Н';
      assert InTransitHead(id)[0] == 'З' && DeliveredHead(id)[0] == 'З' && ProcessingHead(id)[0] == 'З';
    }
    assert r[|r| - 1] == '.';
    assert [] + r + [] == r;
    StripUnique([], r, []);
  }

  /** An absent id, or one whose record is empty, yields the not-found sentence quoting that id. */
  lemma MissingOrderNotFound(orders: map<string, Order>, id: string)
    requires id !in orders || IsEmptyRecord(orders[id])
    ensures GetOrderStatus(orders, id) == NotFoundText(id)
    ensures GetOrderStatus(orders, id)[16..16 + |id|] == id
  {
    GetOrderStatusMentions(orders, id);
  }
}
