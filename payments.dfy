/** The mobile-money payment lifecycle: initiation of an STK push
    (app/api/mpesa/route.ts), the gateway's result webhook
    (app/api/mpesa/callback/route.ts) and the client's status poll
    (app/api/check-payment/route.ts), over one payment table. */
module Payments {

  import opened Common
  import opened Text
  import Phone
  import Tables

  datatype PaymentStatus = Pending | Completed | Failed

  /** The enum value as the database and the API spell it. */
  function StatusName(s: PaymentStatus): string {
    match s
    case Pending => "PENDING"
    case Completed => "COMPLETED"
    case Failed => "FAILED"
  }

  /** One row of the payment table. `cartItems` is the client's cart as
      `StoredCart` keeps it; nothing here reads it. */
  datatype Payment = Payment(
    id: Id,
    userId: Id,
    phoneNumber: string,
    amount: int,
    cartItems: Option<string>,
    status: PaymentStatus,
    merchantRequestId: string,
    checkoutRequestId: string,
    mpesaReceiptNumber: Option<string>,
    resultCode: Option<int>,
    resultDesc: Option<string>)

  /** The unique index on `checkoutRequestId`, which both lookups by that
      column rely on; the blank id that initiation writes is a value like any
      other for it. */
  ghost predicate UniqueCheckout(rows: map<Id, Payment>) {
    forall a, b :: a in rows && b in rows && rows[a].checkoutRequestId == rows[b].checkoutRequestId ==> a == b
  }

  /** `cartItems || null` on the cart as text: a missing value or the empty
      string is stored as null, and any other value as it was sent. */
  function StoredCart(cartItems: Option<string>): (c: Option<string>)
    ensures Present(cartItems) ==> c == cartItems
    ensures !Present(cartItems) ==> c.None?
  {
    if Present(cartItems) then cartItems else None
  }

  /** The record initiation creates before the push request is sent. */
  function NewPayment(id: Id, userId: Id, phone: string, amount: int, cartItems: Option<string>): (p: Payment)
    ensures p.status == Pending && p.merchantRequestId == "" && p.checkoutRequestId == ""
    ensures p.id == id && p.userId == userId && p.phoneNumber == Phone.Normalize(phone) && p.amount == amount
    ensures p.cartItems == (if Present(cartItems) then cartItems else None)
    ensures p.mpesaReceiptNumber.None? && p.resultCode.None? && p.resultDesc.None?
  {
    Payment(id, userId, Phone.Normalize(phone), amount, StoredCart(cartItems), Pending, "", "", None, None, None)
  }

  const InitiationFailed := "STK Push initiation failed"
  const MissingInitiationFields := "Missing phone number, amount, or user ID"
  const PushFailed := "Failed to initiate Mpesa STK Push"

  /** What one HTTP call to the gateway did: it answered, or axios threw, with
      the HTTP status of the gateway's response when there was one. */
  datatype Call = Answered | Threw(responseStatus: Option<int>)

  /** The push acknowledgement's `MerchantRequestID` and `CheckoutRequestID`;
      either may be missing from the body. */
  datatype Ack = Ack(merchantRequestId: Option<string>, checkoutRequestId: Option<string>)

  /** `error.response?.status || 500`. */
  function AxiosStatus(responseStatus: Option<int>): (s: int)
    ensures NonZero(responseStatus) ==> s == responseStatus.value
    ensures !NonZero(responseStatus) ==> s == 500
  {
    if NonZero(responseStatus) then responseStatus.value else 500
  }

  datatype InitiateReply =
    | Initiated(paymentId: Id, checkoutRequestId: Option<string>)
    | InitiateError(httpStatus: int, error: string)

  /** `amount || existingPayment.amount`, as the callback stores it. */
  function SettledAmount(confirmed: Option<int>, existing: int): (a: int)
    ensures NonZero(confirmed) ==> a == confirmed.value
    ensures !NonZero(confirmed) ==> a == existing
  {
    if NonZero(confirmed) then confirmed.value else existing
  }

  // ---------------------------------------------------------------- callback

  /** A metadata `Value`: the gateway sends the receipt as text and the
      amount as a number. */
  datatype MetaValue = Text(text: string) | Number(number: int)

  datatype MetaItem = MetaItem(name: string, value: Option<MetaValue>)

  /** `Body.stkCallback`, every field of which may be missing; `items` is
      `CallbackMetadata.Item`. */
  datatype StkCallback = StkCallback(
    checkoutRequestId: Option<string>,
    resultCode: Option<int>,
    resultDesc: Option<string>,
    items: Option<seq<MetaItem>>)

  /** How a column is written by one update: a key whose value is
      `undefined` leaves the column as it is. */
  datatype Write<T> = Keep | Put(value: T)

  function Apply<T>(w: Write<T>, current: T): (v: T)
    ensures w.Keep? ==> v == current
    ensures w.Put? ==> v == w.value
  {
    match w
    case Keep => current
    case Put(x) => x
  }

  /** `metadata.find(item => item.Name === name)`. */
  function FirstNamed(items: seq<MetaItem>, name: string): (r: Option<MetaItem>)
    ensures r.Some? ==> r.value.name == name && exists i :: 0 <= i < |items| && items[i] == r.value && forall j :: 0 <= j < i ==> items[j].name != name
    ensures r.None? <==> forall i :: 0 <= i < |items| ==> items[i].name != name
  {
    if items == [] then None
    else if items[0].name == name then Some(items[0])
    else
      var later := FirstNamed(items[1..], name);
      assert later.Some? ==> exists i :: 1 <= i < |items| && items[i] == later.value && forall j :: 0 <= j < i ==> items[j].name != name by {
        if later.Some? {
          var i :| 0 <= i < |items[1..]| && items[1..][i] == later.value && forall j :: 0 <= j < i ==> items[1..][j].name != name;
          assert items[i + 1] == later.value;
          forall j | 0 <= j < i + 1 ensures items[j].name != name {
            if j > 0 { assert items[j] == items[1..][j - 1]; }
          }
        }
      }
      assert later.None? ==> forall i :: 1 <= i < |items| ==> items[i].name != name by {
        if later.None? {
          forall i | 1 <= i < |items| ensures items[i].name != name {
            assert items[i] == items[1..][i - 1];
          }
        }
      }
      later
  }

  /** The metadata value under `name`, `undefined` when no item has that name. */
  function ValueNamed(items: seq<MetaItem>, name: string): (v: Option<MetaValue>)
    ensures FirstNamed(items, name).None? ==> v.None?
    ensures FirstNamed(items, name).Some? ==> v == FirstNamed(items, name).value.value
  {
    var item := FirstNamed(items, name);
    if item.Some? then item.value.value else None
  }

  /** `rawAmount ? parseFloat(rawAmount) : null`, for whole amounts. */
  function ConfirmedAmount(raw: Option<MetaValue>): (a: Option<int>)
    ensures raw == Some(Number(0)) || raw == Some(Text("")) || raw.None? ==> a.None?
    ensures forall n :: raw == Some(Number(n)) && n != 0 ==> a == Some(n)
  {
    match raw
    case None => None
    case Some(Number(n)) => if n == 0 then None else Some(n)
    case Some(Text(t)) => if t == "" then None else ParseInt(t)
  }

  /** The columns one callback writes, decoded from it before the lookup. */
  datatype Outcome = Outcome(
    status: PaymentStatus,
    receipt: Write<Option<string>>,
    amount: Option<int>,
    resultCode: Write<Option<int>>,
    resultDesc: string)

  /** The mutable locals of the handler after its if/else: FAILED with a null
      receipt unless `ResultCode === 0`, in which case COMPLETED with the
      receipt and the amount of the first metadata items of those names. */
  function Decode(cb: StkCallback): (o: Outcome)
    ensures o.status == Completed <==> cb.resultCode == Some(0)
    ensures o.status == Failed ==> o.receipt == Put(None) && o.amount.None?
    ensures o.status == Completed ==>
      var items := if cb.items.Some? then cb.items.value else [];
      && o.amount == ConfirmedAmount(ValueNamed(items, "Amount"))
      && (ValueNamed(items, "MpesaReceiptNumber").None? ==> o.receipt == Keep)
      && (forall t :: ValueNamed(items, "MpesaReceiptNumber") == Some(Text(t)) ==> o.receipt == Put(Some(t)))
    ensures o.resultDesc == if Present(cb.resultDesc) then cb.resultDesc.value else "Payment failed"
    ensures o.resultCode == if cb.resultCode.Some? then Put(cb.resultCode) else Keep
  {
    var desc := if Present(cb.resultDesc) then cb.resultDesc.value else "Payment failed";
    var code := if cb.resultCode.Some? then Put(cb.resultCode) else Keep;
    if cb.resultCode == Some(0) then
      var items := if cb.items.Some? then cb.items.value else [];
      var receipt := ValueNamed(items, "MpesaReceiptNumber");
      var w := match receipt
        case None => Keep
        case Some(Text(t)) => Put(Some(t))
        case Some(Number(n)) => Put(None);
      Outcome(Completed, w, ConfirmedAmount(ValueNamed(items, "Amount")), code, desc)
    else
      Outcome(Failed, Put(None), None, code, desc)
  }

  /** A receipt that arrives as a number does not fit the text column, so the
      update is refused by the database client. */
  predicate ReceiptIsNumber(cb: StkCallback) {
    cb.resultCode == Some(0)
    && var items := if cb.items.Some? then cb.items.value else [];
       ValueNamed(items, "MpesaReceiptNumber").Some? && ValueNamed(items, "MpesaReceiptNumber").value.Number?
  }

  /** The row after a successful update: status, receipt, amount and result
      columns from the callback; nothing else changes, and the previous status
      is not consulted. */
  function Settle(p: Payment, o: Outcome): (q: Payment)
    ensures q.status == o.status && q.resultDesc == Some(o.resultDesc)
    ensures q.amount == SettledAmount(o.amount, p.amount)
    ensures q.mpesaReceiptNumber == Apply(o.receipt, p.mpesaReceiptNumber)
    ensures q.resultCode == Apply(o.resultCode, p.resultCode)
    ensures q.(status := p.status, amount := p.amount, mpesaReceiptNumber := p.mpesaReceiptNumber,
               resultCode := p.resultCode, resultDesc := p.resultDesc) == p
  {
    p.(status := o.status,
       mpesaReceiptNumber := Apply(o.receipt, p.mpesaReceiptNumber),
       amount := SettledAmount(o.amount, p.amount),
       resultCode := Apply(o.resultCode, p.resultCode),
       resultDesc := Some(o.resultDesc))
  }

  /** The JSON the webhook answers with: HTTP status, `ResultCode`, `ResultDesc`. */
  datatype CallbackAck = CallbackAck(httpStatus: int, resultCode: int, resultDesc: string)

  // ------------------------------------------------------------ status poll

  /** The body of the status poll's answer. */
  datatype StatusReport =
    | MissingCheckoutId
    | NotFoundYet
    | Found(status: string, checkoutRequestId: string, mpesaReceiptNumber: Option<string>, amount: int, resultDesc: Option<string>)

  /** The `status` field of the poll's JSON answer (400 bodies have none). */
  function ReportedStatus(r: StatusReport): (s: Option<string>)
    ensures r.MissingCheckoutId? <==> s.None?
    ensures r.NotFoundYet? ==> s == Some("pending")
    ensures r.Found? ==> s == Some(r.status)
  {
    match r
    case MissingCheckoutId => None
    case NotFoundYet => Some("pending")
    case Found(st, _, _, _, _) => Some(st)
  }

  /** The status as the poll reports it. */
  function PolledName(s: PaymentStatus): string {
    match s
    case Pending => "pending"
    case Completed => "completed"
    case Failed => "failed"
  }

  /** `status.toLowerCase()` is the poll's spelling of each status. */
  lemma LowerStatusName(s: PaymentStatus)
    ensures ToLower(StatusName(s)) == PolledName(s)
  {
    match s
    case Pending => LowerAsciiWord(StatusName(s), PolledName(s));
    case Completed => LowerAsciiWord(StatusName(s), PolledName(s));
    case Failed => LowerAsciiWord(StatusName(s), PolledName(s));
  }

  /** The poll's four answers: absent, then pending, completed, failed. */
  lemma PolledNamesDistinct(a: PaymentStatus, b: PaymentStatus)
    ensures PolledName(a) == PolledName(b) <==> a == b
    ensures PolledName(a) != "pending" || a == Pending
  {
    if a != b {
      assert PolledName(a)[0] != PolledName(b)[0];
    }
  }

  /** Every row is stored under its own id, below the next id to hand out,
      and the checkout ids are unique. */
  ghost predicate WellFormed(rows: map<Id, Payment>, nextId: Id) {
    (forall k :: k in rows ==> rows[k].id == k && k < nextId)
    && UniqueCheckout(rows)
  }

  /** Adding a row under the next id, with a checkout id no row holds, keeps
      the table well formed. */
  lemma AddKeepsWellFormed(rows: map<Id, Payment>, nextId: Id, p: Payment)
    requires WellFormed(rows, nextId) && p.id == nextId
    requires forall k :: k in rows ==> rows[k].checkoutRequestId != p.checkoutRequestId
    ensures nextId !in rows && WellFormed(rows[nextId := p], nextId + 1)
  {
  }

  /** The three fields the handler validates are truthy. */
  predicate Admitted(phoneNumber: Option<string>, amount: Option<int>, userId: Option<Id>) {
    Present(phoneNumber) && NonZero(amount) && userId.Some?
  }

  class PaymentTable {
    var rows: map<Id, Payment>
    var nextId: Id

    ghost predicate Valid()
      reads this
    {
      WellFormed(rows, nextId)
    }

    constructor ()
      ensures Valid() && rows == map[] && nextId == 0
    {
      rows := map[];
      nextId := 0;
    }

    /** Some row holds `key` as its checkout request id. */
    predicate Holds(key: string)
      reads this
    {
      exists k :: k in rows && rows[k].checkoutRequestId == key
    }

    /** `findUnique({ where: { checkoutRequestId: key } })`. */
    function FindByCheckout(key: string): (r: Option<Id>)
      reads this
      requires Valid()
      ensures r.Some? ==> r.value in rows && rows[r.value].checkoutRequestId == key
      ensures r.None? <==> !Holds(key)
    {
      Tables.Find(rows, nextId, (p: Payment) => p.checkoutRequestId == key)
    }

    /** The initiation handler with the gateway as an oracle: `configured` is
        whether all five gateway settings are present, `token` the OAuth call,
        `push` the STK push call and `ack` the body it answered with. A record
        is created exactly when the request is admitted, the server is
        configured, the token call succeeds and the unique index lets a second
        blank checkout id in, which it does only when no row holds one. */
    method Initiate(phoneNumber: Option<string>, amount: Option<int>, cartItems: Option<string>, userId: Option<Id>,
                    configured: bool, token: Call, push: Call, ack: Ack)
      returns (r: InitiateReply)
      requires Valid()
      modifies this
      ensures Valid()
      ensures !Admitted(phoneNumber, amount, userId) ==> r == InitiateError(400, MissingInitiationFields)
      ensures Admitted(phoneNumber, amount, userId) && !configured ==> r == InitiateError(500, "Server configuration error")
      ensures Admitted(phoneNumber, amount, userId) && configured && token.Threw? ==>
                r == InitiateError(AxiosStatus(token.responseStatus), PushFailed)
      ensures Admitted(phoneNumber, amount, userId) && configured && token.Answered? && old(Holds("")) ==>
                r == InitiateError(500, PushFailed)
      // No record is written unless one is created.
      ensures !(Admitted(phoneNumber, amount, userId) && configured && token.Answered? && !old(Holds(""))) ==>
                rows == old(rows) && nextId == old(nextId) && r.InitiateError?
      // Otherwise exactly one record is added, under a fresh id, and no other row changes.
      ensures Admitted(phoneNumber, amount, userId) && configured && token.Answered? && !old(Holds("")) ==>
                && old(nextId) !in old(rows) && nextId == old(nextId) + 1
                && rows.Keys == old(rows).Keys + {old(nextId)}
                && (forall k :: k in old(rows) ==> rows[k] == old(rows)[k])
      // A refused push, or an acknowledged id another row holds, marks it FAILED.
      ensures Admitted(phoneNumber, amount, userId) && configured && token.Answered? && !old(Holds("")) ==>
                (r.Initiated? <==> push.Answered? && !(ack.checkoutRequestId.Some? && old(Holds(ack.checkoutRequestId.value))))
      ensures Admitted(phoneNumber, amount, userId) && configured && token.Answered? && !old(Holds("")) && push.Threw? ==>
                r == InitiateError(AxiosStatus(push.responseStatus), PushFailed)
      ensures Admitted(phoneNumber, amount, userId) && configured && token.Answered? && !old(Holds("")) && r.InitiateError? ==>
                && (push.Answered? ==> r == InitiateError(500, PushFailed))
                && rows[old(nextId)] == NewPayment(old(nextId), userId.value, phoneNumber.value, amount.value, cartItems)
                                          .(status := Failed, resultDesc := Some(InitiationFailed))
      // An acknowledged push stores the ids it supplied; a missing one stays blank.
      ensures r.Initiated? ==>
                && r.paymentId == old(nextId) && r.checkoutRequestId == ack.checkoutRequestId
                && rows[r.paymentId] == NewPayment(r.paymentId, userId.value, phoneNumber.value, amount.value, cartItems)
                     .(merchantRequestId := if ack.merchantRequestId.Some? then ack.merchantRequestId.value else "",
                       checkoutRequestId := if ack.checkoutRequestId.Some? then ack.checkoutRequestId.value else "")
    {
      if !(Present(phoneNumber) && NonZero(amount) && userId.Some?) {
        return InitiateError(400, MissingInitiationFields);
      }
      if !configured {
        return InitiateError(500, "Server configuration error");
      }
      var formattedPhone := Phone.Normalize(phoneNumber.value);
      if token.Threw? {
        return InitiateError(AxiosStatus(token.responseStatus), PushFailed);
      }
      if Holds("") {
        // The create violates the unique index: not an axios error, and no record.
        return InitiateError(500, PushFailed);
      }
      r := CreateAndPush(userId.value, formattedPhone, amount.value, cartItems, push, ack);
    }

    /** The part of initiation after the token call: the PENDING record with
        blank ids is created, the push is sent, and the record is updated with
        the acknowledged ids or, when that fails, marked FAILED. */
    method CreateAndPush(userId: Id, formattedPhone: string, amount: int, cartItems: Option<string>, push: Call, ack: Ack)
      returns (r: InitiateReply)
      requires Valid() && !Holds("")
      modifies this
      ensures Valid()
      ensures old(nextId) !in old(rows) && nextId == old(nextId) + 1
      ensures rows.Keys == old(rows).Keys + {old(nextId)}
      ensures forall k :: k in old(rows) ==> rows[k] == old(rows)[k]
      ensures r.Initiated? <==> push.Answered? && !(ack.checkoutRequestId.Some? && old(Holds(ack.checkoutRequestId.value)))
      ensures push.Threw? ==> r == InitiateError(AxiosStatus(push.responseStatus), PushFailed)
      ensures r.InitiateError? ==>
                && (push.Answered? ==> r == InitiateError(500, PushFailed))
                && rows[old(nextId)] == Payment(old(nextId), userId, formattedPhone, amount, StoredCart(cartItems), Failed, "", "", None, None, Some(InitiationFailed))
      ensures r.Initiated? ==>
                && r.paymentId == old(nextId) && r.checkoutRequestId == ack.checkoutRequestId
                && rows[r.paymentId] == Payment(old(nextId), userId, formattedPhone, amount, StoredCart(cartItems), Pending,
                                                if ack.merchantRequestId.Some? then ack.merchantRequestId.value else "",
                                                if ack.checkoutRequestId.Some? then ack.checkoutRequestId.value else "",
                                                None, None, None)
    {
      var id := nextId;
      var payment := Payment(id, userId, formattedPhone, amount, StoredCart(cartItems), Pending, "", "", None, None, None);
      var before := rows;
      rows := rows[id := payment];
      nextId := nextId + 1;
      var merchant := if ack.merchantRequestId.Some? then ack.merchantRequestId.value else payment.merchantRequestId;
      var checkout := if ack.checkoutRequestId.Some? then ack.checkoutRequestId.value else payment.checkoutRequestId;
      // The update with the acknowledged ids violates the unique index when
      // another row, that is a row present before the create, holds the
      // checkout id.
      var clash := ack.checkoutRequestId.Some? && exists k :: k in before && before[k].checkoutRequestId == checkout;
      var final;
      if push.Threw? || clash {
        // The handler's catch marks the record FAILED.
        final := payment.(status := Failed, resultDesc := Some(InitiationFailed));
        r := if push.Threw? then InitiateError(AxiosStatus(push.responseStatus), PushFailed) else InitiateError(500, PushFailed);
      } else {
        final := payment.(merchantRequestId := merchant, checkoutRequestId := checkout);
        r := Initiated(id, ack.checkoutRequestId);
      }
      rows := rows[id := final];
      assert rows == before[id := final];
      AddKeepsWellFormed(before, id, final);
    }

    /** The result webhook. `callback` is `Body.stkCallback`, `None` when the
        body or that member is missing. */
    method Callback(callback: Option<StkCallback>) returns (ack: CallbackAck)
      requires Valid()
      modifies this
      ensures Valid() && nextId == old(nextId)
      ensures callback.None? ==> ack == CallbackAck(400, 1, "Invalid callback structure") && rows == old(rows)
      ensures callback.Some? && !Present(callback.value.checkoutRequestId) ==>
                ack == CallbackAck(400, 1, "Missing CheckoutRequestID") && rows == old(rows)
      ensures callback.Some? && Present(callback.value.checkoutRequestId) && !old(Holds(callback.value.checkoutRequestId.value)) ==>
                ack == CallbackAck(404, 1, "Payment record not found") && rows == old(rows)
      ensures callback.Some? && Present(callback.value.checkoutRequestId) && old(Holds(callback.value.checkoutRequestId.value)) ==>
                var k := old(FindByCheckout(callback.value.checkoutRequestId.value)).value;
                if ReceiptIsNumber(callback.value) then
                  ack == CallbackAck(500, 1, "Failed to process callback") && rows == old(rows)
                else
                  ack == CallbackAck(200, 0, "Success") && rows == old(rows)[k := Settle(old(rows)[k], Decode(callback.value))]
    {
      if callback.None? {
        return CallbackAck(400, 1, "Invalid callback structure");
      }
      var cb := callback.value;
      if !Present(cb.checkoutRequestId) {
        return CallbackAck(400, 1, "Missing CheckoutRequestID");
      }
      var checkoutRequestId := cb.checkoutRequestId.value;
      var outcome := Decode(cb);
      var existing := FindByCheckout(checkoutRequestId);
      if existing.None? {
        return CallbackAck(404, 1, "Payment record not found");
      }
      if ReceiptIsNumber(cb) {
        return CallbackAck(500, 1, "Failed to process callback");
      }
      var k := existing.value;
      rows := rows[k := Settle(rows[k], outcome)];
      return CallbackAck(200, 0, "Success");
    }

    /** The status poll: a lookup by checkout request id that writes nothing. */
    function CheckPayment(checkoutRequestId: Option<string>): (r: StatusReport)
      reads this
      requires Valid()
      ensures !Present(checkoutRequestId) <==> r.MissingCheckoutId?
      ensures Present(checkoutRequestId) && !Holds(checkoutRequestId.value) <==> r.NotFoundYet?
      ensures r.Found? ==>
        exists k :: k in rows && rows[k].checkoutRequestId == checkoutRequestId.value
          && r == Found(ToLower(StatusName(rows[k].status)), rows[k].checkoutRequestId,
                        rows[k].mpesaReceiptNumber, rows[k].amount, rows[k].resultDesc)
      ensures ReportedStatus(r) in {None, Some("pending"), Some("completed"), Some("failed")}
    {
      if !Present(checkoutRequestId) then MissingCheckoutId
      else
        match FindByCheckout(checkoutRequestId.value)
        case None => NotFoundYet
        case Some(k) =>
          var p := rows[k];
          LowerStatusName(p.status);
          Found(ToLower(StatusName(p.status)), p.checkoutRequestId, p.mpesaReceiptNumber, p.amount, p.resultDesc)
    }
  }

  /** The webhook does not guard terminal states: a second callback for the
      same record rewrites a COMPLETED payment as FAILED. */
  lemma CallbackOverwritesCompleted(p: Payment, cb: StkCallback)
    requires p.status == Completed && cb.resultCode != Some(0)
    ensures Settle(p, Decode(cb)).status == Failed
    ensures Settle(p, Decode(cb)).mpesaReceiptNumber.None?
  {
  }

  /** After a callback is applied, the poll reports "completed" exactly when
      its ResultCode was 0, and "failed" otherwise. */
  lemma SettledStatusPolled(p: Payment, cb: StkCallback)
    ensures ToLower(StatusName(Settle(p, Decode(cb)).status)) == (if cb.resultCode == Some(0) then "completed" else "failed")
  {
    LowerStatusName(Settle(p, Decode(cb)).status);
  }

  /** A redelivered callback leaves the record as the first delivery did. */
  lemma RedeliveryIsIdempotent(p: Payment, cb: StkCallback)
    ensures Settle(Settle(p, Decode(cb)), Decode(cb)) == Settle(p, Decode(cb))
  {
  }

  /** With a blank id already in the table, initiation cannot insert: the
      unique index on checkoutRequestId refuses every later PENDING record. */
  lemma BlankIdBlocksNewRecords(rows: map<Id, Payment>, id: Id, p: Payment)
    requires UniqueCheckout(rows) && id !in rows
    requires exists k :: k in rows && rows[k].checkoutRequestId == ""
    requires p.checkoutRequestId == ""
    ensures !UniqueCheckout(rows[id := p])
  {
    var k :| k in rows && rows[k].checkoutRequestId == "";
    assert rows[id := p][k].checkoutRequestId == rows[id := p][id].checkoutRequestId;
  }
}
