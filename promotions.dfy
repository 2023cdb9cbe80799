/** The promotion table and the three admin handlers that change it
    (app/api/admin/promotions/create, toggle and delete). */
module Promotions {

  import opened Common
  import opened Text
  import Tables

  /** One promotion. Times are milliseconds since the epoch; `dayOfWeek` is
      the single weekday the create form sends (`None` when it is NaN) and
      `daysOfWeek` the list of weekdays, 0 = Sunday, that the banner reads. */
  datatype Promotion = Promotion(
    id: Id,
    message: string,
    dayOfWeek: Option<int>,
    daysOfWeek: seq<int>,
    active: bool,
    startDate: Option<int>,
    endDate: Option<int>,
    createdAt: int)

  /** A date input of the create form: blank (missing or "") or a date the
      form sent, already read as a timestamp. */
  datatype DateField = Blank | Timestamp(ms: int)

  /** `str ? new Date(str) : null`. */
  function StoredDate(f: DateField): (d: Option<int>)
    ensures f.Blank? <==> d.None?
    ensures f.Timestamp? ==> d == Some(f.ms)
  {
    match f
    case Blank => None
    case Timestamp(ms) => Some(ms)
  }

  /** `parseInt(formData.get('dayOfWeek') as string)`: a missing field is the
      string "null", which parses to NaN. */
  function FormWeekday(field: Option<string>): (d: Option<int>)
    ensures field.None? ==> d.None?
    ensures field.Some? ==> d == ParseInt(field.value)
  {
    if field.Some? then ParseInt(field.value)
    else
      ParseIntNoDigits("null");
      ParseInt("null")
  }

  /** The answer of the three handlers: JSON with an HTTP status, or the
      redirect back to the promotions page. */
  datatype Reply = Json(httpStatus: int, error: string) | Redirect(path: string)

  const PromotionsPage := "/admin/promotions"

  ghost predicate WellFormed(rows: map<Id, Promotion>, nextId: Id) {
    forall k :: k in rows ==> rows[k].id == k && k < nextId
  }

  class PromotionTable {
    var rows: map<Id, Promotion>
    var nextId: Id

    ghost predicate Valid()
      reads this
    {
      WellFormed(rows, nextId)
    }

    constructor ()
      ensures Valid() && rows == map[] && nextId == 0
    {
      rows := map[];
      nextId := 0;
    }

    /** POST /api/admin/promotions/create at time `now`. The form carries
        one weekday, stored in `dayOfWeek`; `daysOfWeek` is left empty. A
        weekday that does not parse is NaN: `nanAccepted` says whether the
        database stores it (as null, the model's `None`) or refuses the
        create, which throws and is answered from the catch. */
    method Create(session: Session, message: Option<string>, dayOfWeek: Option<string>, active: Option<string>,
                  startDate: DateField, endDate: DateField, nanAccepted: bool, now: int)
      returns (r: Reply)
      requires Valid()
      modifies this
      ensures Valid()
      ensures !IsAdmin(session) ==> r == Json(401, "Unauthorized") && rows == old(rows) && nextId == old(nextId)
      ensures IsAdmin(session) && !Present(message) ==>
                r == Json(400, "Message is required") && rows == old(rows) && nextId == old(nextId)
      ensures IsAdmin(session) && Present(message) && FormWeekday(dayOfWeek).None? && !nanAccepted ==>
                r == Json(500, "Failed to create promotion") && rows == old(rows) && nextId == old(nextId)
      ensures IsAdmin(session) && Present(message) && (FormWeekday(dayOfWeek).Some? || nanAccepted) ==>
                && r == Redirect(PromotionsPage)
                && old(nextId) !in old(rows) && nextId == old(nextId) + 1
                && rows == old(rows)[old(nextId) := Promotion(old(nextId), message.value, FormWeekday(dayOfWeek), [],
                                                                active == Some("on"), StoredDate(startDate), StoredDate(endDate), now)]
    {
      if !IsAdmin(session) {
        return Json(401, "Unauthorized");
      }
      var weekday := FormWeekday(dayOfWeek);
      var isActive := active == Some("on");
      if !Present(message) {
        return Json(400, "Message is required");
      }
      if weekday.None? && !nanAccepted {
        return Json(500, "Failed to create promotion");
      }
      var p := Promotion(nextId, message.value, weekday, [], isActive, StoredDate(startDate), StoredDate(endDate), now);
      rows := rows[nextId := p];
      nextId := nextId + 1;
      return Redirect(PromotionsPage);
    }

    /** POST /api/admin/promotions/toggle: `active` becomes whether the form
        value is "true"; a missing or unknown id makes the update throw. */
    method Toggle(session: Session, id: Option<Id>, active: Option<string>) returns (r: Reply)
      requires Valid()
      modifies this
      ensures Valid() && nextId == old(nextId)
      ensures !IsAdmin(session) ==> r == Json(401, "Unauthorized") && rows == old(rows)
      ensures IsAdmin(session) && !(id.Some? && id.value in old(rows)) ==>
                r == Json(500, "Failed to toggle promotion") && rows == old(rows)
      ensures IsAdmin(session) && id.Some? && id.value in old(rows) ==>
                && r == Redirect(PromotionsPage)
                && rows == old(rows)[id.value := old(rows)[id.value].(active := active == Some("true"))]
    {
      if !IsAdmin(session) {
        return Json(401, "Unauthorized");
      }
      var value := active == Some("true");
      if id.None? || id.value !in rows {
        return Json(500, "Failed to toggle promotion");
      }
      rows := rows[id.value := rows[id.value].(active := value)];
      return Redirect(PromotionsPage);
    }

    /** POST /api/admin/promotions/delete: a missing or unknown id makes the
        delete throw. */
    method Delete(session: Session, id: Option<Id>) returns (r: Reply)
      requires Valid()
      modifies this
      ensures Valid() && nextId == old(nextId)
      ensures !IsAdmin(session) ==> r == Json(401, "Unauthorized") && rows == old(rows)
      ensures IsAdmin(session) && !(id.Some? && id.value in old(rows)) ==>
                r == Json(500, "Failed to delete promotion") && rows == old(rows)
      ensures IsAdmin(session) && id.Some? && id.value in old(rows) ==>
                r == Redirect(PromotionsPage) && rows == old(rows) - {id.value}
    {
      if !IsAdmin(session) {
        return Json(401, "Unauthorized");
      }
      if id.None? || id.value !in rows {
        return Json(500, "Failed to delete promotion");
      }
      rows := rows - {id.value};
      return Redirect(PromotionsPage);
    }

    /** The table as `findMany` returns it, in id order. */
    function Listed(): (r: seq<Promotion>)
      reads this
      requires Valid()
      ensures forall p :: p in r <==> p in rows.Values
    {
      Tables.InIdOrder(rows, nextId, (p: Promotion) => p.id)
    }
  }
}
