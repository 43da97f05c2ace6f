/** The Alert schema: a trimmed, required message for a user, a type that is
    "Budget", "Info" or "Warning" (default "Info"), a read flag (default
    false), and the two automatic timestamps. */
module AlertModel {
  import opened Wrappers
  import opened Text
  import opened Calendar
  import opened Mongoose

  datatype AlertType = BudgetAlert | InfoAlert | WarningAlert

  function AlertTypeName(t: AlertType): string
  {
    match t
    case BudgetAlert => "Budget"
    case InfoAlert => "Info"
    case WarningAlert => "Warning"
  }

  /** The `enum` check on `type`. */
  function ParseAlertType(s: string): (r: Option<AlertType>)
    ensures r.Some? <==> s in {"Budget", "Info", "Warning"}
    ensures r.Some? ==> AlertTypeName(r.value) == s
  {
    if s == "Budget" then Some(BudgetAlert)
    else if s == "Info" then Some(InfoAlert)
    else if s == "Warning" then Some(WarningAlert)
    else None
  }

  lemma AlertTypeRoundTrip(t: AlertType)
    ensures ParseAlertType(AlertTypeName(t)) == Some(t)
  {
  }

  datatype Alert = Alert(
    id: ObjectId,
    user: ObjectId,
    message: string,
    alertType: AlertType,
    isRead: bool,
    createdAt: DateTime,
    updatedAt: DateTime)

  datatype AlertFields = AlertFields(
    user: Option<ObjectId>,
    message: Option<string>,
    alertType: Option<string>,
    isRead: Option<bool>)

  /** The paths of `f` that fail validation. */
  function AlertFailures(f: AlertFields): (r: set<string>)
    ensures "user" in r <==> f.user.None?
    ensures "message" in r <==> !RequiredString(TrimmedPath(f.message))
    ensures "type" in r <==> f.alertType.Some? && ParseAlertType(f.alertType.value).None?
    ensures r <= {"user", "message", "type"}
  {
    (if f.user.None? then {"user"} else {})
    + (if RequiredString(TrimmedPath(f.message)) then {} else {"message"})
    + (if f.alertType.Some? && ParseAlertType(f.alertType.value).None? then {"type"} else {})
  }

  /** `new Alert(fields)` validated at time `now`. */
  function NewAlertDoc(f: AlertFields, id: ObjectId, now: DateTime): (r: Result<Alert, set<string>>)
    ensures r.Ok? <==> AlertFailures(f) == {}
    ensures r.Err? ==> r.error == AlertFailures(f) && r.error != {}
    ensures r.Ok? ==> && r.value.id == id && r.value.user == f.user.value
                      && r.value.message == Trim(f.message.value) && r.value.message != ""
                      && (f.alertType.None? ==> r.value.alertType == InfoAlert)
                      && (f.alertType.Some? ==> AlertTypeName(r.value.alertType) == f.alertType.value)
                      && r.value.isRead == f.isRead.GetOr(false)
                      && r.value.createdAt == now && r.value.updatedAt == now
  {
    var failures := AlertFailures(f);
    if failures != {} then Err(failures)
    else
      var t := if f.alertType.None? then InfoAlert else ParseAlertType(f.alertType.value).value;
      Ok(Alert(id, f.user.value, Trim(f.message.value), t, f.isRead.GetOr(false), now, now))
  }
}
