/** The Transaction schema: an amount, a trimmed category defaulting to
    "General", a type that is "Expense" or "Income", an optional trimmed
    description, the owning user, and the two automatic timestamps. */
module TransactionModel {
  import opened Wrappers
  import opened Text
  import opened Calendar
  import opened Mongoose

  datatype TxType = Expense | Income

  /** The string the `type` path stores. */
  function TxTypeName(t: TxType): string
  {
    match t
    case Expense => "Expense"
    case Income => "Income"
  }

  /** The `enum: ['Expense', 'Income']` check: only the two exact names are accepted. */
  function ParseTxType(s: string): (r: Option<TxType>)
    ensures r.Some? <==> s == "Expense" || s == "Income"
    ensures r.Some? ==> TxTypeName(r.value) == s
  {
    if s == "Expense" then Some(Expense)
    else if s == "Income" then Some(Income)
    else None
  }

  /** Every type survives being written as its name and read back. */
  lemma TxTypeRoundTrip(t: TxType)
    ensures ParseTxType(TxTypeName(t)) == Some(t)
  {
  }

  const DefaultCategory: string := "General"

  datatype Transaction = Transaction(
    id: ObjectId,
    user: ObjectId,
    amount: int,
    category: string,
    txType: TxType,
    description: Option<string>,
    createdAt: DateTime,
    updatedAt: DateTime)

  /** The fields a caller hands to `Transaction.create`; an absent key is `None`. */
  datatype TransactionFields = TransactionFields(
    user: Option<ObjectId>,
    amount: Option<int>,
    category: Option<string>,
    txType: Option<string>,
    description: Option<string>)

  /** The schema paths that can fail validation. */
  datatype TxPath = UserPath | AmountPath | CategoryPath | TypePath

  /** The message Mongoose reports for each failing path. */
  function TxPathMessage(p: TxPath, f: TransactionFields): string
  {
    match p
    case UserPath => "Path `user` is required."
    case AmountPath => "Transaction amount is required"
    case CategoryPath => "Transaction category is required"
    case TypePath =>
      if f.txType.None? || f.txType.value == "" then "Path `type` is required."
      else "`" + f.txType.value + "` is not a valid enum value for path `type`."
  }

  /** The category the document holds after the default and the trim setter. */
  function StoredCategory(f: TransactionFields): string
  {
    Trim(f.category.GetOr(DefaultCategory))
  }

  /** The paths that fail validation, in schema order. */
  function TxFailures(f: TransactionFields): (r: seq<TxPath>)
    ensures UserPath in r <==> f.user.None?
    ensures AmountPath in r <==> f.amount.None?
    ensures CategoryPath in r <==> f.category.Some? && Trim(f.category.value) == ""
    ensures TypePath in r <==> f.txType.None? || ParseTxType(f.txType.value).None?
  {
    (if f.user.None? then [UserPath] else [])
    + (if f.amount.None? then [AmountPath] else [])
    + (if StoredCategory(f) == "" then [CategoryPath] else [])
    + (if f.txType.None? || ParseTxType(f.txType.value).None? then [TypePath] else [])
  }

  /** A stored transaction satisfies the schema: a non-empty trimmed category
      and a trimmed description. */
  predicate ValidTransaction(t: Transaction)
  {
    && t.category != "" && Trim(t.category) == t.category
    && (t.description.Some? ==> Trim(t.description.value) == t.description.value)
  }

  /** `Transaction.create(fields)` at time `now`, giving the new document id
      `id`: validation failures are reported path by path; otherwise the
      document holds the input values after defaults and setters, with both
      timestamps set to `now`. */
  function CreateTransactionDoc(f: TransactionFields, id: ObjectId, now: DateTime)
    : (r: Result<Transaction, seq<string>>)
    ensures r.Ok? <==> && f.user.Some? && f.amount.Some?
                       && (f.category.None? || Trim(f.category.value) != "")
                       && f.txType.Some? && ParseTxType(f.txType.value).Some?
    ensures r.Ok? ==> && r.value.id == id
                      && r.value.user == f.user.value
                      && r.value.amount == f.amount.value
                      && TxTypeName(r.value.txType) == f.txType.value
                      && r.value.category == (if f.category.None? then DefaultCategory else Trim(f.category.value))
                      && r.value.description == TrimmedPath(f.description)
                      && r.value.createdAt == now && r.value.updatedAt == now
                      && ValidTransaction(r.value)
    ensures r.Err? ==> |r.error| >= 1
  {
    var failures := TxFailures(f);
    if failures != [] then
      Err(seq(|failures|, i requires 0 <= i < |failures| => TxPathMessage(failures[i], f)))
    else
      assert Trim(DefaultCategory) == DefaultCategory by { TrimOfTrimmed(DefaultCategory); }
      Ok(Transaction(id, f.user.value, f.amount.value, StoredCategory(f),
                     ParseTxType(f.txType.value).value, TrimmedPath(f.description), now, now))
  }
}
