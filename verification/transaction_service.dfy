/** The transaction service: creating a transaction from request data or from
    an SMS the AI has parsed, the current month's expense summary, and the
    last sixty days of a user's transactions.

    The transactions collection is a sequence in natural (insertion) order.
    "Now" and "today" are parameters; the AI's answer is its text or the error
    the call raised; `parseJson` gives the parsed object's fields, or `None`
    when `JSON.parse` throws. */
module TransactionService {
  import opened Wrappers
  import opened Text
  import opened Calendar
  import opened CategoryMap
  import opened Sorting
  import opened Mongoose
  import opened TransactionModel
  import opened UserModel

  const SmsFailure: string := "Could not process the transaction from SMS."
  const UserNotFound: string := "User not found"

  /** The document `{ user: userId, ...data }`: a `user` key in the data wins. */
  function WithUser(userId: ObjectId, data: TransactionFields): (f: TransactionFields)
    ensures f.user.Some?
    ensures data.user.Some? ==> f.user == data.user
    ensures data.user.None? ==> f.user == Some(userId)
    ensures f.(user := data.user) == data
  {
    data.(user := Some(data.user.GetOr(userId)))
  }

  /** `createTransaction(userId, data)`, the new document getting id `id` at
      time `now`: the result and the collection after it. */
  function CreateTransaction(store: seq<Transaction>, userId: ObjectId, data: TransactionFields,
                             id: ObjectId, now: DateTime)
    : (r: (Result<Transaction, seq<string>>, seq<Transaction>))
    ensures r.0.Ok? <==> && data.amount.Some?
                         && (data.category.None? || Trim(data.category.value) != "")
                         && data.txType.Some? && ParseTxType(data.txType.value).Some?
    ensures r.0.Ok? ==> && r.1 == store + [r.0.value]
                        && r.0.value.user == data.user.GetOr(userId)
                        && r.0.value.amount == data.amount.value
                        && r.0.value.createdAt == now
                        && ValidTransaction(r.0.value)
    ensures r.0.Err? ==> r.1 == store
  {
    match CreateTransactionDoc(WithUser(userId, data), id, now)
    case Err(messages) => (Err(messages), store)
    case Ok(t) => (Ok(t), store + [t])
  }

  /** The truthiness test `!parsed.amount || !parsed.type` rejects. */
  predicate MissingEssentials(parsed: TransactionFields)
  {
    || parsed.amount.None? || parsed.amount.value == 0
    || parsed.txType.None? || parsed.txType.value == ""
  }

  /** `createTransactionFromSms`: the AI call is made outside the `try`, so its
      error reaches the caller unchanged; inside it, an unparsable answer, a
      falsy amount or type, or a failed create all become one message. */
  function CreateTransactionFromSms(store: seq<Transaction>, userId: ObjectId,
                                    ai: Result<string, string>,
                                    parseJson: string -> Option<TransactionFields>,
                                    id: ObjectId, now: DateTime)
    : (r: (Result<Transaction, string>, seq<Transaction>))
    ensures r.0.Err? ==> r.1 == store
    ensures ai.Err? ==> r.0 == Err(ai.error)
    ensures ai.Ok? && r.0.Err? ==> r.0.error == SmsFailure
    ensures r.0.Ok? <==> && ai.Ok? && parseJson(ai.value).Some?
                         && !MissingEssentials(parseJson(ai.value).value)
                         && CreateTransaction(store, userId, parseJson(ai.value).value, id, now).0.Ok?
    ensures r.0.Ok? ==> && r.0.value.amount != 0
                        && r.1 == store + [r.0.value]
                        && r.0.value.user == parseJson(ai.value).value.user.GetOr(userId)
  {
    match ai
    case Err(message) => (Err(message), store)
    case Ok(text) =>
      match parseJson(text)
      case None => (Err(SmsFailure), store)
      case Some(parsed) =>
        if MissingEssentials(parsed) then (Err(SmsFailure), store)
        else
          var created := CreateTransaction(store, userId, parsed, id, now);
          match created.0
          case Err(_) => (Err(SmsFailure), store)
          case Ok(t) => (Ok(t), created.1)
  }

  /** A zero amount is present but falsy: the SMS path refuses what the manual
      path accepts. */
  lemma ZeroAmountOnlyManually(store: seq<Transaction>, userId: ObjectId, data: TransactionFields,
                               id: ObjectId, now: DateTime)
    requires data.amount == Some(0) && data.txType == Some("Expense") && data.category.None?
    ensures CreateTransaction(store, userId, data, id, now).0.Ok?
    ensures forall text: string ::
              CreateTransactionFromSms(store, userId, Ok(text), _ => Some(data), id, now)
                == (Err(SmsFailure), store)
  {
  }

  // ---------------------------------------------------------------------------
  // The monthly summary

  /** An inclusive range of instants, `{ $gte: lo, $lte: hi }`. */
  datatype Window = Window(lo: int, hi: int)

  predicate InWindow(t: DateTime, w: Window)
  {
    w.lo <= Epoch(t) <= w.hi
  }

  /** The window `getMonthlySummary` queries, as written: from `new Date(y, m, 1)`
      to `new Date(y, m + 1, 0)`, which is midnight STARTING the last day. */
  function AsWrittenWindow(today: DateTime): Window
  {
    Window(LocalMidnight(today.year, today.month, 1), LocalMidnight(today.year, today.month + 1, 0))
  }

  /** The window evidently meant: the whole current month, up to the last
      millisecond before the next month's first midnight. */
  function MonthWindow(today: DateTime): Window
  {
    Window(LocalMidnight(today.year, today.month, 1), LocalMidnight(today.year, today.month + 1, 1) - 1)
  }

  /** As written, the window holds the month's days except the last, plus only
      the single instant of midnight on the last day. */
  lemma AsWrittenWindowIff(t: DateTime, today: DateTime)
    requires ValidDateTime(t) && ValidDateTime(today)
    ensures InWindow(t, AsWrittenWindow(today))
            <==> && t.year == today.year && t.month == today.month
                 && (t.day < DaysInMonth(today.year, today.month)
                     || (t.day == DaysInMonth(today.year, today.month) && t.ms == 0))
  {
    var y, m := today.year, today.month;
    EndOfMonthIsLastDay(y, m);
    InMonthIff(t, y, m);
    MonthStep(y * 12 + m);
    IndexParts(y, m);
  }

  /** The discrepancy: an expense at noon on the last day of the current month
      is not counted. */
  lemma AsWrittenWindowMissesLastDay(today: DateTime)
    requires ValidDateTime(today)
    ensures var noon := today.(day := DaysInMonth(today.year, today.month), ms := 43200000);
            ValidDateTime(noon) && !InWindow(noon, AsWrittenWindow(today))
  {
    var noon := today.(day := DaysInMonth(today.year, today.month), ms := 43200000);
    AsWrittenWindowIff(noon, today);
  }

  /** Corrected, the window holds exactly the instants of the current month. */
  lemma MonthWindowIff(t: DateTime, today: DateTime)
    requires ValidDateTime(t) && ValidDateTime(today)
    ensures InWindow(t, MonthWindow(today)) <==> t.year == today.year && t.month == today.month
  {
    InMonthIff(t, today.year, today.month);
  }

  /** The query `{ user: userId, type: 'Expense', createdAt in w }`. */
  predicate Counts(t: Transaction, userId: ObjectId, w: Window)
  {
    t.user == userId && t.txType == Expense && InWindow(t.createdAt, w)
  }

  /** The query's result, in natural order. */
  function Matching(txs: seq<Transaction>, userId: ObjectId, w: Window): (r: seq<Transaction>)
    ensures forall t :: t in r <==> t in txs && Counts(t, userId, w)
  {
    if txs == [] then []
    else
      var init := Matching(txs[..|txs| - 1], userId, w);
      var last := txs[|txs| - 1];
      assert txs == txs[..|txs| - 1] + [last];
      if Counts(last, userId, w) then init + [last] else init
  }

  /** Reference sums over a list of transactions. */
  function AmountSum(ts: seq<Transaction>): int
  {
    if ts == [] then 0 else AmountSum(ts[..|ts| - 1]) + ts[|ts| - 1].amount
  }

  function CategoryTotal(ts: seq<Transaction>, c: string): int
  {
    if ts == [] then 0
    else CategoryTotal(ts[..|ts| - 1], c) + (if ts[|ts| - 1].category == c then ts[|ts| - 1].amount else 0)
  }

  function Categories(ts: seq<Transaction>): set<string>
  {
    if ts == [] then {} else Categories(ts[..|ts| - 1]) + {ts[|ts| - 1].category}
  }

  /** The categories are exactly those that occur. */
  lemma {:induction false} CategoriesOccur(ts: seq<Transaction>, c: string)
    ensures c in Categories(ts) <==> exists t :: t in ts && t.category == c
  {
    if ts != [] {
      var init := ts[..|ts| - 1];
      assert ts == init + [ts[|ts| - 1]];
      CategoriesOccur(init, c);
    }
  }

  /** What the running total and category object hold after `ts`. */
  ghost predicate TallyOf(ts: seq<Transaction>, total: int, cats: Entries)
  {
    && total == AmountSum(ts)
    && KeysUnique(cats) && Keys(cats) == Categories(ts)
    && (forall c :: Get(cats, c) == CategoryTotal(ts, c))
    && Sum(cats) == total
  }

  /** Appending a transaction extends each reference sum by it. */
  lemma SnocSums(ts: seq<Transaction>, t: Transaction)
    ensures AmountSum(ts + [t]) == AmountSum(ts) + t.amount
    ensures Categories(ts + [t]) == Categories(ts) + {t.category}
    ensures forall c :: CategoryTotal(ts + [t], c) == CategoryTotal(ts, c) + (if t.category == c then t.amount else 0)
  {
    var s := ts + [t];
    assert s[..|s| - 1] == ts;
  }

  /** One step of the `forEach` keeps the tally right. */
  lemma TallyStep(ts: seq<Transaction>, t: Transaction, acc: (int, Entries))
    requires TallyOf(ts, acc.0, acc.1)
    ensures TallyOf(ts + [t], AddExpense(acc, t).0, AddExpense(acc, t).1)
  {
    var cats := acc.1;
    var after := Set(cats, t.category, Get(cats, t.category) + t.amount);
    SnocSums(ts, t);
    forall c ensures Get(after, c) == CategoryTotal(ts + [t], c) {
      if c != t.category {
        assert Lookup(after, c) == Lookup(cats, c);
      }
    }
    AddToCategorySum(cats, t.category, t.amount);
    assert AddExpense(acc, t) == (acc.0 + t.amount, after);
    assert KeysUnique(after);
    assert Keys(after) == Categories(ts + [t]);
  }

  /** The `forEach` over the query result: the running total and the
      per-category object, in the order categories first appear. */
  function Tally(ts: seq<Transaction>): (int, Entries)
  {
    if ts == [] then (0, []) else AddExpense(Tally(ts[..|ts| - 1]), ts[|ts| - 1])
  }

  /** One call of the `forEach` callback on the running total and object. */
  function AddExpense(acc: (int, Entries), t: Transaction): (int, Entries)
  {
    (acc.0 + t.amount, Set(acc.1, t.category, Get(acc.1, t.category) + t.amount))
  }

  /** The tally holds the total of the amounts and, per category that
      occurs, the total of its amounts, which add up to the total. */
  lemma {:induction false} TallyCorrect(ts: seq<Transaction>)
    ensures TallyOf(ts, Tally(ts).0, Tally(ts).1)
  {
    if ts != [] {
      var init := ts[..|ts| - 1];
      var t := ts[|ts| - 1];
      TallyCorrect(init);
      assert ts == init + [t];
      TallyStep(init, t, Tally(init));
    }
  }

  datatype MonthlySummary = MonthlySummary(
    monthlyBudget: int,
    totalSpent: int,
    remaining: int,
    categorySpent: Entries)

  /** The summary over window `w`, failing when the user does not exist. */
  function SummaryOver(users: seq<User>, txs: seq<Transaction>, userId: ObjectId, w: Window)
    : (r: Result<MonthlySummary, string>)
    ensures r.Err? <==> FindUserById(users, userId).None?
    ensures r.Err? ==> r.error == UserNotFound
    ensures r.Ok? ==>
      var s := r.value;
      var ts := Matching(txs, userId, w);
      && s.monthlyBudget == FindUserById(users, userId).value.monthlyBudget
      && s.totalSpent == AmountSum(ts)
      && s.remaining == s.monthlyBudget - s.totalSpent
      && KeysUnique(s.categorySpent) && Keys(s.categorySpent) == Categories(ts)
      && (forall c :: Get(s.categorySpent, c) == CategoryTotal(ts, c))
      && Sum(s.categorySpent) == s.totalSpent
  {
    match FindUserById(users, userId)
    case None => Err(UserNotFound)
    case Some(user) =>
      TallyCorrect(Matching(txs, userId, w));
      var tally := Tally(Matching(txs, userId, w));
      Ok(MonthlySummary(user.monthlyBudget, tally.0, user.monthlyBudget - tally.0, tally.1))
  }

  /** `getMonthlySummary(userId)` on day `today`, with the window as written. */
  function GetMonthlySummary(users: seq<User>, txs: seq<Transaction>, userId: ObjectId, today: DateTime)
    : (r: Result<MonthlySummary, string>)
    ensures r == SummaryOver(users, txs, userId, AsWrittenWindow(today))
  {
    SummaryOver(users, txs, userId, AsWrittenWindow(today))
  }

  /** The summary over the corrected window. */
  function IntendedMonthlySummary(users: seq<User>, txs: seq<Transaction>, userId: ObjectId, today: DateTime)
    : (r: Result<MonthlySummary, string>)
    ensures r == SummaryOver(users, txs, userId, MonthWindow(today))
  {
    SummaryOver(users, txs, userId, MonthWindow(today))
  }

  /** A transaction that the query does not select (an income, another user's,
      or outside the window) changes nothing in the summary. */
  lemma OthersContributeNothing(users: seq<User>, txs: seq<Transaction>, t: Transaction,
                                userId: ObjectId, w: Window)
    requires !Counts(t, userId, w)
    ensures SummaryOver(users, txs + [t], userId, w) == SummaryOver(users, txs, userId, w)
  {
    assert (txs + [t])[..|txs|] == txs;
    assert Matching(txs + [t], userId, w) == Matching(txs, userId, w);
  }

  /** A selected expense adds its amount to the total, to its category, and
      takes it off what remains. */
  lemma ExpenseCounts(users: seq<User>, txs: seq<Transaction>, t: Transaction, userId: ObjectId, w: Window)
    requires Counts(t, userId, w)
    requires FindUserById(users, userId).Some?
    ensures var before := SummaryOver(users, txs, userId, w).value;
            var after := SummaryOver(users, txs + [t], userId, w).value;
            && after.totalSpent == before.totalSpent + t.amount
            && after.remaining == before.remaining - t.amount
            && Get(after.categorySpent, t.category) == Get(before.categorySpent, t.category) + t.amount
            && (forall c :: c != t.category ==> Get(after.categorySpent, c) == Get(before.categorySpent, c))
  {
    var ts := Matching(txs, userId, w);
    assert (txs + [t])[..|txs|] == txs;
    assert Matching(txs + [t], userId, w) == ts + [t];
    assert (ts + [t])[..|ts|] == ts;
  }

  /** With the corrected window, exactly the user's expenses of the current
      month are summed. */
  lemma IntendedSummaryCountsMonth(t: Transaction, userId: ObjectId, today: DateTime)
    requires ValidDateTime(t.createdAt) && ValidDateTime(today)
    ensures Counts(t, userId, MonthWindow(today))
            <==> && t.user == userId && t.txType == Expense
                 && t.createdAt.year == today.year && t.createdAt.month == today.month
  {
    MonthWindowIff(t.createdAt, today);
  }

  // ---------------------------------------------------------------------------
  // The last sixty days

  function CreatedAtKey(t: Transaction): int
  {
    Epoch(t.createdAt)
  }

  /** `setDate(getDate() - 60)` on a copy of `now`: the same time of day sixty
      calendar days earlier. */
  function SixtyDaysBefore(now: DateTime): (cutoff: int)
    ensures cutoff == Epoch(now) - 60 * MsPerDay
  {
    MakeDay(now.year, now.month, now.day - 60) * MsPerDay + now.ms
  }

  function RecentOf(txs: seq<Transaction>, userId: ObjectId, cutoff: int): (r: seq<Transaction>)
    ensures forall t :: t in r <==> t in txs && t.user == userId && Epoch(t.createdAt) >= cutoff
  {
    if txs == [] then []
    else if txs[0].user == userId && Epoch(txs[0].createdAt) >= cutoff
    then [txs[0]] + RecentOf(txs[1..], userId, cutoff)
    else RecentOf(txs[1..], userId, cutoff)
  }

  /** `getAllUserTransactions(userId)` at time `now`. */
  function GetAllUserTransactions(txs: seq<Transaction>, userId: ObjectId, now: DateTime)
    : (r: seq<Transaction>)
    ensures forall t :: t in r <==> && t in txs && t.user == userId
                                    && Epoch(t.createdAt) >= Epoch(now) - 60 * MsPerDay
    ensures NewestFirst(r, CreatedAtKey)
    ensures multiset(r) == multiset(RecentOf(txs, userId, SixtyDaysBefore(now)))
  {
    var found := RecentOf(txs, userId, SixtyDaysBefore(now));
    var r := SortNewestFirst(found, CreatedAtKey);
    forall t ensures t in r <==> t in found {
      SortKeepsMembers(found, CreatedAtKey, t);
    }
    r
  }
}
