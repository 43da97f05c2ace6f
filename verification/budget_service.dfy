/** `updateBudgetOnNewTransaction`: find the user, upsert the ledger for the
    transaction's (user, month, year) with the user's monthly budget set only
    on insert, add an expense to the total and to its category, and save. Every
    failure is caught and logged, so the caller never sees an error; what
    reached the database before the failure stays there. */
module BudgetService {
  import opened Wrappers
  import opened Calendar
  import opened CategoryMap
  import opened Mongoose
  import opened BudgetModel
  import opened TransactionModel
  import opened UserModel

  /** The ledger key of a transaction dated `date`: `getMonth() + 1` and
      `getFullYear()`. */
  function LedgerKeyFor(userId: ObjectId, date: DateTime): (k: LedgerKey)
    requires ValidDateTime(date)
    ensures 1 <= k.month <= 12
    ensures k.userId == userId && k.year == date.year && k.month - 1 == date.month
  {
    LedgerKey(userId, date.month + 1, date.year)
  }

  /** `findOneAndUpdate(key, { $setOnInsert: { monthlyBudget } }, { upsert: true })`:
      an existing ledger is left as it is; a missing one is inserted. */
  function Upsert(l: Ledgers, key: LedgerKey, monthlyBudget: int): (r: Ledgers)
    ensures key in r
    ensures key in l ==> r[key] == l[key]
    ensures key !in l ==> r[key] == NewLedger(key, monthlyBudget)
    ensures forall k :: k != key ==> (k in r <==> k in l)
    ensures forall k :: k != key && k in l ==> r[k] == l[k]
  {
    if key in l then l else l[key := NewLedger(key, monthlyBudget)]
  }

  /** The in-memory expense update, or `None` when `categorySpent.set` throws
      because the category is not a valid `Map` key. */
  function AddExpense(b: Budget, category: string, amount: int): (r: Option<Budget>)
    ensures r.None? <==> !ValidMapKey(category)
    ensures r.Some? ==> && KeyOf(r.value) == KeyOf(b)
                        && r.value.monthlyBudget == b.monthlyBudget
                        && r.value.totalSpent == b.totalSpent + amount
                        && Get(r.value.categorySpent, category) == Get(b.categorySpent, category) + amount
                        && (forall c :: c != category ==>
                              Lookup(r.value.categorySpent, c) == Lookup(b.categorySpent, c))
    ensures r.Some? && Balanced(b) ==> Balanced(r.value)
  {
    if !ValidMapKey(category) then None
    else
      var cats := Set(b.categorySpent, category, Get(b.categorySpent, category) + amount);
      assert KeysUnique(b.categorySpent) ==> Sum(cats) == Sum(b.categorySpent) + amount by {
        if KeysUnique(b.categorySpent) {
          AddToCategorySum(b.categorySpent, category, amount);
        }
      }
      Some(b.(totalSpent := b.totalSpent + amount, categorySpent := cats))
  }

  /** The ledgers after `updateBudgetOnNewTransaction(userId, txn)`, where
      `date` is the date the transaction is filed under. */
  function UpdateBudgetOnNewTransaction(ledgers: Ledgers, users: seq<User>, userId: ObjectId,
                                       txn: Transaction, date: DateTime): (r: Ledgers)
    requires ValidDateTime(date)
    ensures FindUserById(users, userId).None? ==> r == ledgers
    ensures FindUserById(users, userId).Some? ==>
      var key := LedgerKeyFor(userId, date);
      var base := Upsert(ledgers, key, FindUserById(users, userId).value.monthlyBudget)[key];
      && key in r
      && (forall k :: k != key ==> (k in r <==> k in ledgers) && (k in r ==> r[k] == ledgers[k]))
      && r[key].monthlyBudget == (if key in ledgers then ledgers[key].monthlyBudget
                                  else FindUserById(users, userId).value.monthlyBudget)
      && (txn.txType == Income || !ValidMapKey(txn.category) ==> r[key] == base)
      && (txn.txType == Expense && ValidMapKey(txn.category) ==>
            && r[key].totalSpent == base.totalSpent + txn.amount
            && Get(r[key].categorySpent, txn.category) == Get(base.categorySpent, txn.category) + txn.amount
            && (forall c :: c != txn.category ==>
                  Lookup(r[key].categorySpent, c) == Lookup(base.categorySpent, c)))
  {
    match FindUserById(users, userId)
    case None => ledgers
    case Some(user) =>
      var key := LedgerKeyFor(userId, date);
      var upserted := Upsert(ledgers, key, user.monthlyBudget);
      if txn.txType == Income then upserted
      else
        match AddExpense(upserted[key], txn.category, txn.amount)
        case None => upserted
        case Some(b) => upserted[key := b]
  }

  /** Every update keeps each ledger under its own key and keeps every ledger
      balanced: the categories still add up to the total. */
  lemma UpdateKeepsInvariants(ledgers: Ledgers, users: seq<User>, userId: ObjectId,
                              txn: Transaction, date: DateTime)
    requires ValidDateTime(date)
    requires WellKeyed(ledgers) && AllBalanced(ledgers)
    ensures var r := UpdateBudgetOnNewTransaction(ledgers, users, userId, txn, date);
            WellKeyed(r) && AllBalanced(r)
  {
    var r := UpdateBudgetOnNewTransaction(ledgers, users, userId, txn, date);
    if FindUserById(users, userId).Some? {
      var key := LedgerKeyFor(userId, date);
      var base := Upsert(ledgers, key, FindUserById(users, userId).value.monthlyBudget)[key];
      assert Balanced(base) && KeyOf(base) == key;
      if txn.txType == Expense && ValidMapKey(txn.category) {
        assert r[key] == AddExpense(base, txn.category, txn.amount).value;
      }
    }
  }
}
