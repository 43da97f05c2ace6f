/** The Budget ledger schema: one document per (user, month, year) holding the
    month's total spending, the spending per category (a Mongoose `Map` of
    numbers) and the monthly budget copied from the user. */
module BudgetModel {
  import opened CategoryMap
  import opened Mongoose

  /** The fields of the unique compound index `{ userId, month, year }`. */
  datatype LedgerKey = LedgerKey(userId: ObjectId, month: int, year: int)

  datatype Budget = Budget(
    userId: ObjectId,
    month: int,
    year: int,
    totalSpent: int,
    categorySpent: Entries,
    monthlyBudget: int)

  function KeyOf(b: Budget): LedgerKey
  {
    LedgerKey(b.userId, b.month, b.year)
  }

  /** A ledger as the upsert inserts it: the key fields from the filter, the
      budget from `$setOnInsert`, and the schema defaults for the rest. */
  function NewLedger(key: LedgerKey, monthlyBudget: int): (b: Budget)
    ensures KeyOf(b) == key && b.monthlyBudget == monthlyBudget
    ensures b.totalSpent == 0 && b.categorySpent == []
    ensures Balanced(b)
  {
    Budget(key.userId, key.month, key.year, 0, [], monthlyBudget)
  }

  /** The ledger invariant: the categories are distinct and their amounts add
      up to the total. */
  predicate Balanced(b: Budget)
  {
    KeysUnique(b.categorySpent) && Sum(b.categorySpent) == b.totalSpent
  }

  /** The budgets collection. Keying it by the compound index makes "at most
      one ledger per (user, month, year)" hold by construction; each ledger
      sits under its own key. */
  type Ledgers = map<LedgerKey, Budget>

  predicate WellKeyed(l: Ledgers)
  {
    forall k :: k in l ==> KeyOf(l[k]) == k
  }

  predicate AllBalanced(l: Ledgers)
  {
    forall k :: k in l ==> Balanced(l[k])
  }
}
