/** The Gemini-backed service: the spending summary the financial coach is
    given, and how each of the three AI calls reports failure.

    The model is an oracle: its answer is its text or the error the call
    raised; `parseJson` gives the parsed value or `None` when `JSON.parse`
    throws. The prompts' fixed wording is not modelled: the coach oracle is
    given the summary text and the user's question. */
module GeminiService {
  import opened Wrappers
  import opened Text
  import opened CategoryMap

  /** The rupee sign, U+20B9. */
  const Rupee: string := "\U{20B9}"

  const NoExpensesLine: string := "No expenses recorded yet for this month."
  const BreakdownHeading: string := "Spending Breakdown:"

  /** What `budgetSummary.categorySpent` can be: absent, a plain object
      (whose `.size` is its own `size` key, usually undefined), or a `Map`. */
  datatype CategorySpent = Absent | PlainObject(entries: Entries) | JsMap(entries: Entries)

  /** A budget summary; a missing number is `None`. */
  datatype BudgetSummary = BudgetSummary(
    monthlyBudget: Option<int>,
    totalSpent: Option<int>,
    remaining: Option<int>,
    categorySpent: CategorySpent)

  /** `${v}` for a number that may be missing. */
  function Render(v: Option<int>): (s: string)
    ensures '\n' !in s
    ensures v.None? ==> s == "undefined"
  {
    match v
    case None => "undefined"
    case Some(n) => IntToString(n)
  }

  /** A labelled amount, "<name>₹<value>". */
  function AmountLine(name: string, v: Option<int>): (s: string)
    requires '\n' !in name
    ensures '\n' !in s
  {
    name + Rupee + Render(v)
  }

  function HeaderLines(b: BudgetSummary): (ls: seq<string>)
    ensures |ls| == 3
    ensures forall k :: 0 <= k < 3 ==> '\n' !in ls[k]
  {
    [ AmountLine("Total Monthly Budget: ", b.monthlyBudget),
      AmountLine("Total Spent So Far: ", b.totalSpent),
      AmountLine("Funds Remaining: ", b.remaining) ]
  }

  /** "- <category>: ₹<amount>". */
  function EntryLine(category: string, amount: int): (s: string)
    ensures '\n' !in category ==> '\n' !in s
  {
    "- " + category + ": " + Rupee + IntToString(amount)
  }

  /** Categories without a line break in them. */
  predicate SingleLineEntries(m: Entries)
  {
    forall i :: 0 <= i < |m| ==> '\n' !in m[i].0
  }

  /** The entry lines, in iteration order. */
  function EntryLines(m: Entries): (ls: seq<string>)
    ensures |ls| == |m|
    ensures SingleLineEntries(m) ==> forall i :: 0 <= i < |ls| ==> '\n' !in ls[i]
  {
    if m == [] then [] else [EntryLine(m[0].0, m[0].1)] + EntryLines(m[1..])
  }

  /** Entry `i` of the map gives line `i`. */
  lemma {:induction false} EntryLinesInOrder(m: Entries, i: nat)
    requires i < |m|
    ensures EntryLines(m)[i] == EntryLine(m[i].0, m[i].1)
  {
    if i > 0 {
      EntryLinesInOrder(m[1..], i - 1);
    }
  }

  /** `categorySpent && categorySpent.size > 0` passing on a plain object:
      its own `size` key holds a positive number. The `forEach` that follows
      is then not a function and throws a TypeError. */
  predicate BreakdownThrows(c: CategorySpent)
  {
    c.PlainObject? && Lookup(c.entries, "size").Some? && Lookup(c.entries, "size").value > 0
  }

  /** `categorySpent && categorySpent.size > 0` passing without an error: only
      a non-empty `Map`. */
  predicate HasBreakdown(c: CategorySpent)
  {
    c.JsMap? && |c.entries| > 0
  }

  /** The lines after the three amounts, when building them does not throw. */
  function BodyLines(c: CategorySpent): (ls: seq<string>)
    ensures |ls| >= 1
    ensures HasBreakdown(c) <==> ls[0] == BreakdownHeading
    ensures HasBreakdown(c) ==> ls[1..] == EntryLines(c.entries)
    ensures !HasBreakdown(c) ==> ls == [NoExpensesLine]
    ensures !c.Absent? && SingleLineEntries(c.entries) ==> forall k :: 0 <= k < |ls| ==> '\n' !in ls[k]
  {
    if HasBreakdown(c) then
      var es := EntryLines(c.entries);
      assert ([BreakdownHeading] + es)[1..] == es;
      [BreakdownHeading] + es
    else
      assert |NoExpensesLine| != |BreakdownHeading|;
      [NoExpensesLine]
  }

  /** The lines of `summaryLines`, before each is given its newline. */
  function SummaryLineList(b: BudgetSummary): (ls: seq<string>)
    ensures |ls| >= 4
    ensures ls[..3] == HeaderLines(b)
    ensures ls[3..] == BodyLines(b.categorySpent)
  {
    var head := HeaderLines(b);
    var tail := BodyLines(b.categorySpent);
    assert (head + tail)[..3] == head;
    assert (head + tail)[3..] == tail;
    head + tail
  }

  /** `summaryLines`: every line followed by "\n"; `None` when building it
      throws. */
  function SummaryText(b: BudgetSummary): (t: Option<string>)
    ensures t.None? <==> BreakdownThrows(b.categorySpent)
  {
    if BreakdownThrows(b.categorySpent) then None
    else Some(Terminated(SummaryLineList(b), '\n'))
  }

  /** With single-line categories, no line of the summary breaks. */
  lemma SummaryLinesSingle(b: BudgetSummary)
    requires !b.categorySpent.Absent? ==> SingleLineEntries(b.categorySpent.entries)
    ensures forall k :: 0 <= k < |SummaryLineList(b)| ==> '\n' !in SummaryLineList(b)[k]
  {
    var ls := SummaryLineList(b);
    var head, tail := HeaderLines(b), BodyLines(b.categorySpent);
    assert ls == head + tail;
    assert forall k :: 0 <= k < |tail| ==> '\n' !in tail[k];
    forall k | 0 <= k < |ls| ensures '\n' !in ls[k] {
      if k < 3 {
        assert ls[k] == head[k];
      } else {
        assert ls[k] == tail[k - 3];
      }
    }
  }

  /** Reading the text back line by line gives exactly the summary's lines
      (the three amounts, then the breakdown or the no-expenses line) and
      nothing after the final newline. */
  lemma SummaryTextLines(b: BudgetSummary)
    requires !b.categorySpent.Absent? ==> SingleLineEntries(b.categorySpent.entries)
    ensures SummaryText(b).Some? ==> Fields(SummaryText(b).value, '\n') == SummaryLineList(b) + [[]]
  {
    SummaryLinesSingle(b);
    FieldsOfTerminated(SummaryLineList(b), '\n');
  }

  /** A plain-object `categorySpent`, as the monthly summary builds it, never
      produces a breakdown, however many categories it holds: the summary has
      the no-expenses line, or, when a category named "size" holds a positive
      amount, the advice call fails. */
  lemma PlainObjectHasNoBreakdown(b: BudgetSummary, query: string,
                                  coach: (string, string) -> Result<string, string>)
    requires b.categorySpent.PlainObject?
    ensures SummaryLineList(b)[3..] == [NoExpensesLine]
    ensures GetFinancialAdvice(query, Some(b), coach).Ok? ==>
              Lookup(b.categorySpent.entries, "size").None? || Lookup(b.categorySpent.entries, "size").value <= 0
  {
  }

  /** Example: a plain object whose only category is "size", holding 120,
      passes the `size` test and makes the advice call fail, whatever the
      coach would answer. */
  lemma SizeCategoryFailsAdvice(query: string, coach: (string, string) -> Result<string, string>)
    ensures GetFinancialAdvice(query, Some(BudgetSummary(Some(5000), Some(120), Some(4880),
                                                         PlainObject([("size", 120)]))), coach)
         == Err(AdviceFailure)
  {
  }

  datatype ApiError = ApiError(status: int, message: string)

  const SmsParseFailure: ApiError := ApiError(500, "Failed to parse SMS with AI service")
  const AdviceFailure: ApiError := ApiError(500, "Failed to get advice from AI service")
  const InsightsFailure: ApiError := ApiError(500, "Failed to generate AI insights.")

  /** `parseTransactionFromSms`: the parsed answer, or one wrapped error. */
  function ParseTransactionFromSms<J>(ai: Result<string, string>, parseJson: string -> Option<J>)
    : (r: Result<J, ApiError>)
    ensures r.Ok? <==> ai.Ok? && parseJson(ai.value).Some?
    ensures r.Ok? ==> r.value == parseJson(ai.value).value
    ensures r.Err? ==> r.error == SmsParseFailure
  {
    match ai
    case Err(_) => Err(SmsParseFailure)
    case Ok(text) =>
      match parseJson(text)
      case None => Err(SmsParseFailure)
      case Some(j) => Ok(j)
  }

  datatype Advice = Advice(advice: string)

  /** `getFinancialAdvice(query, summary)`: the coach's text unchanged, or one
      wrapped error, also when the summary is missing and when building its
      text throws. */
  function GetFinancialAdvice(query: string, summary: Option<BudgetSummary>,
                              coach: (string, string) -> Result<string, string>)
    : (r: Result<Advice, ApiError>)
    ensures summary.None? ==> r == Err(AdviceFailure)
    ensures summary.Some? && BreakdownThrows(summary.value.categorySpent) ==> r == Err(AdviceFailure)
    ensures summary.Some? && !BreakdownThrows(summary.value.categorySpent) ==>
              match coach(Terminated(SummaryLineList(summary.value), '\n'), query)
              case Ok(text) => r == Ok(Advice(text))
              case Err(_) => r == Err(AdviceFailure)
  {
    match summary
    case None => Err(AdviceFailure)
    case Some(b) =>
      match SummaryText(b)
      case None => Err(AdviceFailure)
      case Some(text) =>
        match coach(text, query)
        case Ok(advice) => Ok(Advice(advice))
        case Err(_) => Err(AdviceFailure)
  }

  /** How `generateFinancialInsights` fails: a wrapped error from inside its
      `try`, or the `TypeError` of `budget.toLocaleString` on a missing budget,
      which is raised before the `try` and reaches the caller unwrapped. */
  datatype InsightsError = Wrapped(error: ApiError) | MissingBudget

  function GenerateFinancialInsights<J>(budget: Option<int>, ai: Result<string, string>,
                                        parseJson: string -> Option<J>)
    : (r: Result<J, InsightsError>)
    ensures budget.None? ==> r == Err(MissingBudget)
    ensures r.Ok? <==> budget.Some? && ai.Ok? && parseJson(ai.value).Some?
    ensures r.Ok? ==> r.value == parseJson(ai.value).value
    ensures budget.Some? && r.Err? ==> r.error == Wrapped(InsightsFailure)
  {
    if budget.None? then Err(MissingBudget)
    else
      match ai
      case Err(_) => Err(Wrapped(InsightsFailure))
      case Ok(text) =>
        match parseJson(text)
        case None => Err(Wrapped(InsightsFailure))
        case Some(j) => Ok(j)
  }
}
