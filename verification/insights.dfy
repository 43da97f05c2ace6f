/** The insights page's pure logic: which insights a selected type shows,
    the total potential savings of those shown, and the colour classes for
    impact and status labels. Rendering is not modelled. */
module Insights {
  import opened Wrappers
  import opened Text

  /** The fields of an AI insight the page computes with; a missing field is
      `None`. */
  datatype Insight = Insight(
    title: string,
    category: Option<string>,
    impact: string,
    estimatedSavings: Option<int>,
    estimatedAnnualSavings: Option<int>)

  /** `typeToCategory[t]`: the category name a selected type looks for. */
  function TypeToCategory(t: string): (r: Option<string>)
    ensures r.Some? <==> t in {"spending", "savings", "investment", "debt"}
    ensures t == "spending" ==> r == Some("Food")
    ensures t == "savings" ==> r == Some("Savings")
    ensures t == "investment" ==> r == Some("Investment")
    ensures t == "debt" ==> r == Some("Debt Management")
  {
    if t == "spending" then Some("Food")
    else if t == "savings" then Some("Savings")
    else if t == "investment" then Some("Investment")
    else if t == "debt" then Some("Debt Management")
    else None
  }

  /** `typeToCategory[t]?.toLowerCase() || ""`. */
  function Needle(t: string): (n: string)
    ensures TypeToCategory(t).None? ==> n == ""
    ensures TypeToCategory(t).Some? ==> n == Lower(TypeToCategory(t).value)
  {
    match TypeToCategory(t)
    case None => ""
    case Some(c) => Lower(c)
  }

  /** The filter's test: a truthy category whose lowercase contains the needle. */
  predicate Shows(x: Insight, t: string)
  {
    x.category.Some? && x.category.value != "" && Contains(Lower(x.category.value), Needle(t))
  }

  /** `xs.filter(keep)`. */
  function KeepWhere(xs: seq<Insight>, keep: Insight -> bool): (r: seq<Insight>)
    ensures |r| <= |xs|
    ensures forall x :: x in r <==> x in xs && keep(x)
  {
    if xs == [] then []
    else if keep(xs[0]) then [xs[0]] + KeepWhere(xs[1..], keep)
    else KeepWhere(xs[1..], keep)
  }

  function KeepShown(xs: seq<Insight>, t: string): (r: seq<Insight>)
    ensures |r| <= |xs|
    ensures forall x :: x in r <==> x in xs && Shows(x, t)
  {
    KeepWhere(xs, x => Shows(x, t))
  }

  /** `filteredInsights` for the selected type. */
  function FilteredInsights(xs: seq<Insight>, selected: string): (r: seq<Insight>)
    ensures selected == "all" ==> r == xs
    ensures selected != "all" ==> forall x :: x in r <==> x in xs && Shows(x, selected)
    ensures |r| <= |xs|
  {
    if selected == "all" then xs else KeepShown(xs, selected)
  }

  /** Filtering keeps the insights' order: it distributes over concatenation. */
  lemma {:induction false} KeepWhereDistributes(a: seq<Insight>, b: seq<Insight>, keep: Insight -> bool)
    ensures KeepWhere(a + b, keep) == KeepWhere(a, keep) + KeepWhere(b, keep)
  {
    if a != [] {
      assert (a + b)[0] == a[0];
      assert (a + b)[1..] == a[1..] + b;
      KeepWhereDistributes(a[1..], b, keep);
      if keep(a[0]) {
        assert [a[0]] + (KeepWhere(a[1..], keep) + KeepWhere(b, keep))
            == ([a[0]] + KeepWhere(a[1..], keep)) + KeepWhere(b, keep);
      }
    } else {
      assert a + b == b;
    }
  }

  lemma KeepShownDistributes(a: seq<Insight>, b: seq<Insight>, t: string)
    ensures KeepShown(a + b, t) == KeepShown(a, t) + KeepShown(b, t)
  {
    KeepWhereDistributes(a, b, x => Shows(x, t));
  }

  /** An unknown type searches for "", which every non-empty category
      contains: it shows every insight that has a category. */
  lemma UnknownTypeShowsCategorised(x: Insight, t: string)
    requires TypeToCategory(t).None?
    ensures Shows(x, t) <==> x.category.Some? && x.category.value != ""
  {
    if x.category.Some? {
      assert OccursAt(Lower(x.category.value), "", 0);
    }
  }

  /** `insight.estimatedSavings || insight.estimatedAnnualSavings || 0`. */
  function SavingsOf(x: Insight): (v: int)
    ensures x.estimatedSavings.Some? && x.estimatedSavings.value != 0 ==> v == x.estimatedSavings.value
    ensures (x.estimatedSavings.None? || x.estimatedSavings.value == 0) ==> v == x.estimatedAnnualSavings.GetOr(0)
  {
    if x.estimatedSavings.Some? && x.estimatedSavings.value != 0 then x.estimatedSavings.value
    else if x.estimatedAnnualSavings.Some? && x.estimatedAnnualSavings.value != 0 then x.estimatedAnnualSavings.value
    else 0
  }

  /** `totalPotentialSavings`: the `reduce` from 0, left to right. */
  function TotalSavings(xs: seq<Insight>): (s: int)
    ensures xs == [] ==> s == 0
    ensures |xs| == 1 ==> s == SavingsOf(xs[0])
  {
    if xs == [] then 0 else TotalSavings(xs[..|xs| - 1]) + SavingsOf(xs[|xs| - 1])
  }

  /** The total of a concatenation is the sum of the totals. */
  lemma {:induction false} TotalSavingsAppend(a: seq<Insight>, b: seq<Insight>)
    ensures TotalSavings(a + b) == TotalSavings(a) + TotalSavings(b)
    decreases |b|
  {
    if b != [] {
      var init := b[..|b| - 1];
      assert (a + b)[..|a + b| - 1] == a + init;
      assert (a + b)[|a + b| - 1] == b[|b| - 1];
      TotalSavingsAppend(a, init);
    } else {
      assert a + b == a;
    }
  }

  predicate NonNegativeSavings(xs: seq<Insight>)
  {
    forall i :: 0 <= i < |xs| ==> SavingsOf(xs[i]) >= 0
  }

  /** When no insight promises a loss, narrowing the selection never raises
      the total. */
  lemma {:induction false} KeepWhereNeverRaisesTotal(xs: seq<Insight>, keep: Insight -> bool)
    requires NonNegativeSavings(xs)
    ensures TotalSavings(KeepWhere(xs, keep)) <= TotalSavings(xs)
  {
    if xs != [] {
      var x := xs[0];
      var rest := xs[1..];
      assert xs == [x] + rest;
      assert NonNegativeSavings(rest) by {
        forall i | 0 <= i < |rest| ensures SavingsOf(rest[i]) >= 0 {
          assert rest[i] == xs[i + 1];
        }
      }
      KeepWhereNeverRaisesTotal(rest, keep);
      TotalSavingsAppend([x], rest);
      assert TotalSavings([x]) == SavingsOf(x);
      if keep(x) {
        TotalSavingsAppend([x], KeepWhere(rest, keep));
      }
    }
  }

  lemma FilteringNeverRaisesTotal(xs: seq<Insight>, selected: string)
    requires NonNegativeSavings(xs)
    ensures TotalSavings(FilteredInsights(xs, selected)) <= TotalSavings(xs)
  {
    if selected != "all" {
      KeepWhereNeverRaisesTotal(xs, x => Shows(x, selected));
    }
  }

  const Gray: string := "bg-gray-100 text-gray-800"

  /** `getImpactColor`. */
  function ImpactColor(impact: string): (c: string)
    ensures impact == "High" ==> c == "bg-red-100 text-red-800"
    ensures impact == "Medium" ==> c == "bg-yellow-100 text-yellow-800"
    ensures impact == "Low" ==> c == "bg-green-100 text-green-800"
    ensures c == Gray <==> impact !in {"High", "Medium", "Low"}
  {
    match impact
    case "High" => "bg-red-100 text-red-800"
    case "Medium" => "bg-yellow-100 text-yellow-800"
    case "Low" => "bg-green-100 text-green-800"
    case _ => Gray
  }

  /** `getStatusColor`. */
  function StatusColor(status: string): (c: string)
    ensures status == "over" ==> c == "text-red-600"
    ensures status == "optimal" ==> c == "text-green-600"
    ensures status == "under" ==> c == "text-blue-600"
    ensures c == "text-gray-600" <==> status !in {"over", "optimal", "under"}
  {
    match status
    case "over" => "text-red-600"
    case "optimal" => "text-green-600"
    case "under" => "text-blue-600"
    case _ => "text-gray-600"
  }
}
