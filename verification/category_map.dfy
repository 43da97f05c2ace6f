/** Category-to-amount maps, as the application keeps them both in a Mongoose
    `Map` (the persisted ledger) and in a plain object (the computed summary):
    a list of (category, amount) entries with distinct keys, in insertion
    order, which is the order JavaScript iterates them in. */
module CategoryMap {
  import opened Wrappers

  type Entries = seq<(string, int)>

  function Keys(m: Entries): set<string>
  {
    if m == [] then {} else {m[0].0} + Keys(m[1..])
  }

  predicate KeysUnique(m: Entries)
  {
    m == [] || (m[0].0 !in Keys(m[1..]) && KeysUnique(m[1..]))
  }

  /** `map.get(k)`: the amount stored under `k`, absent when `k` is no key. */
  function Lookup(m: Entries, k: string): (r: Option<int>)
    ensures r.None? <==> k !in Keys(m)
  {
    if m == [] then None
    else if m[0].0 == k then Some(m[0].1)
    else Lookup(m[1..], k)
  }

  /** `map.get(k) || 0`: an absent category counts as 0. */
  function Get(m: Entries, k: string): int
  {
    Lookup(m, k).GetOr(0)
  }

  /** `map.set(k, v)`: an existing key keeps its place and takes the new
      amount; a new key is appended. */
  function Set(m: Entries, k: string, v: int): (r: Entries)
    ensures Keys(r) == Keys(m) + {k}
    ensures KeysUnique(m) ==> KeysUnique(r)
    ensures Lookup(r, k) == Some(v)
    ensures forall k' :: k' != k ==> Lookup(r, k') == Lookup(m, k')
    ensures k in Keys(m) ==> |r| == |m|
    ensures k !in Keys(m) ==> r == m + [(k, v)]
  {
    if m == [] then [(k, v)]
    else if m[0].0 == k then [(k, v)] + m[1..]
    else [m[0]] + Set(m[1..], k, v)
  }

  /** The sum of all amounts in the map. */
  function Sum(m: Entries): int
  {
    if m == [] then 0 else m[0].1 + Sum(m[1..])
  }

  /** Setting one key changes the sum by the difference at that key. */
  lemma {:induction false} SumSet(m: Entries, k: string, v: int)
    requires KeysUnique(m)
    ensures Sum(Set(m, k, v)) == Sum(m) - Get(m, k) + v
  {
    if m != [] && m[0].0 != k {
      SumSet(m[1..], k, v);
    } else if m != [] {
      assert Lookup(m, k) == Some(m[0].1);
    }
  }

  /** Adding `a` to one category's amount adds `a` to the sum. */
  lemma AddToCategorySum(m: Entries, k: string, a: int)
    requires KeysUnique(m)
    ensures Sum(Set(m, k, Get(m, k) + a)) == Sum(m) + a
  {
    SumSet(m, k, Get(m, k) + a);
  }
}
