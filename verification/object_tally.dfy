/** The per-category tally of the monthly summary as JavaScript evaluates it
    on the plain object `{}`. Reading `categorySpent[c]` for a category that
    is not yet an own key finds whatever `Object.prototype` holds under that
    name: `undefined` for ordinary names, so that the tally is the one
    `TransactionService.Tally` computes, but a method for the prototype's
    method names and the prototype itself for `__proto__`. */
module ObjectTally {
  import opened Wrappers
  import opened Text
  import opened CategoryMap
  import opened TransactionModel
  import opened TransactionService

  /** A property value as the tally meets it. */
  datatype JsValue = Undefined | Num(n: int) | Str(s: string) | Method(name: string) | Prototype

  /** The own properties of the object, in insertion order. */
  type Props = seq<(string, JsValue)>

  /** The methods every plain object inherits from `Object.prototype`. */
  const InheritedMethods: seq<string> :=
    ["constructor", "hasOwnProperty", "isPrototypeOf", "propertyIsEnumerable",
     "toLocaleString", "toString", "valueOf", "__defineGetter__",
     "__defineSetter__", "__lookupGetter__", "__lookupSetter__"]

  const ProtoKey: string := "__proto__"

  /** Names under which `{}` already holds something. */
  predicate Inherited(c: string)
  {
    c == ProtoKey || c in InheritedMethods
  }

  function OwnLookup(o: Props, k: string): Option<JsValue>
  {
    if o == [] then None
    else if o[0].0 == k then Some(o[0].1)
    else OwnLookup(o[1..], k)
  }

  /** `o[k]`: the own property, else the inherited member, else `undefined`.
      `__proto__` is an accessor and always reads the prototype. */
  function Read(o: Props, k: string): (v: JsValue)
    ensures k != ProtoKey && OwnLookup(o, k).Some? ==> v == OwnLookup(o, k).value
    ensures OwnLookup(o, k).None? && !Inherited(k) ==> v == Undefined
    ensures OwnLookup(o, k).None? && k in InheritedMethods ==> v == Method(k)
  {
    if k == ProtoKey then Prototype
    else match OwnLookup(o, k)
      case Some(v) => v
      case None => if k in InheritedMethods then Method(k) else Undefined
  }

  /** The text a built-in method converts to. */
  function MethodText(name: string): string
  {
    "function " + (if name == "constructor" then "Object" else name) + "() { [native code] }"
  }

  /** `String(v)`. */
  function ToText(v: JsValue): string
  {
    match v
    case Undefined => "undefined"
    case Num(n) => IntToString(n)
    case Str(s) => s
    case Method(name) => MethodText(name)
    case Prototype => "[object Object]"
  }

  /** `(v || 0) + amount`: a falsy value counts as 0; a truthy value that is
      not a number turns the sum into string concatenation. */
  function AddAmount(v: JsValue, amount: int): (r: JsValue)
    ensures v.Undefined? || v == Num(0) || v == Str("") ==> r == Num(amount)
    ensures v.Num? ==> r == Num(v.n + amount)
    ensures v.Method? || v.Prototype? || (v.Str? && v.s != "") ==> r == Str(ToText(v) + IntToString(amount))
  {
    match v
    case Undefined => Num(amount)
    case Num(n) => Num(n + amount)
    case Str(s) => if s == "" then Num(amount) else Str(s + IntToString(amount))
    case _ => Str(ToText(v) + IntToString(amount))
  }

  function SetProp(o: Props, k: string, v: JsValue): Props
  {
    if o == [] then [(k, v)]
    else if o[0].0 == k then [(k, v)] + o[1..]
    else [o[0]] + SetProp(o[1..], k, v)
  }

  /** `o[k] = v`: assigning a non-object to `__proto__` is ignored; any other
      key becomes an own property, updated in place or appended. */
  function Assign(o: Props, k: string, v: JsValue): (r: Props)
    ensures k == ProtoKey ==> r == o
    ensures k != ProtoKey ==> OwnLookup(r, k) == Some(v)
  {
    if k == ProtoKey then o else SetPropFinds(o, k, v); SetProp(o, k, v)
  }

  lemma {:induction false} SetPropFinds(o: Props, k: string, v: JsValue)
    ensures OwnLookup(SetProp(o, k, v), k) == Some(v)
  {
    if o != [] && o[0].0 != k {
      SetPropFinds(o[1..], k, v);
    }
  }

  /** `categorySpent[t.category] = (categorySpent[t.category] || 0) + t.amount`. */
  function Step(o: Props, t: Transaction): Props
  {
    Assign(o, t.category, AddAmount(Read(o, t.category), t.amount))
  }

  /** The `forEach` of `getMonthlySummary` as written: the running total and
      the object's own properties. */
  function AsWrittenTally(ts: seq<Transaction>): (r: (int, Props))
    ensures r.0 == Tally(ts).0
  {
    if ts == [] then (0, [])
    else
      var before := AsWrittenTally(ts[..|ts| - 1]);
      var t := ts[|ts| - 1];
      (before.0 + t.amount, Step(before.1, t))
  }

  /** The amounts of a category map as numeric properties. */
  function Lift(m: Entries): (o: Props)
    ensures |o| == |m|
  {
    if m == [] then [] else [(m[0].0, Num(m[0].1))] + Lift(m[1..])
  }

  lemma {:induction false} LiftLookup(m: Entries, k: string)
    ensures OwnLookup(Lift(m), k) == if Lookup(m, k).Some? then Some(Num(Lookup(m, k).value)) else None
  {
    if m != [] && m[0].0 != k {
      LiftLookup(m[1..], k);
    }
  }

  lemma {:induction false} LiftSet(m: Entries, k: string, v: int)
    ensures SetProp(Lift(m), k, Num(v)) == Lift(Set(m, k, v))
  {
    if m != [] && m[0].0 != k {
      LiftSet(m[1..], k, v);
    }
  }

  /** One step on an ordinary name: the object's step is the map's step. */
  lemma OrdinaryStep(acc: (int, Entries), t: Transaction)
    requires !Inherited(t.category)
    ensures Step(Lift(acc.1), t) == Lift(AddExpense(acc, t).1)
  {
    var m, c := acc.1, t.category;
    assert c != ProtoKey && c !in InheritedMethods;
    var v := Get(m, c) + t.amount;
    LiftLookup(m, c);
    assert Read(Lift(m), c) == if Lookup(m, c).Some? then Num(Lookup(m, c).value) else Undefined;
    assert Step(Lift(m), t) == SetProp(Lift(m), c, Num(v));
    LiftSet(m, c, v);
    assert AddExpense(acc, t).1 == Set(m, c, v);
  }


  /** The last transaction is the last step of both tallies. */
  lemma LastSteps(ts: seq<Transaction>)
    requires ts != []
    ensures var init, t := ts[..|ts| - 1], ts[|ts| - 1];
            && Tally(ts) == AddExpense(Tally(init), t)
            && AsWrittenTally(ts).1 == Step(AsWrittenTally(init).1, t)
  {
  }

  /** No category of `ts` is named like a member of `Object.prototype`. */
  predicate OrdinaryNames(ts: seq<Transaction>)
  {
    forall i :: 0 <= i < |ts| ==> !Inherited(ts[i].category)
  }

  /** Where no category is named like a member of `Object.prototype`, the
      object as written holds exactly the numeric tally of
      `TransactionService.Tally`, in the same order. */
  lemma {:induction false} AgreesOnOrdinaryNames(ts: seq<Transaction>)
    requires OrdinaryNames(ts)
    ensures AsWrittenTally(ts).1 == Lift(Tally(ts).1)
  {
    if ts != [] {
      var init := ts[..|ts| - 1];
      var t := ts[|ts| - 1];
      assert OrdinaryNames(init) by {
        forall i | 0 <= i < |init| ensures !Inherited(init[i].category) {
          assert init[i] == ts[i];
        }
      }
      assert !Inherited(t.category);
      AgreesOnOrdinaryNames(init);
      LastSteps(ts);
      OrdinaryStep(Tally(init), t);
    }
  }

  /** Example: a single expense filed under a method name of the prototype
      is stored as the method's text with the amount appended, where the
      tally holds the amount. */
  lemma InheritedNameConcatenates(t: Transaction)
    requires t.category in InheritedMethods
    ensures AsWrittenTally([t]).1 == [(t.category, Str(MethodText(t.category) + IntToString(t.amount)))]
    ensures Tally([t]).1 == [(t.category, t.amount)]
  {
    assert [t][..0] == [];
  }

  /** Example: a single expense filed under "__proto__" leaves no property
      at all, where the tally holds the amount. */
  lemma ProtoNameDropped(t: Transaction)
    requires t.category == ProtoKey
    ensures AsWrittenTally([t]).1 == []
    ensures Tally([t]).1 == [(ProtoKey, t.amount)]
  {
    assert [t][..0] == [];
  }
}
