/** The loosely-typed data a schema is applied to: Ruby strings, symbols,
    numbers, booleans, nil, the absent-key marker `Void`, arrays and hashes. */
module Values {
  import opened Text

  datatype Option<+T> = None | Some(value: T)

  /** A hash key: a Ruby symbol (`:name`) or a Ruby string (`"name"`). */
  datatype Key = Sym(name: string) | KStr(text: string)

  /** A data value. `Void` is the marker substituted for a hash field that is
      absent under both of its lookup keys; `Map` keeps insertion order. */
  datatype Value =
    | Str(s: string)
    | Symbol(name: string)
    | Num(n: int)
    | Bool(b: bool)
    | Nil
    | Void
    | Arr(items: seq<Value>)
    | Map(entries: seq<(Key, Value)>)

  /** `key.to_s`: a symbol renders without its colon, a string as itself. */
  function KeyText(k: Key): string
  {
    match k
    case Sym(n) => n
    case KStr(t) => t
  }

  /** The fallback lookup key `key.to_s`, as a hash key. */
  function AsStringKey(k: Key): (r: Key)
    ensures r.KStr? && KeyText(r) == KeyText(k)
    ensures k.KStr? ==> r == k
  {
    KStr(KeyText(k))
  }

  /** `hash.keys`, in order. */
  function KeysOf<T>(entries: seq<(Key, T)>): seq<Key>
  {
    seq(|entries|, i requires 0 <= i < |entries| => entries[i].0)
  }

  lemma KeysOfConcat<T>(a: seq<(Key, T)>, b: seq<(Key, T)>)
    ensures KeysOf(a + b) == KeysOf(a) + KeysOf(b)
  {
  }

  /** No key occurs twice, as in every Ruby hash. */
  predicate Distinct(ks: seq<Key>)
  {
    forall i, j :: 0 <= i < j < |ks| ==> ks[i] != ks[j]
  }

  /** The position of the first occurrence of `k`. */
  function IndexOf(ks: seq<Key>, k: Key): (i: nat)
    requires k in ks
    ensures i < |ks| && ks[i] == k
  {
    if ks[0] == k then 0 else 1 + IndexOf(ks[1..], k)
  }

  /** Without its first key, a list of distinct keys stays distinct and no
      longer holds that key. */
  lemma DistinctTail(ks: seq<Key>)
    requires |ks| > 0 && Distinct(ks)
    ensures Distinct(ks[1..]) && ks[0] !in ks[1..]
  {
    forall i, j | 0 <= i < j < |ks[1..]| ensures ks[1..][i] != ks[1..][j] {
      assert ks[1..][i] == ks[i + 1] && ks[1..][j] == ks[j + 1];
    }
  }

  /** A key past the head sits one position further than in the tail. */
  lemma IndexOfTail(ks: seq<Key>, k: Key)
    requires |ks| > 0 && k in ks[1..] && k != ks[0]
    ensures IndexOf(ks, k) == 1 + IndexOf(ks[1..], k)
  {
  }

  /** The keys `xs` all occur in `ks`, in the same order as there. */
  predicate InOrderOf(xs: seq<Key>, ks: seq<Key>)
  {
    (forall i :: 0 <= i < |xs| ==> xs[i] in ks) &&
    forall i, j :: 0 <= i < j < |xs| ==> IndexOf(ks, xs[i]) < IndexOf(ks, xs[j])
  }

  /** Keys taken in order from a list occur once each. */
  lemma InOrderDistinct(xs: seq<Key>, ks: seq<Key>)
    requires InOrderOf(xs, ks)
    ensures Distinct(xs)
  {
    forall i, j | 0 <= i < j < |xs| ensures xs[i] != xs[j] {
      assert IndexOf(ks, xs[i]) < IndexOf(ks, xs[j]);
    }
  }

  /** Keys in order within the tail of a list whose head does not recur
      stay in order in the whole list. */
  lemma InOrderBehind(ks: seq<Key>, xs: seq<Key>)
    requires |ks| > 0 && ks[0] !in ks[1..] && InOrderOf(xs, ks[1..])
    ensures InOrderOf(xs, ks)
  {
    forall i | 0 <= i < |xs| ensures xs[i] in ks && IndexOf(ks, xs[i]) == 1 + IndexOf(ks[1..], xs[i]) {
      IndexOfTail(ks, xs[i]);
    }
  }

  /** Keys in order within the tail stay in order behind the head when it
      is put in front of them. */
  lemma InOrderWithHead(ks: seq<Key>, xs: seq<Key>)
    requires |ks| > 0 && ks[0] !in ks[1..] && InOrderOf(xs, ks[1..])
    ensures InOrderOf([ks[0]] + xs, ks)
  {
    InOrderBehind(ks, xs);
    var ys := [ks[0]] + xs;
    assert IndexOf(ks, ks[0]) == 0;
    forall i | 0 < i < |ys| ensures ys[i] == xs[i - 1] && ys[i] in ks && IndexOf(ks, ys[i]) > 0 {
      IndexOfTail(ks, xs[i - 1]);
    }
  }

  /** Keys in order within the tail stay in order in the whole list, with
      or without the head in front of them. */
  lemma InOrderCons(ks: seq<Key>, xs: seq<Key>, withHead: bool)
    requires |ks| > 0 && ks[0] !in ks[1..] && InOrderOf(xs, ks[1..])
    ensures InOrderOf((if withHead then [ks[0]] else []) + xs, ks)
  {
    if withHead {
      InOrderWithHead(ks, xs);
    } else {
      InOrderBehind(ks, xs);
      assert [] + xs == xs;
    }
  }

  /** Two lists of distinct keys with no key in common join into one. */
  lemma DistinctConcat(a: seq<Key>, b: seq<Key>)
    requires Distinct(a) && Distinct(b)
    requires forall j :: 0 <= j < |b| ==> b[j] !in a
    ensures Distinct(a + b)
  {
    forall i, j | 0 <= i < j < |a + b| ensures (a + b)[i] != (a + b)[j] {
      if j >= |a| {
        assert (a + b)[j] == b[j - |a|];
        if i >= |a| { assert (a + b)[i] == b[i - |a|]; }
      }
    }
  }

  /** `hash.fetch(k)` when it succeeds: the value stored under the first
      occurrence of `k`; `None` when `k` is not a key. */
  function Fetch(entries: seq<(Key, Value)>, k: Key): (r: Option<Value>)
    ensures r.Some? <==> k in KeysOf(entries)
    ensures r.Some? ==>
      exists i :: 0 <= i < |entries| && entries[i] == (k, r.value) &&
        forall j :: 0 <= j < i ==> entries[j].0 != k
  {
    if |entries| == 0 then None
    else if entries[0].0 == k then
      assert KeysOf(entries)[0] == k;
      Some(entries[0].1)
    else
      var r := Fetch(entries[1..], k);
      assert KeysOf(entries) == [entries[0].0] + KeysOf(entries[1..]);
      if r.Some? then
        ghost var i :| 0 <= i < |entries[1..]| && entries[1..][i] == (k, r.value) &&
          forall j :: 0 <= j < i ==> entries[1..][j].0 != k;
        assert entries[i + 1] == (k, r.value);
        assert forall j :: 0 <= j < i + 1 ==> entries[j].0 != k by {
          forall j | 0 <= j < i + 1 ensures entries[j].0 != k {
            if j > 0 { assert entries[j] == entries[1..][j - 1]; }
          }
        }
        r
      else r
  }

  /** `hash.fetch(key, hash.fetch(key.to_s, Void.new))`: the declared key
      first, then its string form, else the absent-key marker. */
  function Lookup(entries: seq<(Key, Value)>, k: Key): (r: Value)
    ensures k in KeysOf(entries) ==> (k, r) in entries
    ensures k !in KeysOf(entries) && AsStringKey(k) in KeysOf(entries) ==>
      (AsStringKey(k), r) in entries
    ensures k !in KeysOf(entries) && AsStringKey(k) !in KeysOf(entries) ==> r == Void
  {
    match Fetch(entries, k)
    case Some(v) => v
    case None =>
      match Fetch(entries, AsStringKey(k))
      case Some(v) => v
      case None => Void
  }

  /** `Fetch` finds the first entry stored under a key. */
  lemma {:induction false} FetchFirst(entries: seq<(Key, Value)>, i: nat)
    requires i < |entries| && entries[i].0 !in KeysOf(entries[..i])
    ensures Fetch(entries, entries[i].0) == Some(entries[i].1)
    decreases i
  {
    if i > 0 {
      var k := entries[i].0;
      assert KeysOf(entries[..i])[0] == entries[0].0;
      var rest := entries[1..];
      assert rest[i - 1] == entries[i];
      assert KeysOf(rest[..i - 1]) == KeysOf(entries[..i])[1..];
      FetchFirst(rest, i - 1);
    }
  }

  /** Ruby `==` on data (`Hash#==`, `Array#==` and the scalars' `==`): two
      hashes are equal when they have the same keys and equal values under
      each key, whatever the order of their entries; arrays compare entry by
      entry. Only the first entry under a repeated key counts, as in `fetch`. */
  predicate ValueEq(a: Value, b: Value)
    decreases a
  {
    match a
    case Arr(xs) =>
      b.Arr? && |xs| == |b.items| &&
      forall i :: 0 <= i < |xs| ==> ValueEq(xs[i], b.items[i])
    case Map(es) =>
      b.Map? &&
      (forall j :: 0 <= j < |b.entries| ==> b.entries[j].0 in KeysOf(es)) &&
      forall i :: 0 <= i < |es| && es[i].0 !in KeysOf(es[..i]) ==>
        Fetch(b.entries, es[i].0).Some? && ValueEq(es[i].1, Fetch(b.entries, es[i].0).value)
    case _ => a == b
  }

  /** Every value is `==` to itself. */
  lemma {:induction false} ValueEqRefl(a: Value)
    ensures ValueEq(a, a)
    decreases a
  {
    match a
    case Arr(xs) =>
      forall i | 0 <= i < |xs| ensures ValueEq(xs[i], xs[i]) {
        ValueEqRefl(xs[i]);
      }
    case Map(es) =>
      forall j | 0 <= j < |es| ensures es[j].0 in KeysOf(es) {
        assert KeysOf(es)[j] == es[j].0;
      }
      forall i | 0 <= i < |es| && es[i].0 !in KeysOf(es[..i])
        ensures Fetch(es, es[i].0).Some? && ValueEq(es[i].1, Fetch(es, es[i].0).value)
      {
        FetchFirst(es, i);
        ValueEqRefl(es[i].1);
      }
    case _ =>
  }

  /** `list.include?(x)`: some member is `==` to `x`. */
  predicate Includes(members: seq<Value>, x: Value)
  {
    exists i :: 0 <= i < |members| && ValueEq(members[i], x)
  }

  /** Ruby `inspect` of a key as it appears inside a hash: `:name` or `"name"`. */
  function InspectKey(k: Key): string
  {
    match k
    case Sym(n) => ":" + n
    case KStr(t) => Quote(t)
  }

  /** Ruby `inspect` of a value, used in every "but got" message. `Void`
      renders as `Nothing`, its own `inspect`. */
  function Inspect(v: Value): string
  {
    match v
    case Str(s) => Quote(s)
    case Symbol(n) => ":" + n
    case Num(n) => IntToString(n)
    case Bool(b) => if b then "true" else "false"
    case Nil => "nil"
    case Void => "Nothing"
    case Arr(items) =>
      "[" + Join(seq(|items|, i requires 0 <= i < |items| => Inspect(items[i])), ", ") + "]"
    case Map(entries) =>
      "{" + Join(seq(|entries|, i requires 0 <= i < |entries| =>
                   InspectKey(entries[i].0) + "=>" + Inspect(entries[i].1)), ", ") + "}"
  }
}
