/**
 * The JavaScript values the backend handles: request bodies, cookies and the
 * records the database returns are plain objects, modelled as their own
 * enumerable properties in the order the model lists them. JavaScript lists
 * integer-like keys first; the model does not reorder them.
 */
module Js {

  datatype JsValue = Undefined | Null | Bool(b: bool) | Num(n: int) | Str(s: string)

  /** `!!v`. Numbers are integers in this model, so NaN does not arise. */
  predicate Truthy(v: JsValue) {
    match v
    case Undefined => false
    case Null => false
    case Bool(b) => b
    case Num(n) => n != 0
    case Str(s) => s != ""
  }

  /** A plain object: `Object.entries(o)`. The type admits a repeated key, which no JavaScript object has; `Get` reads its first entry. */
  type Obj = seq<(string, JsValue)>

  /** `Object.keys(o)`. */
  function Keys(o: Obj): (ks: seq<string>)
    ensures |ks| == |o|
    ensures forall i :: 0 <= i < |o| ==> ks[i] == o[i].0
  {
    if o == [] then [] else [o[0].0] + Keys(o[1..])
  }

  /** `o[k]`: the value stored under `k`, `undefined` when `o` has no such key. */
  function Get(o: Obj, k: string): (v: JsValue)
    ensures k !in Keys(o) ==> v == Undefined
    ensures k in Keys(o) ==> (k, v) in o
    ensures v != Undefined ==> (k, v) in o
  {
    if o == [] then Undefined
    else if o[0].0 == k then o[0].1
    else Get(o[1..], k)
  }

  /** `o[k] = v`: overwrites the entry in place when `k` is present, appends it otherwise. */
  function Set(o: Obj, k: string, v: JsValue): (r: Obj)
    ensures Get(r, k) == v
    ensures forall k' :: k' != k ==> Get(r, k') == Get(o, k')
    ensures Keys(r) == if k in Keys(o) then Keys(o) else Keys(o) + [k]
  {
    if o == [] then [(k, v)]
    else if o[0].0 == k then
      var r := [(k, v)] + o[1..];
      assert r[1..] == o[1..];
      r
    else
      var r := [o[0]] + Set(o[1..], k, v);
      assert r[0] == o[0] && r[1..] == Set(o[1..], k, v);
      r
  }

  /** `xs.filter(keep)`. */
  function Filter(xs: seq<string>, keep: string -> bool): (r: seq<string>)
    ensures |r| <= |xs|
    ensures forall x :: x in r <==> x in xs && keep(x)
  {
    if xs == [] then []
    else if keep(xs[0]) then [xs[0]] + Filter(xs[1..], keep)
    else Filter(xs[1..], keep)
  }

  /** `filter` keeps the order of what it keeps: filtering a concatenation concatenates the filtered parts. */
  lemma {:induction false} FilterAppend(xs: seq<string>, ys: seq<string>, keep: string -> bool)
    ensures Filter(xs + ys, keep) == Filter(xs, keep) + Filter(ys, keep)
  {
    if xs == [] {
      assert xs + ys == ys;
    } else {
      var zs := xs + ys;
      assert zs[0] == xs[0] && zs[1..] == xs[1..] + ys;
      FilterAppend(xs[1..], ys, keep);
      if keep(xs[0]) {
        assert Filter(zs, keep) == [xs[0]] + Filter(xs[1..] + ys, keep);
        assert Filter(xs, keep) == [xs[0]] + Filter(xs[1..], keep);
      } else {
        assert Filter(zs, keep) == Filter(xs[1..] + ys, keep);
        assert Filter(xs, keep) == Filter(xs[1..], keep);
      }
    }
  }

  /** `filter` keeps every occurrence of a kept value and drops every other one. */
  lemma {:induction false} FilterCount(xs: seq<string>, keep: string -> bool, x: string)
    ensures multiset(Filter(xs, keep))[x] == if keep(x) then multiset(xs)[x] else 0
  {
    if xs != [] {
      FilterCount(xs[1..], keep, x);
      assert xs == [xs[0]] + xs[1..];
    }
  }

  /** The total length of the strings. */
  function TotalLength(xs: seq<string>): nat {
    if xs == [] then 0 else |xs[0]| + TotalLength(xs[1..])
  }

  /** `xs.join(sep)`: the strings in order, with `sep` between each two neighbours. */
  function Join(xs: seq<string>, sep: string): (r: string)
    ensures |xs| == 1 ==> r == xs[0]
    ensures xs != [] ==> |xs[0]| <= |r| && r[..|xs[0]|] == xs[0]
  {
    if xs == [] then ""
    else if |xs| == 1 then xs[0]
    else
      var r := xs[0] + sep + Join(xs[1..], sep);
      assert r[..|xs[0]|] == xs[0];
      r
  }

  /** After the first string comes the separator, then the join of the rest; the length counts one separator per neighbouring pair. */
  lemma {:induction false} JoinShape(xs: seq<string>, sep: string)
    ensures |Join(xs, sep)| == TotalLength(xs) + if xs == [] then 0 else (|xs| - 1) * |sep|
    ensures |xs| > 1 ==> var r, n := Join(xs, sep), |xs[0]|;
      n + |sep| <= |r| && r[n..n + |sep|] == sep && r[n + |sep|..] == Join(xs[1..], sep)
  {
    if |xs| > 1 {
      JoinShape(xs[1..], sep);
      var r, n := Join(xs, sep), |xs[0]|;
      assert r == xs[0] + sep + Join(xs[1..], sep);
      assert (|xs| - 1) * |sep| == |sep| + (|xs| - 2) * |sep|;
      assert r[n..n + |sep|] == sep;
      assert r[n + |sep|..] == Join(xs[1..], sep);
    }
  }

  /** A mutable object: the request body a handler receives and may write to. */
  class Body {
    var entries: Obj

    constructor (entries: Obj)
      ensures this.entries == entries
    {
      this.entries := entries;
    }
  }
}
