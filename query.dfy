/**
 * The query string that `apiCall` builds before it calls the upstream API
 * (src/index.js, lines 11-18).
 *
 * A query is the list of name/value pairs of a `URLSearchParams`, in order;
 * percent-encoding is not modelled.  `apiCall` walks the entries of its
 * argument object, skips those whose value is `undefined`, `null` or `""`,
 * writes every other one with `searchParams.set(k, String(v))`, and finally
 * sets `key` to the environment's API key when that is a non-empty string.
 */
module Query {
  import opened Wrappers
  import Decimal

  /** A value of the argument object passed to `apiCall`. */
  datatype Value = Undef | Null | Str(s: string) | Int(n: int)

  type Query = seq<(string, string)>

  /** The entries of the argument object, in `Object.entries` order. */
  type Params = seq<(string, Value)>

  /** The name under which `apiCall` attaches the environment's API key. */
  const KeyName := "key"

  // ---------------------------------------------------------------------------
  // Lists of named entries

  /** How many entries are named `k`. */
  function Count<V>(q: seq<(string, V)>, k: string): nat {
    if q == [] then 0 else (if q[0].0 == k then 1 else 0) + Count(q[1..], k)
  }

  /** Every name occurs at most once (as in a JavaScript object, or a query built by `set`). */
  ghost predicate Unique<V>(q: seq<(string, V)>) {
    forall k :: Count(q, k) <= 1
  }

  /** The value of the first entry named `k`: `URLSearchParams.get`. */
  function Lookup(q: Query, k: string): (r: Option<string>)
    ensures r.None? <==> Count(q, k) == 0
    ensures r.Some? ==> (k, r.value) in q
  {
    if q == [] then None
    else if q[0].0 == k then Some(q[0].1)
    else Lookup(q[1..], k)
  }

  /** The position of the first entry named `k` (|q| when there is none). */
  function FirstIndex(q: Query, k: string): (i: nat)
    ensures i <= |q|
    ensures i < |q| ==> q[i].0 == k
    ensures Count(q[..i], k) == 0
  {
    if q == [] then 0
    else if q[0].0 == k then 0
    else
      var j := FirstIndex(q[1..], k);
      assert q[..j + 1][0] == q[0] && q[..j + 1][1..] == q[1..][..j];
      1 + j
  }

  /** The entries not named `k`, in their order. */
  function DropName(q: Query, k: string): (r: Query)
    ensures Count(r, k) == 0
    ensures |r| == |q| - Count(q, k)
  {
    if q == [] then []
    else if q[0].0 == k then DropName(q[1..], k)
    else [q[0]] + DropName(q[1..], k)
  }

  lemma {:induction false} CountAppend<V>(a: seq<(string, V)>, b: seq<(string, V)>, k: string)
    ensures Count(a + b, k) == Count(a, k) + Count(b, k)
    decreases |a|
  {
    if a != [] {
      assert (a + b)[0] == a[0] && (a + b)[1..] == a[1..] + b;
      CountAppend(a[1..], b, k);
    } else {
      assert a + b == b;
    }
  }

  lemma {:induction false} DropNameAppend(a: Query, b: Query, k: string)
    ensures DropName(a + b, k) == DropName(a, k) + DropName(b, k)
    decreases |a|
  {
    if a != [] {
      assert (a + b)[0] == a[0] && (a + b)[1..] == a[1..] + b;
      DropNameAppend(a[1..], b, k);
    } else {
      assert a + b == b;
    }
  }

  lemma {:induction false} LookupAppend(a: Query, b: Query, k: string)
    ensures Lookup(a + b, k) == if Count(a, k) > 0 then Lookup(a, k) else Lookup(b, k)
    decreases |a|
  {
    if a != [] {
      assert (a + b)[0] == a[0] && (a + b)[1..] == a[1..] + b;
      LookupAppend(a[1..], b, k);
    } else {
      assert a + b == b;
    }
  }

  /** Dropping a name that does not occur changes nothing. */
  lemma {:induction false} DropNameAbsent(q: Query, k: string)
    requires Count(q, k) == 0
    ensures DropName(q, k) == q
    decreases |q|
  {
    if q != [] {
      DropNameAbsent(q[1..], k);
    }
  }

  /** Dropping one name leaves the count of every other name as it was. */
  lemma {:induction false} CountDropOther(q: Query, k: string, other: string)
    requires other != k
    ensures Count(DropName(q, k), other) == Count(q, other)
    decreases |q|
  {
    if q != [] {
      CountDropOther(q[1..], k, other);
    }
  }

  // ---------------------------------------------------------------------------
  // URLSearchParams.set

  /**
   * The first entry named `k` gets value `v`; later entries named `k` are removed.
   */
  function ReplaceFirst(q: Query, k: string, v: string): Query
    requires Count(q, k) >= 1
    decreases |q|
  {
    if q[0].0 == k then [(k, v)] + DropName(q[1..], k)
    else [q[0]] + ReplaceFirst(q[1..], k, v)
  }

  /** After `ReplaceFirst`, `k` names exactly one entry, with the new value, at the old place. */
  lemma {:induction false} ReplaceFirstFacts(q: Query, k: string, v: string)
    requires Count(q, k) >= 1
    ensures Count(ReplaceFirst(q, k, v), k) == 1
    ensures Lookup(ReplaceFirst(q, k, v), k) == Some(v)
    ensures DropName(ReplaceFirst(q, k, v), k) == DropName(q, k)
    ensures FirstIndex(ReplaceFirst(q, k, v), k) == FirstIndex(q, k)
    decreases |q|
  {
    var r := ReplaceFirst(q, k, v);
    if q[0].0 == k {
      var rest := DropName(q[1..], k);
      assert r[1..] == rest;
      DropNameAbsent(rest, k);
    } else {
      assert r[0] == q[0] && r[1..] == ReplaceFirst(q[1..], k, v);
      ReplaceFirstFacts(q[1..], k, v);
    }
  }

  /**
   * `URLSearchParams.set(k, v)`: replace the value of the first entry named `k`
   * and delete the other entries so named, or append `(k, v)` when there is none.
   */
  function SetParam(q: Query, k: string, v: string): (r: Query)
    ensures Count(r, k) == 1 && Lookup(r, k) == Some(v)
    ensures DropName(r, k) == DropName(q, k)
    ensures Count(q, k) == 0 ==> r == q + [(k, v)]
    ensures Count(q, k) > 0 ==> FirstIndex(r, k) == FirstIndex(q, k)
  {
    if Count(q, k) > 0 then
      ReplaceFirstFacts(q, k, v);
      ReplaceFirst(q, k, v)
    else
      CountAppend(q, [(k, v)], k);
      LookupAppend(q, [(k, v)], k);
      DropNameAppend(q, [(k, v)], k);
      q + [(k, v)]
  }

  /** `set` never introduces a second entry under any name. */
  lemma SetParamUnique(q: Query, k: string, v: string)
    requires Unique(q)
    ensures Unique(SetParam(q, k, v))
  {
    var r := SetParam(q, k, v);
    forall other
      ensures Count(r, other) <= 1
    {
      if other != k {
        CountDropOther(r, k, other);
        CountDropOther(q, k, other);
      }
    }
  }

  /** Setting a name twice leaves only the second value. */
  lemma SetParamOverwrites(q: Query, k: string, v1: string, v2: string)
    ensures SetParam(SetParam(q, k, v1), k, v2) == SetParam(q, k, v2)
  {
    if Count(q, k) == 0 {
      ReplaceFirstAppended(q, k, v1, v2);
    } else {
      ReplaceFirstTwice(q, k, v1, v2);
    }
  }

  lemma {:induction false} ReplaceFirstTwice(q: Query, k: string, v1: string, v2: string)
    requires Count(q, k) >= 1
    ensures Count(ReplaceFirst(q, k, v1), k) == 1
    ensures ReplaceFirst(ReplaceFirst(q, k, v1), k, v2) == ReplaceFirst(q, k, v2)
    decreases |q|
  {
    var r1 := ReplaceFirst(q, k, v1);
    ReplaceFirstFacts(q, k, v1);
    if q[0].0 == k {
      var rest := DropName(q[1..], k);
      assert r1[1..] == rest;
      DropNameAbsent(rest, k);
    } else {
      assert r1[0] == q[0] && r1[1..] == ReplaceFirst(q[1..], k, v1);
      ReplaceFirstTwice(q[1..], k, v1, v2);
    }
  }

  lemma {:induction false} ReplaceFirstAppended(q: Query, k: string, v1: string, v2: string)
    requires Count(q, k) == 0
    ensures Count(q + [(k, v1)], k) >= 1
    ensures ReplaceFirst(q + [(k, v1)], k, v2) == q + [(k, v2)]
    decreases |q|
  {
    CountAppend(q, [(k, v1)], k);
    if q != [] {
      assert (q + [(k, v1)])[0] == q[0];
      assert (q + [(k, v1)])[1..] == q[1..] + [(k, v1)];
      ReplaceFirstAppended(q[1..], k, v1, v2);
    } else {
      assert [(k, v1)][1..] == [];
    }
  }

  lemma SliceOfTail<T>(q: seq<T>, i: nat)
    requires i + 1 < |q|
    ensures q[..i + 1] == [q[0]] + q[1..][..i]
    ensures q[i + 2..] == q[1..][i + 1..]
  {
  }

  /**
   * `set` on a name that is present keeps the entries before its first
   * occurrence, puts the new entry in that place, and keeps the entries
   * after it that have other names.
   */
  lemma {:induction false} ReplaceFirstShape(q: Query, k: string, v: string)
    requires Count(q, k) >= 1
    ensures var i := FirstIndex(q, k);
      i < |q| && ReplaceFirst(q, k, v) == q[..i] + [(k, v)] + DropName(q[i + 1..], k)
    decreases |q|
  {
    var t := q[1..];
    if q[0].0 == k {
      assert FirstIndex(q, k) == 0;
      assert ReplaceFirst(q, k, v) == [(k, v)] + DropName(t, k);
      assert q[..0] + [(k, v)] == [(k, v)];
    } else {
      ReplaceFirstShape(t, k, v);
      var i := FirstIndex(t, k);
      var tail := DropName(t[i + 1..], k);
      SliceOfTail(q, i);
      calc {
        ReplaceFirst(q, k, v);
        [q[0]] + ReplaceFirst(t, k, v);
        [q[0]] + (t[..i] + [(k, v)] + tail);
        q[..i + 1] + [(k, v)] + tail;
      }
      assert FirstIndex(q, k) == i + 1;
      assert DropName(q[i + 2..], k) == tail;
    }
  }

  // ---------------------------------------------------------------------------
  // The query apiCall builds

  /** `v !== undefined && v !== null && v !== ""`: the test of src/index.js line 14. */
  predicate Kept(v: Value) {
    !(v.Undef? || v.Null? || v == Str(""))
  }

  /** `String(v)`. */
  function Stringify(v: Value): (s: string)
    ensures Kept(v) ==> s != ""
  {
    match v
    case Undef => "undefined"
    case Null => "null"
    case Str(s) => s
    case Int(n) => Decimal.IntToString(n)
  }

  /** What the entry contributes when written on its own. */
  function Keep(e: (string, Value)): Query {
    if Kept(e.1) then [(e.0, Stringify(e.1))] else []
  }

  /**
   * Reference definition: the kept entries, stringified, in the order of the
   * argument object.  It does not mention `set`.
   */
  function Filtered(ps: Params): (r: Query)
    ensures |r| <= |ps|
  {
    if ps == [] then [] else Filtered(ps[..|ps| - 1]) + Keep(ps[|ps| - 1])
  }

  /** One turn of the loop on lines 13-15. */
  function Step(q: Query, e: (string, Value)): Query {
    if Kept(e.1) then SetParam(q, e.0, Stringify(e.1)) else q
  }

  /** The query after the loop on lines 13-15 has seen every entry of `ps`. */
  function SetAll(ps: Params): Query {
    if ps == [] then [] else Step(SetAll(ps[..|ps| - 1]), ps[|ps| - 1])
  }

  /** `if (key) url.searchParams.set("key", key)`: line 18. */
  function WithKey(q: Query, envKey: Option<string>): Query {
    if envKey.Some? && envKey.value != "" then SetParam(q, KeyName, envKey.value) else q
  }

  /** The complete query of one `apiCall(path, params)`. */
  function ApiQuery(ps: Params, envKey: Option<string>): Query {
    WithKey(SetAll(ps), envKey)
  }

  /**
   * Lines 12-18 of `apiCall`: the loop over the argument object, then the key.
   */
  method BuildQuery(params: Params, envKey: Option<string>) returns (q: Query)
    ensures q == ApiQuery(params, envKey)
    ensures Unique(q)
  {
    q := [];
    var i := 0;
    while i < |params|
      invariant 0 <= i <= |params|
      invariant q == SetAll(params[..i])
    {
      var (k, v) := params[i];
      if v != Undef && v != Null && v != Str("") {
        q := SetParam(q, k, Stringify(v));
      }
      assert params[..i + 1][..i] == params[..i];
      i := i + 1;
    }
    assert params[..i] == params;
    if envKey.Some? && envKey.value != "" {
      q := SetParam(q, KeyName, envKey.value);
    }
    ApiQueryUnique(params, envKey);
  }

  // ---------------------------------------------------------------------------
  // Properties of the query

  lemma {:induction false} SetAllUnique(ps: Params)
    ensures Unique(SetAll(ps))
    decreases |ps|
  {
    if ps != [] {
      var init := ps[..|ps| - 1];
      SetAllUnique(init);
      if Kept(ps[|ps| - 1].1) {
        SetParamUnique(SetAll(init), ps[|ps| - 1].0, Stringify(ps[|ps| - 1].1));
      }
    }
  }

  /** Whatever the arguments, no name occurs twice in the query. */
  lemma ApiQueryUnique(ps: Params, envKey: Option<string>)
    ensures Unique(ApiQuery(ps, envKey))
  {
    SetAllUnique(ps);
    if envKey.Some? && envKey.value != "" {
      SetParamUnique(SetAll(ps), KeyName, envKey.value);
    }
  }

  lemma {:induction false} FilteredCount(ps: Params, k: string)
    ensures Count(Filtered(ps), k) <= Count(ps, k)
    decreases |ps|
  {
    if ps != [] {
      var init := ps[..|ps| - 1];
      var last := ps[|ps| - 1];
      assert ps == init + [last];
      FilteredCount(init, k);
      CountAppend(Filtered(init), Keep(last), k);
      CountAppend(init, [last], k);
    }
  }

  /**
   * On an argument object (whose names are distinct), the sequence of `set`
   * calls yields exactly the reference query: `set` never meets a name twice.
   */
  lemma {:induction false} SetAllIsFiltered(ps: Params)
    requires Unique(ps)
    ensures SetAll(ps) == Filtered(ps)
    decreases |ps|
  {
    if ps != [] {
      var init := ps[..|ps| - 1];
      var last := ps[|ps| - 1];
      assert ps == init + [last];
      forall k
        ensures Count(init, k) <= 1
      {
        CountAppend(init, [last], k);
      }
      SetAllIsFiltered(init);
      if Kept(last.1) {
        CountAppend(init, [last], last.0);
        FilteredCount(init, last.0);
      }
    }
  }

  /** A name is in the reference query with value `s` exactly when the argument object holds a kept value that prints as `s`. */
  lemma {:induction false} FilteredMembership(ps: Params, k: string, s: string)
    ensures (k, s) in Filtered(ps) <==> exists v :: (k, v) in ps && Kept(v) && Stringify(v) == s
    decreases |ps|
  {
    if ps != [] {
      var init := ps[..|ps| - 1];
      var last := ps[|ps| - 1];
      assert ps == init + [last];
      FilteredMembership(init, k, s);
      if (k, s) in Filtered(ps) {
        if (k, s) !in Filtered(init) {
          assert (k, s) in Keep(last);
          assert (k, last.1) in ps;
        }
      }
      if exists v :: (k, v) in ps && Kept(v) && Stringify(v) == s {
        var v :| (k, v) in ps && Kept(v) && Stringify(v) == s;
        if (k, v) !in init {
          assert (k, v) == last;
          assert Keep(last) == [(k, s)];
        }
      }
    }
  }

  /**
   * Empty values are dropped and every other value is sent as `String(v)`:
   * for every name other than the one the environment's key overrides, the
   * query holds `(k, s)` exactly when the argument object has a kept value
   * for `k` that prints as `s`.
   */
  lemma EmptyValuesDropped(ps: Params, envKey: Option<string>, k: string, s: string)
    requires Unique(ps)
    requires k != KeyName || envKey.None? || envKey.value == ""
    ensures (k, s) in ApiQuery(ps, envKey) <==> exists v :: (k, v) in ps && Kept(v) && Stringify(v) == s
  {
    SetAllIsFiltered(ps);
    FilteredMembership(ps, k, s);
    if envKey.Some? && envKey.value != "" {
      var q := Filtered(ps);
      var r := SetParam(q, KeyName, envKey.value);
      MembershipOutsideName(q, KeyName, k, s);
      MembershipOutsideName(r, KeyName, k, s);
    }
  }

  lemma {:induction false} MembershipOutsideName(q: Query, name: string, k: string, s: string)
    requires k != name
    ensures (k, s) in q <==> (k, s) in DropName(q, name)
    decreases |q|
  {
    if q != [] {
      MembershipOutsideName(q[1..], name, k, s);
    }
  }

  /** Without a usable environment key, the query is exactly the filtered arguments. */
  lemma NoKeyExact(ps: Params, envKey: Option<string>)
    requires Unique(ps)
    requires envKey.None? || envKey.value == ""
    ensures ApiQuery(ps, envKey) == Filtered(ps)
  {
    SetAllIsFiltered(ps);
  }

  /**
   * With a non-empty environment key, the query holds exactly one `key`
   * entry, whose value is the environment's, even when the caller passed a
   * `key` of its own; the other entries are those of the filtered arguments,
   * in the same order.
   */
  lemma EnvKeyOverrides(ps: Params, key: string)
    requires Unique(ps)
    requires key != ""
    ensures Count(ApiQuery(ps, Some(key)), KeyName) == 1
    ensures Lookup(ApiQuery(ps, Some(key)), KeyName) == Some(key)
    ensures DropName(ApiQuery(ps, Some(key)), KeyName) == DropName(Filtered(ps), KeyName)
  {
    SetAllIsFiltered(ps);
  }
}
