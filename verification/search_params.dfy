/**
 * The query string of a URL as `URLSearchParams` sees it (section 6.2 of the WHATWG URL
 * Standard): an ordered list of name/value pairs in which a name may occur more than once.
 */
module SearchParams {
  import opened Wrappers
  import opened Sequences

  datatype Param = Param(name: string, value: string)

  type Query = seq<Param>

  predicate Named(q: Query, n: string) { exists i :: 0 <= i < |q| && q[i].name == n }

  /** `get(name)`: the value of the first pair with that name, if any. */
  function Get(q: Query, n: string): (r: Option<string>)
    ensures r.None? <==> !Named(q, n)
    ensures r.Some? ==>
      exists i :: 0 <= i < |q| && q[i] == Param(n, r.value) && !Named(q[..i], n)
  {
    if q == [] then None
    else if q[0].name == n then
      assert q[..0] == [];
      Some(q[0].value)
    else
      var r := Get(q[1..], n);
      if r.Some? then
        var i :| 0 <= i < |q[1..]| && q[1..][i] == Param(n, r.value) && !Named(q[1..][..i], n);
        assert q[..i + 1] == [q[0]] + q[1..][..i];
        r
      else
        r
  }

  /** `delete(name)`: drop every pair with that name and keep the rest in order. */
  function Delete(q: Query, n: string): (r: Query)
    ensures !Named(r, n)
    ensures IsSubsequence(r, q)
    ensures forall p: Param :: p.name != n ==> multiset(r)[p] == multiset(q)[p]
  {
    var other := (p: Param) => p.name != n;
    KeepCount(q, other);
    KeepSubsequence(q, other);
    Keep(q, other)
  }

  /**
   * `set(name, value)`: overwrite the value of the first pair with that name and drop the
   * other pairs with that name; append the pair when there is none.
   */
  function Set(q: Query, n: string, v: string): (r: Query)
    ensures Get(r, n) == Some(v)
    ensures Delete(r, n) == Delete(q, n)
    ensures |r| == |Delete(q, n)| + 1
  {
    if q == [] then [Param(n, v)]
    else if q[0].name == n then
      DeleteTwice(q[1..], n);
      [Param(n, v)] + Delete(q[1..], n)
    else
      [q[0]] + Set(q[1..], n, v)
  }

  /**
   * `toString()`: the pairs as `name=value`, joined by `&`. Percent-encoding is not part of
   * this model.
   */
  function Serialize(q: Query): (r: string)
    ensures r == [] <==> q == []
  {
    if q == [] then []
    else
      var pair := q[0].name + "=" + q[0].value;
      if |q| == 1 then pair else pair + "&" + Serialize(q[1..])
  }

  /** `set` passes over a prefix that does not hold the name. */
  lemma {:induction false} SetSkipsPrefix(a: Query, b: Query, n: string, v: string)
    requires !Named(a, n)
    ensures Set(a + b, n, v) == a + Set(b, n, v)
  {
    if a != [] {
      NotNamedPrefixTail(a, |a|, n);
      assert a[..|a|] == a;
      SetSkipsPrefix(a[1..], b, n, v);
      var sb := Set(b, n, v);
      ConsConcat(a, b);
      ConsConcat(a, sb);
      calc {
        Set(a + b, n, v);
        [a[0]] + Set(a[1..] + b, n, v);
        [a[0]] + (a[1..] + sb);
        a + sb;
      }
    } else {
      assert a + b == b;
    }
  }

  /** When the name is absent, `set` appends the pair at the end. */
  lemma SetAppendsWhenAbsent(q: Query, n: string, v: string)
    requires !Named(q, n)
    ensures Set(q, n, v) == q + [Param(n, v)]
  {
    SetSkipsPrefix(q, [], n, v);
    assert q + [] == q;
  }

  /**
   * When the first pair with the name is at index `i`, `set` writes the new pair there, keeps
   * the pairs before it and drops the later pairs with that name.
   */
  lemma SetReplacesFirst(q: Query, n: string, v: string, i: nat)
    requires i < |q| && q[i].name == n && !Named(q[..i], n)
    ensures Set(q, n, v) == q[..i] + [Param(n, v)] + Delete(q[i + 1..], n)
  {
    SplitAt(q, i);
    SetAtFirstMatch(q[..i], q[i], q[i + 1..], v);
  }

  /** `set` on a query whose first pair with the name is `x`, after the prefix `a`. */
  lemma SetAtFirstMatch(a: Query, x: Param, c: Query, v: string)
    requires !Named(a, x.name)
    ensures Set(a + ([x] + c), x.name, v) == a + [Param(x.name, v)] + Delete(c, x.name)
  {
    var n := x.name;
    SetSkipsPrefix(a, [x] + c, n, v);
    SetHead(x, c, v);
    ConcatAssoc(a, [Param(n, v)], Delete(c, n));
  }

  /** `set` on a query that starts with the name. */
  lemma SetHead(x: Param, c: Query, v: string)
    ensures Set([x] + c, x.name, v) == [Param(x.name, v)] + Delete(c, x.name)
  {
    assert ([x] + c)[1..] == c;
  }

  /** A name absent from a non-empty prefix is absent from its head and from its tail. */
  lemma NotNamedPrefixTail(q: Query, i: nat, n: string)
    requires 0 < i <= |q| && !Named(q[..i], n)
    ensures q[0].name != n && !Named(q[1..][..i - 1], n)
  {
    assert q[..i][0] == q[0];
    assert q[1..][..i - 1] == q[..i][1..];
  }

  /** Splitting off the head of a non-empty query before a concatenation. */
  lemma ConsConcat(a: Query, b: Query)
    requires a != []
    ensures (a + b)[0] == a[0] && (a + b)[1..] == a[1..] + b
    ensures [a[0]] + (a[1..] + b) == a + b
  {
    assert [a[0]] + a[1..] == a;
  }

  /** A query split around index `i`. */
  lemma SplitAt(q: Query, i: nat)
    requires i < |q|
    ensures q == q[..i] + ([q[i]] + q[i + 1..])
    ensures ([q[i]] + q[i + 1..])[0] == q[i] && ([q[i]] + q[i + 1..])[1..] == q[i + 1..]
  {
  }

  /** Concatenation of queries is associative. */
  lemma ConcatAssoc(a: Query, b: Query, c: Query)
    ensures a + (b + c) == a + b + c
  {
  }

  /** Deleting a name twice is deleting it once. */
  lemma {:induction false} DeleteTwice(q: Query, n: string)
    ensures Delete(Delete(q, n), n) == Delete(q, n)
  {
    if q != [] {
      DeleteTwice(q[1..], n);
      assert q == [q[0]] + q[1..];
    }
  }

  /** Deletions of two names commute. */
  lemma {:induction false} DeleteCommutes(q: Query, a: string, b: string)
    ensures Delete(Delete(q, a), b) == Delete(Delete(q, b), a)
  {
    if q != [] {
      var x, rest := q[0], q[1..];
      assert q == [x] + rest;
      DeleteCommutes(rest, a, b);
      DeleteCons(x, rest, a);
      DeleteCons(x, rest, b);
      if x.name != a { DeleteCons(x, Delete(rest, a), b); }
      if x.name != b { DeleteCons(x, Delete(rest, b), a); }
    }
  }

  /** How `delete` treats the first pair. */
  lemma DeleteCons(x: Param, rest: Query, n: string)
    ensures Delete([x] + rest, n) == if x.name == n then Delete(rest, n) else [x] + Delete(rest, n)
  {
    assert ([x] + rest)[1..] == rest;
  }

  /** Deleting one name does not change what `get` returns for another. */
  lemma {:induction false} GetAfterDelete(q: Query, n: string, m: string)
    requires m != n
    ensures Get(Delete(q, n), m) == Get(q, m)
  {
    if q != [] {
      GetAfterDelete(q[1..], n, m);
      assert q == [q[0]] + q[1..];
    }
  }

  /** Setting one name does not change what `get` returns for another. */
  lemma {:induction false} GetAfterSet(q: Query, n: string, v: string, m: string)
    requires m != n
    ensures Get(Set(q, n, v), m) == Get(q, m)
  {
    if q != [] {
      if q[0].name == n {
        GetAfterDelete(q[1..], n, m);
      } else {
        GetAfterSet(q[1..], n, v, m);
      }
    }
  }
}
