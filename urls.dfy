/** The part of the HUrl library the package relies on: a parsed URL, its query
    as an ordered list of name/value pairs with unique names (a PHP array), and
    withQueryValue, which sets one pair. */
module Urls {
  import opened Wrappers

  function Names(q: seq<(string, string)>): set<string> {
    if q == [] then {} else {q[0].0} + Names(q[1..])
  }

  /** No name occurs twice, as in a PHP array. */
  predicate UniqueNames(q: seq<(string, string)>) {
    q == [] || (q[0].0 !in Names(q[1..]) && UniqueNames(q[1..]))
  }

  type Query = q: seq<(string, string)> | UniqueNames(q)

  /** A parsed absolute URL (port, credentials and fragment are not modelled). */
  datatype Url = Url(scheme: string, host: string, path: string, query: Query)

  /** The value of the pair named `name`. */
  function QueryValue(q: seq<(string, string)>, name: string): (r: Option<string>)
    ensures r.Some? <==> name in Names(q)
  {
    if q == [] then None
    else if q[0].0 == name then Some(q[0].1)
    else QueryValue(q[1..], name)
  }

  /** Sets the pair `name` in place when present, appends it otherwise. */
  function SetQueryValue(q: seq<(string, string)>, name: string, value: string): (r: seq<(string, string)>)
    ensures Names(r) == Names(q) + {name}
    ensures UniqueNames(q) ==> UniqueNames(r)
    ensures QueryValue(r, name) == Some(value)
    ensures forall n :: n != name ==> QueryValue(r, n) == QueryValue(q, n)
    ensures name in Names(q) ==> |r| == |q|
    ensures name !in Names(q) ==> r == q + [(name, value)]
  {
    if q == [] then [(name, value)]
    else if q[0].0 == name then [(name, value)] + q[1..]
    else
      var rest := SetQueryValue(q[1..], name, value);
      assert ([q[0]] + rest)[1..] == rest;
      [q[0]] + rest
  }

  /** withQueryValue. */
  function WithQueryValue(q: Query, name: string, value: string): (r: Query)
    ensures QueryValue(r, name) == Some(value)
    ensures forall n :: n != name ==> QueryValue(r, n) == QueryValue(q, n)
  {
    SetQueryValue(q, name, value)
  }

  /** A withQueryValue per pair of `pairs`, in order: every pair of `pairs` is
      set, overriding a same-name pair of `q`, and the other pairs of `q` stay. */
  function WithQueryPairs(q: Query, pairs: Query): (r: Query)
    ensures forall n ::
      QueryValue(r, n) == if QueryValue(pairs, n).Some? then QueryValue(pairs, n) else QueryValue(q, n)
    decreases |pairs|
  {
    if pairs == [] then q
    else
      var r := WithQueryPairs(WithQueryValue(q, pairs[0].0, pairs[0].1), pairs[1..]);
      assert forall n :: n != pairs[0].0 ==> QueryValue(pairs, n) == QueryValue(pairs[1..], n);
      assert QueryValue(pairs[1..], pairs[0].0).None?;
      r
  }
}
