/**
 * A header dictionary as the transport builds it: a Python `dict` from
 * header name to value, kept in insertion order. Names are compared exactly
 * by `d[name]`, and case-insensitively only where the transport lowers them.
 */
module Headers {
  import opened Wrappers
  import opened Encoding

  type HeaderList = seq<(string, string)>

  /** No name occurs twice: what a `dict` guarantees. */
  predicate DistinctNames(h: HeaderList) {
    forall i, j :: 0 <= i < j < |h| ==> h[i].0 != h[j].0
  }

  function Names(h: HeaderList): (r: seq<string>)
    ensures |r| == |h| && forall i :: 0 <= i < |h| ==> r[i] == h[i].0
  {
    if h == [] then [] else [h[0].0] + Names(h[1..])
  }

  /** `d.get(name)`. */
  function Lookup(h: HeaderList, name: string): (r: Option<string>)
    ensures r.Some? <==> exists i :: 0 <= i < |h| && h[i].0 == name
    ensures DistinctNames(h) ==> forall i :: 0 <= i < |h| && h[i].0 == name ==> r == Some(h[i].1)
  {
    if h == [] then None
    else if h[0].0 == name then Some(h[0].1)
    else Lookup(h[1..], name)
  }

  /** `any(x.lower() == lowered for x in d)`. */
  function HasLoweredName(h: HeaderList, lowered: string): (r: bool)
    ensures r <==> exists i :: 0 <= i < |h| && Lower(h[i].0) == lowered
  {
    if h == [] then false
    else if Lower(h[0].0) == lowered then true
    else
      var r := HasLoweredName(h[1..], lowered);
      assert forall i :: 1 <= i < |h| ==> h[1..][i - 1] == h[i];
      r
  }

  /**
   * `d[name] = value`: an existing entry of that exact name keeps its place
   * and takes the new value; otherwise the entry goes to the end.
   */
  function Set(h: HeaderList, name: string, value: string): (r: HeaderList)
    requires DistinctNames(h)
    ensures DistinctNames(r)
    ensures Lookup(r, name) == Some(value)
    ensures forall n :: n != name ==> Lookup(r, n) == Lookup(h, n)
  {
    if h == [] then [(name, value)]
    else if h[0].0 == name then
      assert Lookup(h[1..], name).None?;
      [(name, value)] + h[1..]
    else
      var rest := Set(h[1..], name, value);
      var r := [h[0]] + rest;
      assert Lookup(h[1..], h[0].0).None?;
      assert forall i :: 0 <= i < |rest| ==> rest[i].0 != h[0].0;
      r
  }

  /** Like a dict, setting keeps an existing name in its place and appends a new one. */
  lemma {:induction false} SetKeepsOrder(h: HeaderList, name: string, value: string)
    requires DistinctNames(h)
    ensures Names(Set(h, name, value)) == if Lookup(h, name).Some? then Names(h) else Names(h) + [name]
  {
    if h != [] && h[0].0 != name {
      SetKeepsOrder(h[1..], name, value);
      assert Names(Set(h, name, value)) == [h[0].0] + Names(Set(h[1..], name, value));
    }
  }
}
