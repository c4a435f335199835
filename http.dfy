/** URLs and their query strings. The model never serialises a query string
    (URLSearchParams' percent-encoding is not modelled): a URL is the text in
    front of the query, '?' included, plus the ordered list of parameters that
    the query string encodes. */
module Http {
  import opened Js

  datatype Url = Url(prefix: string, query: seq<Entry>)

  /** URLSearchParams.get: the value of the first parameter with that name,
      null when there is none. */
  function Get(params: seq<Entry>, name: string): (r: Option<string>)
    ensures r.None? <==> forall i :: 0 <= i < |params| ==> params[i].key != name
    ensures r.Some? ==> exists i :: 0 <= i < |params| && params[i] == Entry(name, r.value)
                                   && forall j :: 0 <= j < i ==> params[j].key != name
  {
    if |params| == 0 then None
    else if params[0].key == name then Some(params[0].value)
    else
      var r := Get(params[1..], name);
      assert r.Some? ==> exists i :: 0 <= i < |params| - 1 && params[1..][i] == Entry(name, r.value)
                                   && forall j :: 0 <= j < i ==> params[1..][j].key != name;
      r
  }

  /** A parameter whose name no earlier parameter has is what Get finds. */
  lemma GetAt(params: seq<Entry>, i: nat)
    requires i < |params|
    requires forall j :: 0 <= j < i ==> params[j].key != params[i].key
    ensures Get(params, params[i].key) == Some(params[i].value)
  {
    var r := Get(params, params[i].key);
    var i' :| 0 <= i' < |params| && params[i'] == Entry(params[i].key, r.value)
              && forall j :: 0 <= j < i' ==> params[j].key != params[i].key;
    assert i' == i;
  }
}
