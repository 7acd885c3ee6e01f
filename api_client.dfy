/**
 * The query string `getAffiliates(page?, limit?, filterByDni?)` sends: `page` and
 * `limit` always (1 and 20 when omitted), then `filterByDni`, trimmed, only when
 * the filter has non-whitespace content.
 */
module ApiClient {
  import opened Wrappers
  import opened JsText

  type Param = (string, string)

  /** The value of the first parameter named `key`, as `URLSearchParams.get` reads it. */
  function Lookup(params: seq<Param>, key: string): Option<string> {
    if params == [] then None
    else if params[0].0 == key then Some(params[0].1)
    else Lookup(params[1..], key)
  }

  function WithoutKey(params: seq<Param>, key: string): (r: seq<Param>)
    ensures forall i :: 0 <= i < |r| ==> r[i].0 != key
    ensures forall k :: k != key ==> Lookup(r, k) == Lookup(params, k)
  {
    if params == [] then []
    else if params[0].0 == key then WithoutKey(params[1..], key)
    else [params[0]] + WithoutKey(params[1..], key)
  }

  /**
   * `params.set(key, value)`: the first parameter named `key` takes the value and any
   * later ones are dropped; without one, the pair is appended.
   */
  function SetParam(params: seq<Param>, key: string, value: string): (r: seq<Param>)
    ensures Lookup(r, key) == Some(value)
    ensures forall k :: k != key ==> Lookup(r, k) == Lookup(params, k)
  {
    if params == [] then [(key, value)]
    else if params[0].0 == key then [(key, value)] + WithoutKey(params[1..], key)
    else [params[0]] + SetParam(params[1..], key, value)
  }

  /** Setting a name that is not yet present appends the pair. */
  lemma {:induction false} SetParamAppends(params: seq<Param>, key: string, value: string)
    requires forall i :: 0 <= i < |params| ==> params[i].0 != key
    ensures SetParam(params, key, value) == params + [(key, value)]
  {
    if params != [] {
      SetParamAppends(params[1..], key, value);
      assert params == [params[0]] + params[1..];
    }
  }

  lemma ParamNamesDistinct()
    ensures "page" != "limit" && "page" != "filterByDni" && "limit" != "filterByDni"
  {
    assert "page"[0] != "limit"[0] && "page"[0] != "filterByDni"[0] && "limit"[0] != "filterByDni"[0];
  }

  /** `filterByDni && filterByDni.trim() !== ''`. */
  predicate HasDniFilter(filterByDni: Option<string>) {
    filterByDni.Some? && filterByDni.value != "" && Trim(filterByDni.value) != ""
  }

  /** The parameters in the order they are set. */
  function QueryParams(page: Option<int>, limit: Option<int>, filterByDni: Option<string>): seq<Param> {
    [("page", IntToString(page.GetOr(1))), ("limit", IntToString(limit.GetOr(20)))]
    + (if HasDniFilter(filterByDni) then [("filterByDni", Trim(filterByDni.value))] else [])
  }

  /** Builds the parameters of a `getAffiliates` request, one `set` at a time. */
  method GetAffiliatesParams(page: Option<int>, limit: Option<int>, filterByDni: Option<string>)
    returns (params: seq<Param>)
    ensures params == QueryParams(page, limit, filterByDni)
  {
    ParamNamesDistinct();
    params := [];
    params := SetParam(params, "page", IntToString(page.GetOr(1)));
    SetParamAppends(params, "limit", IntToString(limit.GetOr(20)));
    params := SetParam(params, "limit", IntToString(limit.GetOr(20)));
    if filterByDni.Some? && filterByDni.value != "" && Trim(filterByDni.value) != "" {
      SetParamAppends(params, "filterByDni", Trim(filterByDni.value));
      params := SetParam(params, "filterByDni", Trim(filterByDni.value));
    }
  }

  /** The empty string is already excluded by the trim test. */
  lemma HasDniFilterIffNotBlank(filterByDni: Option<string>)
    ensures HasDniFilter(filterByDni) <==> filterByDni.Some? && !AllWhitespace(filterByDni.value)
  {
  }

  /** `page` and `limit` are always sent, with their defaults 1 and 20. */
  lemma PageAndLimitAlwaysSent(page: Option<int>, limit: Option<int>, filterByDni: Option<string>)
    ensures Lookup(QueryParams(page, limit, filterByDni), "page") == Some(IntToString(page.GetOr(1)))
    ensures Lookup(QueryParams(page, limit, filterByDni), "limit") == Some(IntToString(limit.GetOr(20)))
  {
    ParamNamesDistinct();
  }

  /**
   * `filterByDni` is sent exactly when the filter is not blank, and then its value is
   * the trimmed filter: non-empty, with no whitespace at either end.
   */
  lemma DniFilterSentTrimmed(page: Option<int>, limit: Option<int>, filterByDni: Option<string>)
    ensures Lookup(QueryParams(page, limit, filterByDni), "filterByDni").Some?
            <==> filterByDni.Some? && !AllWhitespace(filterByDni.value)
    ensures Lookup(QueryParams(page, limit, filterByDni), "filterByDni").Some? ==>
              var v := Lookup(QueryParams(page, limit, filterByDni), "filterByDni").value;
              v == Trim(filterByDni.value) && v != "" && !IsWhitespace(v[0]) && !IsWhitespace(v[|v| - 1])
  {
    ParamNamesDistinct();
    var ps := QueryParams(page, limit, filterByDni);
    var tail := if HasDniFilter(filterByDni) then [("filterByDni", Trim(filterByDni.value))] else [];
    assert ps[1..][1..] == tail;
    assert Lookup(ps, "filterByDni") == Lookup(tail, "filterByDni");
  }

  /** No parameter other than these three is ever sent. */
  lemma NoOtherParams(page: Option<int>, limit: Option<int>, filterByDni: Option<string>, key: string)
    requires key != "page" && key != "limit" && key != "filterByDni"
    ensures Lookup(QueryParams(page, limit, filterByDni), key).None?
  {
    var first := ("page", IntToString(page.GetOr(1)));
    var second := ("limit", IntToString(limit.GetOr(20)));
    var tail := if HasDniFilter(filterByDni) then [("filterByDni", Trim(filterByDni.value))] else [];
    var ps := QueryParams(page, limit, filterByDni);
    assert ps == [first, second] + tail;
    assert ps[1..] == [second] + tail;
    assert ps[1..][1..] == tail;
    assert Lookup(tail, key).None? by {
      if tail != [] {
        assert tail[1..] == [];
      }
    }
    assert Lookup(ps[1..], key) == Lookup(tail, key);
  }

  /** The parameter names, in order: page, limit, then filterByDni when sent. */
  lemma QueryParamsOrder(page: Option<int>, limit: Option<int>, filterByDni: Option<string>)
    ensures var ps := QueryParams(page, limit, filterByDni);
            |ps| == (if HasDniFilter(filterByDni) then 3 else 2)
            && ps[0].0 == "page" && ps[1].0 == "limit" && (|ps| == 3 ==> ps[2].0 == "filterByDni")
  {
  }
}
