/** models.go: the list envelope and its error, the list query parameters, the
    request-body shapes every parameter type renders to, and the empty form. */
module Models {
  import opened Wrappers
  import opened Text
  import opened Url
  import Errors
  import Json
  import Multipart

  // ---------------------------------------------------------------------------
  // The response envelope

  datatype EnvelopeError = EnvelopeError(code: int, message: string)

  /** The `{data, total, error}` envelope of list responses and error replies. */
  datatype Response = Response(data: seq<byte>, total: int, err: EnvelopeError)
  {
    /** Response.Error: nil unless the envelope carries a code or a message. */
    function Error(): (e: Option<Errors.Error>)
      ensures e.None? <==> err.code == 0 && err.message == ""
      ensures e.Some? ==> e.value == Errors.ApiError(err.code, err.message)
      ensures e.Some? ==> e.value.ErrorText() == Itoa(err.code) + " " + err.message
    {
      if err.code != 0 || err.message != "" then Some(Errors.ApiError(err.code, err.message)) else None
    }
  }

  /** The code and the message can be read back from the error's text: the code
      is the decimal number before the first space, the message the rest. */
  lemma ErrorTextSplits(r: Response)
    requires r.Error().Some?
    ensures var t := r.Error().value.ErrorText();
            var n := |Itoa(r.err.code)|;
            n < |t| && t[n] == ' ' && ' ' !in t[..n] &&
            ParseInt(t[..n]) == Some(r.err.code) && t[n + 1..] == r.err.message
  {
    var t := r.Error().value.ErrorText();
    var n := |Itoa(r.err.code)|;
    assert t[..n] == Itoa(r.err.code);
    assert t[n + 1..] == r.err.message;
    ItoaRoundTrip(r.err.code);
  }

  /** An error envelope `{"error":{"code":404,"message":"not found"}}` surfaces
      as the error "404 not found". */
  lemma NotFoundEnvelope(data: seq<byte>, total: int)
    ensures Response(data, total, EnvelopeError(404, "not found")).Error().value.ErrorText() == "404 not found"
  {
    assert Itoa(404) == "404";
  }

  // ---------------------------------------------------------------------------
  // QueryParams

  datatype QueryParams = QueryParams(
    count: int,
    offset: int,
    sortField: string,
    sortDescending: bool,
    filterField: string,
    filterValue: string)

  function FilterKey(field: string): string {
    "filter[" + field + "]"
  }

  function SortValue(q: QueryParams): string {
    (if q.sortDescending then "-" else "+") + q.sortField
  }

  /** The url.Values that QueryParams.String fills in. */
  function QueryValues(q: QueryParams): ValueMap {
    var m1: ValueMap := if q.count != 0 then map["count" := [Itoa(q.count)]] else map[];
    var m2 := if q.offset != 0 then m1["offset" := [Itoa(q.offset)]] else m1;
    var m3 := if q.sortField != "" then m2["sort" := [SortValue(q)]] else m2;
    if q.filterField != "" && q.filterValue != "" then m3[FilterKey(q.filterField) := [q.filterValue]] else m3
  }

  lemma FilterKeyDistinct(f: string)
    ensures FilterKey(f) != "count" && FilterKey(f) != "offset" && FilterKey(f) != "sort"
  {
    assert FilterKey(f)[0] == 'f';
  }

  lemma FilterKeyInjective(f: string, g: string)
    ensures FilterKey(f) == FilterKey(g) ==> f == g
  {
    assert f == FilterKey(f)[7..|FilterKey(f)| - 1];
    assert g == FilterKey(g)[7..|FilterKey(g)| - 1];
  }

  /** Which keys QueryParams.String writes and with which single value. */
  lemma QueryValuesKeys(q: QueryParams)
    ensures var m := QueryValues(q);
      && ("count" in m <==> q.count != 0)
      && ("count" in m ==> m["count"] == [Itoa(q.count)])
      && ("offset" in m <==> q.offset != 0)
      && ("offset" in m ==> m["offset"] == [Itoa(q.offset)])
      && ("sort" in m <==> q.sortField != "")
      && ("sort" in m ==> m["sort"] == [(if q.sortDescending then "-" else "+") + q.sortField])
      && (forall f :: FilterKey(f) in m <==> f == q.filterField && q.filterField != "" && q.filterValue != "")
      && (FilterKey(q.filterField) in m ==> m[FilterKey(q.filterField)] == [q.filterValue])
      && (forall k :: k in m ==> k in {"count", "offset", "sort", FilterKey(q.filterField)} && |m[k]| == 1)
      && |m| <= 4
  {
    var m := QueryValues(q);
    FilterKeyDistinct(q.filterField);
    forall f ensures FilterKey(f) in m <==> f == q.filterField && q.filterField != "" && q.filterValue != "" {
      FilterKeyDistinct(f);
      FilterKeyInjective(f, q.filterField);
    }
    QueryValuesBound(q);
  }

  lemma QueryValuesBound(q: QueryParams)
    ensures var m := QueryValues(q);
      && (forall k :: k in m ==> k in {"count", "offset", "sort", FilterKey(q.filterField)} && |m[k]| == 1)
      && |m| <= 4
  {
    var m := QueryValues(q);
    assert m.Keys <= {"count", "offset", "sort", FilterKey(q.filterField)};
    CardinalityAtMostFour(m.Keys, "count", "offset", "sort", FilterKey(q.filterField));
  }

  lemma CardinalityAtMostFour<T>(s: set<T>, a: T, b: T, c: T, d: T)
    requires s <= {a, b, c, d}
    ensures |s| <= 4
  {
    assert |{a, b, c, d}| <= 4;
    SubsetCardinality(s, {a, b, c, d});
  }

  lemma SubsetCardinality<T>(s: set<T>, t: set<T>)
    requires s <= t
    ensures |s| <= |t|
  {
    assert t == s + (t - s);
  }

  /** QueryParams.String: a nil *QueryParams leaves the path alone; otherwise the
      encoded values follow a '?'. */
  method QueryString(q: Option<QueryParams>, l: string) returns (r: string)
    ensures q.None? ==> r == l
    ensures q.Some? ==> r == l + "?" + EncodeMap(QueryValues(q.value))
  {
    if q.None? {
      return l;
    }
    var p := q.value;
    var u := new Values();
    if p.count != 0 {
      u.Add("count", Itoa(p.count));
    }
    ghost var m1 := u.entries;
    assert m1 == (if p.count != 0 then map["count" := [Itoa(p.count)]] else map[]);
    if p.offset != 0 {
      u.Add("offset", Itoa(p.offset));
    }
    ghost var m2 := u.entries;
    assert m2 == (if p.offset != 0 then m1["offset" := [Itoa(p.offset)]] else m1);
    assert "sort" !in m2;
    if p.sortField != "" {
      var v := "+";
      if p.sortDescending {
        v := "-";
      }
      assert v + p.sortField == SortValue(p);
      u.Add("sort", v + p.sortField);
    }
    ghost var m3 := u.entries;
    assert m3 == (if p.sortField != "" then m2["sort" := [SortValue(p)]] else m2);
    if p.filterField != "" && p.filterValue != "" {
      FilterKeyDistinct(p.filterField);
      assert FilterKey(p.filterField) !in m3;
      u.Add(FilterKey(p.filterField), p.filterValue);
    }
    assert u.entries == QueryValues(p);
    var encoded := u.Encode();
    r := l + "?" + encoded;
  }

  /** A QueryParams with every field zero still adds the '?'. */
  lemma ZeroQueryParams(l: string)
    ensures l + "?" + EncodeMap(QueryValues(QueryParams(0, 0, "", false, "", ""))) == l + "?"
  {
    EncodeEmpty();
  }

  /** `QueryParams{Count: 1}.String("/users")` is "/users?count=1". */
  lemma CountOnlyValues()
    ensures QueryValues(QueryParams(1, 0, "", false, "", "")) == map["count" := ["1"]]
  {
    assert Itoa(1) == "1" by {
      assert NatToString(1) == [DigitChar(1)];
    }
  }

  lemma CountOnlyEncoding()
    ensures EncodeMap(map["count" := ["1"]]) == "count=1"
  {
    EncodeSingle("count", "1");
    QueryEscapeUnreserved("count");
    QueryEscapeUnreserved("1");
    var e := EncodeMap(map["count" := ["1"]]);
    assert e == "count" + "=" + "1";
    assert forall i | 0 <= i < 7 :: e[i] == "count=1"[i];
  }

  lemma CountOnlyQuery()
    ensures "/users" + "?" + EncodeMap(QueryValues(QueryParams(1, 0, "", false, "", ""))) == "/users?count=1"
  {
    CountOnlyValues();
    CountOnlyEncoding();
    var u := "/users" + "?" + "count=1";
    assert forall i | 0 <= i < 14 :: u[i] == "/users?count=1"[i];
  }

  // ---------------------------------------------------------------------------
  // Request bodies

  /** A rendered body: none, a JSON object, or a multipart/form-data part list. */
  datatype Body =
    | NoBody
    | JsonBody(members: seq<Json.Member>)
    | MultipartBody(parts: seq<Multipart.Part>)

  /** A tag a create or update request attaches. */
  datatype TagParams = TagParams(name: string, value: string)

  /** json.Marshal of a TagParams: both fields are `omitempty`. */
  function TagJson(t: TagParams): Json.Value {
    Json.Object(Json.StringMember("name", t.name) + Json.StringMember("value", t.value))
  }

  /** What a Form() method returns on success: the content type and the body. */
  datatype Form = Form(contentType: string, body: Body)

  const AppJson := "application/json"

  /** blank.Form: no content type and no body, for GET and DELETE requests. */
  function BlankForm(): (f: Form)
    ensures f.contentType == "" && f.body.NoBody?
  {
    Form("", NoBody)
  }
}
