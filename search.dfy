/** search.go: SearchParams.String, which folds the structured filters into one
    space-separated `query` value written in the bracketed clause syntax and
    adds the page and count parameters. */
module Search {
  import opened Wrappers
  import opened Text
  import opened Url

  // ---------------------------------------------------------------------------
  // Dates (time.Format with the layout "2006-01-02")

  /** A time.Time reduced to its calendar date in its own location. */
  datatype Date = Date(year: int, month: int, day: int)

  predicate ValidDate(d: Date) {
    0 <= d.year <= 9999 && 1 <= d.month <= 12 && 1 <= d.day <= 31
  }

  /** "2006" is the year padded to four digits, "01" and "02" the month and the
      day padded to two. */
  function FormatDate(d: Date): string {
    PadInt(d.year, 4) + "-" + PadInt(d.month, 2) + "-" + PadInt(d.day, 2)
  }

  /** Reads a "YYYY-MM-DD" date back. */
  function ParseDate(s: string): Option<Date> {
    if |s| == 10 && s[4] == '-' && s[7] == '-' && AllDigits(s[..4]) && AllDigits(s[5..7]) && AllDigits(s[8..])
    then Some(Date(DigitsValue(s[..4]), DigitsValue(s[5..7]), DigitsValue(s[8..])))
    else None
  }

  lemma {:induction false} NatToStringLength(n: nat)
    ensures n < 10 ==> |NatToString(n)| == 1
    ensures n < 100 ==> |NatToString(n)| <= 2
    ensures n < 1000 ==> |NatToString(n)| <= 3
    ensures n < 10000 ==> |NatToString(n)| <= 4
    decreases n
  {
    if n >= 10 {
      NatToStringLength(n / 10);
      assert n < 100 ==> n / 10 < 10;
      assert n < 1000 ==> n / 10 < 100;
      assert n < 10000 ==> n / 10 < 1000;
    }
  }

  lemma {:induction false} ZerosValue(z: nat)
    ensures AllDigits(Repeat('0', z)) && DigitsValue(Repeat('0', z)) == 0
    decreases z
  {
    if z > 0 {
      ZerosValue(z - 1);
      var r := Repeat('0', z);
      assert r[..z - 1] == Repeat('0', z - 1);
    }
  }

  lemma {:induction false} LeadingZeros(z: nat, s: string)
    requires AllDigits(s)
    ensures AllDigits(Repeat('0', z) + s) && DigitsValue(Repeat('0', z) + s) == DigitsValue(s)
    decreases |s|
  {
    ZerosValue(z);
    if s == [] {
      assert Repeat('0', z) + s == Repeat('0', z);
    } else {
      var t := Repeat('0', z) + s;
      assert t[..|t| - 1] == Repeat('0', z) + s[..|s| - 1];
      LeadingZeros(z, s[..|s| - 1]);
    }
  }

  lemma PadIntRoundTrip(x: int, width: nat)
    requires 0 <= x && (width == 2 ==> x < 100) && (width == 4 ==> x < 10000) && (width == 2 || width == 4)
    ensures |PadInt(x, width)| == width && AllDigits(PadInt(x, width)) && DigitsValue(PadInt(x, width)) == x
  {
    NatToStringLength(x);
    var digits := NatToString(x);
    LeadingZeros(width - |digits|, digits);
    NatToStringRoundTrip(x);
    assert PadInt(x, width) == Repeat('0', width - |digits|) + digits;
  }

  /** A date of years 0 to 9999 is written as ten characters and can be read back. */
  lemma FormatDateRoundTrip(d: Date)
    requires ValidDate(d)
    ensures |FormatDate(d)| == 10 && ParseDate(FormatDate(d)) == Some(d)
  {
    PadIntRoundTrip(d.year, 4);
    PadIntRoundTrip(d.month, 2);
    PadIntRoundTrip(d.day, 2);
    var s := FormatDate(d);
    assert s[..4] == PadInt(d.year, 4);
    assert s[5..7] == PadInt(d.month, 2);
    assert s[8..] == PadInt(d.day, 2);
  }

  // ---------------------------------------------------------------------------
  // Parameters

  /** A *int as fmt.Sprint sees it: an address, and the int stored there. */
  datatype IntPtr = IntPtr(address: nat, target: int)

  /** fmt.Sprint of a non-nil pointer prints its address in hexadecimal. */
  function SprintPtr(p: IntPtr): string {
    "0x" + LowerHex(p.address)
  }

  /** A content type name ("book", "page", ...). */
  type ContentType = string

  datatype SearchParams = SearchParams(
    updatedAfter: Option<Date>,
    updatedBefore: Option<Date>,
    createdAfter: Option<Date>,
    createdBefore: Option<Date>,
    updatedBy: Option<string>,
    createdBy: Option<string>,
    ownedBy: Option<string>,
    inName: Option<string>,
    inBody: Option<string>,
    isRestricted: bool,
    viewedByMe: bool,
    notViewedByMe: bool,
    types: seq<ContentType>,
    query: string,
    page: Option<IntPtr>,
    count: Option<IntPtr>)

  /** SearchParams{} : every filter absent. */
  const NoFilters := SearchParams(None, None, None, None, None, None, None, None, None,
                                  false, false, false, [], "", None, None)

  // ---------------------------------------------------------------------------
  // Clauses

  /** `{tag:value}` */
  function Tagged(tag: string, value: string): string {
    "{" + tag + ":" + value + "}"
  }

  /** `{tag}` */
  function Flag(tag: string): string {
    "{" + tag + "}"
  }

  function DateClause(tag: string, d: Option<Date>): seq<string> {
    if d.Some? then [Tagged(tag, FormatDate(d.value))] else []
  }

  /** A user filter: absent gives no clause, the empty string stands for "me". */
  function UserClause(tag: string, u: Option<string>): seq<string> {
    if u.Some? then [Tagged(tag, if u.value == "" then "me" else u.value)] else []
  }

  function ContentClause(tag: string, v: Option<string>): seq<string> {
    if v.Some? then [Tagged(tag, v.value)] else []
  }

  function FlagClause(tag: string, b: bool): seq<string> {
    if b then [Flag(tag)] else []
  }

  function TypeClause(types: seq<ContentType>): seq<string> {
    if |types| > 0 then [Tagged("type", Join(types, "|"))] else []
  }

  /** The date filters. The created-date filters are written with the
      updated-date tags, as the source does. */
  function DateClauses(s: SearchParams): seq<string> {
    DateClause("updated_after", s.updatedAfter)
    + DateClause("updated_before", s.updatedBefore)
    + DateClause("updated_after", s.createdAfter)
    + DateClause("updated_before", s.createdBefore)
  }

  function UserClauses(s: SearchParams): seq<string> {
    UserClause("updated_by", s.updatedBy)
    + UserClause("created_by", s.createdBy)
    + UserClause("owned_by", s.ownedBy)
  }

  /** The content filters and the flags. */
  function ContentClauses(s: SearchParams): seq<string> {
    ContentClause("in_name", s.inName)
    + ContentClause("in_body", s.inBody)
    + FlagClause("viewed_by_me", s.viewedByMe)
    + FlagClause("not_viewed_by_me", s.notViewedByMe)
    + FlagClause("is_restricted", s.isRestricted)
  }

  /** One clause per filter that is set, in the source's order. */
  function Clauses(s: SearchParams): seq<string> {
    DateClauses(s) + UserClauses(s) + ContentClauses(s) + TypeClause(s.types)
  }

  /** The words of the `query` value: the free-text query, then the clauses. */
  function QueryWords(s: SearchParams): seq<string> {
    [s.query] + Clauses(s)
  }

  /** The value of the `query` key. */
  function QueryValue(s: SearchParams): string {
    Join(QueryWords(s), " ")
  }

  /** The url.Values SearchParams.String fills in. */
  function SearchValues(s: SearchParams): ValueMap {
    var m1: ValueMap := if s.page.Some? then map["page" := [SprintPtr(s.page.value)]] else map[];
    var m2 := if s.count.Some? then m1["count" := [SprintPtr(s.count.value)]] else m1;
    m2["query" := [QueryValue(s)]]
  }

  // ---------------------------------------------------------------------------
  // SearchParams.String

  method SearchString(s: SearchParams, q: string) returns (r: string)
    ensures r == q + "?" + EncodeMap(SearchValues(s))
  {
    var l := new Values();
    if s.page.Some? {
      l.Add("page", SprintPtr(s.page.value));
    }
    if s.count.Some? {
      l.Add("count", SprintPtr(s.count.value));
    }
    var query := QueryClauses(s);
    l.Add("query", Join(query, " "));
    var encoded := l.Encode();
    r := q + "?" + encoded;
  }

  /** The growing `query` slice of SearchParams.String: the free-text query,
      then the clauses of each group of filters in turn. */
  method QueryClauses(s: SearchParams) returns (query: seq<string>)
    ensures query == QueryWords(s)
  {
    query := [s.query];
    query := AppendDateClauses(s, query);
    query := AppendUserClauses(s, query);
    assert query == [s.query] + (DateClauses(s) + UserClauses(s)) by {
      AppendAssoc([s.query], DateClauses(s), UserClauses(s));
    }
    query := AppendContentClauses(s, query);
    assert query == [s.query] + (DateClauses(s) + UserClauses(s) + ContentClauses(s)) by {
      AppendAssoc([s.query], DateClauses(s) + UserClauses(s), ContentClauses(s));
    }
    ghost var c := query;
    if |s.types| > 0 {
      var names: seq<string> := [];
      for i := 0 to |s.types|
        invariant names == s.types[..i]
      {
        names := names + [s.types[i]];
      }
      assert names == s.types;
      query := query + [Tagged("type", Join(names, "|"))];
    }
    assert query == c + TypeClause(s.types);
    AppendAssoc([s.query], DateClauses(s) + UserClauses(s) + ContentClauses(s), TypeClause(s.types));
  }

  lemma AppendAssoc(a: seq<string>, b: seq<string>, c: seq<string>)
    ensures a + b + c == a + (b + c)
  {
  }

  /** The four date filters, in the source's order. */
  method AppendDateClauses(s: SearchParams, q: seq<string>) returns (query: seq<string>)
    ensures query == q + DateClauses(s)
  {
    query := q;
    if s.updatedAfter.Some? {
      query := query + [Tagged("updated_after", FormatDate(s.updatedAfter.value))];
    }
    ghost var q1 := q + DateClause("updated_after", s.updatedAfter);
    assert query == q1;
    if s.updatedBefore.Some? {
      query := query + [Tagged("updated_before", FormatDate(s.updatedBefore.value))];
    }
    ghost var q2 := q1 + DateClause("updated_before", s.updatedBefore);
    assert query == q2;
    if s.createdAfter.Some? {
      query := query + [Tagged("updated_after", FormatDate(s.createdAfter.value))];
    }
    ghost var q3 := q2 + DateClause("updated_after", s.createdAfter);
    assert query == q3;
    if s.createdBefore.Some? {
      query := query + [Tagged("updated_before", FormatDate(s.createdBefore.value))];
    }
    assert query == q3 + DateClause("updated_before", s.createdBefore);
    AppendAssoc(q, DateClause("updated_after", s.updatedAfter), DateClause("updated_before", s.updatedBefore));
    AppendAssoc(q, DateClause("updated_after", s.updatedAfter) + DateClause("updated_before", s.updatedBefore),
                DateClause("updated_after", s.createdAfter));
    AppendAssoc(q, DateClause("updated_after", s.updatedAfter) + DateClause("updated_before", s.updatedBefore)
                   + DateClause("updated_after", s.createdAfter), DateClause("updated_before", s.createdBefore));
  }

  /** The three user filters; an empty user name stands for "me". */
  method AppendUserClauses(s: SearchParams, q: seq<string>) returns (query: seq<string>)
    ensures query == q + UserClauses(s)
  {
    query := q;
    if s.updatedBy.Some? {
      var who := "me";
      if s.updatedBy.value != "" {
        who := s.updatedBy.value;
      }
      query := query + [Tagged("updated_by", who)];
    }
    if s.createdBy.Some? {
      var who := "me";
      if s.createdBy.value != "" {
        who := s.createdBy.value;
      }
      query := query + [Tagged("created_by", who)];
    }
    if s.ownedBy.Some? {
      var who := "me";
      if s.ownedBy.value != "" {
        who := s.ownedBy.value;
      }
      query := query + [Tagged("owned_by", who)];
    }
  }

  /** The two content filters and the three flags. */
  method AppendContentClauses(s: SearchParams, q: seq<string>) returns (query: seq<string>)
    ensures query == q + ContentClauses(s)
  {
    query := q;
    if s.inName.Some? {
      query := query + [Tagged("in_name", s.inName.value)];
    }
    ghost var c1 := ContentClause("in_name", s.inName);
    assert query == q + c1;
    if s.inBody.Some? {
      query := query + [Tagged("in_body", s.inBody.value)];
    }
    ghost var c2 := c1 + ContentClause("in_body", s.inBody);
    assert query == q + c1 + ContentClause("in_body", s.inBody);
    AppendAssoc(q, c1, ContentClause("in_body", s.inBody));
    if s.viewedByMe {
      query := query + [Flag("viewed_by_me")];
    }
    ghost var c3 := c2 + FlagClause("viewed_by_me", s.viewedByMe);
    assert query == q + c2 + FlagClause("viewed_by_me", s.viewedByMe);
    AppendAssoc(q, c2, FlagClause("viewed_by_me", s.viewedByMe));
    if s.notViewedByMe {
      query := query + [Flag("not_viewed_by_me")];
    }
    ghost var c4 := c3 + FlagClause("not_viewed_by_me", s.notViewedByMe);
    assert query == q + c3 + FlagClause("not_viewed_by_me", s.notViewedByMe);
    AppendAssoc(q, c3, FlagClause("not_viewed_by_me", s.notViewedByMe));
    if s.isRestricted {
      query := query + [Flag("is_restricted")];
    }
    assert query == q + c4 + FlagClause("is_restricted", s.isRestricted);
    AppendAssoc(q, c4, FlagClause("is_restricted", s.isRestricted));
  }

  // ---------------------------------------------------------------------------
  // Properties

  /** The `query` key is always there with one value; `page` and `count` are
      there exactly when their pointers are set; no other key exists. */
  lemma SearchValuesKeys(s: SearchParams)
    ensures var m := SearchValues(s);
      && "query" in m && m["query"] == [QueryValue(s)]
      && ("page" in m <==> s.page.Some?)
      && (s.page.Some? ==> m["page"] == [SprintPtr(s.page.value)])
      && ("count" in m <==> s.count.Some?)
      && (s.count.Some? ==> m["count"] == [SprintPtr(s.count.value)])
      && m.Keys <= {"page", "count", "query"}
  {
  }

  /** The page and count values are the pointers' addresses: the ints they
      point at never reach the query string. */
  lemma PointerTargetsIgnored(s: SearchParams, page: int, count: int)
    requires s.page.Some? && s.count.Some?
    ensures SearchValues(s) == SearchValues(s.(page := Some(s.page.value.(target := page)),
                                             count := Some(s.count.value.(target := count))))
  {
  }

  /** The free-text query is always the first word; with no clause the value
      is that query alone, otherwise the clauses follow it after one space
      each (so an empty query gives a leading space). */
  lemma {:induction false} QueryValueShape(s: SearchParams)
    ensures QueryWords(s)[0] == s.query
    ensures Clauses(s) == [] ==> QueryValue(s) == s.query
    ensures Clauses(s) != [] ==> QueryValue(s) == s.query + " " + Join(Clauses(s), " ")
  {
    if Clauses(s) != [] {
      JoinConcat([s.query], Clauses(s), " ");
    }
  }

  /** Every filter unset: no clause at all. */
  lemma NoFiltersNoClauses(q: string)
    ensures Clauses(NoFilters.(query := q)) == []
    ensures QueryValue(NoFilters.(query := q)) == q
  {
  }

  /** SearchParams{}.String(q) is `q?query=`: the key is there, empty. */
  lemma EmptySearch()
    ensures EncodeMap(SearchValues(NoFilters)) == "query="
  {
    NoFiltersNoClauses("");
    assert SearchValues(NoFilters) == map["query" := [""]];
    EncodeSingle("query", "");
    QueryEscapeUnreserved("query");
  }

  /** A search with exactly one clause sends the query, a space and the clause. */
  lemma SingleClause(s: SearchParams, w: string)
    requires Clauses(s) == [w]
    ensures QueryValue(s) == s.query + " " + w
  {
    QueryValueShape(s);
  }

  /** SearchParams{InName: "foo"} gives the clause `{in_name:foo}`. */
  lemma InNameExample()
    ensures QueryValue(NoFilters.(inName := Some("foo"))) == " {in_name:foo}"
  {
    var s := NoFilters.(inName := Some("foo"));
    var w := Tagged("in_name", "foo");
    assert w == "{in_name:foo}" by {
      assert forall i | 0 <= i < 13 :: w[i] == "{in_name:foo}"[i];
    }
    assert ContentClauses(s) == [w] by {
      assert ContentClause("in_name", s.inName) == [w];
      assert ContentClause("in_body", s.inBody) == [];
    }
    assert Clauses(s) == [w] by {
      assert DateClauses(s) == [];
      assert UserClauses(s) == [];
      assert TypeClause(s.types) == [];
    }
    SingleClause(s, w);
  }

  /** SearchParams{Type: [book, page]} gives `{type:book|page}`. */
  lemma TypeExample()
    ensures QueryValue(NoFilters.(types := ["book", "page"])) == " {type:book|page}"
  {
    var s := NoFilters.(types := ["book", "page"]);
    var j := Join(["book", "page"], "|");
    assert j == "book|page" by {
      assert ["book", "page"][1..] == ["page"];
      assert j == "book" + "|" + "page";
      assert forall i | 0 <= i < 9 :: j[i] == "book|page"[i];
    }
    var w := Tagged("type", "book|page");
    assert w == "{type:book|page}" by {
      assert forall i | 0 <= i < 16 :: w[i] == "{type:book|page}"[i];
    }
    assert Clauses(s) == [w] by {
      assert DateClauses(s) == [];
      assert UserClauses(s) == [];
      assert ContentClauses(s) == [];
      assert TypeClause(s.types) == [w];
    }
    SingleClause(s, w);
  }

  /** A user filter set to the empty string stands for the current user;
      any other name is written verbatim. */
  lemma UserFilterDefaults(s: SearchParams)
    ensures s.updatedBy == Some("") ==> Tagged("updated_by", "me") in Clauses(s)
    ensures s.createdBy == Some("") ==> Tagged("created_by", "me") in Clauses(s)
    ensures s.ownedBy == Some("") ==> Tagged("owned_by", "me") in Clauses(s)
    ensures s.updatedBy.Some? && s.updatedBy.value != "" ==> Tagged("updated_by", s.updatedBy.value) in Clauses(s)
    ensures s.createdBy.Some? && s.createdBy.value != "" ==> Tagged("created_by", s.createdBy.value) in Clauses(s)
    ensures s.ownedBy.Some? && s.ownedBy.value != "" ==> Tagged("owned_by", s.ownedBy.value) in Clauses(s)
  {
    var u := UserClauses(s);
    assert forall w :: w in u ==> w in Clauses(s) by {
      assert Clauses(s) == DateClauses(s) + u + (ContentClauses(s) + TypeClause(s.types));
    }
  }

  /** A created-date filter writes exactly what the matching updated-date
      filter writes, so the server cannot tell them apart. */
  lemma CreatedDatesLookUpdated(s: SearchParams, d: Date)
    requires s == NoFilters.(query := s.query)
    ensures QueryWords(s.(createdAfter := Some(d))) == QueryWords(s.(updatedAfter := Some(d)))
    ensures QueryWords(s.(createdBefore := Some(d))) == QueryWords(s.(updatedBefore := Some(d)))
  {
  }

  lemma TaggedHasColon(tag: string, v: string)
    ensures ':' in Tagged(tag, v)
  {
    assert Tagged(tag, v)[|tag| + 1] == ':';
  }

  lemma DateClauseColon(tag: string, d: Option<Date>)
    ensures forall w :: w in DateClause(tag, d) ==> ':' in w
  {
    if d.Some? {
      TaggedHasColon(tag, FormatDate(d.value));
    }
  }

  lemma UserClauseColon(tag: string, u: Option<string>)
    ensures forall w :: w in UserClause(tag, u) ==> ':' in w
  {
    if u.Some? {
      TaggedHasColon(tag, if u.value == "" then "me" else u.value);
    }
  }

  lemma ContentClauseColon(tag: string, v: Option<string>)
    ensures forall w :: w in ContentClause(tag, v) ==> ':' in w
  {
    if v.Some? {
      TaggedHasColon(tag, v.value);
    }
  }

  /** Every clause but the flags carries a `:`. */
  lemma TaggedClausesHaveColons(s: SearchParams)
    ensures forall w :: w in DateClauses(s) + UserClauses(s) + TypeClause(s.types) ==> ':' in w
    ensures forall w :: w in ContentClause("in_name", s.inName) + ContentClause("in_body", s.inBody) ==> ':' in w
  {
    DateClauseColon("updated_after", s.updatedAfter);
    DateClauseColon("updated_before", s.updatedBefore);
    DateClauseColon("updated_after", s.createdAfter);
    DateClauseColon("updated_before", s.createdBefore);
    UserClauseColon("updated_by", s.updatedBy);
    UserClauseColon("created_by", s.createdBy);
    UserClauseColon("owned_by", s.ownedBy);
    ContentClauseColon("in_name", s.inName);
    ContentClauseColon("in_body", s.inBody);
    if |s.types| > 0 {
      TaggedHasColon("type", Join(s.types, "|"));
    }
  }

  /** A word without `:` is among the clauses exactly when it is among the flags. */
  lemma ColonFreeClauses(s: SearchParams, w: string)
    requires ':' !in w
    ensures w in Clauses(s) <==>
      (w in FlagClause("viewed_by_me", s.viewedByMe)
       || w in FlagClause("not_viewed_by_me", s.notViewedByMe)
       || w in FlagClause("is_restricted", s.isRestricted))
  {
    TaggedClausesHaveColons(s);
  }

  /** `{viewed_by_me}`, `{not_viewed_by_me}` and `{is_restricted}` are among
      the clauses exactly when their flag is true. */
  lemma FlagsOnlyWhenTrue(s: SearchParams)
    ensures Flag("viewed_by_me") in Clauses(s) <==> s.viewedByMe
    ensures Flag("not_viewed_by_me") in Clauses(s) <==> s.notViewedByMe
    ensures Flag("is_restricted") in Clauses(s) <==> s.isRestricted
  {
    var f1, f2, f3 := Flag("viewed_by_me"), Flag("not_viewed_by_me"), Flag("is_restricted");
    assert |f1| == 14 && |f2| == 18 && |f3| == 15;
    assert f1[1] == 'v' && f3[1] == 'i';
    assert ':' !in f1 && ':' !in f2 && ':' !in f3;
    ColonFreeClauses(s, f1);
    ColonFreeClauses(s, f2);
    ColonFreeClauses(s, f3);
  }
}
