/** The query that `getArticles` builds before it calls the content API, and
    the queries its callers ask for. A `URLSearchParams` object is modelled
    as its list of name/value pairs; turning that list into the encoded
    query string is not part of this model. */
module StrapiQuery {
  import opened Options
  import opened JsText
  import opened JsValues

  /** The name/value pairs of a `URLSearchParams`, in order. */
  type Query = seq<(string, string)>

  /** `get(name)`: the value of the first pair with that name. */
  function Get(q: Query, name: string): Option<string> {
    if |q| == 0 then None
    else if q[0].0 == name then Some(q[0].1)
    else Get(q[1..], name)
  }

  function Names(q: Query): set<string> {
    set i | 0 <= i < |q| :: q[i].0
  }

  lemma NamesCons(x: (string, string), rest: Query)
    ensures Names([x] + rest) == {x.0} + Names(rest)
  {
    var r := [x] + rest;
    forall n | n in Names(r) ensures n in {x.0} + Names(rest) {
      var i :| 0 <= i < |r| && r[i].0 == n;
      if i > 0 { assert rest[i - 1].0 == n; }
    }
    forall n | n in {x.0} + Names(rest) ensures n in Names(r) {
      if n == x.0 {
        assert r[0].0 == n;
      } else {
        var i :| 0 <= i < |rest| && rest[i].0 == n;
        assert r[i + 1].0 == n;
      }
    }
  }

  predicate UniqueNames(q: Query) {
    forall i, j :: 0 <= i < j < |q| ==> q[i].0 != q[j].0
  }

  /** A pair in front keeps the names unique when its name is new. */
  lemma UniqueCons(x: (string, string), rest: Query)
    ensures UniqueNames([x] + rest) <==> x.0 !in Names(rest) && UniqueNames(rest)
  {
    var r := [x] + rest;
    assert forall i :: 0 <= i < |rest| ==> r[i + 1] == rest[i];
    if x.0 in Names(rest) {
      var i :| 0 <= i < |rest| && rest[i].0 == x.0;
      assert r[0].0 == r[i + 1].0;
    }
  }

  /** The pairs of `q` whose name is not `name`. */
  function RemoveAll(q: Query, name: string): Query {
    if |q| == 0 then []
    else if q[0].0 == name then RemoveAll(q[1..], name)
    else [q[0]] + RemoveAll(q[1..], name)
  }

  /** `set(name, value)`: the first pair with that name takes the value and
      the other pairs with that name are removed; without such a pair, the
      pair is appended. */
  function SetParam(q: Query, name: string, value: string): Query {
    if |q| == 0 then [(name, value)]
    else if q[0].0 == name then [(name, value)] + RemoveAll(q[1..], name)
    else [q[0]] + SetParam(q[1..], name, value)
  }

  /** Removing a name keeps the value of every other name. */
  lemma {:induction false} RemoveAllGet(q: Query, name: string)
    ensures forall n :: n != name ==> Get(RemoveAll(q, name), n) == Get(q, n)
    decreases |q|
  {
    if |q| > 0 {
      RemoveAllGet(q[1..], name);
      if q[0].0 != name {
        var r := [q[0]] + RemoveAll(q[1..], name);
        assert r[1..] == RemoveAll(q[1..], name);
      }
    }
  }

  /** Removing a name removes exactly that name and keeps names unique. */
  lemma {:induction false} RemoveAllNames(q: Query, name: string)
    ensures Names(RemoveAll(q, name)) == Names(q) - {name}
    ensures UniqueNames(q) ==> UniqueNames(RemoveAll(q, name))
    decreases |q|
  {
    if |q| > 0 {
      var rest := RemoveAll(q[1..], name);
      RemoveAllNames(q[1..], name);
      assert q == [q[0]] + q[1..];
      NamesCons(q[0], q[1..]);
      if q[0].0 != name {
        var r := [q[0]] + rest;
        assert r[1..] == rest;
        NamesCons(q[0], rest);
      }
    }
  }

  /** After `set`, the name has exactly the new value and every other name
      keeps its value. */
  lemma {:induction false} SetParamGet(q: Query, name: string, value: string)
    ensures Get(SetParam(q, name, value), name) == Some(value)
    ensures forall n :: n != name ==> Get(SetParam(q, name, value), n) == Get(q, n)
    decreases |q|
  {
    if |q| > 0 {
      if q[0].0 == name {
        var rest := RemoveAll(q[1..], name);
        RemoveAllGet(q[1..], name);
        var r := [(name, value)] + rest;
        assert r[1..] == rest;
      } else {
        var rest := SetParam(q[1..], name, value);
        SetParamGet(q[1..], name, value);
        var r := [q[0]] + rest;
        assert r[1..] == rest;
      }
    }
  }

  /** After `set`, the names are the old ones and the new one, and no name
      is stored twice that was not before. */
  lemma {:induction false} SetParamNames(q: Query, name: string, value: string)
    ensures Names(SetParam(q, name, value)) == Names(q) + {name}
    ensures UniqueNames(q) ==> UniqueNames(SetParam(q, name, value))
    decreases |q|
  {
    if |q| == 0 {
      assert Names(SetParam(q, name, value)) == {name} by {
        assert SetParam(q, name, value)[0].0 == name;
      }
    } else {
      assert q == [q[0]] + q[1..];
      NamesCons(q[0], q[1..]);
      UniqueCons(q[0], q[1..]);
      if q[0].0 == name {
        var rest := RemoveAll(q[1..], name);
        RemoveAllNames(q[1..], name);
        NamesCons((name, value), rest);
        UniqueCons((name, value), rest);
      } else {
        var rest := SetParam(q[1..], name, value);
        SetParamNames(q[1..], name, value);
        NamesCons(q[0], rest);
        UniqueCons(q[0], rest);
      }
    }
  }

  /** The query after `set` is called with each pair of `ps` in turn. */
  function SetAll(q: Query, ps: Query): Query
    decreases |ps|
  {
    if |ps| == 0 then q
    else SetParam(SetAll(q, ps[..|ps| - 1]), ps[|ps| - 1].0, ps[|ps| - 1].1)
  }

  /** The value of the last pair named `name` in `ps`. */
  function LastValue(ps: Query, name: string): Option<string>
    decreases |ps|
  {
    if |ps| == 0 then None
    else if ps[|ps| - 1].0 == name then Some(ps[|ps| - 1].1)
    else LastValue(ps[..|ps| - 1], name)
  }

  lemma SetAllSnoc(q: Query, ps: Query, p: (string, string))
    ensures SetAll(q, ps + [p]) == SetParam(SetAll(q, ps), p.0, p.1)
  {
    assert (ps + [p])[..|ps|] == ps;
  }

  /** Setting pairs one after another: the last value set for a name wins,
      and names not set keep their old values. */
  lemma {:induction false} SetAllGet(q: Query, ps: Query, name: string)
    ensures Get(SetAll(q, ps), name) ==
      if LastValue(ps, name).Some? then LastValue(ps, name) else Get(q, name)
    decreases |ps|
  {
    if |ps| > 0 {
      SetAllGet(q, ps[..|ps| - 1], name);
      SetParamGet(SetAll(q, ps[..|ps| - 1]), ps[|ps| - 1].0, ps[|ps| - 1].1);
    }
  }

  /** Setting pairs never stores a name twice. */
  lemma {:induction false} SetAllUnique(q: Query, ps: Query)
    requires UniqueNames(q)
    ensures UniqueNames(SetAll(q, ps))
    decreases |ps|
  {
    if |ps| > 0 {
      SetAllUnique(q, ps[..|ps| - 1]);
      SetParamNames(SetAll(q, ps[..|ps| - 1]), ps[|ps| - 1].0, ps[|ps| - 1].1);
    }
  }

  lemma {:induction false} SetAllAppend(q: Query, a: Query, b: Query)
    ensures SetAll(q, a + b) == SetAll(SetAll(q, a), b)
    decreases |b|
  {
    if |b| == 0 {
      assert a + b == a;
    } else {
      assert (a + b)[..|a + b| - 1] == a + b[..|b| - 1];
      SetAllAppend(q, a, b[..|b| - 1]);
    }
  }

  lemma {:induction false} LastValueAppend(a: Query, b: Query, name: string)
    ensures LastValue(a + b, name) ==
      if LastValue(b, name).Some? then LastValue(b, name) else LastValue(a, name)
    decreases |b|
  {
    if |b| == 0 {
      assert a + b == a;
    } else {
      assert (a + b)[..|a + b| - 1] == a + b[..|b| - 1];
      LastValueAppend(a, b[..|b| - 1], name);
    }
  }

  lemma {:induction false} LastValueAbsent(ps: Query, name: string)
    requires forall i :: 0 <= i < |ps| ==> ps[i].0 != name
    ensures LastValue(ps, name) == None
    decreases |ps|
  {
    if |ps| > 0 {
      LastValueAbsent(ps[..|ps| - 1], name);
    }
  }

  /** Two names built around the same prefix and a closing "]" are equal
      only when what lies between is. */
  lemma BracketedInjective(prefix: string, a: string, b: string)
    requires prefix + a + "]" == prefix + b + "]"
    ensures a == b
  {
    var x, y := prefix + a + "]", prefix + b + "]";
    assert |a| == |b|;
    assert x[|prefix|..|prefix| + |a|] == a;
    assert y[|prefix|..|prefix| + |b|] == b;
  }

  /** How relations are named for population: one relation, or a list. */
  datatype Populate = Relation(name: string) | Relations(names: seq<string>)

  /** The parameters of `getArticles`; `filters` lists the properties of the
      filter object in `Object.entries` order. */
  datatype ArticlesParams = ArticlesParams(
    limit: Option<int>,
    sort: Option<string>,
    filters: Option<seq<(string, JsValue)>>,
    populate: Option<Populate>)

  const PageSizeName: string := "pagination[pageSize]"

  function PopulateName(i: nat): string {
    "populate[" + NatToString(i) + "]"
  }

  function FilterName(key: string): string {
    "filters[" + key + "]"
  }

  function OperatorName(key: string, op: string): string {
    "filters[" + key + "][" + op + "]"
  }

  /** A limit is sent only when it is truthy: 0 is not. */
  function LimitAssignments(limit: Option<int>): Query {
    if limit.Some? && limit.value != 0 then [(PageSizeName, IntToString(limit.value))] else []
  }

  function SortAssignments(sort: Option<string>): Query {
    if sort.Some? && sort.value != "" then [("sort", sort.value)] else []
  }

  /** A list of relations is numbered in order (even an empty list is
      truthy, and then nothing is set); one relation is set as it is; no
      relation, or an empty one, populates everything. */
  function PopulateAssignments(populate: Option<Populate>): Query {
    match populate
    case Some(Relations(names)) => seq(|names|, i requires 0 <= i < |names| => (PopulateName(i), names[i]))
    case Some(Relation(name)) => if name != "" then [("populate", name)] else [("populate", "*")]
    case None => [("populate", "*")]
  }

  function OperatorAssignments(key: string, ops: seq<(string, JsValue)>): Query {
    seq(|ops|, j requires 0 <= j < |ops| => (OperatorName(key, ops[j].0), ToJsString(ops[j].1)))
  }

  /** One property of the filter object: an object value gives one pair per
      operator, converted with `String`, whatever its depth; anything else
      gives one pair. */
  function FilterEntryAssignments(key: string, value: JsValue): Query {
    if IsObject(value) then OperatorAssignments(key, ObjectEntries(value))
    else [(FilterName(key), ToJsString(value))]
  }

  function FilterAssignments(filters: seq<(string, JsValue)>): Query
    decreases |filters|
  {
    if |filters| == 0 then []
    else
      var last := filters[|filters| - 1];
      FilterAssignments(filters[..|filters| - 1]) + FilterEntryAssignments(last.0, last.1)
  }

  /** Every `set` call `getArticles` makes, in order. */
  function Assignments(p: ArticlesParams): Query {
    LimitAssignments(p.limit) + SortAssignments(p.sort) + PopulateAssignments(p.populate) +
    (if p.filters.Some? then FilterAssignments(p.filters.value) else [])
  }

  /** The query `getArticles` sends; each name occurs once. */
  function ArticlesQuery(p: ArticlesParams): (q: Query)
    ensures UniqueNames(q)
  {
    SetAllUnique([], Assignments(p));
    SetAll([], Assignments(p))
  }

  /** Every name in `ps` begins with `prefix`. */
  predicate AllNamed(ps: Query, prefix: string) {
    forall i :: 0 <= i < |ps| ==> StartsWith(ps[i].0, prefix)
  }

  lemma LastValueOutside(ps: Query, prefix: string, name: string)
    requires AllNamed(ps, prefix) && !StartsWith(name, prefix)
    ensures LastValue(ps, name) == None
  {
    LastValueAbsent(ps, name);
  }

  /** In a list without repeated names, the last value of a name is its only one. */
  lemma {:induction false} LastValueUnique(ps: Query, i: nat)
    requires UniqueNames(ps) && i < |ps|
    ensures LastValue(ps, ps[i].0) == Some(ps[i].1)
    decreases |ps|
  {
    if i < |ps| - 1 {
      LastValueUnique(ps[..|ps| - 1], i);
    }
  }

  lemma {:induction false} FilterAssignmentsNamed(filters: seq<(string, JsValue)>)
    ensures AllNamed(FilterAssignments(filters), "filters[")
    decreases |filters|
  {
    if |filters| > 0 {
      FilterAssignmentsNamed(filters[..|filters| - 1]);
      var last := filters[|filters| - 1];
      var e := FilterEntryAssignments(last.0, last.1);
      forall i | 0 <= i < |e| ensures StartsWith(e[i].0, "filters[") {
        if IsObject(last.1) {
          assert e[i].0 == "filters[" + last.0 + "][" + ObjectEntries(last.1)[i].0 + "]";
        }
      }
    }
  }

  lemma NotFilterName(name: string)
    requires |name| > 0 && name[0] != 'f'
    ensures !StartsWith(name, "filters[")
  {
  }

  /** The assignments that precede the filters name only the page size,
      the sort and population: none of them is a filter. */
  lemma HeadAssignmentsNotFilters(p: ArticlesParams)
    ensures var head := LimitAssignments(p.limit) + SortAssignments(p.sort) + PopulateAssignments(p.populate);
      forall i :: 0 <= i < |head| ==> !StartsWith(head[i].0, "filters[")
  {
    var head := LimitAssignments(p.limit) + SortAssignments(p.sort) + PopulateAssignments(p.populate);
    forall i | 0 <= i < |head| ensures !StartsWith(head[i].0, "filters[") {
      assert head[i].0[0] != 'f';
    }
  }

  /** The lookup of a filter name in the query is decided by the filter
      assignments alone. */
  lemma FilterLookup(p: ArticlesParams, name: string)
    requires p.filters.Some? && StartsWith(name, "filters[")
    requires LastValue(FilterAssignments(p.filters.value), name).Some?
    ensures Get(ArticlesQuery(p), name) == LastValue(FilterAssignments(p.filters.value), name)
  {
    var head := LimitAssignments(p.limit) + SortAssignments(p.sort) + PopulateAssignments(p.populate);
    SetAllGet([], Assignments(p), name);
    LastValueAppend(head, FilterAssignments(p.filters.value), name);
  }

  /** A non-filter name is decided by the head assignments alone. */
  lemma HeadLookup(p: ArticlesParams, name: string)
    requires !StartsWith(name, "filters[")
    ensures Get(ArticlesQuery(p), name) ==
      LastValue(LimitAssignments(p.limit) + SortAssignments(p.sort) + PopulateAssignments(p.populate), name)
  {
    var head := LimitAssignments(p.limit) + SortAssignments(p.sort) + PopulateAssignments(p.populate);
    var tail := if p.filters.Some? then FilterAssignments(p.filters.value) else [];
    if p.filters.Some? {
      FilterAssignmentsNamed(p.filters.value);
    }
    LastValueOutside(tail, "filters[", name);
    SetAllGet([], Assignments(p), name);
    LastValueAppend(head, tail, name);
  }

  /** The page size is sent exactly when the limit is truthy (present and
      not 0), as the decimal numeral of the limit. */
  lemma QueryPageSize(p: ArticlesParams)
    ensures Get(ArticlesQuery(p), PageSizeName) ==
      if p.limit.Some? && p.limit.value != 0 then Some(IntToString(p.limit.value)) else None
  {
    NotFilterName(PageSizeName);
    HeadLookup(p, PageSizeName);
    var rest := SortAssignments(p.sort) + PopulateAssignments(p.populate);
    NoPageSizeAfterLimit(p);
    LastValueAbsent(rest, PageSizeName);
    assert LimitAssignments(p.limit) + SortAssignments(p.sort) + PopulateAssignments(p.populate) ==
      LimitAssignments(p.limit) + rest;
    LastValueAppend(LimitAssignments(p.limit), rest, PageSizeName);
  }

  lemma NoPageSizeAfterLimit(p: ArticlesParams)
    ensures var rest := SortAssignments(p.sort) + PopulateAssignments(p.populate);
      forall i :: 0 <= i < |rest| ==> rest[i].0 != PageSizeName
  {
    var rest := SortAssignments(p.sort) + PopulateAssignments(p.populate);
    forall i | 0 <= i < |rest| ensures rest[i].0 != PageSizeName {
      assert rest[i].0[1] != PageSizeName[1];
    }
  }

  /** Without a populate directive (or with an empty one) every relation
      is populated. */
  lemma QueryDefaultPopulate(p: ArticlesParams)
    requires p.populate.None? || p.populate == Some(Relation(""))
    ensures Get(ArticlesQuery(p), "populate") == Some("*")
  {
    NotFilterName("populate");
    HeadLookup(p, "populate");
    LastValueAppend(LimitAssignments(p.limit) + SortAssignments(p.sort), PopulateAssignments(p.populate), "populate");
  }

  lemma PopulateNamesUnique(names: seq<string>)
    ensures UniqueNames(PopulateAssignments(Some(Relations(names))))
  {
    var ps := PopulateAssignments(Some(Relations(names)));
    forall i, j | 0 <= i < j < |ps| ensures ps[i].0 != ps[j].0 {
      if ps[i].0 == ps[j].0 {
        BracketedInjective("populate[", NatToString(i), NatToString(j));
        ParseNatToString(i);
        ParseNatToString(j);
      }
    }
  }

  /** A list of relations is sent as `populate[0]`, `populate[1]`, … in
      order, and then `populate` itself is not sent. */
  lemma QueryPopulateList(p: ArticlesParams, names: seq<string>)
    requires p.populate == Some(Relations(names))
    ensures Get(ArticlesQuery(p), "populate") == None
    ensures forall i :: 0 <= i < |names| ==> Get(ArticlesQuery(p), PopulateName(i)) == Some(names[i])
  {
    var front := LimitAssignments(p.limit) + SortAssignments(p.sort);
    var ps := PopulateAssignments(p.populate);
    assert front + ps == LimitAssignments(p.limit) + SortAssignments(p.sort) + PopulateAssignments(p.populate);
    NotFilterName("populate");
    HeadLookup(p, "populate");
    var head: Query := front + ps;
    forall i | 0 <= i < |head| ensures head[i].0 != "populate" {
    }
    LastValueAbsent(head, "populate");
    PopulateNamesUnique(names);
    forall i | 0 <= i < |names| ensures Get(ArticlesQuery(p), PopulateName(i)) == Some(names[i]) {
      NotFilterName(PopulateName(i));
      HeadLookup(p, PopulateName(i));
      LastValueUnique(ps, i);
      LastValueAppend(front, ps, PopulateName(i));
    }
  }

  /** A single filter property with a value that is not an object becomes
      `filters[key]`, converted with `String`. */
  lemma QueryScalarFilter(p: ArticlesParams, key: string, value: JsValue)
    requires p.filters == Some([(key, value)]) && !IsObject(value)
    ensures Get(ArticlesQuery(p), FilterName(key)) == Some(ToJsString(value))
  {
    SingleFilterAssignments(key, value);
    FilterLookup(p, FilterName(key));
  }

  lemma OperatorNamesUnique(key: string, ops: seq<(string, JsValue)>)
    requires forall i, j :: 0 <= i < j < |ops| ==> ops[i].0 != ops[j].0
    ensures UniqueNames(OperatorAssignments(key, ops))
  {
    var fa := OperatorAssignments(key, ops);
    forall i, j | 0 <= i < j < |fa| ensures fa[i].0 != fa[j].0 {
      if fa[i].0 == fa[j].0 {
        assert OperatorName(key, ops[i].0) == ("filters[" + key + "][") + ops[i].0 + "]";
        assert OperatorName(key, ops[j].0) == ("filters[" + key + "][") + ops[j].0 + "]";
        BracketedInjective("filters[" + key + "][", ops[i].0, ops[j].0);
      }
    }
  }

  lemma SingleFilterAssignments(key: string, value: JsValue)
    ensures FilterAssignments([(key, value)]) == FilterEntryAssignments(key, value)
  {
    assert [(key, value)][..0] == [];
  }

  lemma OperatorNameIsFilterName(key: string, op: string)
    ensures StartsWith(OperatorName(key, op), "filters[")
  {
    assert OperatorName(key, op) == "filters[" + (key + "][" + op + "]");
  }

  lemma QueryOperatorFilterAt(p: ArticlesParams, key: string, ops: seq<(string, JsValue)>, j: nat)
    requires p.filters == Some([(key, Object(ops))])
    requires UniqueNames(OperatorAssignments(key, ops)) && j < |ops|
    ensures Get(ArticlesQuery(p), OperatorName(key, ops[j].0)) == Some(ToJsString(ops[j].1))
  {
    var name := OperatorName(key, ops[j].0);
    SingleFilterAssignments(key, Object(ops));
    assert FilterAssignments(p.filters.value) == OperatorAssignments(key, ops);
    LastValueUnique(OperatorAssignments(key, ops), j);
    OperatorNameIsFilterName(key, ops[j].0);
    FilterLookup(p, name);
  }

  /** A single filter property whose value is an object with distinct
      operator names becomes one `filters[key][op]` per operator. */
  lemma QueryOperatorFilter(p: ArticlesParams, key: string, ops: seq<(string, JsValue)>)
    requires p.filters == Some([(key, Object(ops))])
    requires forall i, j :: 0 <= i < j < |ops| ==> ops[i].0 != ops[j].0
    ensures forall j :: 0 <= j < |ops| ==>
      Get(ArticlesQuery(p), OperatorName(key, ops[j].0)) == Some(ToJsString(ops[j].1))
  {
    OperatorNamesUnique(key, ops);
    forall j | 0 <= j < |ops|
      ensures Get(ArticlesQuery(p), OperatorName(key, ops[j].0)) == Some(ToJsString(ops[j].1))
    {
      QueryOperatorFilterAt(p, key, ops, j);
    }
  }

  /** The sort order the CMS client asks for: newest first. */
  const NewestFirst: string := "publishDate:desc"

  /** `getRecentArticles(limit)` of the CMS client. */
  function RecentParams(limit: int): ArticlesParams {
    ArticlesParams(Some(limit), Some(NewestFirst), None, None)
  }

  /** `getFeaturedArticle` of the CMS client. */
  const FeaturedParams: ArticlesParams :=
    ArticlesParams(Some(1), None, Some([("isFeatured", Object([("$eq", Bool(true))]))]), None)

  /** `getArticlesByPillar(slug)` of the CMS client: the filter is nested
      three levels deep. */
  function PillarParams(slug: string): ArticlesParams {
    ArticlesParams(None, Some(NewestFirst),
      Some([("pillar", Object([("slug", Object([("$eq", Str(slug))]))]))]), None)
  }

  /** `getArticleBySlug(slug)` of the CMS client, which sets its two pairs
      itself. */
  function SlugQuery(slug: string): Query {
    SetAll([], [(OperatorName("slug", "$eq"), slug), ("populate", "*")])
  }

  /** The recent-articles query: newest first, every relation populated,
      and a page size only for a non-zero limit. */
  lemma RecentQuery(limit: int)
    ensures var q := ArticlesQuery(RecentParams(limit));
      Get(q, "sort") == Some(NewestFirst) &&
      Get(q, "populate") == Some("*") &&
      Get(q, PageSizeName) == if limit != 0 then Some(IntToString(limit)) else None
  {
    var p := RecentParams(limit);
    QuerySortDefaultPopulate(p);
    QueryDefaultPopulate(p);
    QueryPageSize(p);
  }

  /** A non-empty sort order is sent as it is. */
  lemma QuerySortDefaultPopulate(p: ArticlesParams)
    requires p.sort.Some? && p.sort.value != ""
    ensures Get(ArticlesQuery(p), "sort") == p.sort
  {
    NotFilterName("sort");
    HeadLookup(p, "sort");
    PopulateNamed(p.populate);
    LastValueOutside(PopulateAssignments(p.populate), "populate", "sort");
    LastValueAppend(LimitAssignments(p.limit) + SortAssignments(p.sort), PopulateAssignments(p.populate), "sort");
    LastValueAppend(LimitAssignments(p.limit), SortAssignments(p.sort), "sort");
  }

  /** Every population pair is named `populate` or `populate[i]`. */
  lemma PopulateNamed(populate: Option<Populate>)
    ensures AllNamed(PopulateAssignments(populate), "populate")
  {
    var ps := PopulateAssignments(populate);
    forall i | 0 <= i < |ps| ensures StartsWith(ps[i].0, "populate") {
      if populate.Some? && populate.value.Relations? {
        assert ps[i].0 == "populate" + ("[" + NatToString(i) + "]");
      }
    }
  }

  /** All articles are fetched as the 100 most recent. */
  lemma AllArticlesQuery()
    ensures Get(ArticlesQuery(RecentParams(100)), PageSizeName) == Some("100")
    ensures Get(ArticlesQuery(RecentParams(100)), "sort") == Some(NewestFirst)
  {
    RecentQuery(100);
    assert DigitChar(0) == '0' && DigitChar(1) == '1';
    assert NatToString(1) == "1";
    assert NatToString(10) == "10";
    assert NatToString(100) == "100";
  }

  /** The featured query asks for one article with `isFeatured` equal to
      "true". */
  lemma FeaturedQuery()
    ensures var q := ArticlesQuery(FeaturedParams);
      Get(q, OperatorName("isFeatured", "$eq")) == Some("true") &&
      Get(q, PageSizeName) == Some("1") &&
      Get(q, "populate") == Some("*")
  {
    QueryOperatorFilter(FeaturedParams, "isFeatured", [("$eq", Bool(true))]);
    QueryPageSize(FeaturedParams);
    QueryDefaultPopulate(FeaturedParams);
  }

  /** Filters are flattened two levels only: the pillar filter sends the
      inner object converted with `String`, "[object Object]", under
      `filters[pillar][slug]`, and no `$eq` filter at all, whatever the slug. */
  lemma PillarFilterFlattenedTwoLevels(slug: string)
    ensures var q := ArticlesQuery(PillarParams(slug));
      Get(q, OperatorName("pillar", "slug")) == Some("[object Object]") &&
      Get(q, OperatorName("pillar", "slug") + "[$eq]") == None &&
      Get(q, "sort") == Some(NewestFirst)
  {
    var all := PillarAssignments(slug);
    var name := OperatorName("pillar", "slug");
    var deep := name + "[$eq]";
    SetAllGet([], all, name);
    SetAllGet([], all, deep);
    SetAllGet([], all, "sort");
    assert name[0] != "sort"[0] && name[0] != "populate"[0];
    forall i | 0 <= i < |all| ensures all[i].0 != deep {
      assert |all[i].0| != |deep|;
    }
    LastValueAbsent(all, deep);
    assert all[..2][..1] == [("sort", NewestFirst)];
    assert LastValue(all, "sort") == LastValue(all[..2], "sort") == LastValue(all[..2][..1], "sort");
  }

  /** The pairs the pillar query sets, in order. */
  lemma PillarAssignments(slug: string) returns (all: Query)
    ensures all == Assignments(PillarParams(slug))
    ensures all == [("sort", NewestFirst), ("populate", "*"), (OperatorName("pillar", "slug"), "[object Object]")]
  {
    var p := PillarParams(slug);
    var inner := Object([("$eq", Str(slug))]);
    var filters := [("pillar", Object([("slug", inner)]))];
    assert filters[..0] == [];
    assert ToJsString(inner) == "[object Object]";
    assert OperatorAssignments("pillar", [("slug", inner)]) == [(OperatorName("pillar", "slug"), "[object Object]")];
    assert FilterAssignments(filters) == [(OperatorName("pillar", "slug"), "[object Object]")];
    all := Assignments(p);
  }

  // ---------------------------------------------------------------------
  // The flattening the nested pillar filter needs
  // ---------------------------------------------------------------------

  /** Flattening followed to any depth: a plain object contributes one
      bracketed segment per property, anything else is the value of the
      name built so far. */
  function FlattenFilter(name: string, v: JsValue): Query
    decreases v, 1
  {
    match v
    case Object(ps) => FlattenProperties(name, v, 0)
    case _ => [(name, ToJsString(v))]
  }

  /** The properties of the object `v` from position `from` on. */
  function FlattenProperties(name: string, v: JsValue, from: nat): Query
    requires v.Object?
    decreases v, 0, |v.properties| - from
  {
    if from >= |v.properties| then []
    else
      var (key, value) := v.properties[from];
      FlattenFilter(name + "[" + key + "]", value) + FlattenProperties(name, v, from + 1)
  }

  function DeepFilterAssignments(filters: seq<(string, JsValue)>): Query
    decreases |filters|
  {
    if |filters| == 0 then []
    else
      var last := filters[|filters| - 1];
      DeepFilterAssignments(filters[..|filters| - 1]) + FlattenFilter(FilterName(last.0), last.1)
  }

  /** The query with nested filters flattened to any depth. */
  function DeepArticlesQuery(p: ArticlesParams): (q: Query)
    ensures UniqueNames(q)
  {
    var all := LimitAssignments(p.limit) + SortAssignments(p.sort) + PopulateAssignments(p.populate) +
      (if p.filters.Some? then DeepFilterAssignments(p.filters.value) else []);
    SetAllUnique([], all);
    SetAll([], all)
  }

  /** For an object whose operator values are not plain objects, flattening
      to any depth sets exactly the pairs `getArticles` sets: the two
      flattenings differ only on deeper nesting. */
  lemma {:induction false} FlattenAgreesOnTwoLevels(key: string, v: JsValue, from: nat)
    requires v.Object? && from <= |v.properties|
    requires forall j :: 0 <= j < |v.properties| ==> !v.properties[j].1.Object?
    ensures FlattenProperties(FilterName(key), v, from) ==
      OperatorAssignments(key, v.properties[from..])
    decreases |v.properties| - from
  {
    var ops := v.properties[from..];
    if from < |v.properties| {
      FlattenAgreesOnTwoLevels(key, v, from + 1);
      var (op, value) := v.properties[from];
      assert FilterName(key) + "[" + op + "]" == OperatorName(key, op);
      assert FlattenFilter(OperatorName(key, op), value) == [(OperatorName(key, op), ToJsString(value))];
      assert v.properties[from + 1..] == ops[1..];
      assert OperatorAssignments(key, ops) ==
        [(OperatorName(key, op), ToJsString(value))] + OperatorAssignments(key, ops[1..]);
    } else {
      assert ops == [];
    }
  }

  /** The featured query is the same under either flattening. */
  lemma FeaturedQueryUnchanged()
    ensures DeepArticlesQuery(FeaturedParams) == ArticlesQuery(FeaturedParams)
  {
    var v := Object([("$eq", Bool(true))]);
    FlattenAgreesOnTwoLevels("isFeatured", v, 0);
    assert v.properties[0..] == v.properties;
    var fs := FeaturedParams.filters.value;
    assert fs[..0] == [];
    assert DeepFilterAssignments(fs) == FilterAssignments(fs);
  }

  /** With filters flattened to any depth, the pillar query sends the slug
      under `filters[pillar][slug][$eq]` and nothing under
      `filters[pillar][slug]`. */
  lemma DeepPillarFilter(slug: string)
    ensures var q := DeepArticlesQuery(PillarParams(slug));
      Get(q, OperatorName("pillar", "slug") + "[$eq]") == Some(slug) &&
      Get(q, OperatorName("pillar", "slug")) == None &&
      Get(q, "sort") == Some(NewestFirst)
  {
    var all := DeepPillarAssignments(slug);
    var name := OperatorName("pillar", "slug");
    var deep := name + "[$eq]";
    SetAllGet([], all, deep);
    SetAllGet([], all, name);
    SetAllGet([], all, "sort");
    assert deep[0] != "sort"[0] && deep[0] != "populate"[0];
    forall i | 0 <= i < |all| ensures all[i].0 != name {
      assert |all[i].0| != |name|;
    }
    LastValueAbsent(all, name);
    assert all[..2][..1] == [("sort", NewestFirst)];
    assert LastValue(all, "sort") == LastValue(all[..2], "sort") == LastValue(all[..2][..1], "sort");
  }

  /** The pairs the deep pillar query sets, in order. */
  lemma DeepPillarAssignments(slug: string) returns (all: Query)
    ensures DeepArticlesQuery(PillarParams(slug)) == SetAll([], all)
    ensures all == [("sort", NewestFirst), ("populate", "*"), (OperatorName("pillar", "slug") + "[$eq]", slug)]
  {
    var p := PillarParams(slug);
    var inner := Object([("$eq", Str(slug))]);
    var outer := Object([("slug", inner)]);
    var filters := [("pillar", outer)];
    var name := OperatorName("pillar", "slug");
    assert filters[..0] == [];
    assert FlattenProperties(name, inner, 1) == [];
    assert name + "[" + "$eq" + "]" == name + "[$eq]";
    assert FlattenFilter(name + "[$eq]", Str(slug)) == [(name + "[$eq]", slug)];
    assert FlattenProperties(name, inner, 0) == [(name + "[$eq]", slug)];
    assert FilterName("pillar") + "[" + "slug" + "]" == name;
    assert FlattenProperties(FilterName("pillar"), outer, 1) == [];
    assert FlattenProperties(FilterName("pillar"), outer, 0) == FlattenFilter(name, inner);
    assert DeepFilterAssignments(filters) == [(name + "[$eq]", slug)];
    all := [("sort", NewestFirst), ("populate", "*"), (name + "[$eq]", slug)];
    assert LimitAssignments(p.limit) + SortAssignments(p.sort) + PopulateAssignments(p.populate) +
      DeepFilterAssignments(filters) == all;
  }

  /** The slug query filters with `$eq` on the slug and populates every
      relation. */
  lemma SlugQueryPairs(slug: string)
    ensures Get(SlugQuery(slug), OperatorName("slug", "$eq")) == Some(slug)
    ensures Get(SlugQuery(slug), "populate") == Some("*")
  {
    var ps := [(OperatorName("slug", "$eq"), slug), ("populate", "*")];
    SetAllGet([], ps, OperatorName("slug", "$eq"));
    SetAllGet([], ps, "populate");
    assert ps[..1][..0] == [];
  }

  /** `URLSearchParams` with `set`. */
  class SearchParams {
    var pairs: Query

    constructor ()
      ensures pairs == []
    {
      pairs := [];
    }

    method Set(name: string, value: string)
      modifies this
      ensures pairs == SetParam(old(pairs), name, value)
    {
      pairs := SetParam(pairs, name, value);
    }
  }

  /** The `forEach` over a list of relations to populate. */
  method SetPopulate(params: SearchParams, populate: Option<Populate>)
    modifies params
    ensures params.pairs == SetAll(old(params.pairs), PopulateAssignments(populate))
  {
    ghost var start := params.pairs;
    match populate {
      case Some(Relations(names)) =>
        var i := 0;
        while i < |names|
          invariant 0 <= i <= |names|
          invariant params.pairs == SetAll(start, PopulateAssignments(populate)[..i])
        {
          SetAllSnoc(start, PopulateAssignments(populate)[..i], (PopulateName(i), names[i]));
          assert PopulateAssignments(populate)[..i + 1] ==
            PopulateAssignments(populate)[..i] + [(PopulateName(i), names[i])];
          params.Set(PopulateName(i), names[i]);
          i := i + 1;
        }
        assert PopulateAssignments(populate)[..i] == PopulateAssignments(populate);
      case Some(Relation(name)) =>
        SetAllSnoc(start, [], ("populate", if name != "" then name else "*"));
        params.Set("populate", if name != "" then name else "*");
      case None =>
        SetAllSnoc(start, [], ("populate", "*"));
        params.Set("populate", "*");
    }
  }

  /** The inner `forEach` over the operators of one object-valued filter. */
  method SetOperators(params: SearchParams, key: string, ops: seq<(string, JsValue)>)
    modifies params
    ensures params.pairs == SetAll(old(params.pairs), OperatorAssignments(key, ops))
  {
    ghost var start := params.pairs;
    var j := 0;
    while j < |ops|
      invariant 0 <= j <= |ops|
      invariant params.pairs == SetAll(start, OperatorAssignments(key, ops[..j]))
    {
      var (op, v) := ops[j];
      SetAllSnoc(start, OperatorAssignments(key, ops[..j]), (OperatorName(key, op), ToJsString(v)));
      assert OperatorAssignments(key, ops[..j + 1]) ==
        OperatorAssignments(key, ops[..j]) + [(OperatorName(key, op), ToJsString(v))];
      params.Set(OperatorName(key, op), ToJsString(v));
      j := j + 1;
    }
    assert ops[..j] == ops;
  }

  /** The outer `forEach` over the properties of the filter object. */
  method SetFilters(params: SearchParams, filters: seq<(string, JsValue)>)
    modifies params
    ensures params.pairs == SetAll(old(params.pairs), FilterAssignments(filters))
  {
    ghost var start := params.pairs;
    var k := 0;
    while k < |filters|
      invariant 0 <= k <= |filters|
      invariant params.pairs == SetAll(start, FilterAssignments(filters[..k]))
    {
      var key, value := filters[k].0, filters[k].1;
      ghost var prefix := FilterAssignments(filters[..k]);
      ghost var entry := FilterEntryAssignments(key, value);
      assert filters[..k + 1][..k] == filters[..k];
      assert FilterAssignments(filters[..k + 1]) == prefix + entry;
      SetAllAppend(start, prefix, entry);
      if IsObject(value) {
        SetOperators(params, key, ObjectEntries(value));
      } else {
        SetAllSnoc(params.pairs, [], (FilterName(key), ToJsString(value)));
        params.Set(FilterName(key), ToJsString(value));
      }
      assert params.pairs == SetAll(SetAll(start, prefix), entry);
      k := k + 1;
    }
    assert filters[..k] == filters;
  }

  /** The query construction of `getArticles`, step by step. */
  method BuildArticlesQuery(p: ArticlesParams) returns (q: Query)
    ensures q == ArticlesQuery(p)
  {
    var params := new SearchParams();
    if p.limit.Some? && p.limit.value != 0 {
      params.Set(PageSizeName, IntToString(p.limit.value));
    }
    if p.sort.Some? && p.sort.value != "" {
      SetAllSnoc([], LimitAssignments(p.limit), ("sort", p.sort.value));
      params.Set("sort", p.sort.value);
    }
    assert params.pairs == SetAll([], LimitAssignments(p.limit) + SortAssignments(p.sort));
    SetAllAppend([], LimitAssignments(p.limit) + SortAssignments(p.sort), PopulateAssignments(p.populate));
    SetPopulate(params, p.populate);
    var filterAssignments := if p.filters.Some? then FilterAssignments(p.filters.value) else [];
    SetAllAppend([], LimitAssignments(p.limit) + SortAssignments(p.sort) + PopulateAssignments(p.populate),
      filterAssignments);
    if p.filters.Some? {
      SetFilters(params, p.filters.value);
    }
    q := params.pairs;
  }
}
