/** The filtered-list query of `GET /bookings`: the query-string parameters
    become a parameterised query, one equality predicate and one bound
    parameter per searchable field that carries a truthy value. */
module QueryBuilder {
  import opened JsRuntime
  import Config

  /** One bound parameter: a `@name` placeholder and the value it stands for. */
  datatype Parameter = Parameter(name: string, value: string)

  /** A parameterised query: text plus the values bound to its placeholders. */
  datatype QuerySpec = QuerySpec(query: string, parameters: seq<Parameter>)

  /** The request's query-string parameters. */
  type QueryParams = map<string, string>

  /** The text of the query that selects every booking. */
  const SelectAll: string := "SELECT * FROM Bookings " + Config.CollectionAlias

  /** `field` is present in the request with a truthy value. */
  predicate Requested(params: QueryParams, field: string) {
    field in params && Truthy(params[field])
  }

  /** The placeholder a field's value is bound to. */
  function Placeholder(field: string): string {
    "@" + field
  }

  /** The equality predicate that narrows the query on `field`. */
  function Predicate(field: string): string {
    Config.CollectionAlias + "." + field + " = " + Placeholder(field)
  }

  /** The bound parameter carrying the request's value for `field`. */
  function Binding(params: QueryParams, field: string): Parameter
    requires field in params
  {
    Parameter(Placeholder(field), params[field])
  }

  /** The query text for a list of predicates: no WHERE clause when the list
      is empty, otherwise the predicates joined by AND. */
  function QueryText(predicates: seq<string>): string {
    SelectAll + (if |predicates| > 0 then " WHERE " + Join(predicates, " AND ") else "")
  }

  /** Reference definition: the fields that narrow the query, in the order of
      `fields`, whatever keys the request carries. */
  function Selected(fields: seq<string>, params: QueryParams): (sel: seq<string>)
    ensures forall f :: f in sel ==> f in fields && Requested(params, f)
    ensures |sel| <= |fields|
    decreases |fields|
  {
    if fields == [] then []
    else
      var init := fields[..|fields| - 1];
      assert fields == init + [fields[|fields| - 1]];
      var earlier := Selected(init, params);
      var f := fields[|fields| - 1];
      if Requested(params, f) then earlier + [f] else earlier
  }

  /** The predicate of each selected field, in the same order. */
  function Predicates(sel: seq<string>): (preds: seq<string>)
    ensures |preds| == |sel|
    ensures forall i :: 0 <= i < |sel| ==> preds[i] == Predicate(sel[i])
  {
    if sel == [] then [] else Predicates(sel[..|sel| - 1]) + [Predicate(sel[|sel| - 1])]
  }

  /** The bound parameter of each selected field, in the same order. */
  function Bindings(params: QueryParams, sel: seq<string>): (binds: seq<Parameter>)
    requires forall f :: f in sel ==> f in params
    ensures |binds| == |sel|
    ensures forall i :: 0 <= i < |sel| ==> binds[i] == Binding(params, sel[i])
  {
    if sel == [] then []
    else Bindings(params, sel[..|sel| - 1]) + [Binding(params, sel[|sel| - 1])]
  }

  /** Reference definition of the list query. */
  function ListQuery(fields: seq<string>, params: QueryParams): QuerySpec {
    var sel := Selected(fields, params);
    QuerySpec(QueryText(Predicates(sel)), Bindings(params, sel))
  }

  /** The list query as the route builds it: one pass over the searchable
      fields, pushing a predicate and a parameter for each truthy value. */
  method BuildQuery(fields: seq<string>, params: QueryParams) returns (spec: QuerySpec)
    ensures spec == ListQuery(fields, params)
    ensures |spec.parameters| == |Selected(fields, params)|
    ensures forall i :: 0 <= i < |spec.parameters| ==>
      var f := Selected(fields, params)[i];
      f in fields && f in params && Truthy(params[f])
      && spec.parameters[i] == Parameter("@" + f, params[f])
    ensures spec.query == SelectAll <==> spec.parameters == []
  {
    var queryWhere: seq<string> := [];
    var acc: seq<Parameter> := [];
    var i := 0;
    while i < |fields|
      invariant 0 <= i <= |fields|
      invariant queryWhere == Predicates(Selected(fields[..i], params))
      invariant acc == Bindings(params, Selected(fields[..i], params))
    {
      var cur := fields[i];
      if cur in params && Truthy(params[cur]) {
        queryWhere := queryWhere + [Predicate(cur)];
        acc := acc + [Binding(params, cur)];
      }
      BuildStep(fields, params, i);
      i := i + 1;
    }
    assert fields[..i] == fields;
    spec := QuerySpec(QueryText(queryWhere), acc);
    ListQueryShape(fields, params);
  }

  /** One step of the route's pass extends the predicates and the bindings
      of the fields seen so far exactly when the next field is requested. */
  lemma BuildStep(fields: seq<string>, params: QueryParams, i: nat)
    requires i < |fields|
    ensures var before := Selected(fields[..i], params);
      var after := Selected(fields[..i + 1], params);
      var f := fields[i];
      if Requested(params, f) then
        Predicates(after) == Predicates(before) + [Predicate(f)]
        && Bindings(params, after) == Bindings(params, before) + [Binding(params, f)]
      else after == before
  {
    var before := Selected(fields[..i], params);
    assert fields[..i + 1] == fields[..i] + [fields[i]];
    SelectedSnoc(fields[..i], fields[i], params);
    if Requested(params, fields[i]) {
      PredicatesSnoc(before, fields[i]);
      BindingsSnoc(params, before, fields[i]);
    }
  }

  /** Appending a field appends its predicate. */
  lemma PredicatesSnoc(sel: seq<string>, f: string)
    ensures Predicates(sel + [f]) == Predicates(sel) + [Predicate(f)]
  {
    assert (sel + [f])[..|sel|] == sel;
  }

  /** Appending a field appends its binding. */
  lemma BindingsSnoc(params: QueryParams, sel: seq<string>, f: string)
    requires forall g :: g in sel ==> g in params
    requires f in params
    ensures Bindings(params, sel + [f]) == Bindings(params, sel) + [Binding(params, f)]
  {
    assert (sel + [f])[..|sel|] == sel;
  }

  /** The reference query pairs the i-th parameter with the i-th selected
      field, and has the bare text exactly when it binds nothing. */
  lemma ListQueryShape(fields: seq<string>, params: QueryParams)
    ensures var spec := ListQuery(fields, params);
      var sel := Selected(fields, params);
      && |spec.parameters| == |sel|
      && (forall i :: 0 <= i < |sel| ==>
            sel[i] in fields && sel[i] in params && Truthy(params[sel[i]])
            && spec.parameters[i] == Parameter("@" + sel[i], params[sel[i]]))
      && (spec.query == SelectAll <==> spec.parameters == [])
  {
    var sel := Selected(fields, params);
    forall i | 0 <= i < |sel|
      ensures sel[i] in fields && sel[i] in params && Truthy(params[sel[i]])
    {
      assert sel[i] in sel;
    }
    if sel != [] {
      assert |QueryText(Predicates(sel))| > |SelectAll|;
    }
  }

  /** The selection depends on the request only through which fields are
      requested. */
  lemma {:induction false} SelectedDependsOnlyOnRequested(fields: seq<string>, p1: QueryParams, p2: QueryParams)
    requires forall f :: f in fields ==> (Requested(p1, f) <==> Requested(p2, f))
    ensures Selected(fields, p1) == Selected(fields, p2)
    decreases |fields|
  {
    if fields != [] {
      var init := fields[..|fields| - 1];
      assert forall f :: f in init ==> f in fields;
      SelectedDependsOnlyOnRequested(init, p1, p2);
    }
  }

  /** Appending a field to the list appends it to the selection exactly when
      it is requested. */
  lemma SelectedSnoc(init: seq<string>, f: string, params: QueryParams)
    ensures Selected(init + [f], params)
      == if Requested(params, f) then Selected(init, params) + [f] else Selected(init, params)
  {
    assert (init + [f])[..|init|] == init;
  }

  /** Every element of `sel` occurs in `fields` before every later element of `sel`. */
  predicate InDeclarationOrder(sel: seq<string>, fields: seq<string>) {
    forall i, j :: 0 <= i < j < |sel| ==> IndexOf(fields, sel[i]) < IndexOf(fields, sel[j])
  }

  /** In a list without duplicates, an element of the prefix `s[..n]` has the
      same position in `s` as in the prefix. */
  lemma IndexOfInPrefix(s: seq<string>, n: nat, g: string)
    requires NoDuplicates(s) && n <= |s|
    requires g in s[..n]
    ensures IndexOf(s, g) == IndexOf(s[..n], g) < n
  {
    var k := IndexOf(s[..n], g);
    IndexOfDistinct(s, k);
    IndexOfDistinct(s[..n], k);
  }

  /** Extending a list ordered by position in `init` with the last field of
      `fields` keeps it ordered by position in `fields`. */
  lemma OrderedSnoc(fields: seq<string>, earlier: seq<string>)
    requires NoDuplicates(fields) && |fields| > 0
    requires forall g :: g in earlier ==> g in fields[..|fields| - 1]
    requires InDeclarationOrder(earlier, fields[..|fields| - 1])
    ensures InDeclarationOrder(earlier + [fields[|fields| - 1]], fields)
  {
    var n := |fields| - 1;
    var sel := earlier + [fields[n]];
    forall i, j | 0 <= i < j < |sel|
      ensures IndexOf(fields, sel[i]) < IndexOf(fields, sel[j])
    {
      assert sel[i] == earlier[i] && sel[i] in earlier;
      IndexOfInPrefix(fields, n, sel[i]);
      if j < |earlier| {
        assert sel[j] == earlier[j] && sel[j] in earlier;
        IndexOfInPrefix(fields, n, sel[j]);
      } else {
        IndexOfDistinct(fields, n);
      }
    }
  }

  /** Predicates appear in the declaration order of the searchable fields,
      whatever keys the request carries. */
  lemma {:induction false} PredicateOrder(fields: seq<string>, params: QueryParams)
    requires NoDuplicates(fields)
    ensures InDeclarationOrder(Selected(fields, params), fields)
    decreases |fields|
  {
    if fields != [] {
      var n := |fields| - 1;
      var init := fields[..n];
      PredicateOrder(init, params);
      var earlier := Selected(init, params);
      if Requested(params, fields[n]) {
        OrderedSnoc(fields, earlier);
      } else {
        forall i, j | 0 <= i < j < |earlier|
          ensures IndexOf(fields, earlier[i]) < IndexOf(fields, earlier[j])
        {
          assert earlier[i] in earlier && earlier[j] in earlier;
          IndexOfInPrefix(fields, n, earlier[i]);
          IndexOfInPrefix(fields, n, earlier[j]);
        }
      }
    }
  }

  /** Every searchable field with a truthy value is selected. */
  lemma {:induction false} SelectedComplete(fields: seq<string>, params: QueryParams, f: string)
    requires f in fields && Requested(params, f)
    ensures f in Selected(fields, params)
    decreases |fields|
  {
    var n := |fields| - 1;
    if fields[n] != f {
      assert fields == fields[..n] + [fields[n]];
      SelectedComplete(fields[..n], params, f);
    }
  }

  /** The query has no WHERE clause and binds nothing exactly when no
      searchable field carries a truthy value. */
  lemma UnfilteredQuery(fields: seq<string>, params: QueryParams)
    ensures var spec := ListQuery(fields, params);
      (spec.query == SelectAll && spec.parameters == [])
      <==> (forall f :: f in fields ==> !Requested(params, f))
  {
    var sel := Selected(fields, params);
    if sel != [] {
      assert sel[0] in sel;
      assert |QueryText(Predicates(sel))| > |SelectAll|;
    }
    forall f | f in fields && Requested(params, f)
      ensures sel != []
    {
      SelectedComplete(fields, params, f);
    }
  }

  /** The request with every truthy value replaced by the same constant and
      every falsy one dropped. */
  function Masked(params: QueryParams): QueryParams {
    map k | k in params && Truthy(params[k]) :: "1"
  }

  /** Injection safety: the query text is fixed by which allow-listed fields
      are requested; no request value and no unknown key reaches it. In
      particular it is the text of the same request with its values masked. */
  lemma QueryTextIgnoresValues(fields: seq<string>, p1: QueryParams, p2: QueryParams)
    requires forall f :: f in fields ==> (Requested(p1, f) <==> Requested(p2, f))
    ensures ListQuery(fields, p1).query == ListQuery(fields, p2).query
    ensures ListQuery(fields, p1).query == ListQuery(fields, Masked(p1)).query
  {
    SelectedDependsOnlyOnRequested(fields, p1, p2);
    SelectedDependsOnlyOnRequested(fields, p1, Masked(p1));
  }

  /** A key outside the searchable fields changes nothing. */
  lemma UnknownKeyIgnored(fields: seq<string>, params: QueryParams, key: string, value: string)
    requires key !in fields
    ensures ListQuery(fields, params[key := value]) == ListQuery(fields, params)
  {
    var p2 := params[key := value];
    SelectedDependsOnlyOnRequested(fields, p2, params);
    var sel := Selected(fields, params);
    assert Bindings(p2, sel) == Bindings(params, sel);
  }

  /** An empty value is the same as no value. */
  lemma EmptyValueIgnored(fields: seq<string>, params: QueryParams, key: string)
    ensures ListQuery(fields, params[key := ""]) == ListQuery(fields, params - {key})
  {
    var p1 := params[key := ""];
    var p2 := params - {key};
    SelectedDependsOnlyOnRequested(fields, p1, p2);
    var sel := Selected(fields, p1);
    forall f | f in sel
      ensures f in p2 && p1[f] == p2[f]
    {
      assert Requested(p1, f);
    }
    assert Bindings(p1, sel) == Bindings(p2, sel);
  }

  /** With the service's searchable fields, `{agentId: "a1", userId: "u1"}`
      selects userId before agentId. */
  lemma DeclarationOrderSelection()
    ensures Selected(Config.SearchableBookingFields, map["agentId" := "a1", "userId" := "u1"])
      == ["userId", "agentId"]
  {
    var params := map["agentId" := "a1", "userId" := "u1"];
    var s1: seq<string> := ["userId"];
    var s2: seq<string> := ["userId", "storeId"];
    var s3: seq<string> := ["userId", "storeId", "agentId"];
    assert Selected(s1, params) == ["userId"] by {
      assert Requested(params, "userId");
      SelectedSnoc([], "userId", params);
      assert s1 == [] + ["userId"];
    }
    assert Selected(s2, params) == ["userId"] by {
      assert !Requested(params, "storeId");
      SelectedSnoc(s1, "storeId", params);
      assert s2 == s1 + ["storeId"];
    }
    assert Selected(s3, params) == ["userId", "agentId"] by {
      assert Requested(params, "agentId");
      SelectedSnoc(s2, "agentId", params);
      assert s3 == s2 + ["agentId"];
    }
    assert !Requested(params, "date");
    SelectedSnoc(s3, "date", params);
    assert Config.SearchableBookingFields == s3 + ["date"];
  }

  /** ... and so the query carries the userId predicate before the agentId
      one, with the two matching parameters in the same order. */
  lemma DeclarationOrderExample()
    ensures ListQuery(Config.SearchableBookingFields, map["agentId" := "a1", "userId" := "u1"])
      == QuerySpec(SelectAll + " WHERE " + "b.userId = @userId" + " AND " + "b.agentId = @agentId",
                   [Parameter("@userId", "u1"), Parameter("@agentId", "a1")])
  {
    DeclarationOrderSelection();
    ExamplePredicates();
    ExampleBindings();
  }

  lemma ExamplePredicates()
    ensures QueryText(Predicates(["userId", "agentId"]))
      == SelectAll + " WHERE " + "b.userId = @userId" + " AND " + "b.agentId = @agentId"
  {
    var preds := Predicates(["userId", "agentId"]);
    assert preds[0] == "b.userId = @userId";
    assert preds[1] == "b.agentId = @agentId";
    assert Join(preds, " AND ") == "b.userId = @userId" + " AND " + "b.agentId = @agentId";
  }

  lemma ExampleBindings()
    ensures Bindings(map["agentId" := "a1", "userId" := "u1"], ["userId", "agentId"])
      == [Parameter("@userId", "u1"), Parameter("@agentId", "a1")]
  {
    var binds := Bindings(map["agentId" := "a1", "userId" := "u1"], ["userId", "agentId"]);
    assert binds[0] == Parameter("@userId", "u1");
    assert binds[1] == Parameter("@agentId", "a1");
  }

  /** A request with only an unknown key selects every booking. */
  lemma UnknownFieldExample()
    ensures ListQuery(Config.SearchableBookingFields, map["foo" := "bar"]) == QuerySpec(SelectAll, [])
  {
    UnfilteredQuery(Config.SearchableBookingFields, map["foo" := "bar"]);
  }
}
