/** The allow-list projection applied to every booking before it leaves the
    service: keep the keys the allow-list names, drop the rest (store
    metadata and anything else a caller must not see). */
module Projection {
  import opened JsRuntime
  import Config

  /** A stored document: its keys and their values. */
  type Document<V> = map<string, V>

  /** Keep the entries whose key `indexOf` finds in the allow-list. */
  function Project<V>(doc: Document<V>, allowList: seq<string>): (r: Document<V>)
    ensures r.Keys == doc.Keys * set k | k in allowList
    ensures forall k :: k in r ==> r[k] == doc[k]
  {
    map key | key in doc && IndexOf(allowList, key) != -1 :: doc[key]
  }

  /** Project each document of a result list, keeping the list's order. */
  function ProjectAll<V>(docs: seq<Document<V>>, allowList: seq<string>): (rs: seq<Document<V>>)
    ensures |rs| == |docs|
    ensures forall i :: 0 <= i < |docs| ==> rs[i] == Project(docs[i], allowList)
  {
    if docs == [] then []
    else [Project(docs[0], allowList)] + ProjectAll(docs[1..], allowList)
  }

  /** Projecting twice is projecting once. */
  lemma ProjectIdempotent<V>(doc: Document<V>, allowList: seq<string>)
    ensures Project(Project(doc, allowList), allowList) == Project(doc, allowList)
  {
  }

  /** Projection leaves a document with only allow-listed keys unchanged. */
  lemma ProjectKeepsSafeDocument<V>(doc: Document<V>, allowList: seq<string>)
    requires forall k :: k in doc ==> k in allowList
    ensures Project(doc, allowList) == doc
  {
  }

  /** `{id: "1", userId: "u1", secret: "x"}` projects to `{id: "1", userId: "u1"}`. */
  lemma SecretDroppedExample()
    ensures Project(map["id" := "1", "userId" := "u1", "secret" := "x"], Config.SafeBookingFields)
      == map["id" := "1", "userId" := "u1"]
  {
    var doc := map["id" := "1", "userId" := "u1", "secret" := "x"];
    var r := Project(doc, Config.SafeBookingFields);
    assert "secret" !in Config.SafeBookingFields;
    assert "id" in Config.SafeBookingFields;
    assert "userId" in Config.SafeBookingFields;
    assert r.Keys == {"id", "userId"};
  }
}
