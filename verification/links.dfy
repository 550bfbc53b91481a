/** Resource links: a database, its collection and a booking document are
    addressed by path-like strings built from their ids. */
module Links {

  /** The database link, `dbs/<databaseId>`. */
  function DbLink(databaseId: string): (link: string)
    ensures "dbs/" <= link
    ensures link[4..] == databaseId
  {
    "dbs/" + databaseId
  }

  /** The collection link: the database link, `/colls/`, the collection id. */
  function CollLink(dbLink: string, collectionId: string): (link: string)
    ensures dbLink + "/colls/" <= link
    ensures link[|dbLink| + 7..] == collectionId
  {
    dbLink + "/colls/" + collectionId
  }

  /** A booking's link: the collection link, `/docs/`, the booking id. */
  function DocLink(collLink: string, bookingId: string): (link: string)
    ensures collLink + "/docs/" <= link
    ensures link[|collLink| + 6..] == bookingId
  {
    collLink + "/docs/" + bookingId
  }

  /** `s.split('/')`: the pieces between slashes; one piece when there is none. */
  function Segments(s: string): (parts: seq<string>)
    ensures |parts| >= 1
  {
    if s == [] then [""]
    else if s[0] == '/' then [""] + Segments(s[1..])
    else
      var rest := Segments(s[1..]);
      [[s[0]] + rest[0]] + rest[1..]
  }

  /** A string without a slash is a single segment. */
  lemma {:induction false} SegmentsOfPlain(s: string)
    requires '/' !in s
    ensures Segments(s) == [s]
  {
    if s != [] {
      assert '/' !in s[1..];
      SegmentsOfPlain(s[1..]);
      assert [s[0]] + s[1..] == s;
    }
  }

  /** Splitting `a + "/" + b` with no slash in `a` yields `a`, then the segments of `b`. */
  lemma {:induction false} SegmentsOfJoin(a: string, b: string)
    requires '/' !in a
    ensures Segments(a + "/" + b) == [a] + Segments(b)
  {
    if a == [] {
      assert a + "/" + b == "/" + b;
      assert ("/" + b)[1..] == b;
    } else {
      assert '/' !in a[1..];
      SegmentsOfJoin(a[1..], b);
      var s := a + "/" + b;
      assert s[0] == a[0];
      assert s[1..] == a[1..] + "/" + b;
      assert [a[0]] + a[1..] == a;
    }
  }

  /** A booking's link, written as five slash-separated joins. */
  lemma DocLinkShape(databaseId: string, collectionId: string, bookingId: string)
    ensures DocLink(CollLink(DbLink(databaseId), collectionId), bookingId)
      == "dbs" + "/" + (databaseId + "/" + ("colls" + "/" + (collectionId + "/" + ("docs" + "/" + bookingId))))
  {
    assert "dbs/" == "dbs" + "/";
    assert "/colls/" == "/" + "colls" + "/";
    assert "/docs/" == "/" + "docs" + "/";
  }

  /** A booking's link splits back into the three ids it was built from, so
      the link names its database, collection and booking unambiguously. */
  lemma DocLinkSegments(databaseId: string, collectionId: string, bookingId: string)
    requires '/' !in databaseId && '/' !in collectionId && '/' !in bookingId
    ensures Segments(DocLink(CollLink(DbLink(databaseId), collectionId), bookingId))
      == ["dbs", databaseId, "colls", collectionId, "docs", bookingId]
  {
    DocLinkShape(databaseId, collectionId, bookingId);
    var t4 := "docs" + "/" + bookingId;
    var t3 := collectionId + "/" + t4;
    var t2 := "colls" + "/" + t3;
    var t1 := databaseId + "/" + t2;
    assert Segments(t4) == ["docs", bookingId] by {
      SegmentsOfPlain(bookingId);
      SegmentsOfJoin("docs", bookingId);
    }
    assert Segments(t3) == [collectionId, "docs", bookingId] by {
      SegmentsOfJoin(collectionId, t4);
    }
    assert Segments(t2) == ["colls", collectionId, "docs", bookingId] by {
      SegmentsOfJoin("colls", t3);
    }
    assert Segments(t1) == [databaseId, "colls", collectionId, "docs", bookingId] by {
      SegmentsOfJoin(databaseId, t2);
    }
    SegmentsOfJoin("dbs", t1);
  }

  /** Different ids give different booking links. */
  lemma DocLinkInjective(db1: string, coll1: string, id1: string, db2: string, coll2: string, id2: string)
    requires '/' !in db1 && '/' !in coll1 && '/' !in id1
    requires '/' !in db2 && '/' !in coll2 && '/' !in id2
    requires DocLink(CollLink(DbLink(db1), coll1), id1) == DocLink(CollLink(DbLink(db2), coll2), id2)
    ensures db1 == db2 && coll1 == coll2 && id1 == id2
  {
    DocLinkSegments(db1, coll1, id1);
    DocLinkSegments(db2, coll2, id2);
  }
}
