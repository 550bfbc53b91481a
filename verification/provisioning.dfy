/** Start-up provisioning: make sure the configured database and, inside it,
    the configured collection exist, by querying for the id and creating the
    resource only when the query finds nothing. The store is an in-memory
    list of resources per container; each store call may fail. */
module Provisioning {
  import opened JsRuntime
  import opened Gateway
  import Links

  /** A database or collection: the id it was created with and the resource
      id the store assigned to it (its position in its container). */
  datatype Resource = Resource(id: string, rid: nat)

  /** Whether one store call succeeds or fails with an error code. */
  datatype StoreCall = Succeeds | FailsWith(code: ErrorCode)

  /** The container after a get-or-create, and the resource handed to the
      callback; `None` when an error was handled and the callback never ran. */
  datatype Provisioned = Provisioned(handle: Option<Resource>, container: seq<Resource>)

  /** The ids of a container's resources, in store order. */
  function Ids(container: seq<Resource>): (ids: seq<string>)
    ensures |ids| == |container|
    ensures forall i :: 0 <= i < |container| ==> ids[i] == container[i].id
  {
    seq(|container|, i requires 0 <= i < |container| => container[i].id)
  }

  /** No two resources of the container share an id. */
  predicate UniqueIds(container: seq<Resource>) {
    NoDuplicates(Ids(container))
  }

  /** Every resource's store id is its position in the container. */
  predicate RidsArePositions(container: seq<Resource>) {
    forall i :: 0 <= i < |container| ==> container[i].rid == i
  }

  /** `SELECT * FROM root r WHERE r.id=@id`: the resources with that id, in
      store order. */
  function QueryById(container: seq<Resource>, id: string): (matches: seq<Resource>)
    ensures forall r :: r in matches ==> r in container && r.id == id
  {
    if container == [] then []
    else (if container[0].id == id then [container[0]] else []) + QueryById(container[1..], id)
  }

  /** The query finds nothing exactly when the id is absent, and otherwise
      its first result is the resource at the id's first position. */
  lemma {:induction false} QueryByIdFirstMatch(container: seq<Resource>, id: string)
    ensures QueryById(container, id) == [] <==> id !in Ids(container)
    ensures QueryById(container, id) != [] ==>
      QueryById(container, id)[0] == container[IndexOf(Ids(container), id)]
  {
    if container != [] {
      var ids := Ids(container);
      assert ids == [container[0].id] + Ids(container[1..]);
      QueryByIdFirstMatch(container[1..], id);
      if container[0].id != id && id in ids {
        assert IndexOf(ids, id) == IndexOf(Ids(container[1..]), id) + 1;
      }
    }
  }

  /** `getOrCreateDatabase` / `getOrCreateCollection` over one container:
      query by id; hand back the first match if there is one, otherwise
      create `{id: id}`. A failed query or create is handled and the
      callback never runs. */
  function GetOrCreate(container: seq<Resource>, id: string, query: StoreCall, create: StoreCall): (p: Provisioned)
    ensures container <= p.container && |p.container| <= |container| + 1
    ensures p.handle.Some? ==> p.handle.value.id == id && p.handle.value in p.container
    ensures query.FailsWith? ==> p == Provisioned(None, container)
    ensures query.Succeeds? && id in Ids(container) ==>
      p == Provisioned(Some(container[IndexOf(Ids(container), id)]), container)
    ensures query.Succeeds? && id !in Ids(container) && create.Succeeds? ==>
      p == Provisioned(Some(Resource(id, |container|)), container + [Resource(id, |container|)])
    ensures query.Succeeds? && id !in Ids(container) && create.FailsWith? ==>
      p == Provisioned(None, container)
  {
    match query
    case FailsWith(_) => Provisioned(None, container)
    case Succeeds =>
      var results := QueryById(container, id);
      QueryByIdFirstMatch(container, id);
      if |results| == 0 then
        match create
        case FailsWith(_) => Provisioned(None, container)
        case Succeeds =>
          var created := Resource(id, |container|);
          Provisioned(Some(created), container + [created])
      else
        Provisioned(Some(results[0]), container)
  }

  /** Appending a resource appends its id. */
  lemma IdsSnoc(container: seq<Resource>, r: Resource)
    ensures Ids(container + [r]) == Ids(container) + [r.id]
  {
  }

  /** A second get-or-create for an id the first one provided returns the
      same resource and creates nothing, whatever the create call would do. */
  lemma GetOrCreateIdempotent(container: seq<Resource>, id: string, create1: StoreCall, create2: StoreCall)
    requires GetOrCreate(container, id, Succeeds, create1).handle.Some?
    ensures var p1 := GetOrCreate(container, id, Succeeds, create1);
      GetOrCreate(p1.container, id, Succeeds, create2) == p1
  {
    var p1 := GetOrCreate(container, id, Succeeds, create1);
    if id !in Ids(container) {
      var created := Resource(id, |container|);
      IdsSnoc(container, created);
      assert Ids(p1.container)[|container|] == id;
      assert IndexOf(Ids(p1.container), id) == |container|;
    }
  }

  /** Get-or-create never introduces a second resource with an id, and keeps
      store ids equal to positions. */
  lemma GetOrCreateKeepsStoreValid(container: seq<Resource>, id: string, query: StoreCall, create: StoreCall)
    requires UniqueIds(container) && RidsArePositions(container)
    ensures var p := GetOrCreate(container, id, query, create);
      UniqueIds(p.container) && RidsArePositions(p.container)
  {
    var p := GetOrCreate(container, id, query, create);
    if p.container != container {
      var created := Resource(id, |container|);
      IdsSnoc(container, created);
      var ids := Ids(p.container);
      forall i, j | 0 <= i < j < |ids|
        ensures ids[i] != ids[j]
      {
        if j == |container| {
          assert ids[i] == Ids(container)[i];
          assert ids[i] in Ids(container);
        } else {
          assert ids[i] == Ids(container)[i] && ids[j] == Ids(container)[j];
        }
      }
    }
  }

  // ---- The start-up chain ----

  /** The store account: its databases, and the collections of each database
      keyed by the database's store id. */
  datatype Account = Account(databases: seq<Resource>, collections: map<nat, seq<Resource>>)

  /** The outcome of the four store calls start-up may make. */
  datatype Faults = Faults(dbQuery: StoreCall, dbCreate: StoreCall, collQuery: StoreCall, collCreate: StoreCall)

  /** The links set once start-up has provisioned both resources. */
  datatype Context = Context(dbLink: string, collLink: string)

  /** The account after start-up, and the links if start-up completed. */
  datatype Startup = Startup(context: Option<Context>, account: Account)

  /** The collections of the database with store id `rid`. */
  function CollectionsOf(account: Account, rid: nat): seq<Resource> {
    if rid in account.collections then account.collections[rid] else []
  }

  /** Every container of the account has unique ids and positional store ids,
      and collections hang only off existing databases. */
  predicate ValidAccount(account: Account) {
    && UniqueIds(account.databases)
    && RidsArePositions(account.databases)
    && (forall rid :: rid in account.collections ==> rid < |account.databases|)
    && (forall rid :: rid in account.collections ==>
          UniqueIds(account.collections[rid]) && RidsArePositions(account.collections[rid]))
  }

  /** The database with `databaseId` exists and holds a collection with `collectionId`. */
  predicate Ready(account: Account, databaseId: string, collectionId: string) {
    && databaseId in Ids(account.databases)
    && var db := account.databases[IndexOf(Ids(account.databases), databaseId)];
       collectionId in Ids(CollectionsOf(account, db.rid))
  }

  /** The links the service builds from the configured ids. */
  function ServiceContext(databaseId: string, collectionId: string): Context {
    var dbLink := Links.DbLink(databaseId);
    Context(dbLink, Links.CollLink(dbLink, collectionId))
  }

  /** The store id the configured database has, or gets when start-up
      creates it at the end of the database list. */
  function DatabaseRid(account: Account, databaseId: string): nat {
    if databaseId in Ids(account.databases)
    then account.databases[IndexOf(Ids(account.databases), databaseId)].rid
    else |account.databases|
  }

  /** `initDb` and its completion callback: get or create the database, then
      get or create the collection in it, then set the two links. */
  function InitDb(account: Account, databaseId: string, collectionId: string, faults: Faults): (s: Startup)
    ensures s.context.Some? ==>
      s.context.value == ServiceContext(databaseId, collectionId)
      && Ready(s.account, databaseId, collectionId)
    ensures s.context.Some? <==>
      && faults.dbQuery.Succeeds?
      && (databaseId in Ids(account.databases) || faults.dbCreate.Succeeds?)
      && faults.collQuery.Succeeds?
      && (collectionId in Ids(CollectionsOf(account, DatabaseRid(account, databaseId)))
          || faults.collCreate.Succeeds?)
    ensures faults.dbQuery.FailsWith? ==> s == Startup(None, account)
    ensures s.account.databases ==
      if faults.dbQuery.Succeeds? && databaseId !in Ids(account.databases) && faults.dbCreate.Succeeds?
      then account.databases + [Resource(databaseId, |account.databases|)]
      else account.databases
    ensures forall rid :: rid != DatabaseRid(account, databaseId) ==>
      CollectionsOf(s.account, rid) == CollectionsOf(account, rid)
    ensures CollectionsOf(s.account, DatabaseRid(account, databaseId)) ==
      var colls := CollectionsOf(account, DatabaseRid(account, databaseId));
      if s.context.Some? && collectionId !in Ids(colls)
      then colls + [Resource(collectionId, |colls|)]
      else colls
    ensures s.context.None? ==> s.account.collections == account.collections
  {
    var pdb := GetOrCreate(account.databases, databaseId, faults.dbQuery, faults.dbCreate);
    var afterDb := account.(databases := pdb.container);
    match pdb.handle
    case None => Startup(None, afterDb)
    case Some(db) =>
      assert afterDb.databases[IndexOf(Ids(afterDb.databases), databaseId)] == db by {
        if databaseId !in Ids(account.databases) {
          GetOrCreateIdempotent(account.databases, databaseId, faults.dbCreate, Succeeds);
        }
      }
      assert db.rid == DatabaseRid(account, databaseId);
      assert CollectionsOf(afterDb, db.rid) == CollectionsOf(account, db.rid);
      ProvisionCollection(afterDb, db, databaseId, collectionId, faults)
  }

  /** The second half of start-up, once the database `db` is known: get or
      create the collection among `db`'s collections and, when that hands
      back a collection, set the links. Nothing but `db`'s collections
      changes, and they change only by the one created collection. */
  function ProvisionCollection(afterDb: Account, db: Resource, databaseId: string, collectionId: string, faults: Faults): (s: Startup)
    requires databaseId in Ids(afterDb.databases)
    requires afterDb.databases[IndexOf(Ids(afterDb.databases), databaseId)] == db
    ensures s.account.databases == afterDb.databases
    ensures s.context.Some? ==>
      s.context.value == ServiceContext(databaseId, collectionId)
      && Ready(s.account, databaseId, collectionId)
    ensures s.context.Some? <==>
      faults.collQuery.Succeeds?
      && (collectionId in Ids(CollectionsOf(afterDb, db.rid)) || faults.collCreate.Succeeds?)
    ensures s.context.None? ==> s == Startup(None, afterDb)
    // A corollary of the two clauses above, stated for the failed query.
    ensures faults.collQuery.FailsWith? ==> s == Startup(None, afterDb)
    ensures CollectionsOf(s.account, db.rid) ==
      var colls := CollectionsOf(afterDb, db.rid);
      if faults.collQuery.Succeeds? && collectionId !in Ids(colls) && faults.collCreate.Succeeds?
      then colls + [Resource(collectionId, |colls|)]
      else colls
    ensures forall rid :: rid != db.rid ==> CollectionsOf(s.account, rid) == CollectionsOf(afterDb, rid)
  {
    var colls := CollectionsOf(afterDb, db.rid);
    var pcoll := GetOrCreate(colls, collectionId, faults.collQuery, faults.collCreate);
    var afterColl :=
      if pcoll.container == colls then afterDb
      else afterDb.(collections := afterDb.collections[db.rid := pcoll.container]);
    match pcoll.handle
    case None => Startup(None, afterColl)
    case Some(_) => Startup(Some(ServiceContext(databaseId, collectionId)), afterColl)
  }

  /** Start-up keeps the account valid: it never creates a duplicate database
      or collection. */
  lemma InitDbKeepsAccountValid(account: Account, databaseId: string, collectionId: string, faults: Faults)
    requires ValidAccount(account)
    ensures ValidAccount(InitDb(account, databaseId, collectionId, faults).account)
  {
    var pdb := GetOrCreate(account.databases, databaseId, faults.dbQuery, faults.dbCreate);
    GetOrCreateKeepsStoreValid(account.databases, databaseId, faults.dbQuery, faults.dbCreate);
    var afterDb := account.(databases := pdb.container);
    assert ValidAccount(afterDb);
    if pdb.handle.Some? {
      var db := pdb.handle.value;
      assert db.rid < |pdb.container| by {
        var i :| 0 <= i < |pdb.container| && pdb.container[i] == db;
      }
      assert InitDb(account, databaseId, collectionId, faults)
        == ProvisionCollection(afterDb, db, databaseId, collectionId, faults);
      ProvisionCollectionKeepsAccountValid(afterDb, db, databaseId, collectionId, faults);
    }
  }

  /** The collection step keeps the account valid. */
  lemma ProvisionCollectionKeepsAccountValid(afterDb: Account, db: Resource, databaseId: string, collectionId: string, faults: Faults)
    requires databaseId in Ids(afterDb.databases)
    requires afterDb.databases[IndexOf(Ids(afterDb.databases), databaseId)] == db
    requires ValidAccount(afterDb) && db.rid < |afterDb.databases|
    ensures ValidAccount(ProvisionCollection(afterDb, db, databaseId, collectionId, faults).account)
  {
    var colls := CollectionsOf(afterDb, db.rid);
    assert UniqueIds(colls) && RidsArePositions(colls);
    GetOrCreateKeepsStoreValid(colls, collectionId, faults.collQuery, faults.collCreate);
    var pcoll := GetOrCreate(colls, collectionId, faults.collQuery, faults.collCreate);
    ValidAfterCollectionUpdate(afterDb, db.rid, pcoll.container);
  }

  /** Replacing the collections of an existing database by a valid container
      keeps the account valid. */
  lemma ValidAfterCollectionUpdate(account: Account, rid: nat, colls: seq<Resource>)
    requires ValidAccount(account)
    requires rid < |account.databases|
    requires UniqueIds(colls) && RidsArePositions(colls)
    ensures ValidAccount(account.(collections := account.collections[rid := colls]))
  {
  }

  /** A second collection step for a collection the first one provided
      changes nothing. */
  lemma ProvisionCollectionIdempotent(afterDb: Account, db: Resource, databaseId: string, collectionId: string, faults1: Faults, faults2: Faults)
    requires databaseId in Ids(afterDb.databases)
    requires afterDb.databases[IndexOf(Ids(afterDb.databases), databaseId)] == db
    requires ProvisionCollection(afterDb, db, databaseId, collectionId, faults1).context.Some?
    requires faults2.collQuery.Succeeds?
    ensures var s1 := ProvisionCollection(afterDb, db, databaseId, collectionId, faults1);
      ProvisionCollection(s1.account, db, databaseId, collectionId, faults2) == s1
  {
    var s1 := ProvisionCollection(afterDb, db, databaseId, collectionId, faults1);
    var colls := CollectionsOf(afterDb, db.rid);
    var pcoll := GetOrCreate(colls, collectionId, faults1.collQuery, faults1.collCreate);
    assert faults1.collQuery.Succeeds?;
    assert pcoll.handle.Some?;
    GetOrCreateIdempotent(colls, collectionId, faults1.collCreate, faults2.collCreate);
    assert CollectionsOf(s1.account, db.rid) == pcoll.container;
    assert GetOrCreate(pcoll.container, collectionId, faults2.collQuery, faults2.collCreate) == pcoll;
  }

  /** Once start-up has completed, running it again (with working queries)
      sets the same links and changes nothing in the account. */
  lemma InitDbIdempotent(account: Account, databaseId: string, collectionId: string, faults1: Faults, faults2: Faults)
    requires InitDb(account, databaseId, collectionId, faults1).context.Some?
    requires faults2.dbQuery.Succeeds? && faults2.collQuery.Succeeds?
    ensures var s1 := InitDb(account, databaseId, collectionId, faults1);
      InitDb(s1.account, databaseId, collectionId, faults2) == s1
  {
    var s1 := InitDb(account, databaseId, collectionId, faults1);
    var pdb := GetOrCreate(account.databases, databaseId, faults1.dbQuery, faults1.dbCreate);
    GetOrCreateIdempotent(account.databases, databaseId, faults1.dbCreate, faults2.dbCreate);
    var db := pdb.handle.value;
    var afterDb := account.(databases := pdb.container);
    assert s1 == ProvisionCollection(afterDb, db, databaseId, collectionId, faults1);
    ProvisionCollectionIdempotent(afterDb, db, databaseId, collectionId, faults1, faults2);
    assert s1.account.databases == pdb.container;
    assert s1.account.(databases := pdb.container) == s1.account;
  }
}
