/** The in-memory index of JSON-RPC filters (jsonrpc/storage.go). */
module FilterStorage {
  import opened Wrappers

  type FilterID = nat
  type Conn = nat

  datatype FilterType = LogFilterType | BlockFilterType | PendingTxFilterType

  /** `conn` is the websocket connection, absent for filters created over HTTP. */
  datatype Filter = Filter(id: FilterID, kind: FilterType, conn: Option<Conn>)

  type Filters = map<FilterID, Filter>
  type Conns = map<Conn, Filters>

  // ----- The views of one map of filters -----

  /** The filters of one kind that have a connection. */
  function OfKind(all: Filters, kind: FilterType): Filters {
    map id | id in all && all[id].conn.Some? && all[id].kind == kind :: all[id]
  }

  function OfConn(all: Filters, c: Conn): Filters {
    map id | id in all && all[id].conn == Some(c) :: all[id]
  }

  ghost predicate ConnEntry(conns: Conns, all: Filters, c: Conn) {
    if OfConn(all, c) == map[] then c !in conns else c in conns && conns[c] == OfConn(all, c)
  }

  /** Exactly the connections in use, each with exactly its filters; no inner map is empty. */
  ghost predicate ConnsIndex(conns: Conns, all: Filters) {
    forall c: Conn :: ConnEntry(conns, all, c)
  }

  ghost predicate KindsIndex(blocks: Filters, logs: Filters, pending: Filters, all: Filters) {
    && blocks == OfKind(all, BlockFilterType)
    && logs == OfKind(all, LogFilterType)
    && pending == OfKind(all, PendingTxFilterType)
  }

  /** Overwriting the filter stored under the identifier leaves no entry of the old one behind. */
  predicate Replaces(all: Filters, f: Filter) {
    f.id !in all || all[f.id].conn.None? || (all[f.id].conn == f.conn && all[f.id].kind == f.kind)
  }

  function AddConn(conns: Conns, c: Conn, f: Filter): Conns {
    conns[c := (if c in conns then conns[c] else map[])[f.id := f]]
  }

  function DropConn(conns: Conns, c: Conn, id: FilterID): Conns
    requires c in conns
  {
    var rest := conns[c] - {id};
    if rest == map[] then conns - {c} else conns[c := rest]
  }

  function AddKind(view: Filters, kind: FilterType, f: Filter): Filters {
    if f.conn.Some? && f.kind == kind then view[f.id := f] else view
  }

  function DropKind(view: Filters, kind: FilterType, f: Filter): Filters {
    if f.kind == kind then view - {f.id} else view
  }

  lemma AddedKind(all: Filters, kind: FilterType, f: Filter)
    requires Replaces(all, f)
    ensures OfKind(all[f.id := f], kind) == AddKind(OfKind(all, kind), kind, f)
  {
  }

  lemma DroppedKind(all: Filters, kind: FilterType, f: Filter)
    requires f.id in all && all[f.id] == f
    ensures OfKind(all - {f.id}, kind) == DropKind(OfKind(all, kind), kind, f)
  {
  }

  lemma AddedConn(conns: Conns, all: Filters, f: Filter)
    requires ConnsIndex(conns, all) && Replaces(all, f)
    ensures ConnsIndex(if f.conn.Some? then AddConn(conns, f.conn.value, f) else conns, all[f.id := f])
  {
    var all' := all[f.id := f];
    var conns' := if f.conn.Some? then AddConn(conns, f.conn.value, f) else conns;
    forall c: Conn
      ensures ConnEntry(conns', all', c)
    {
      assert ConnEntry(conns, all, c);
      if f.conn == Some(c) {
        assert OfConn(all', c) == OfConn(all, c)[f.id := f];
        assert f.id in OfConn(all', c);
      } else {
        assert OfConn(all', c) == OfConn(all, c);
      }
    }
  }

  lemma DroppedConn(conns: Conns, all: Filters, f: Filter)
    requires ConnsIndex(conns, all) && f.id in all && all[f.id] == f
    ensures f.conn.Some? ==> f.conn.value in conns
    ensures ConnsIndex(if f.conn.Some? then DropConn(conns, f.conn.value, f.id) else conns, all - {f.id})
  {
    if f.conn.Some? {
      assert ConnEntry(conns, all, f.conn.value) && f.id in OfConn(all, f.conn.value);
    }
    var all' := all - {f.id};
    var conns' := if f.conn.Some? then DropConn(conns, f.conn.value, f.id) else conns;
    forall c: Conn
      ensures ConnEntry(conns', all', c)
    {
      assert ConnEntry(conns, all, c);
      if f.conn == Some(c) {
        assert OfConn(all', c) == OfConn(all, c) - {f.id};
      } else {
        assert OfConn(all', c) == OfConn(all, c);
      }
    }
  }

  /** When it does not replace cleanly, a view keeps an entry that the new table does not have. */
  lemma StaleConn(conns: Conns, all: Filters, f: Filter)
    requires ConnsIndex(conns, all) && !Replaces(all, f) && all[f.id].conn != f.conn
    ensures !ConnsIndex(if f.conn.Some? then AddConn(conns, f.conn.value, f) else conns, all[f.id := f])
  {
    var c := all[f.id].conn.value;
    assert ConnEntry(conns, all, c) && f.id in OfConn(all, c);
    assert f.id !in OfConn(all[f.id := f], c);
    assert !ConnEntry(if f.conn.Some? then AddConn(conns, f.conn.value, f) else conns, all[f.id := f], c);
  }

  lemma StaleKind(all: Filters, f: Filter)
    requires !Replaces(all, f) && all[f.id].kind != f.kind
    ensures var kind := all[f.id].kind; OfKind(all[f.id := f], kind) != AddKind(OfKind(all, kind), kind, f)
  {
    assert f.id in OfKind(all, all[f.id].kind);
  }

  class Storage {
    var allFilters: Filters
    var allFiltersWithWSConn: Conns
    var blockFiltersWithWSConn: Filters
    var logFiltersWithWSConn: Filters
    var pendingTxFiltersWithWSConn: Filters

    constructor ()
      ensures Valid() && allFilters == map[]
    {
      allFilters, allFiltersWithWSConn := map[], map[];
      blockFiltersWithWSConn, logFiltersWithWSConn, pendingTxFiltersWithWSConn := map[], map[], map[];
    }

    /** The five maps stand for one map of filters, of which the other four are views. */
    ghost predicate Valid()
      reads this
    {
      && (forall id :: id in allFilters ==> allFilters[id].id == id)
      && ConnsIndex(allFiltersWithWSConn, allFilters)
      && KindsIndex(blockFiltersWithWSConn, logFiltersWithWSConn, pendingTxFiltersWithWSConn, allFilters)
    }

    /** `id` is the generated identifier; nothing keeps it from being one already in use. */
    method CreateFilter(id: FilterID, kind: FilterType, conn: Option<Conn>) returns (f: Filter)
      requires Valid()
      modifies this
      ensures f == Filter(id, kind, conn)
      ensures allFilters == old(allFilters)[id := f]
      ensures Valid() <==> Replaces(old(allFilters), f)
    {
      f := Filter(id, kind, conn);
      ghost var all := allFilters;
      allFilters := allFilters[id := f];
      if conn.Some? {
        allFiltersWithWSConn := AddConn(allFiltersWithWSConn, conn.value, f);
        match kind
        case BlockFilterType => blockFiltersWithWSConn := blockFiltersWithWSConn[id := f];
        case LogFilterType => logFiltersWithWSConn := logFiltersWithWSConn[id := f];
        case PendingTxFilterType => pendingTxFiltersWithWSConn := pendingTxFiltersWithWSConn[id := f];
      }
      if Replaces(all, f) {
        AddedKind(all, BlockFilterType, f);
        AddedKind(all, LogFilterType, f);
        AddedKind(all, PendingTxFilterType, f);
        AddedConn(old(allFiltersWithWSConn), all, f);
      } else if all[id].conn != f.conn {
        StaleConn(old(allFiltersWithWSConn), all, f);
      } else {
        StaleKind(all, f);
      }
    }

    method UninstallFilter(id: FilterID) returns (found: bool)
      requires Valid()
      modifies this
      ensures Valid()
      ensures found == (id in old(allFilters))
      ensures allFilters == old(allFilters) - {id}
    {
      if id !in allFilters {
        return false;
      }
      DeleteFilter(allFilters[id]);
      return true;
    }

    /**
     Deletes a connection's filters one by one while iterating over the very map they are deleted from,
     in an arbitrary order. `None` is the nil connection.
     */
    method UninstallFilterByWSConn(conn: Option<Conn>)
      requires Valid()
      modifies this
      ensures Valid()
      ensures conn.None? ==> allFilters == old(allFilters)
      ensures conn.Some? ==> allFilters == old(allFilters) - OfConn(old(allFilters), conn.value).Keys
      ensures conn.Some? ==> conn.value !in allFiltersWithWSConn
      ensures forall id :: id in allFilters <==>
                id in old(allFilters) && (conn.None? || old(allFilters)[id].conn != conn)
    {
      if conn.None? {
        return;
      }
      var c := conn.value;
      ghost var before, deleted := allFilters, {};
      assert ConnEntry(allFiltersWithWSConn, allFilters, c);
      while c in allFiltersWithWSConn
        invariant Valid() && ConnEntry(allFiltersWithWSConn, allFilters, c)
        invariant deleted <= OfConn(before, c).Keys && allFilters == before - deleted
        decreases |allFilters|
      {
        var filters := allFiltersWithWSConn[c];
        var id :| id in filters;
        OneMoreDeleted(before, c, deleted, id);
        deleted := deleted + {id};
        DeleteFilter(filters[id]);
        assert ConnEntry(allFiltersWithWSConn, allFilters, c);
      }
      AllDeleted(before, c, deleted);
    }

    method DeleteFilter(f: Filter)
      requires Valid() && f.id in allFilters && allFilters[f.id] == f
      modifies this
      ensures Valid()
      ensures allFilters == old(allFilters) - {f.id} && |allFilters| < |old(allFilters)|
    {
      ghost var all := allFilters;
      DroppedConn(allFiltersWithWSConn, all, f);
      DroppedKind(all, BlockFilterType, f);
      DroppedKind(all, LogFilterType, f);
      DroppedKind(all, PendingTxFilterType, f);
      match f.kind {
        case BlockFilterType => blockFiltersWithWSConn := blockFiltersWithWSConn - {f.id};
        case LogFilterType => logFiltersWithWSConn := logFiltersWithWSConn - {f.id};
        case PendingTxFilterType => pendingTxFiltersWithWSConn := pendingTxFiltersWithWSConn - {f.id};
      }
      if f.conn.Some? {
        allFiltersWithWSConn := DropConn(allFiltersWithWSConn, f.conn.value, f.id);
      }
      allFilters := allFilters - {f.id};
      assert allFilters.Keys == all.Keys - {f.id};
    }

    /** Every filter of the kind with a connection, each once, in an arbitrary order. */
    method GetAllBlockFiltersWithWSConn() returns (filters: seq<Filter>)
      requires Valid()
      ensures multiset(filters) == multiset(OfKind(allFilters, BlockFilterType).Values)
      ensures forall i, j :: 0 <= i < j < |filters| ==> filters[i] != filters[j]
      ensures forall id :: id in allFilters ==>
                (allFilters[id] in filters <==> allFilters[id].kind == BlockFilterType && allFilters[id].conn.Some?)
      ensures forall f :: f in filters ==> f.id in allFilters && allFilters[f.id] == f
    {
      filters := [];
      var left := blockFiltersWithWSConn.Values;
      while left != {}
        invariant left <= blockFiltersWithWSConn.Values
        invariant multiset(filters) == multiset(blockFiltersWithWSConn.Values - left)
        decreases left
      {
        var f :| f in left;
        ghost var done := blockFiltersWithWSConn.Values - left;
        filters := filters + [f];
        left := left - {f};
        assert blockFiltersWithWSConn.Values - left == done + {f};
      }
      ListsEachOnce(filters, allFilters);
    }
  }

  /** What it means for a list to be the multiset of a view. */
  lemma ListsEachOnce(filters: seq<Filter>, all: Filters)
    requires multiset(filters) == multiset(OfKind(all, BlockFilterType).Values)
    requires forall id :: id in all ==> all[id].id == id
    ensures forall i, j :: 0 <= i < j < |filters| ==> filters[i] != filters[j]
    ensures forall id :: id in all ==>
              (all[id] in filters <==> all[id].kind == BlockFilterType && all[id].conn.Some?)
    ensures forall f :: f in filters ==> f.id in all && all[f.id] == f
  {
    var view := OfKind(all, BlockFilterType);
    assert forall f :: f in filters <==> f in multiset(filters);
    assert forall f :: f in filters <==> f in view.Values;
    forall i, j | 0 <= i < j < |filters|
      ensures filters[i] != filters[j]
    {
      assert filters == filters[..i] + [filters[i]] + filters[i + 1..j] + [filters[j]] + filters[j + 1..];
      assert filters[i] == filters[j] ==> multiset(filters)[filters[i]] >= 2;
    }
    forall id | id in all
      ensures all[id] in filters <==> all[id].kind == BlockFilterType && all[id].conn.Some?
    {
      if id in view {
        assert view[id] in view.Values;
      }
    }
  }

  lemma OneMoreDeleted(before: Filters, c: Conn, deleted: set<FilterID>, id: FilterID)
    requires id in OfConn(before - deleted, c)
    ensures id in OfConn(before, c) && before - deleted - {id} == before - (deleted + {id})
  {
  }

  /** Once no filter of the connection is left, exactly those were deleted. */
  lemma AllDeleted(before: Filters, c: Conn, deleted: set<FilterID>)
    requires deleted <= OfConn(before, c).Keys && OfConn(before - deleted, c) == map[]
    ensures deleted == OfConn(before, c).Keys
  {
    forall id | id in OfConn(before, c)
      ensures id in deleted
    {
      assert id !in OfConn(before - deleted, c);
    }
  }
}
