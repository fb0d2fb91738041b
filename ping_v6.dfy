/** CASSANDRA_PING for Cassandra 0.6: one fixed column family (default
    "clusters") of the configured keyspace holds every cluster; a node's row is
    keyed by the UTF-8 string of its serialized address and holds one column
    per cluster, named after the cluster, whose value is the serialized
    PingData. The keyspace is passed on every call. */
module PingV6 {
  import opened Errors
  import opened Codec
  import opened Store
  import opened Scan
  import opened Thrift

  const DefaultHost: string := "localhost"
  const DefaultPort: int := 9160
  const DefaultKeyspace: string := "jgroups"
  const DefaultColumnFamily: string := "clusters"

  /** The row key of a node: new String(serialized address, "UTF8"). */
  function RowKeyOf(codec: Codec, id: Bytes): RowKey {
    Text(codec.utf8(id))
  }

  /** The store after writeToFile(data, cluster) on a working connection. */
  function Written(s: Schema, ks: string, cf: string, codec: Codec, data: PingData, cluster: string): Schema {
    match (codec.writeTo(AddressValue(data.address)), codec.writeTo(DataValue(data)))
    case (Ok(id), Ok(bytes)) =>
      if HasFamily(s, ks, cf) then Put(s, ks, cf, RowKeyOf(codec, id), cluster, bytes) else s
    case _ => s
  }

  /** The store after remove(cluster, addr) on a working connection. */
  function Removed(s: Schema, ks: string, cf: string, codec: Codec, cluster: string, addr: Address): Schema {
    match codec.writeTo(AddressValue(addr))
    case Ok(id) =>
      if HasFamily(s, ks, cf) then RemoveColumn(s, ks, cf, RowKeyOf(codec, id), cluster) else s
    case Err(_) => s
  }

  /** What readAll(cluster) returns on a working connection. */
  function ReadEntries(s: Schema, ks: string, cf: string, codec: Codec, cluster: string): seq<PingData> {
    if HasFamily(s, ks, cf) then Entries(Slices(TableOf(s, ks, cf), cluster), codec) else []
  }

  class CassandraPing {
    /** The Cassandra node the configuration is meant to reach. */
    const server: Cassandra
    /** JGroups' serialization. */
    const codec: Codec
    var host: string
    var port: int
    var keyspace: string
    var columnFamily: string
    var tr: Transport?
    var client: Client?
    /** Whether the inherited FILE_PING.destroy() has run. */
    ghost var superDestroyed: bool

    ghost predicate Valid()
      reads this
    {
      && (client != null ==> client.transport == tr)
      && (tr != null ==> tr.server == server)
    }

    /** The client exists and its transport works. */
    predicate Connected()
      reads this, client, if client != null then {client.transport, client.transport.server} else {}
    {
      client != null && client.Connected()
    }

    constructor (server: Cassandra, codec: Codec)
      ensures Valid()
      ensures this.server == server && this.codec == codec
      ensures host == DefaultHost && port == DefaultPort && keyspace == DefaultKeyspace
      ensures columnFamily == DefaultColumnFamily
      ensures tr == null && client == null && !superDestroyed
    {
      this.server, this.codec := server, codec;
      host, port, keyspace, columnFamily := DefaultHost, DefaultPort, DefaultKeyspace, DefaultColumnFamily;
      tr, client := null, null;
      superDestroyed := false;
    }

    /** Open an unframed transport to host:port; no keyspace is bound. Any
        failure becomes an IllegalArgumentException. */
    method CreateRootDir() returns (o: Outcome)
      modifies this, server`connections
      ensures Valid()
      ensures host == old(host) && port == old(port) && keyspace == old(keyspace) && columnFamily == old(columnFamily)
      ensures superDestroyed == old(superDestroyed)
      ensures tr != null && fresh(tr) && !tr.framed && tr.host == host && tr.port == port
      ensures client != null && fresh(client) && client.transport == tr && client.keyspace == None
      ensures tr.isOpen == server.Accepts(host, port)
      ensures server.connections == if tr.isOpen then old(server.connections) + {tr} else old(server.connections)
      ensures o == if tr.isOpen then Done else Threw(IllegalArgument(TransportFailure))
    {
      tr := new Transport(server, host, port, false);
      client := new Client(tr);
      var connected := tr.Open();
      if connected.Threw? {
        return Threw(IllegalArgument(connected.ex));
      }
      o := Done;
    }

    /** Null client and tr, then close the old transport; FILE_PING.destroy()
        runs in every case. */
    method Destroy() returns (o: Outcome)
      requires Valid()
      modifies this, tr, server`connections
      ensures Valid()
      ensures client == null && tr == null && superDestroyed
      ensures host == old(host) && port == old(port) && keyspace == old(keyspace) && columnFamily == old(columnFamily)
      ensures o == if old(tr) == null then Threw(NullPointer) else Done
      ensures old(tr) != null ==> !old(tr).isOpen
      ensures server.connections == if old(tr) == null then old(server.connections) else old(server.connections) - {old(tr)}
    {
      client := null;
      var temp := tr;
      tr := null;
      if temp == null {
        superDestroyed := true;
        return Threw(NullPointer);
      }
      temp.Close();
      superDestroyed := true;
      o := Done;
    }

    /** Upsert the cluster's column of the node's row; every failure is
        swallowed and leaves the store as it was. */
    method WriteToFile(data: PingData, clusterName: string)
      requires Valid()
      modifies server`keyspaces
      ensures server.keyspaces ==
              if Connected() then Written(old(server.keyspaces), keyspace, columnFamily, codec, data, clusterName)
              else old(server.keyspaces)
    {
      var id := codec.writeTo(AddressValue(data.address));
      if id.Err? {
        return;
      }
      var bytes := codec.writeTo(DataValue(data));
      if bytes.Err? {
        return;
      }
      if client == null {
        return;
      }
      var o := client.Insert(Some(keyspace), columnFamily, RowKeyOf(codec, id.value), clusterName, bytes.value);
    }

    /** Scan the column family for the cluster's column; any failure returns
        the entries collected so far, never null. */
    method ReadAll(clusterName: string) returns (results: seq<PingData>)
      requires Valid()
      ensures results == if Connected() then ReadEntries(server.keyspaces, keyspace, columnFamily, codec, clusterName) else []
    {
      results := [];
      if client == null {
        return;
      }
      var slices := client.GetRangeSlices(Some(keyspace), columnFamily, clusterName);
      if slices.Err? {
        return;
      }
      results := CollectEntries(slices.value, codec);
    }

    /** Delete the cluster's column of the node's row; every failure is
        swallowed and leaves the store as it was. */
    method Remove(clusterName: string, addr: Address)
      requires Valid()
      modifies server`keyspaces
      ensures server.keyspaces ==
              if Connected() then Removed(old(server.keyspaces), keyspace, columnFamily, codec, clusterName, addr)
              else old(server.keyspaces)
    {
      var id := codec.writeTo(AddressValue(addr));
      if id.Err? {
        return;
      }
      if client == null {
        return;
      }
      var o := client.Remove(Some(keyspace), columnFamily, RowKeyOf(codec, id.value), Some(clusterName));
    }
  }

  // ---------------------------------------------------------------- properties

  /** writeToFile sets exactly the cell (node's row, cluster's column) of the
      fixed column family; no other cell and no definition changes. */
  lemma WriteUpsertsClusterCell(s: Schema, ks: string, cf: string, codec: Codec, data: PingData, cluster: string,
                                ks': string, cf': string, key': RowKey, col': string)
    requires codec.writeTo(AddressValue(data.address)).Ok? && codec.writeTo(DataValue(data)).Ok?
    requires HasFamily(s, ks, cf)
    ensures Definitions(Written(s, ks, cf, codec, data, cluster)) == Definitions(s)
    ensures var key := RowKeyOf(codec, codec.writeTo(AddressValue(data.address)).value);
            Cell(Written(s, ks, cf, codec, data, cluster), ks', cf', key', col') ==
            if (ks', cf', key', col') == (ks, cf, key, cluster) then Some(codec.writeTo(DataValue(data)).value)
            else Cell(s, ks', cf', key', col')
  {
    PutChangesOneCell(s, ks, cf, RowKeyOf(codec, codec.writeTo(AddressValue(data.address)).value), cluster,
                      codec.writeTo(DataValue(data)).value, ks', cf', key', col');
  }

  /** remove deletes only the cluster's column of the node's row: the same
      node's entries for other clusters survive. */
  lemma RemoveClearsOnlyClusterCell(s: Schema, ks: string, cf: string, codec: Codec, cluster: string, addr: Address,
                                    ks': string, cf': string, key': RowKey, col': string)
    requires codec.writeTo(AddressValue(addr)).Ok?
    requires HasFamily(s, ks, cf)
    ensures Definitions(Removed(s, ks, cf, codec, cluster, addr)) == Definitions(s)
    ensures Cell(Removed(s, ks, cf, codec, cluster, addr), ks', cf', key', col') ==
            if (ks', cf', key', col') == (ks, cf, RowKeyOf(codec, codec.writeTo(AddressValue(addr)).value), cluster) then None
            else Cell(s, ks', cf', key', col')
  {
    RemoveColumnClearsOneCell(s, ks, cf, RowKeyOf(codec, codec.writeTo(AddressValue(addr)).value), cluster,
                              ks', cf', key', col');
  }

  /** Cluster isolation: entries written or removed for cluster c1 never
      change what readAll(c2) returns, for c1 != c2, although both live in the
      same rows of the same column family. */
  lemma ClusterIsolation(s: Schema, ks: string, cf: string, codec: Codec, data: PingData, addr: Address, c1: string, c2: string)
    requires c1 != c2
    ensures ReadEntries(Written(s, ks, cf, codec, data, c1), ks, cf, codec, c2) == ReadEntries(s, ks, cf, codec, c2)
    ensures ReadEntries(Removed(s, ks, cf, codec, c1, addr), ks, cf, codec, c2) == ReadEntries(s, ks, cf, codec, c2)
  {
    if HasFamily(s, ks, cf) {
      WriteInvisibleElsewhere(s, ks, cf, codec, data, c1, c2);
      RemoveInvisibleElsewhere(s, ks, cf, codec, addr, c1, c2);
    }
  }

  lemma WriteInvisibleElsewhere(s: Schema, ks: string, cf: string, codec: Codec, data: PingData, c1: string, c2: string)
    requires c1 != c2 && HasFamily(s, ks, cf)
    ensures LiveValues(Slices(TableOf(Written(s, ks, cf, codec, data, c1), ks, cf), c2)) ==
            LiveValues(Slices(TableOf(s, ks, cf), c2))
  {
    match (codec.writeTo(AddressValue(data.address)), codec.writeTo(DataValue(data))) {
      case (Ok(id), Ok(bytes)) =>
        var t := TableOf(s, ks, cf);
        var t' := Upsert(t, RowKeyOf(codec, id), c1, bytes);
        assert TableOf(Written(s, ks, cf, codec, data, c1), ks, cf) == t';
        ScanUnchanged(t, t', c2);
      case _ =>
    }
  }

  lemma RemoveInvisibleElsewhere(s: Schema, ks: string, cf: string, codec: Codec, addr: Address, c1: string, c2: string)
    requires c1 != c2 && HasFamily(s, ks, cf)
    ensures LiveValues(Slices(TableOf(Removed(s, ks, cf, codec, c1, addr), ks, cf), c2)) ==
            LiveValues(Slices(TableOf(s, ks, cf), c2))
  {
    match codec.writeTo(AddressValue(addr)) {
      case Ok(id) =>
        var t := TableOf(s, ks, cf);
        var t' := DeleteColumn(t, RowKeyOf(codec, id), c1);
        assert TableOf(Removed(s, ks, cf, codec, c1, addr), ks, cf) == t';
        ScanUnchanged(t, t', c2);
      case Err(_) =>
    }
  }

  /** The smoke test: when no row holds the cluster's column, writing an entry
      and reading back gives exactly that entry; removing it then leaves no
      entry for the cluster. */
  lemma WriteReadRemove(s: Schema, ks: string, cf: string, codec: Codec, data: PingData, cluster: string)
    requires RoundTrips(codec)
    requires codec.writeTo(AddressValue(data.address)).Ok? && codec.writeTo(DataValue(data)).Ok?
    requires HasFamily(s, ks, cf) && WellFormed(TableOf(s, ks, cf))
    requires forall k :: k in TableOf(s, ks, cf).rows ==> cluster !in TableOf(s, ks, cf).rows[k]
    ensures ReadEntries(Written(s, ks, cf, codec, data, cluster), ks, cf, codec, cluster) == [data]
    ensures ReadEntries(Removed(Written(s, ks, cf, codec, data, cluster), ks, cf, codec, cluster, data.address),
                        ks, cf, codec, cluster) == []
  {
    var key := RowKeyOf(codec, codec.writeTo(AddressValue(data.address)).value);
    var bytes := codec.writeTo(DataValue(data)).value;
    var t := TableOf(s, ks, cf);
    var s1 := Written(s, ks, cf, codec, data, cluster);
    var t1 := Upsert(t, key, cluster, bytes);
    assert s1 == Put(s, ks, cf, key, cluster, bytes);
    assert TableOf(s1, ks, cf) == t1;
    UpsertWellFormed(t, key, cluster, bytes);
    SingleEntryTable(t1, cluster, key);
    assert codec.readData(bytes) == Ok(data);
    assert DecodedPrefix([bytes], codec) == [data] + DecodedPrefix([], codec);
    var t2 := DeleteColumn(t1, key, cluster);
    assert TableOf(Removed(s1, ks, cf, codec, cluster, data.address), ks, cf) == t2;
    SilentTable(t2, cluster);
  }
}
