/** CASSANDRA_PING for Cassandra 0.7: every cluster is its own column family of
    the configured keyspace; a node's presence entry is the row keyed by its
    serialized address, holding the serialized PingData in the single column
    "data". */
module PingV7 {
  import opened Errors
  import opened Codec
  import opened Store
  import opened Scan
  import opened Thrift

  /** The one column name of the layout. */
  const Data: string := "data"
  const DefaultHost: string := "localhost"
  const DefaultPort: int := 9160
  const DefaultKeyspace: string := "jgroups"

  /** The store after writeToFile(data, cluster) on a working connection
      whose bound keyspace is ks. */
  function Written(s: Schema, ks: Option<string>, codec: Codec, data: PingData, cluster: string): Schema {
    match (codec.writeTo(AddressValue(data.address)), codec.writeTo(DataValue(data)))
    case (Ok(id), Ok(bytes)) =>
      if ks.Some? && HasFamily(s, ks.value, cluster) then Put(s, ks.value, cluster, Binary(id), Data, bytes) else s
    case _ => s
  }

  /** The store after remove(cluster, addr) on a working connection. */
  function Removed(s: Schema, ks: Option<string>, codec: Codec, cluster: string, addr: Address): Schema {
    match codec.writeTo(AddressValue(addr))
    case Ok(id) =>
      if ks.Some? && HasFamily(s, ks.value, cluster) then RemoveRow(s, ks.value, cluster, Binary(id)) else s
    case Err(_) => s
  }

  /** What readAll(cluster) returns on a working connection. */
  function ReadEntries(s: Schema, ks: Option<string>, codec: Codec, cluster: string): seq<PingData> {
    if ks.Some? && HasFamily(s, ks.value, cluster) then Entries(Slices(TableOf(s, ks.value, cluster), Data), codec)
    else []
  }

  class CassandraPing {
    /** The Cassandra node the configuration is meant to reach. */
    const server: Cassandra
    /** JGroups' serialization. */
    const codec: Codec
    var host: string
    var port: int
    var keyspace: string
    var tr: Transport?
    var client: Client?
    /** Whether the inherited FILE_PING.destroy() has run. */
    ghost var superDestroyed: bool

    ghost predicate Valid()
      reads this
    {
      && (client != null ==> client.transport == tr)
      && (tr != null ==> tr.server == server)
    }

    /** The client exists and its transport works. */
    predicate Connected()
      reads this, client, if client != null then {client.transport, client.transport.server} else {}
    {
      client != null && client.Connected()
    }

    constructor (server: Cassandra, codec: Codec)
      ensures Valid()
      ensures this.server == server && this.codec == codec
      ensures host == DefaultHost && port == DefaultPort && keyspace == DefaultKeyspace
      ensures tr == null && client == null && !superDestroyed
    {
      this.server, this.codec := server, codec;
      host, port, keyspace := DefaultHost, DefaultPort, DefaultKeyspace;
      tr, client := null, null;
      superDestroyed := false;
    }

    /** Open a framed transport to host:port and bind the configured keyspace;
        any failure becomes an IllegalArgumentException. The fields are
        assigned before the transport is opened, so they are set even then. */
    method CreateRootDir() returns (o: Outcome)
      modifies this, server`connections
      ensures Valid()
      ensures host == old(host) && port == old(port) && keyspace == old(keyspace)
      ensures superDestroyed == old(superDestroyed)
      ensures tr != null && fresh(tr) && tr.framed && tr.host == host && tr.port == port
      ensures client != null && fresh(client) && client.transport == tr
      ensures tr.isOpen == server.Accepts(host, port)
      ensures server.connections == if tr.isOpen then old(server.connections) + {tr} else old(server.connections)
      ensures o == if !tr.isOpen then Threw(IllegalArgument(TransportFailure))
                   else if keyspace !in server.keyspaces then Threw(IllegalArgument(InvalidRequest))
                   else Done
      ensures client.keyspace == if o.Done? then Some(keyspace) else None
    {
      tr := new Transport(server, host, port, true);
      client := new Client(tr);
      var connected := tr.Open();
      if connected.Threw? {
        return Threw(IllegalArgument(connected.ex));
      }
      var selected := client.SetKeyspace(keyspace);
      if selected.Threw? {
        return Threw(IllegalArgument(selected.ex));
      }
      o := Done;
    }

    /** Null client and tr, then close the old transport; FILE_PING.destroy()
        runs in every case. Without a transport the close throws a
        NullPointerException, which propagates after the inherited destroy. */
    method Destroy() returns (o: Outcome)
      requires Valid()
      modifies this, tr, server`connections
      ensures Valid()
      ensures client == null && tr == null && superDestroyed
      ensures host == old(host) && port == old(port) && keyspace == old(keyspace)
      ensures o == if old(tr) == null then Threw(NullPointer) else Done
      ensures old(tr) != null ==> !old(tr).isOpen
      ensures server.connections == if old(tr) == null then old(server.connections) else old(server.connections) - {old(tr)}
    {
      client := null;
      var temp := tr;
      tr := null;
      if temp == null {
        superDestroyed := true;
        return Threw(NullPointer);
      }
      temp.Close();
      superDestroyed := true;
      o := Done;
    }

    /** Upsert the entry; every failure is swallowed and leaves the store as it was. */
    method WriteToFile(data: PingData, clusterName: string)
      requires Valid()
      modifies server`keyspaces
      ensures server.keyspaces ==
              if Connected() then Written(old(server.keyspaces), client.keyspace, codec, data, clusterName)
              else old(server.keyspaces)
    {
      var id := codec.writeTo(AddressValue(data.address));
      if id.Err? {
        return;
      }
      var bytes := codec.writeTo(DataValue(data));
      if bytes.Err? {
        return;
      }
      if client == null {
        return;
      }
      var o := client.Insert(client.keyspace, clusterName, Binary(id.value), Data, bytes.value);
    }

    /** Scan the cluster's column family for the "data" column; any failure
        returns the entries collected so far, never null. */
    method ReadAll(clusterName: string) returns (results: seq<PingData>)
      requires Valid()
      ensures results == if Connected() then ReadEntries(server.keyspaces, client.keyspace, codec, clusterName) else []
    {
      results := [];
      if client == null {
        return;
      }
      var slices := client.GetRangeSlices(client.keyspace, clusterName, Data);
      if slices.Err? {
        return;
      }
      results := CollectEntries(slices.value, codec);
    }

    /** Delete the node's row; every failure is swallowed and leaves the store as it was. */
    method Remove(clusterName: string, addr: Address)
      requires Valid()
      modifies server`keyspaces
      ensures server.keyspaces ==
              if Connected() then Removed(old(server.keyspaces), client.keyspace, codec, clusterName, addr)
              else old(server.keyspaces)
    {
      var id := codec.writeTo(AddressValue(addr));
      if id.Err? {
        return;
      }
      if client == null {
        return;
      }
      var o := client.Remove(client.keyspace, clusterName, Binary(id.value), None);
    }
  }

  // ---------------------------------------------------------------- properties

  /** writeToFile sets exactly the "data" cell of the node's row in the
      cluster's column family to the serialized entry; no other cell and no
      definition changes. */
  lemma WriteUpsertsDataCell(s: Schema, ks: string, codec: Codec, data: PingData, cluster: string,
                             ks': string, cf': string, key': RowKey, col': string)
    requires codec.writeTo(AddressValue(data.address)).Ok? && codec.writeTo(DataValue(data)).Ok?
    requires HasFamily(s, ks, cluster)
    ensures Definitions(Written(s, Some(ks), codec, data, cluster)) == Definitions(s)
    ensures var key := Binary(codec.writeTo(AddressValue(data.address)).value);
            Cell(Written(s, Some(ks), codec, data, cluster), ks', cf', key', col') ==
            if (ks', cf', key', col') == (ks, cluster, key, Data) then Some(codec.writeTo(DataValue(data)).value)
            else Cell(s, ks', cf', key', col')
  {
    PutChangesOneCell(s, ks, cluster, Binary(codec.writeTo(AddressValue(data.address)).value), Data,
                      codec.writeTo(DataValue(data)).value, ks', cf', key', col');
  }

  /** A write that cannot be carried out leaves the store unchanged. */
  lemma FailedWriteChangesNothing(s: Schema, ks: Option<string>, codec: Codec, data: PingData, cluster: string)
    requires || codec.writeTo(AddressValue(data.address)).Err? || codec.writeTo(DataValue(data)).Err?
             || ks.None? || !HasFamily(s, ks.value, cluster)
    ensures Written(s, ks, codec, data, cluster) == s
  {
  }

  /** remove deletes only the node's row in that cluster's column family. */
  lemma RemoveClearsOnlyRow(s: Schema, ks: string, codec: Codec, cluster: string, addr: Address,
                            ks': string, cf': string, key': RowKey, col': string)
    requires codec.writeTo(AddressValue(addr)).Ok?
    requires HasFamily(s, ks, cluster)
    ensures Definitions(Removed(s, Some(ks), codec, cluster, addr)) == Definitions(s)
    ensures Cell(Removed(s, Some(ks), codec, cluster, addr), ks', cf', key', col') ==
            if (ks', cf', key') == (ks, cluster, Binary(codec.writeTo(AddressValue(addr)).value)) then None
            else Cell(s, ks', cf', key', col')
  {
    RemoveRowClearsOneRow(s, ks, cluster, Binary(codec.writeTo(AddressValue(addr)).value), ks', cf', key', col');
  }

  /** Writes and removes for one cluster are invisible to readAll of another. */
  lemma ClusterIsolation(s: Schema, ks: Option<string>, codec: Codec, data: PingData, addr: Address, c1: string, c2: string)
    requires c1 != c2
    ensures ReadEntries(Written(s, ks, codec, data, c1), ks, codec, c2) == ReadEntries(s, ks, codec, c2)
    ensures ReadEntries(Removed(s, ks, codec, c1, addr), ks, codec, c2) == ReadEntries(s, ks, codec, c2)
  {
  }

  /** The smoke test: in a cluster with no entries, writing an entry and
      reading back gives exactly that entry; removing the node's row then
      leaves no entry. */
  lemma WriteReadRemove(s: Schema, ks: string, codec: Codec, data: PingData, cluster: string)
    requires RoundTrips(codec)
    requires codec.writeTo(AddressValue(data.address)).Ok? && codec.writeTo(DataValue(data)).Ok?
    requires HasFamily(s, ks, cluster) && WellFormed(TableOf(s, ks, cluster))
    requires forall k :: k in TableOf(s, ks, cluster).rows ==> Data !in TableOf(s, ks, cluster).rows[k]
    ensures ReadEntries(Written(s, Some(ks), codec, data, cluster), Some(ks), codec, cluster) == [data]
    ensures ReadEntries(Removed(Written(s, Some(ks), codec, data, cluster), Some(ks), codec, cluster, data.address),
                        Some(ks), codec, cluster) == []
  {
    var key := Binary(codec.writeTo(AddressValue(data.address)).value);
    var bytes := codec.writeTo(DataValue(data)).value;
    var t := TableOf(s, ks, cluster);
    var s1 := Written(s, Some(ks), codec, data, cluster);
    var t1 := Upsert(t, key, Data, bytes);
    assert s1 == Put(s, ks, cluster, key, Data, bytes);
    assert TableOf(s1, ks, cluster) == t1;
    UpsertWellFormed(t, key, Data, bytes);
    SingleEntryTable(t1, Data, key);
    assert codec.readData(bytes) == Ok(data);
    assert DecodedPrefix([bytes], codec) == [data] + DecodedPrefix([], codec);
    var t2 := DeleteRow(t1, key);
    assert TableOf(Removed(s1, Some(ks), codec, cluster, data.address), ks, cluster) == t2;
    SilentTable(t2, Data);
  }
}
