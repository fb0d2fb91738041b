/** The top-level CASSANDRA_PING: the Cassandra 0.7 layout (a column family
    per cluster, the row keyed by the serialized address, one column "data")
    with its own toBytes/fromBytes, and readAll still a stub that returns an
    empty list. */
module PingSrc {
  import opened Errors
  import opened Codec
  import opened Store
  import opened Thrift
  import PingV7

  const Data: string := "data"
  const DefaultHost: string := "localhost"
  const DefaultPort: int := 9160
  const DefaultKeyspace: string := "jgroups"

  /** The bytes writeTo writes; its IOException becomes an IllegalArgumentException. */
  function ToBytes(codec: Codec, data: Streamable): (r: Result<Bytes>)
    ensures r.Ok? <==> codec.writeTo(data).Ok?
    ensures r.Ok? ==> r.value == codec.writeTo(data).value
    ensures codec.writeTo(data) == Err(IOException) ==> r == Err(IllegalArgument(IOException))
    ensures r.Err? && codec.writeTo(data) != Err(IOException) ==> r == codec.writeTo(data)
  {
    match codec.writeTo(data)
    case Ok(bytes) => Ok(bytes)
    case Err(IOException) => Err(IllegalArgument(IOException))
    case Err(e) => Err(e)
  }

  /** A new PingData filled by readFrom; any failure becomes an IllegalArgumentException. */
  function FromBytes(codec: Codec, bytes: Bytes): (r: Result<PingData>)
    ensures r.Ok? <==> codec.readData(bytes).Ok?
    ensures r.Ok? ==> r.value == codec.readData(bytes).value
    ensures r.Err? ==> r.ex == IllegalArgument(codec.readData(bytes).ex)
  {
    match codec.readData(bytes)
    case Ok(d) => Ok(d)
    case Err(e) => Err(IllegalArgument(e))
  }

  /** Under the serialization law, fromBytes undoes toBytes. */
  lemma FromBytesUndoesToBytes(codec: Codec, data: PingData)
    requires RoundTrips(codec)
    requires ToBytes(codec, DataValue(data)).Ok?
    ensures FromBytes(codec, ToBytes(codec, DataValue(data)).value) == Ok(data)
  {
    assert codec.writeTo(DataValue(data)).Ok?;
  }

  /** The store after writeToFile(data, cluster) on a working connection. */
  function Written(s: Schema, ks: Option<string>, codec: Codec, data: PingData, cluster: string): Schema {
    match (ToBytes(codec, AddressValue(data.address)), ToBytes(codec, DataValue(data)))
    case (Ok(id), Ok(bytes)) =>
      if ks.Some? && HasFamily(s, ks.value, cluster) then Put(s, ks.value, cluster, Binary(id), Data, bytes) else s
    case _ => s
  }

  /** The store after remove(cluster, addr) on a working connection. */
  function Removed(s: Schema, ks: Option<string>, codec: Codec, cluster: string, addr: Address): Schema {
    match ToBytes(codec, AddressValue(addr))
    case Ok(id) =>
      if ks.Some? && HasFamily(s, ks.value, cluster) then RemoveRow(s, ks.value, cluster, Binary(id)) else s
    case Err(_) => s
  }

  /** The layout is the Cassandra 0.7 one: writes and removes leave the store
      exactly as the 0.7 variant's do. */
  lemma SameLayoutAsV7(s: Schema, ks: Option<string>, codec: Codec, data: PingData, cluster: string, addr: Address)
    ensures Written(s, ks, codec, data, cluster) == PingV7.Written(s, ks, codec, data, cluster)
    ensures Removed(s, ks, codec, cluster, addr) == PingV7.Removed(s, ks, codec, cluster, addr)
  {
  }

  class CassandraPing {
    /** The Cassandra node the configuration is meant to reach. */
    const server: Cassandra
    /** JGroups' serialization. */
    const codec: Codec
    var host: string
    var port: int
    var keyspace: string
    var tr: Transport?
    var client: Client?
    /** Whether the inherited FILE_PING.destroy() has run. */
    ghost var superDestroyed: bool

    ghost predicate Valid()
      reads this
    {
      && (client != null ==> client.transport == tr)
      && (tr != null ==> tr.server == server)
    }

    /** The client exists and its transport works. */
    predicate Connected()
      reads this, client, if client != null then {client.transport, client.transport.server} else {}
    {
      client != null && client.Connected()
    }

    constructor (server: Cassandra, codec: Codec)
      ensures Valid()
      ensures this.server == server && this.codec == codec
      ensures host == DefaultHost && port == DefaultPort && keyspace == DefaultKeyspace
      ensures tr == null && client == null && !superDestroyed
    {
      this.server, this.codec := server, codec;
      host, port, keyspace := DefaultHost, DefaultPort, DefaultKeyspace;
      tr, client := null, null;
      superDestroyed := false;
    }

    /** Open a framed transport to host:port and bind the configured keyspace;
        any failure becomes an IllegalArgumentException. */
    method CreateRootDir() returns (o: Outcome)
      modifies this, server`connections
      ensures Valid()
      ensures host == old(host) && port == old(port) && keyspace == old(keyspace)
      ensures superDestroyed == old(superDestroyed)
      ensures tr != null && fresh(tr) && tr.framed && tr.host == host && tr.port == port
      ensures client != null && fresh(client) && client.transport == tr
      ensures tr.isOpen == server.Accepts(host, port)
      ensures server.connections == if tr.isOpen then old(server.connections) + {tr} else old(server.connections)
      ensures o == if !tr.isOpen then Threw(IllegalArgument(TransportFailure))
                   else if keyspace !in server.keyspaces then Threw(IllegalArgument(InvalidRequest))
                   else Done
      ensures client.keyspace == if o.Done? then Some(keyspace) else None
    {
      tr := new Transport(server, host, port, true);
      client := new Client(tr);
      var connected := tr.Open();
      if connected.Threw? {
        return Threw(IllegalArgument(connected.ex));
      }
      var selected := client.SetKeyspace(keyspace);
      if selected.Threw? {
        return Threw(IllegalArgument(selected.ex));
      }
      o := Done;
    }

    /** Null client and close tr (which stays assigned); FILE_PING.destroy()
        runs even when the close throws because tr was never set. */
    method Destroy() returns (o: Outcome)
      requires Valid()
      modifies this, tr, server`connections
      ensures Valid()
      ensures client == null && tr == old(tr) && superDestroyed
      ensures host == old(host) && port == old(port) && keyspace == old(keyspace)
      ensures o == if tr == null then Threw(NullPointer) else Done
      ensures tr != null ==> !tr.isOpen
      ensures server.connections == if tr == null then old(server.connections) else old(server.connections) - {tr}
    {
      client := null;
      if tr == null {
        superDestroyed := true;
        return Threw(NullPointer);
      }
      tr.Close();
      superDestroyed := true;
      o := Done;
    }

    /** Upsert the entry; every failure is swallowed and leaves the store as it was. */
    method WriteToFile(data: PingData, clusterName: string)
      requires Valid()
      modifies server`keyspaces
      ensures server.keyspaces ==
              if Connected() then Written(old(server.keyspaces), client.keyspace, codec, data, clusterName)
              else old(server.keyspaces)
    {
      var id := ToBytes(codec, AddressValue(data.address));
      if id.Err? {
        return;
      }
      var bytes := ToBytes(codec, DataValue(data));
      if bytes.Err? {
        return;
      }
      if client == null {
        return;
      }
      var o := client.Insert(client.keyspace, clusterName, Binary(id.value), Data, bytes.value);
    }

    /** The stub: an empty, non-null list whatever the store holds. */
    function ReadAll(clusterName: string): (results: seq<PingData>)
      ensures |results| == 0
    {
      []
    }

    /** Delete the node's row; every failure is swallowed and leaves the store as it was. */
    method Remove(clusterName: string, addr: Address)
      requires Valid()
      modifies server`keyspaces
      ensures server.keyspaces ==
              if Connected() then Removed(old(server.keyspaces), client.keyspace, codec, clusterName, addr)
              else old(server.keyspaces)
    {
      var id := ToBytes(codec, AddressValue(addr));
      if id.Err? {
        return;
      }
      if client == null {
        return;
      }
      var o := client.Remove(client.keyspace, clusterName, Binary(id.value), None);
    }
  }

  /** The smoke test of this variant expects one entry after a write; the stub
      returns none even when the write reached the store. */
  lemma StubMissesWrittenEntry(ping: CassandraPing, s: Schema, ks: string, data: PingData, cluster: string)
    requires HasFamily(s, ks, cluster)
    requires ToBytes(ping.codec, AddressValue(data.address)).Ok? && ToBytes(ping.codec, DataValue(data)).Ok?
    ensures Cell(Written(s, Some(ks), ping.codec, data, cluster), ks, cluster,
                 Binary(ToBytes(ping.codec, AddressValue(data.address)).value), Data).Some?
    ensures ping.ReadAll(cluster) != [data]
  {
  }
}
