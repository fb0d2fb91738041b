/** EXT_CASSANDRA_PING: the Cassandra 0.7 CASSANDRA_PING that also manages its
    cluster's column family through a CassandraSPI. A connect event first
    creates the column family named after the cluster, a disconnect event drops
    it after the inherited handling has run. */
module ExtPing {
  import opened Errors
  import opened Codec
  import opened Store
  import opened Thrift
  import Spi
  import PingV7

  datatype EventType =
    | Connect
    | ConnectWithStateTransfer
    | ConnectUseFlush
    | ConnectWithStateTransferUseFlush
    | Disconnect
    | OtherEvent(code: int)
  {
    /** The four connect flavours. */
    predicate Connecting() {
      Connect? || ConnectWithStateTransfer? || ConnectUseFlush? || ConnectWithStateTransferUseFlush?
    }
  }

  /** A down event; the argument of connect and disconnect is the cluster name. */
  datatype Event = Event(kind: EventType, arg: string)

  /** The calls down makes, in the order it makes them. */
  datatype Call = SpiCreate(keyspace: string, family: string) | SuperDown | SpiDrop(keyspace: string, family: string)

  class ExtCassandraPing {
    /** The inherited CASSANDRA_PING state. */
    const ping: PingV7.CassandraPing
    var cassandraSpi: Spi.BaseCassandraSpi?
    /** The calls made by down so far. */
    ghost var trace: seq<Call>

    constructor (ping: PingV7.CassandraPing)
      ensures this.ping == ping && cassandraSpi == null && trace == []
    {
      this.ping := ping;
      cassandraSpi := null;
      trace := [];
    }

    /** The node the SPI administers: the set one's, or for a default SPI the
        node the configuration is meant to reach. */
    ghost function SpiNode(): Cassandra
      reads this
    {
      if cassandraSpi != null then cassandraSpi.server else ping.server
    }

    /** The SPI, created with its defaults on first use. */
    method GetCassandraSpi() returns (spi: Spi.BaseCassandraSpi)
      modifies this`cassandraSpi
      ensures cassandraSpi == spi && spi.server == old(SpiNode())
      ensures old(cassandraSpi) != null ==> spi == old(cassandraSpi)
      ensures old(cassandraSpi) == null ==>
                fresh(spi) && spi.host == Spi.DefaultHost && spi.port == Spi.DefaultPort
                && spi.strategyClass == Spi.SimpleStrategy
    {
      if cassandraSpi == null {
        cassandraSpi := new Spi.BaseCassandraSpi(ping.server);
      }
      spi := cassandraSpi;
    }

    method SetCassandraSpi(spi: Spi.BaseCassandraSpi?)
      modifies this`cassandraSpi
      ensures cassandraSpi == spi
    {
      cassandraSpi := spi;
    }

    /** down(event), where superDown is what the inherited down returns or
        throws. A connect creates the cluster's column family first and, when
        that throws, never reaches the inherited down; a disconnect drops the
        column family afterwards, and a failing drop replaces the result. */
    method Down<T>(event: Event, superDown: Result<T>) returns (r: Result<T>)
      modifies this`cassandraSpi, this`trace, SpiNode()`keyspaces, SpiNode()`connections
      ensures SpiNode() == old(SpiNode())
      ensures SpiNode().connections == old(SpiNode().connections)
      ensures !event.kind.Connecting() && !event.kind.Disconnect? ==>
                && cassandraSpi == old(cassandraSpi) && SpiNode().keyspaces == old(SpiNode().keyspaces)
                && r == superDown && trace == old(trace) + [SuperDown]
      ensures event.kind.Connecting() || event.kind.Disconnect? ==>
                && cassandraSpi != null
                && (old(cassandraSpi) != null ==> cassandraSpi == old(cassandraSpi))
                && (old(cassandraSpi) == null ==>
                      fresh(cassandraSpi) && cassandraSpi.host == Spi.DefaultHost
                      && cassandraSpi.port == Spi.DefaultPort && cassandraSpi.strategyClass == Spi.SimpleStrategy)
      ensures event.kind.Connecting() ==>
                var before := old(SpiNode().keyspaces);
                var ready := cassandraSpi.Reaches() && ping.keyspace in before
                             && (HasFamily(before, ping.keyspace, event.arg) || ValidName(event.arg));
                && SpiNode().keyspaces ==
                   (if ready && !HasFamily(before, ping.keyspace, event.arg)
                    then AddFamily(before, ping.keyspace, event.arg) else before)
                && (ready ==> && r == superDown && HasFamily(SpiNode().keyspaces, ping.keyspace, event.arg)
                              && trace == old(trace) + [SpiCreate(ping.keyspace, event.arg), SuperDown])
                && (!ready ==> && r == Err(Runtime(if !cassandraSpi.Reaches() then TransportFailure
                                                   else if ping.keyspace !in before then NotFound
                                                   else InvalidRequest))
                               && trace == old(trace) + [SpiCreate(ping.keyspace, event.arg)])
      ensures event.kind.Disconnect? ==>
                var before := old(SpiNode().keyspaces);
                var droppable := cassandraSpi.Reaches() && HasFamily(before, ping.keyspace, event.arg);
                && trace == old(trace) + [SuperDown, SpiDrop(ping.keyspace, event.arg)]
                && SpiNode().keyspaces == (if droppable then DropFamily(before, ping.keyspace, event.arg) else before)
                && r == (if droppable then superDown
                         else Err(Runtime(if cassandraSpi.Reaches() then InvalidRequest else TransportFailure)))
    {
      if event.kind.Connecting() {
        var spi := GetCassandraSpi();
        trace := trace + [SpiCreate(ping.keyspace, event.arg)];
        var created := spi.CreateColumnFamily(ping.keyspace, event.arg);
        if created.Err? {
          return Err(created.ex);
        }
      }
      trace := trace + [SuperDown];
      r := superDown;
      if event.kind.Disconnect? {
        var spi := GetCassandraSpi();
        trace := trace + [SpiDrop(ping.keyspace, event.arg)];
        var dropped := spi.DropColumnFamily(ping.keyspace, event.arg);
        if dropped.Threw? {
          r := Err(dropped.ex);
        }
      }
    }
  }

  /** After the connect-time create, the cluster's column family is empty and
      an entry written to it reads back: the fresh family satisfies the
      write-read law. */
  lemma ConnectPreparesCluster(s: Schema, ks: string, codec: Codec, data: PingData, cluster: string)
    requires RoundTrips(codec)
    requires codec.writeTo(AddressValue(data.address)).Ok? && codec.writeTo(DataValue(data)).Ok?
    requires ks in s && !HasFamily(s, ks, cluster)
    ensures PingV7.ReadEntries(AddFamily(s, ks, cluster), Some(ks), codec, cluster) == []
    ensures PingV7.ReadEntries(PingV7.Written(AddFamily(s, ks, cluster), Some(ks), codec, data, cluster),
                               Some(ks), codec, cluster) == [data]
  {
    var created := AddFamily(s, ks, cluster);
    assert TableOf(created, ks, cluster) == EmptyTable;
    assert WellFormed(EmptyTable);
    PingV7.WriteReadRemove(created, ks, codec, data, cluster);
  }

  /** The disconnect-time drop forgets every member's entry of that cluster,
      not only the leaving node's, and later writes to it are lost; other
      clusters keep theirs. */
  lemma DisconnectForgetsCluster(s: Schema, ks: string, codec: Codec, data: PingData, cluster: string, other: string)
    requires HasFamily(s, ks, cluster)
    ensures PingV7.ReadEntries(DropFamily(s, ks, cluster), Some(ks), codec, cluster) == []
    ensures PingV7.Written(DropFamily(s, ks, cluster), Some(ks), codec, data, cluster) == DropFamily(s, ks, cluster)
    ensures other != cluster ==>
              PingV7.ReadEntries(DropFamily(s, ks, cluster), Some(ks), codec, other) ==
              PingV7.ReadEntries(s, Some(ks), codec, other)
  {
    if other != cluster && HasFamily(s, ks, other) {
      assert TableOf(DropFamily(s, ks, cluster), ks, other) == TableOf(s, ks, other);
    }
  }
}
