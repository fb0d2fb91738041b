/** The in-memory stand-in for the Cassandra node and the Thrift client API the
    modelled code calls. A Cassandra object is the node listening at one host
    and port; a Transport is a TSocket (optionally wrapped in a
    TFramedTransport); a Client is a Cassandra.Client over a transport,
    remembering the keyspace bound by set_keyspace. Every call fails with a
    TTransportException unless its transport is open and the node is up. */
module Thrift {
  import opened Errors
  import opened Codec
  import opened Store

  class Cassandra {
    const host: string
    const port: int
    var up: bool
    /** The replication strategy classes the node can load. */
    const strategies: set<string>
    var keyspaces: Schema
    /** The transports currently open on this node. */
    var connections: set<Transport>

    constructor (host: string, port: int, strategies: set<string>, keyspaces: Schema)
      ensures this.host == host && this.port == port && this.strategies == strategies
      ensures this.keyspaces == keyspaces
      ensures up && connections == {}
    {
      this.host, this.port, this.strategies, this.keyspaces := host, port, strategies, keyspaces;
      up, connections := true, {};
    }

    /** A socket to (h, p) reaches this node. */
    predicate Accepts(h: string, p: int)
      reads this
    {
      up && h == host && p == port
    }
  }

  class Transport {
    const server: Cassandra
    const host: string
    const port: int
    const framed: bool
    var isOpen: bool

    constructor (server: Cassandra, host: string, port: int, framed: bool)
      ensures this.server == server && this.host == host && this.port == port && this.framed == framed
      ensures !isOpen
    {
      this.server, this.host, this.port, this.framed := server, host, port, framed;
      isOpen := false;
    }

    /** TSocket.open: fails on an open socket or an unreachable node. */
    method Open() returns (o: Outcome)
      modifies this, server`connections
      ensures o == if !old(isOpen) && server.Accepts(host, port) then Done else Threw(TransportFailure)
      ensures isOpen == (old(isOpen) || o.Done?)
      ensures server.connections == if o.Done? then old(server.connections) + {this} else old(server.connections)
    {
      if isOpen || !server.Accepts(host, port) {
        return Threw(TransportFailure);
      }
      isOpen := true;
      server.connections := server.connections + {this};
      o := Done;
    }

    /** TSocket.close: never throws; closing a closed socket does nothing. */
    method Close()
      modifies this, server`connections
      ensures !isOpen
      ensures server.connections == old(server.connections) - {this}
    {
      isOpen := false;
      server.connections := server.connections - {this};
    }
  }

  predicate WordChar(c: char) {
    ('a' <= c <= 'z') || ('A' <= c <= 'Z') || ('0' <= c <= '9') || c == '_'
  }

  /** The node's rule for keyspace and column family names: one or more word characters. */
  predicate ValidName(name: string) {
    |name| > 0 && forall i :: 0 <= i < |name| ==> WordChar(name[i])
  }

  /** Whether a data call is accepted: the connection works, a keyspace is
      named and the column family exists in it. */
  function Admit(connected: bool, s: Schema, ks: Option<string>, cf: string): Outcome {
    if !connected then Threw(TransportFailure)
    else if ks.None? || !HasFamily(s, ks.value, cf) then Threw(InvalidRequest)
    else Done
  }

  class Client {
    const transport: Transport
    /** The keyspace bound by set_keyspace (Cassandra 0.7 sessions). */
    var keyspace: Option<string>

    constructor (transport: Transport)
      ensures this.transport == transport && keyspace == None
    {
      this.transport := transport;
      keyspace := None;
    }

    predicate Connected()
      reads transport, transport.server
    {
      transport.isOpen && transport.server.up
    }

    method SetKeyspace(name: string) returns (o: Outcome)
      modifies this
      ensures o == if !Connected() then Threw(TransportFailure)
                   else if name !in transport.server.keyspaces then Threw(InvalidRequest)
                   else Done
      ensures keyspace == if o.Done? then Some(name) else old(keyspace)
    {
      if !Connected() {
        return Threw(TransportFailure);
      }
      if name !in transport.server.keyspaces {
        return Threw(InvalidRequest);
      }
      keyspace := Some(name);
      o := Done;
    }

    /** insert(key, ColumnParent(cf), Column(col, value)) into keyspace ks. */
    method Insert(ks: Option<string>, cf: string, key: RowKey, col: string, value: Bytes) returns (o: Outcome)
      modifies transport.server`keyspaces
      ensures o == Admit(Connected(), old(transport.server.keyspaces), ks, cf)
      ensures transport.server.keyspaces ==
              if o.Done? then Put(old(transport.server.keyspaces), ks.value, cf, key, col, value)
              else old(transport.server.keyspaces)
    {
      o := Admit(Connected(), transport.server.keyspaces, ks, cf);
      if o.Done? {
        transport.server.keyspaces := Put(transport.server.keyspaces, ks.value, cf, key, col, value);
      }
    }

    /** remove(key, ColumnPath(cf[, col])): the whole row, or one column of it. */
    method Remove(ks: Option<string>, cf: string, key: RowKey, col: Option<string>) returns (o: Outcome)
      modifies transport.server`keyspaces
      ensures o == Admit(Connected(), old(transport.server.keyspaces), ks, cf)
      ensures transport.server.keyspaces ==
              if o.Threw? then old(transport.server.keyspaces)
              else if col.None? then RemoveRow(old(transport.server.keyspaces), ks.value, cf, key)
              else RemoveColumn(old(transport.server.keyspaces), ks.value, cf, key, col.value)
    {
      o := Admit(Connected(), transport.server.keyspaces, ks, cf);
      if o.Done? {
        transport.server.keyspaces :=
          if col.None? then RemoveRow(transport.server.keyspaces, ks.value, cf, key)
          else RemoveColumn(transport.server.keyspaces, ks.value, cf, key, col.value);
      }
    }

    /** get_range_slices over the whole key range of cf, selecting column col. */
    method GetRangeSlices(ks: Option<string>, cf: string, col: string) returns (r: Result<seq<KeySlice>>)
      ensures r == match Admit(Connected(), transport.server.keyspaces, ks, cf)
                   case Done => Ok(Slices(TableOf(transport.server.keyspaces, ks.value, cf), col))
                   case Threw(e) => Err(e)
    {
      var admitted := Admit(Connected(), transport.server.keyspaces, ks, cf);
      if admitted.Threw? {
        return Err(admitted.ex);
      }
      r := Ok(Slices(TableOf(transport.server.keyspaces, ks.value, cf), col));
    }

    /** describe_keyspaces: the names of the keyspace definitions. */
    method DescribeKeyspaces() returns (r: Result<set<string>>)
      ensures r == if Connected() then Ok(transport.server.keyspaces.Keys) else Err(TransportFailure)
    {
      if !Connected() {
        return Err(TransportFailure);
      }
      r := Ok(transport.server.keyspaces.Keys);
    }

    /** describe_keyspace: NotFoundException for an unknown keyspace. */
    method DescribeKeyspace(name: string) returns (r: Result<Keyspace>)
      ensures r == if !Connected() then Err(TransportFailure)
                   else if name !in transport.server.keyspaces then Err(NotFound)
                   else Ok(transport.server.keyspaces[name])
    {
      if !Connected() {
        return Err(TransportFailure);
      }
      if name !in transport.server.keyspaces {
        return Err(NotFound);
      }
      r := Ok(transport.server.keyspaces[name]);
    }

    /** system_add_keyspace(KsDef(name, strategy, 1, no column families)): the
        node refuses an existing or malformed name and a strategy class it
        cannot load. */
    method SystemAddKeyspace(name: string, strategy: string) returns (o: Outcome)
      modifies transport.server`keyspaces
      ensures o == if !Connected() then Threw(TransportFailure)
                   else if name in old(transport.server.keyspaces) || !ValidName(name)
                           || strategy !in transport.server.strategies
                   then Threw(InvalidRequest)
                   else Done
      ensures transport.server.keyspaces ==
              if o.Done? then AddKeyspace(old(transport.server.keyspaces), name, strategy)
              else old(transport.server.keyspaces)
    {
      if !Connected() {
        return Threw(TransportFailure);
      }
      if name in transport.server.keyspaces || !ValidName(name) || strategy !in transport.server.strategies {
        return Threw(InvalidRequest);
      }
      transport.server.keyspaces := AddKeyspace(transport.server.keyspaces, name, strategy);
      o := Done;
    }

    method SystemDropKeyspace(name: string) returns (o: Outcome)
      modifies transport.server`keyspaces
      ensures o == if !Connected() then Threw(TransportFailure)
                   else if name !in old(transport.server.keyspaces) then Threw(InvalidRequest)
                   else Done
      ensures transport.server.keyspaces ==
              if o.Done? then DropKeyspace(old(transport.server.keyspaces), name)
              else old(transport.server.keyspaces)
    {
      if !Connected() {
        return Threw(TransportFailure);
      }
      if name !in transport.server.keyspaces {
        return Threw(InvalidRequest);
      }
      transport.server.keyspaces := DropKeyspace(transport.server.keyspaces, name);
      o := Done;
    }

    /** system_add_column_family(CfDef(ks, cf)): the keyspace comes from the
        CfDef; the node refuses an unknown keyspace and an existing or
        malformed column family name. */
    method SystemAddColumnFamily(ks: string, cf: string) returns (o: Outcome)
      modifies transport.server`keyspaces
      ensures o == if !Connected() then Threw(TransportFailure)
                   else if ks !in old(transport.server.keyspaces) || HasFamily(old(transport.server.keyspaces), ks, cf)
                           || !ValidName(cf)
                   then Threw(InvalidRequest)
                   else Done
      ensures transport.server.keyspaces ==
              if o.Done? then AddFamily(old(transport.server.keyspaces), ks, cf)
              else old(transport.server.keyspaces)
    {
      if !Connected() {
        return Threw(TransportFailure);
      }
      if ks !in transport.server.keyspaces || HasFamily(transport.server.keyspaces, ks, cf) || !ValidName(cf) {
        return Threw(InvalidRequest);
      }
      transport.server.keyspaces := AddFamily(transport.server.keyspaces, ks, cf);
      o := Done;
    }

    /** system_drop_column_family(cf) in the bound keyspace. */
    method SystemDropColumnFamily(cf: string) returns (o: Outcome)
      modifies transport.server`keyspaces
      ensures o == if !Connected() then Threw(TransportFailure)
                   else if keyspace.None? || !HasFamily(old(transport.server.keyspaces), keyspace.value, cf)
                   then Threw(InvalidRequest)
                   else Done
      ensures transport.server.keyspaces ==
              if o.Done? then DropFamily(old(transport.server.keyspaces), keyspace.value, cf)
              else old(transport.server.keyspaces)
    {
      if !Connected() {
        return Threw(TransportFailure);
      }
      if keyspace.None? || !HasFamily(transport.server.keyspaces, keyspace.value, cf) {
        return Threw(InvalidRequest);
      }
      transport.server.keyspaces := DropFamily(transport.server.keyspaces, keyspace.value, cf);
      o := Done;
    }
  }
}
