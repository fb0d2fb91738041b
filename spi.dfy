/** BaseCassandraSPI: schema administration over its own short-lived framed
    connection. Each operation opens a fresh connection to host:port, runs one
    piece of client work, closes the connection in every case and rethrows
    every failure wrapped in a RuntimeException. */
module Spi {
  import opened Errors
  import opened Store
  import opened Thrift

  /** The class name of org.apache.cassandra.locator.SimpleStrategy. */
  const SimpleStrategy: string := "org.apache.cassandra.locator.SimpleStrategy"
  const DefaultHost: string := "localhost"
  const DefaultPort: int := 9160

  /** The client work one call hands to execute. */
  datatype Work =
    | CreateKeyspaceWork(keyspace: string)
    | DropKeyspaceWork(keyspace: string)
    | CreateFamilyWork(keyspace: string, family: string)
    | DropFamilyWork(keyspace: string, family: string)

  /** What the work returns (a Boolean, or null for the drops) and the store it leaves. */
  datatype Step = Step(reply: Result<Option<bool>>, after: Schema)

  /** Whether a node that can load the classes in loadable accepts a new
      keyspace definition with this name and strategy. */
  predicate KeyspaceDefinable(name: string, strategy: string, loadable: set<string>) {
    ValidName(name) && strategy in loadable
  }

  /** The effect of one piece of work on a reachable node that can load the
      strategy classes in loadable. A create answers whether the keyspace or
      column family already existed; a definition the node refuses fails. */
  function Perform(s: Schema, work: Work, strategy: string, loadable: set<string>): Step {
    match work
    case CreateKeyspaceWork(ks) =>
      if ks in s then Step(Ok(Some(true)), s)
      else if !KeyspaceDefinable(ks, strategy, loadable) then Step(Err(InvalidRequest), s)
      else Step(Ok(Some(false)), AddKeyspace(s, ks, strategy))
    case DropKeyspaceWork(ks) =>
      if ks !in s then Step(Err(InvalidRequest), s) else Step(Ok(None), DropKeyspace(s, ks))
    case CreateFamilyWork(ks, cf) =>
      if ks !in s then Step(Err(NotFound), s)
      else if HasFamily(s, ks, cf) then Step(Ok(Some(true)), s)
      else if !ValidName(cf) then Step(Err(InvalidRequest), s)
      else Step(Ok(Some(false)), AddFamily(s, ks, cf))
    case DropFamilyWork(ks, cf) =>
      if !HasFamily(s, ks, cf) then Step(Err(InvalidRequest), s) else Step(Ok(None), DropFamily(s, ks, cf))
  }

  /** execute's catch clause: every failure leaves as a RuntimeException. */
  function Rethrown(reply: Result<Option<bool>>): (r: Result<Option<bool>>)
    ensures r.Ok? <==> reply.Ok?
    ensures r.Ok? ==> r == reply
    ensures r.Err? ==> r.ex == Runtime(reply.ex)
  {
    match reply
    case Ok(v) => Ok(v)
    case Err(e) => Err(Runtime(e))
  }

  /** The linear search over a definition list for a name. */
  method Contains(names: set<string>, name: string) returns (found: bool)
    ensures found <==> name in names
  {
    var rest := names;
    while rest != {}
      invariant rest <= names
      invariant name in names <==> name in rest
      decreases |rest|
    {
      var n :| n in rest;
      if n == name {
        return true;
      }
      rest := rest - {n};
    }
    return false;
  }

  /** describe_keyspaces, then system_add_keyspace when the name is new. */
  method CreateKeyspaceBody(client: Client, name: string, strategy: string) returns (r: Result<Option<bool>>)
    requires client.Connected()
    modifies client.transport.server`keyspaces
    ensures Step(r, client.transport.server.keyspaces) ==
            Perform(old(client.transport.server.keyspaces), CreateKeyspaceWork(name), strategy,
                    client.transport.server.strategies)
  {
    var defs := client.DescribeKeyspaces();
    var found := Contains(defs.value, name);
    if found {
      return Ok(Some(true));
    }
    var added := client.SystemAddKeyspace(name, strategy);
    r := if added.Done? then Ok(Some(false)) else Err(added.ex);
  }

  method DropKeyspaceBody(client: Client, name: string) returns (r: Result<Option<bool>>)
    requires client.Connected()
    modifies client.transport.server`keyspaces
    ensures Step(r, client.transport.server.keyspaces) ==
            Perform(old(client.transport.server.keyspaces), DropKeyspaceWork(name), "",
                    client.transport.server.strategies)
  {
    var dropped := client.SystemDropKeyspace(name);
    r := if dropped.Done? then Ok(None) else Err(dropped.ex);
  }

  /** set_keyspace, then system_add_column_family; the first failure is the outcome. */
  method SelectAndAddFamily(client: Client, ks: string, cf: string) returns (o: Outcome)
    modifies client, client.transport.server`keyspaces
    ensures o == if !client.Connected() then Threw(TransportFailure)
                 else if ks !in old(client.transport.server.keyspaces)
                         || HasFamily(old(client.transport.server.keyspaces), ks, cf) || !ValidName(cf)
                 then Threw(InvalidRequest)
                 else Done
    ensures client.transport.server.keyspaces ==
            if o.Done? then AddFamily(old(client.transport.server.keyspaces), ks, cf)
            else old(client.transport.server.keyspaces)
  {
    var selected := client.SetKeyspace(ks);
    if selected.Threw? {
      return selected;
    }
    o := client.SystemAddColumnFamily(ks, cf);
  }

  /** describe_keyspace, a search of its column families, then set_keyspace
      and system_add_column_family when the family is new. */
  method CreateFamilyBody(client: Client, ks: string, cf: string) returns (r: Result<Option<bool>>)
    requires client.Connected()
    modifies client, client.transport.server`keyspaces
    ensures Step(r, client.transport.server.keyspaces) ==
            Perform(old(client.transport.server.keyspaces), CreateFamilyWork(ks, cf), "",
                    client.transport.server.strategies)
  {
    var def := client.DescribeKeyspace(ks);
    if def.Err? {
      return Err(def.ex);
    }
    var found := Contains(def.value.families.Keys, cf);
    if found {
      return Ok(Some(true));
    }
    var added := SelectAndAddFamily(client, ks, cf);
    r := if added.Done? then Ok(Some(false)) else Err(added.ex);
  }

  /** set_keyspace, then system_drop_column_family in it. */
  method DropFamilyBody(client: Client, ks: string, cf: string) returns (r: Result<Option<bool>>)
    requires client.Connected()
    modifies client, client.transport.server`keyspaces
    ensures Step(r, client.transport.server.keyspaces) ==
            Perform(old(client.transport.server.keyspaces), DropFamilyWork(ks, cf), "",
                    client.transport.server.strategies)
  {
    var selected := client.SetKeyspace(ks);
    if selected.Threw? {
      return Err(selected.ex);
    }
    var dropped := client.SystemDropColumnFamily(cf);
    r := if dropped.Done? then Ok(None) else Err(dropped.ex);
  }

  class BaseCassandraSpi {
    /** The node a socket to host:port reaches when the two match. */
    const server: Cassandra
    var host: string
    var port: int
    var strategyClass: string

    constructor (server: Cassandra)
      ensures this.server == server
      ensures host == DefaultHost && port == DefaultPort && strategyClass == SimpleStrategy
    {
      this.server := server;
      host, port, strategyClass := DefaultHost, DefaultPort, SimpleStrategy;
    }

    /** Whether execute's socket reaches the node. */
    predicate Reaches()
      reads this, server
    {
      server.Accepts(host, port)
    }

    /** Open a fresh framed connection, run the work, close the connection in
        every case; the store changes only when the node is reached. */
    method Execute(work: Work) returns (r: Result<Option<bool>>)
      modifies server`keyspaces, server`connections
      ensures server.connections == old(server.connections)
      ensures r == if old(Reaches()) then Rethrown(Perform(old(server.keyspaces), work, strategyClass, server.strategies).reply)
                   else Err(Runtime(TransportFailure))
      ensures server.keyspaces == if old(Reaches()) then Perform(old(server.keyspaces), work, strategyClass, server.strategies).after
                                  else old(server.keyspaces)
    {
      var tr := new Transport(server, host, port, true);
      var client := new Client(tr);
      var connected := tr.Open();
      if connected.Threw? {
        tr.Close();
        return Err(Runtime(connected.ex));
      }
      var reply: Result<Option<bool>>;
      match work {
        case CreateKeyspaceWork(ks) => reply := CreateKeyspaceBody(client, ks, strategyClass);
        case DropKeyspaceWork(ks) => reply := DropKeyspaceBody(client, ks);
        case CreateFamilyWork(ks, cf) => reply := CreateFamilyBody(client, ks, cf);
        case DropFamilyWork(ks, cf) => reply := DropFamilyBody(client, ks, cf);
      }
      tr.Close();
      r := Rethrown(reply);
    }

    /** A Boolean result of execute, unboxed (a null would throw). */
    static function Unboxed(reply: Result<Option<bool>>): Result<bool> {
      match reply
      case Ok(Some(b)) => Ok(b)
      case Ok(None) => Err(NullPointer)
      case Err(e) => Err(e)
    }

    /** Answers whether the keyspace existed before the call; adds it when it
        did not, unless the node refuses the definition. */
    method CreateKeyspace(name: string) returns (r: Result<bool>)
      modifies server`keyspaces, server`connections
      ensures server.connections == old(server.connections)
      ensures r == if !old(Reaches()) then Err(Runtime(TransportFailure))
                   else if name in old(server.keyspaces) then Ok(true)
                   else if !KeyspaceDefinable(name, strategyClass, server.strategies) then Err(Runtime(InvalidRequest))
                   else Ok(false)
      ensures server.keyspaces == if r == Ok(false) then AddKeyspace(old(server.keyspaces), name, strategyClass)
                                  else old(server.keyspaces)
    {
      var reply := Execute(CreateKeyspaceWork(name));
      r := Unboxed(reply);
    }

    method DropKeyspace(name: string) returns (o: Outcome)
      modifies server`keyspaces, server`connections
      ensures server.connections == old(server.connections)
      ensures o == if !old(Reaches()) then Threw(Runtime(TransportFailure))
                   else if name !in old(server.keyspaces) then Threw(Runtime(InvalidRequest))
                   else Done
      ensures server.keyspaces == if o.Done? then Store.DropKeyspace(old(server.keyspaces), name) else old(server.keyspaces)
    {
      var reply := Execute(DropKeyspaceWork(name));
      o := if reply.Ok? then Done else Threw(reply.ex);
    }

    /** Answers whether the column family existed before the call; adds it when
        it did not, unless the node refuses the name; an unknown keyspace fails
        with NotFoundException. */
    method CreateColumnFamily(ks: string, cf: string) returns (r: Result<bool>)
      modifies server`keyspaces, server`connections
      ensures server.connections == old(server.connections)
      ensures r == if !old(Reaches()) then Err(Runtime(TransportFailure))
                   else if ks !in old(server.keyspaces) then Err(Runtime(NotFound))
                   else if HasFamily(old(server.keyspaces), ks, cf) then Ok(true)
                   else if !ValidName(cf) then Err(Runtime(InvalidRequest))
                   else Ok(false)
      ensures server.keyspaces == if r == Ok(false) then AddFamily(old(server.keyspaces), ks, cf)
                                  else old(server.keyspaces)
    {
      var reply := Execute(CreateFamilyWork(ks, cf));
      r := Unboxed(reply);
    }

    method DropColumnFamily(ks: string, cf: string) returns (o: Outcome)
      modifies server`keyspaces, server`connections
      ensures server.connections == old(server.connections)
      ensures o == if !old(Reaches()) then Threw(Runtime(TransportFailure))
                   else if !HasFamily(old(server.keyspaces), ks, cf) then Threw(Runtime(InvalidRequest))
                   else Done
      ensures server.keyspaces == if o.Done? then Store.DropFamily(old(server.keyspaces), ks, cf) else old(server.keyspaces)
    {
      var reply := Execute(DropFamilyWork(ks, cf));
      o := if reply.Ok? then Done else Threw(reply.ex);
    }

    method SetHost(host: string)
      modifies this`host
      ensures this.host == host
    {
      this.host := host;
    }

    method SetPort(port: int)
      modifies this`port
      ensures this.port == port
    {
      this.port := port;
    }

    method SetStrategyClass(strategyClass: string)
      modifies this`strategyClass
      ensures this.strategyClass == strategyClass
    {
      this.strategyClass := strategyClass;
    }
  }

  /** A create that succeeds answers true exactly when nothing was created:
      the opposite of what the interface's documentation promises. It fails
      exactly when the keyspace is missing (for a column family) or the node
      refuses the new definition. */
  lemma CreateAnswersExisted(s: Schema, work: Work, strategy: string, loadable: set<string>)
    requires work.CreateKeyspaceWork? || work.CreateFamilyWork?
    ensures Perform(s, work, strategy, loadable).reply.Ok? ==>
              Perform(s, work, strategy, loadable).reply == Ok(Some(Perform(s, work, strategy, loadable).after == s))
    ensures Perform(s, work, strategy, loadable).reply.Err? <==>
              if work.CreateKeyspaceWork? then work.keyspace !in s && !KeyspaceDefinable(work.keyspace, strategy, loadable)
              else work.keyspace !in s || (!HasFamily(s, work.keyspace, work.family) && !ValidName(work.family))
  {
    match work
    case CreateKeyspaceWork(ks) =>
      if ks !in s && KeyspaceDefinable(ks, strategy, loadable) {
        assert ks in AddKeyspace(s, ks, strategy);
      }
    case CreateFamilyWork(ks, cf) =>
      if ks in s && !HasFamily(s, ks, cf) && ValidName(cf) {
        assert HasFamily(AddFamily(s, ks, cf), ks, cf);
      }
  }

  /** Creating twice leaves the store as creating once, and the second call answers true. */
  lemma CreateIdempotent(s: Schema, work: Work, strategy: string, loadable: set<string>)
    requires work.CreateKeyspaceWork? || work.CreateFamilyWork?
    requires Perform(s, work, strategy, loadable).reply.Ok?
    ensures Perform(Perform(s, work, strategy, loadable).after, work, strategy, loadable) ==
            Step(Ok(Some(true)), Perform(s, work, strategy, loadable).after)
  {
  }

  /** A new keyspace the node accepts is defined with the configured strategy,
      replication factor 1 and no column families; every other definition is kept. */
  lemma NewKeyspaceDefinition(s: Schema, ks: string, strategy: string, loadable: set<string>, other: string)
    requires ks !in s && KeyspaceDefinable(ks, strategy, loadable)
    ensures Perform(s, CreateKeyspaceWork(ks), strategy, loadable).after[ks] == Keyspace(strategy, 1, map[])
    ensures other != ks ==> (other in s <==> other in Perform(s, CreateKeyspaceWork(ks), strategy, loadable).after)
    ensures other != ks && other in s ==>
              Perform(s, CreateKeyspaceWork(ks), strategy, loadable).after[other] == s[other]
  {
  }

  /** Dropping what a create just added restores the store. */
  lemma DropUndoesCreate(s: Schema, ks: string, cf: string, strategy: string, loadable: set<string>)
    ensures ks !in s && KeyspaceDefinable(ks, strategy, loadable) ==>
            Perform(Perform(s, CreateKeyspaceWork(ks), strategy, loadable).after, DropKeyspaceWork(ks), strategy, loadable) ==
            Step(Ok(None), s)
    ensures ks in s && !HasFamily(s, ks, cf) && ValidName(cf) ==>
            Perform(Perform(s, CreateFamilyWork(ks, cf), strategy, loadable).after, DropFamilyWork(ks, cf), strategy, loadable) ==
            Step(Ok(None), s)
  {
    if ks !in s {
      assert DropKeyspace(AddKeyspace(s, ks, strategy), ks) == s;
    }
    if ks in s && !HasFamily(s, ks, cf) {
      var added := AddFamily(s, ks, cf);
      assert HasFamily(added, ks, cf);
      assert added[ks].families - {cf} == s[ks].families;
      assert DropFamily(added, ks, cf) == s;
    }
  }

  /** A failed piece of work leaves the store as it was; any work keeps the
      store well formed. */
  lemma PerformKeepsStore(s: Schema, work: Work, strategy: string, loadable: set<string>)
    ensures Perform(s, work, strategy, loadable).reply.Err? ==> Perform(s, work, strategy, loadable).after == s
    ensures WellFormedSchema(s) ==> WellFormedSchema(Perform(s, work, strategy, loadable).after)
  {
    if WellFormedSchema(s) {
      SchemaChangesKeepWellFormed(s, work.keyspace, strategy, work.keyspace,
                                  if work.CreateFamilyWork? || work.DropFamilyWork? then work.family else "");
    }
  }
}
