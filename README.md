# CASSANDRA_PING in Dafny

This project models CASSANDRA_PING, a JGroups discovery protocol that keeps
one presence entry per cluster member in Apache Cassandra. `writeToFile`
stores a member's serialized `PingData`, `readAll` scans a cluster's entries
back, and `remove` deletes a member's entry. The model covers five parts of
the repository:

* The Cassandra 0.7 variant (`PingV7`). Every cluster is its own column
  family in the configured keyspace. A member's row is keyed by its
  serialized address and holds the serialized entry in the column `"data"`.
* The Cassandra 0.6 variant (`PingV6`). One fixed column family, `"clusters"`
  by default, holds every cluster. The row key is the UTF-8 string of the
  serialized address, and the column is named after the cluster.
* The top-level variant (`PingSrc`). It uses the 0.7 layout with its own
  `toBytes`/`fromBytes`, and its `readAll` is a stub that returns an empty
  list.
* `BaseCassandraSPI` (`Spi`). Its create-if-absent and drop operations on
  keyspaces and column families each run over a scoped, framed connection.
* `EXT_CASSANDRA_PING` (`ExtPing`). It creates the cluster's column family
  before a connect event is handled and drops it after a disconnect.

Cassandra and its Thrift client are outside the repository. They are
replaced by an in-memory stand-in:

* `Store` is the data: keyspace → column family → row key → column → value.
  Each keyspace carries its definition, and each table keeps the order in
  which a range scan lists its keys. Like Cassandra, a delete leaves the key
  listed with no columns, so range scans return empty rows.
* `Thrift` holds the node, its sockets and the client calls the code makes,
  each with its exceptions. The `Cassandra` class is the node, `Transport` is
  a socket and `Client` is a client. The node refuses a new keyspace or
  column family whose name is not one or more word characters, and a
  keyspace whose replication strategy class it cannot load.

JGroups serialization is a `Codec` value with two partial functions:
`writeTo`, which encodes a `Streamable`, and `readData`, which decodes a
`PingData`. The round-trip law `RoundTrips` is stated as an explicit
precondition wherever a property depends on it. The readAll loop of the 0.6
and 0.7 variants is the same code; both call `Scan.CollectEntries`, which is
proved against `Scan.Entries`. The inherited `FILE_PING.down` of
`EXT_CASSANDRA_PING` is a parameter of `ExtPing.ExtCassandraPing.Down`. A
ghost trace records the order of the SPI calls and this delegation.

The member `keyspace` of the 0.7 CASSANDRA_PING is private
(v7/src/main/java/org/jboss/jgroups/cassandra/CASSANDRA_PING.java:97), yet
EXT_CASSANDRA_PING reads it. The model lets `ExtPing` read that field of the
inherited state.

## Model

| member | source | states |
|---|---|---|
| Codec.EncodeInjective | v7/src/main/java/org/jboss/jgroups/cassandra/CASSANDRA_PING.java:148-149 | under the serialization round-trip law, two entries with the same encoding are equal, so an encoded entry identifies the entry |
| Scan.DecodedPrefixCharacterized | v7/src/main/java/org/jboss/jgroups/cassandra/CASSANDRA_PING.java:170-187 | the entries readAll keeps are exactly the longest run of values that decode: entry i is the decoding of live value i, and when fewer entries than values are returned, the next value failed to decode |
| Scan.AllDecodedWhenNoFailure | v7/src/main/java/org/jboss/jgroups/cassandra/CASSANDRA_PING.java:170-180 | when every live value decodes, readAll returns one entry per non-empty row, each the decoding of that row's first column, in scan order |
| Scan.DecodedPrefixStops | v7/src/main/java/org/jboss/jgroups/cassandra/CASSANDRA_PING.java:181-187 | a value that throws while decoding hides itself and every later row; only the entries appended before it are returned |
| Scan.CollectEntries | v7/src/main/java/org/jboss/jgroups/cassandra/CASSANDRA_PING.java:160-187 | the loop skips slices with no columns, decodes the first column of the others, and returns the prefix collected at the first failure; the result equals the decoded prefix of the live values and is no longer than them |
| Scan.OnlyLiveAt | v7/src/main/java/org/jboss/jgroups/cassandra/CASSANDRA_PING.java:172-174 | a scan in which every other slice has an empty column list contributes exactly the one live value |
| Scan.NoneLive | v7/src/main/java/org/jboss/jgroups/cassandra/CASSANDRA_PING.java:172-174 | a scan whose slices all have empty column lists (deleted or ghost rows) contributes nothing |
| Scan.SilentTable | v6/src/main/java/org/jboss/jgroups/cassandra/CASSANDRA_PING.java:160-164 | when no row holds the requested column, the scan has no live values |
| Scan.SingleEntryTable | v6/src/main/java/org/jboss/jgroups/cassandra/CASSANDRA_PING.java:160-169 | when exactly one row holds the requested column, the scan's live values are that one value |
| Scan.ScanUnchanged | v6/src/main/java/org/jboss/jgroups/cassandra/CASSANDRA_PING.java:152-164 | a change that keeps the slices of existing keys and only adds keys with empty slices leaves the live values of a scan unchanged |
| PingV7.CassandraPing.constructor | v7/src/main/java/org/jboss/jgroups/cassandra/CASSANDRA_PING.java:90-100 | host "localhost", port 9160, keyspace "jgroups", no transport and no client |
| PingV7.CassandraPing.CreateRootDir | v7/src/main/java/org/jboss/jgroups/cassandra/CASSANDRA_PING.java:108-123 | the fields get a fresh framed transport to host:port and a client on it; the transport is open exactly when the node is reachable; the keyspace is bound exactly when the call succeeds; a failed open or a failed set_keyspace throws an IllegalArgumentException wrapping the cause |
| PingV7.CassandraPing.Destroy | v7/src/main/java/org/jboss/jgroups/cassandra/CASSANDRA_PING.java:126-139 | client and tr end null, the old transport is closed and leaves the node's connections, and the inherited destroy always runs; a missing transport throws a NullPointerException |
| PingV7.CassandraPing.WriteToFile | v7/src/main/java/org/jboss/jgroups/cassandra/CASSANDRA_PING.java:142-155 | on a working connection the store becomes the written store; otherwise, and on every failure, it is unchanged and nothing is thrown |
| PingV7.CassandraPing.ReadAll | v7/src/main/java/org/jboss/jgroups/cassandra/CASSANDRA_PING.java:158-188 | on a working connection the result is the decoded entries of the cluster's column family; a failed scan or a missing connection gives an empty list, never null |
| PingV7.CassandraPing.Remove | v7/src/main/java/org/jboss/jgroups/cassandra/CASSANDRA_PING.java:191-203 | on a working connection the member's row is deleted; otherwise, and on every failure, the store is unchanged and nothing is thrown |
| PingV7.WriteUpsertsDataCell | v7/src/main/java/org/jboss/jgroups/cassandra/CASSANDRA_PING.java:146-149 | a successful write sets exactly the "data" cell of the row keyed by the encoded address, in the cluster's column family, to the encoded entry; every other cell and every definition is unchanged |
| PingV7.FailedWriteChangesNothing | v7/src/main/java/org/jboss/jgroups/cassandra/CASSANDRA_PING.java:151-154 | when encoding fails, no keyspace is bound or the cluster has no column family, the write leaves the store as it was |
| PingV7.RemoveClearsOnlyRow | v7/src/main/java/org/jboss/jgroups/cassandra/CASSANDRA_PING.java:195-197 | remove empties exactly the row keyed by the encoded address in that cluster's column family; every other cell and every definition is unchanged |
| PingV7.ClusterIsolation | v7/src/main/java/org/jboss/jgroups/cassandra/CASSANDRA_PING.java:146 | writing or removing in one cluster never changes what readAll returns for another cluster |
| PingV7.WriteReadRemove | base/src/test/java/org/jboss/test/jgroups/cassandra/test/AbstractSmokeTest.java:93-109 | in a cluster with no entry, write then readAll gives exactly [data], and remove then readAll gives [] |
| PingV6.CassandraPing.constructor | v6/src/main/java/org/jboss/jgroups/cassandra/CASSANDRA_PING.java:74-87 | host "localhost", port 9160, keyspace "jgroups", column family "clusters", no transport and no client |
| PingV6.CassandraPing.CreateRootDir | v6/src/main/java/org/jboss/jgroups/cassandra/CASSANDRA_PING.java:95-109 | the fields get a fresh unframed transport and a client with no bound keyspace; the call succeeds exactly when the node is reachable, and otherwise throws an IllegalArgumentException |
| PingV6.CassandraPing.Destroy | v6/src/main/java/org/jboss/jgroups/cassandra/CASSANDRA_PING.java:112-125 | client and tr end null, the old transport is closed, the inherited destroy always runs, and a missing transport throws a NullPointerException |
| PingV6.CassandraPing.WriteToFile | v6/src/main/java/org/jboss/jgroups/cassandra/CASSANDRA_PING.java:128-144 | on a working connection the configured keyspace and column family receive the write; otherwise, and on every failure, the store is unchanged and nothing is thrown |
| PingV6.CassandraPing.ReadAll | v6/src/main/java/org/jboss/jgroups/cassandra/CASSANDRA_PING.java:147-178 | on a working connection the result is the decoded cluster column of the column family's rows; otherwise an empty list, never null |
| PingV6.CassandraPing.Remove | v6/src/main/java/org/jboss/jgroups/cassandra/CASSANDRA_PING.java:181-194 | on a working connection the cluster's column of the member's row is deleted; otherwise the store is unchanged and nothing is thrown |
| PingV6.WriteUpsertsClusterCell | v6/src/main/java/org/jboss/jgroups/cassandra/CASSANDRA_PING.java:132-138 | a successful write sets exactly the cell in the column named after the cluster, in the row keyed by the UTF-8 string of the encoded address, to the encoded entry; nothing else changes |
| PingV6.RemoveClearsOnlyClusterCell | v6/src/main/java/org/jboss/jgroups/cassandra/CASSANDRA_PING.java:185-188 | remove deletes only the cluster's column of the member's row, so the member's entries for other clusters survive |
| PingV6.ClusterIsolation | v6/src/main/java/org/jboss/jgroups/cassandra/CASSANDRA_PING.java:136-154 | although every cluster shares the same rows, writing or removing for one cluster never changes what readAll returns for another |
| PingV6.WriteReadRemove | base/src/test/java/org/jboss/test/jgroups/cassandra/test/AbstractSmokeTest.java:93-109 | when no row holds the cluster's column, write then readAll gives exactly [data], and remove then readAll gives [] |
| PingSrc.ToBytes | src/main/java/org/jboss/jgroups/cassandra/CASSANDRA_PING.java:178-190 | returns the bytes writeTo wrote; an IOException becomes an IllegalArgumentException wrapping it; any other failure passes through unchanged |
| PingSrc.FromBytes | src/main/java/org/jboss/jgroups/cassandra/CASSANDRA_PING.java:199-212 | returns the entry readFrom filled; any failure becomes an IllegalArgumentException wrapping the cause |
| PingSrc.FromBytesUndoesToBytes | src/main/java/org/jboss/jgroups/cassandra/CASSANDRA_PING.java:178-212 | under the serialization round-trip law, fromBytes returns the entry that toBytes encoded |
| PingSrc.SameLayoutAsV7 | src/main/java/org/jboss/jgroups/cassandra/CASSANDRA_PING.java:138-164 | writes and removes leave the store exactly as the 0.7 variant's do: same column family per cluster, same row key, same "data" column |
| PingSrc.CassandraPing.constructor | src/main/java/org/jboss/jgroups/cassandra/CASSANDRA_PING.java:89-99 | host "localhost", port 9160, keyspace "jgroups", no transport and no client |
| PingSrc.CassandraPing.CreateRootDir | src/main/java/org/jboss/jgroups/cassandra/CASSANDRA_PING.java:102-117 | a fresh framed transport and client; open exactly when the node is reachable; keyspace bound exactly on success; a failure throws an IllegalArgumentException wrapping the cause |
| PingSrc.CassandraPing.Destroy | src/main/java/org/jboss/jgroups/cassandra/CASSANDRA_PING.java:120-131 | the client ends null, tr stays assigned and is closed, and the inherited destroy runs even when the close throws a NullPointerException because tr was never set |
| PingSrc.CassandraPing.WriteToFile | src/main/java/org/jboss/jgroups/cassandra/CASSANDRA_PING.java:134-147 | on a working connection the store becomes the written store; otherwise, and on every failure, it is unchanged and nothing is thrown |
| PingSrc.CassandraPing.ReadAll | src/main/java/org/jboss/jgroups/cassandra/CASSANDRA_PING.java:150-155 | always an empty, non-null list, whatever the store holds |
| PingSrc.CassandraPing.Remove | src/main/java/org/jboss/jgroups/cassandra/CASSANDRA_PING.java:158-170 | on a working connection the member's row is deleted; otherwise the store is unchanged and nothing is thrown |
| PingSrc.StubMissesWrittenEntry | src/test/java/org/jboss/test/jgroups/cassandra/test/SmokeTestCase.java:92-98 | after a write reaches the store, the stub readAll still does not return [data], so the test's expectation of one entry cannot hold |
| Spi.Rethrown | src/main/java/org/jboss/jgroups/cassandra/plugins/BaseCassandraSPI.java:63-66 | a result passes through, and every failure leaves as a RuntimeException wrapping the original |
| Spi.Contains | src/main/java/org/jboss/jgroups/cassandra/plugins/BaseCassandraSPI.java:79-82 | the search over the definitions finds the name exactly when it is among them |
| Spi.CreateKeyspaceBody | src/main/java/org/jboss/jgroups/cassandra/plugins/BaseCassandraSPI.java:77-87 | answers true and leaves the store when the keyspace exists; otherwise adds it and answers false, or, when the node refuses the definition, fails with its InvalidRequestException and leaves the store |
| Spi.DropKeyspaceBody | src/main/java/org/jboss/jgroups/cassandra/plugins/BaseCassandraSPI.java:95-99 | drops an existing keyspace and answers null; an unknown keyspace fails with InvalidRequestException and leaves the store |
| Spi.SelectAndAddFamily | src/main/java/org/jboss/jgroups/cassandra/plugins/BaseCassandraSPI.java:118-120 | set_keyspace and then system_add_column_family; the first failure is the outcome and the store changes only when both succeed |
| Spi.CreateFamilyBody | src/main/java/org/jboss/jgroups/cassandra/plugins/BaseCassandraSPI.java:107-122 | an unknown keyspace fails with NotFoundException; an existing column family answers true; otherwise it is added and the answer is false, or, when the node refuses the name, the failure of set_keyspace or system_add_column_family is returned and the store is unchanged |
| Spi.DropFamilyBody | src/main/java/org/jboss/jgroups/cassandra/plugins/BaseCassandraSPI.java:130-135 | drops an existing column family; an unknown keyspace or column family fails with InvalidRequestException and leaves the store |
| Spi.BaseCassandraSpi.constructor | src/main/java/org/jboss/jgroups/cassandra/plugins/BaseCassandraSPI.java:48-50 | host "localhost", port 9160, the SimpleStrategy class name |
| Spi.BaseCassandraSpi.Execute | src/main/java/org/jboss/jgroups/cassandra/plugins/BaseCassandraSPI.java:52-71 | the node's open connections are the same after the call, whether the work returns or throws; an unreachable node gives a RuntimeException and an unchanged store; otherwise the result is the work's, with failures wrapped in RuntimeException |
| Spi.BaseCassandraSpi.CreateKeyspace | src/main/java/org/jboss/jgroups/cassandra/plugins/BaseCassandraSPI.java:73-89 | on a reachable node it answers true for an existing keyspace, adds a new one with the configured strategy and answers false, and throws a RuntimeException wrapping InvalidRequestException when the node refuses the name or the strategy class; an unreachable node throws a RuntimeException; the store changes only when the answer is false |
| Spi.BaseCassandraSpi.DropKeyspace | src/main/java/org/jboss/jgroups/cassandra/plugins/BaseCassandraSPI.java:91-101 | removes exactly the named keyspace; an unknown keyspace or an unreachable node throws a RuntimeException and the store is unchanged |
| Spi.BaseCassandraSpi.CreateColumnFamily | src/main/java/org/jboss/jgroups/cassandra/plugins/BaseCassandraSPI.java:103-124 | on a reachable node it answers true for an existing column family, adds a new one and answers false, and throws a RuntimeException wrapping InvalidRequestException when the node refuses the name; an unknown keyspace throws a RuntimeException wrapping NotFoundException; the store changes only when the answer is false |
| Spi.BaseCassandraSpi.DropColumnFamily | src/main/java/org/jboss/jgroups/cassandra/plugins/BaseCassandraSPI.java:126-137 | removes exactly that column family from the keyspace; an unknown keyspace or column family or an unreachable node throws a RuntimeException and the store is unchanged |
| Spi.BaseCassandraSpi.SetHost | src/main/java/org/jboss/jgroups/cassandra/plugins/BaseCassandraSPI.java:139-142 | sets the host and no other field |
| Spi.BaseCassandraSpi.SetPort | src/main/java/org/jboss/jgroups/cassandra/plugins/BaseCassandraSPI.java:144-147 | sets the port and no other field |
| Spi.BaseCassandraSpi.SetStrategyClass | src/main/java/org/jboss/jgroups/cassandra/plugins/BaseCassandraSPI.java:149-152 | sets the strategy class and no other field |
| Spi.CreateAnswersExisted | src/main/java/org/jboss/jgroups/cassandra/plugins/BaseCassandraSPI.java:79-86 | a create that succeeds answers true exactly when it left the store unchanged, that is when the element already existed, the opposite of what the interface documentation promises; a create fails exactly when its keyspace is missing or the node refuses the new definition |
| Spi.CreateIdempotent | src/main/java/org/jboss/jgroups/cassandra/plugins/BaseCassandraSPI.java:79-86 | after a successful create, a second identical create changes nothing and answers true |
| Spi.NewKeyspaceDefinition | src/main/java/org/jboss/jgroups/cassandra/plugins/BaseCassandraSPI.java:84 | a new keyspace the node accepts has the configured strategy, replication factor 1 and no column families; every other keyspace is untouched |
| Spi.DropUndoesCreate | src/main/java/org/jboss/jgroups/cassandra/plugins/BaseCassandraSPI.java:97-133 | dropping a keyspace or column family that a create has just added restores the store exactly, so each drop removes exactly its element |
| Spi.PerformKeepsStore | src/main/java/org/jboss/jgroups/cassandra/plugins/BaseCassandraSPI.java:73-137 | failed work leaves the store as it was, and every operation keeps the store well formed |
| ExtPing.ExtCassandraPing.constructor | v7/src/main/java/org/jboss/jgroups/cassandra/EXT_CASSANDRA_PING.java:40 | no SPI is set and no call has been made |
| ExtPing.ExtCassandraPing.GetCassandraSpi | v7/src/main/java/org/jboss/jgroups/cassandra/EXT_CASSANDRA_PING.java:72-77 | a BaseCassandraSPI with its defaults is created only when none is set; otherwise the set one is returned, and the field holds what is returned |
| ExtPing.ExtCassandraPing.SetCassandraSpi | v7/src/main/java/org/jboss/jgroups/cassandra/EXT_CASSANDRA_PING.java:79-82 | the field holds the given SPI, which the next getCassandraSPI returns when it is not null |
| ExtPing.ExtCassandraPing.Down | v7/src/main/java/org/jboss/jgroups/cassandra/EXT_CASSANDRA_PING.java:42-70 | for the four connect events the cluster's column family is created before delegation, and a failing create (unreachable node, missing keyspace, refused name) throws before the inherited down runs; for disconnect the column family is dropped after delegation and a failing drop replaces the result; any other event makes no SPI call and returns exactly the inherited result |
| ExtPing.ConnectPreparesCluster | v7/src/main/java/org/jboss/jgroups/cassandra/EXT_CASSANDRA_PING.java:46-53 | the column family created at connect starts empty, and an entry written to it then reads back as exactly [data] |
| ExtPing.DisconnectForgetsCluster | v7/src/main/java/org/jboss/jgroups/cassandra/EXT_CASSANDRA_PING.java:59-68 | after the disconnect-time drop, readAll of that cluster is empty for every member, not only the leaving one, and later writes to it are lost; other clusters keep their entries |

## Left out

- Thrift and the Cassandra server are replaced by the `Thrift` and `Store` stand-ins. Left out are the wire protocol, the `TBinaryProtocol` layer, consistency levels, replication and write timestamps; the last write is taken to win.
- Framing is recorded on each socket but not checked against the server; an unframed socket to a 0.7 node connects in the model.
- Key ranges are scanned whole. The Thrift `KeyRange` default limit of 100 rows per `get_range_slices` is not modelled, so readAll in the model sees every row.
- The order in which a range scan lists rows is insertion order of keys in the model, not Cassandra's token order. Scan-order statements hold for whatever order the store keeps.
- `PingV6.RowKeyOf`: the UTF-8 decoding of the encoded address (the `utf8` field of `Codec`) is left unconstrained. It is not assumed injective, because malformed byte sequences are replaced and distinct addresses may then share a row.
- Cluster and column names are modelled as strings of Unicode scalar values and `getBytes(UTF8)` as the identity on them. Java strings holding unpaired surrogates are not covered: `getBytes(UTF8)` turns such a surrogate into '?', so two such names can collide on one column. `PingV6.ClusterIsolation` and `PingV7.ClusterIsolation` hold only for the modelled names.
- JGroups serialization (`Util.streamableToByteBuffer`, `Streamable.writeTo`/`readFrom`) is the abstract `Codec`; its round-trip behaviour is a stated precondition, not a proved fact.
- `PingSrc.ToBytes` and `PingSrc.FromBytes` do not model the local byte-array streams or the reflective `newInstance`, which are not observable outside the call; any failure of `newInstance` is one of the codec's read failures.
- The discovery round of the inherited `FILE_PING` (sending requests and collecting responses) is not among the modelled files. `FILE_PING.down` is a parameter of `ExtPing.ExtCassandraPing.Down`, and `FILE_PING.destroy` is a ghost flag.
- ExtPing.ExtCassandraPing.Down: the contract assumes the inherited down leaves the store unchanged. Its store clauses state only the SPI's create and drop. The real discovery round writes the local entry through writeToFile, and that write is not reflected.
- The node's validation of new definitions covers only the name rule and the loadable strategy classes; the other checks Cassandra makes on a KsDef or CfDef are not modelled.
- Logging calls have no effect on state and are left out.
- The error messages of JGroups exceptions are left out; project exceptions are identified by kind and cause.
- `ExtPing.ExtCassandraPing.SetCassandraSpi`: any `CassandraSPI` implementation can be set in the source; the model admits only `BaseCassandraSPI` objects, since no other implementation is part of this model.
- `ExtPing.ExtCassandraPing.Down`: the arguments of connect and disconnect events are taken to be strings, without modelling the `ClassCastException` a non-string argument would raise.
- The command-line tool `cli/src/main/java/org/jboss/jgroups/cassandra/cli/Main.java` only parses options and calls the SPI; it is not modelled.
- The interface `CassandraSPI` has no behaviour; its documented return values are the contrast stated by `Spi.CreateAnswersExisted`, not a model of their own.
- Test scaffolding and the JChannel runs of the tests are not modelled; the smoke tests are stated as `PingV7.WriteReadRemove`, `PingV6.WriteReadRemove` and `PingSrc.StubMissesWrittenEntry`.
- Concurrency: callers are taken to use one ping object from one thread.
