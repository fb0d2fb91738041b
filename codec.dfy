/** The JGroups values stored in Cassandra and the serialization they go
    through. JGroups' Streamable.writeTo/readFrom and Util.streamableToByteBuffer
    are not part of this model: a Codec is any pair of such functions, and the
    one property the table protocol relies on, that reading back what was
    written gives the value again, is the explicit assumption RoundTrips. */
module Codec {
  import opened Errors

  type Bytes = seq<bv8>

  /** A JGroups logical address (a UUID). */
  datatype Address = Address(mostSignificant: int, leastSignificant: int)

  /** JGroups' PingData: the presence entry a node publishes. */
  datatype PingData = PingData(
    address: Address,
    isServer: bool,
    logicalName: string,
    physicalAddresses: seq<Address>)

  /** The two kinds of Streamable the protocol serializes. */
  datatype Streamable = AddressValue(address: Address) | DataValue(data: PingData)

  datatype Codec = Codec(
    /** Streamable.writeTo into a byte stream (Util.streamableToByteBuffer); may throw. */
    writeTo: Streamable -> Result<Bytes>,
    /** A new PingData filled by readFrom (Util.streamableFromByteBuffer); may throw. */
    readData: Bytes -> Result<PingData>,
    /** new String(bytes, "UTF8"), which replaces malformed input and may merge keys. */
    utf8: Bytes -> string)

  /** The assumed law of the JGroups serialization: what writeTo produced for a
      PingData, readFrom turns back into that PingData. */
  ghost predicate RoundTrips(codec: Codec) {
    forall d: PingData :: codec.writeTo(DataValue(d)).Ok? ==>
      codec.readData(codec.writeTo(DataValue(d)).value) == Ok(d)
  }

  /** Under the assumed law, serialized presence entries are distinct for distinct entries. */
  lemma EncodeInjective(codec: Codec, d1: PingData, d2: PingData)
    requires RoundTrips(codec)
    requires codec.writeTo(DataValue(d1)).Ok? && codec.writeTo(DataValue(d2)).Ok?
    requires codec.writeTo(DataValue(d1)) == codec.writeTo(DataValue(d2))
    ensures d1 == d2
  {
    assert codec.readData(codec.writeTo(DataValue(d1)).value) == Ok(d1);
    assert codec.readData(codec.writeTo(DataValue(d2)).value) == Ok(d2);
  }
}
