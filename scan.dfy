/** The loop both readAll variants run over the result of a range scan, and
    what it computes: the first-column values of the rows whose column list is
    not empty, in scan order, decoded one by one, stopping at (and dropping)
    the first value that fails to decode. */
module Scan {
  import opened Errors
  import opened Codec
  import opened Store

  /** First-column values of the non-empty slices, in scan order. */
  function LiveValues(slices: seq<KeySlice>): seq<Bytes> {
    if slices == [] then []
    else if slices[0].columns == [] then LiveValues(slices[1..])
    else [slices[0].columns[0].value] + LiveValues(slices[1..])
  }

  /** Decode values in order; the first failure ends the sequence. */
  function DecodedPrefix(values: seq<Bytes>, codec: Codec): seq<PingData> {
    if values == [] then []
    else match codec.readData(values[0])
      case Ok(d) => [d] + DecodedPrefix(values[1..], codec)
      case Err(_) => []
  }

  /** What readAll returns for a scan: the decoded prefix of the live values. */
  function Entries(slices: seq<KeySlice>, codec: Codec): seq<PingData> {
    DecodedPrefix(LiveValues(slices), codec)
  }

  /** The decoded prefix is exactly the longest run of successful decodes:
      each entry is the decoding of the value at its position, and if it is
      shorter than the input, the next value failed to decode. */
  lemma {:induction false} DecodedPrefixCharacterized(values: seq<Bytes>, codec: Codec)
    ensures |DecodedPrefix(values, codec)| <= |values|
    ensures forall i :: 0 <= i < |DecodedPrefix(values, codec)| ==>
              codec.readData(values[i]) == Ok(DecodedPrefix(values, codec)[i])
    ensures |DecodedPrefix(values, codec)| < |values| ==>
              codec.readData(values[|DecodedPrefix(values, codec)|]).Err?
  {
    if values != [] && codec.readData(values[0]).Ok? {
      DecodedPrefixCharacterized(values[1..], codec);
    }
  }

  /** When every value decodes, nothing is lost. */
  lemma AllDecodedWhenNoFailure(values: seq<Bytes>, codec: Codec)
    requires forall i :: 0 <= i < |values| ==> codec.readData(values[i]).Ok?
    ensures |DecodedPrefix(values, codec)| == |values|
    ensures forall i :: 0 <= i < |values| ==> DecodedPrefix(values, codec)[i] == codec.readData(values[i]).value
  {
    DecodedPrefixCharacterized(values, codec);
  }

  lemma {:induction false} LiveValuesAppend(a: seq<KeySlice>, b: seq<KeySlice>)
    ensures LiveValues(a + b) == LiveValues(a) + LiveValues(b)
  {
    if a == [] {
      assert a + b == b;
    } else {
      assert (a + b)[1..] == a[1..] + b;
      LiveValuesAppend(a[1..], b);
    }
  }

  lemma {:induction false} DecodedPrefixAppend(a: seq<Bytes>, b: seq<Bytes>, codec: Codec)
    requires forall i :: 0 <= i < |a| ==> codec.readData(a[i]).Ok?
    ensures DecodedPrefix(a + b, codec) == DecodedPrefix(a, codec) + DecodedPrefix(b, codec)
  {
    if a == [] {
      assert a + b == b;
    } else {
      assert (a + b)[1..] == a[1..] + b;
      assert codec.readData(a[0]).Ok?;
      DecodedPrefixAppend(a[1..], b, codec);
    }
  }

  /** A value that fails to decode hides everything after it. */
  lemma DecodedPrefixStops(a: seq<Bytes>, v: Bytes, b: seq<Bytes>, codec: Codec)
    requires forall i :: 0 <= i < |a| ==> codec.readData(a[i]).Ok?
    requires codec.readData(v).Err?
    ensures DecodedPrefix(a + [v] + b, codec) == DecodedPrefix(a, codec)
  {
    assert a + [v] + b == a + ([v] + b);
    DecodedPrefixAppend(a, [v] + b, codec);
    assert ([v] + b)[0] == v;
  }

  /** The readAll loop: skip slices whose column list is empty, decode the
      first column of the others and append it; a decoding failure ends the
      loop, returning what was appended so far. */
  method CollectEntries(slices: seq<KeySlice>, codec: Codec) returns (results: seq<PingData>)
    ensures results == Entries(slices, codec)
    ensures |results| <= |LiveValues(slices)|
  {
    results := [];
    var i := 0;
    while i < |slices|
      invariant 0 <= i <= |slices|
      invariant forall j :: 0 <= j < |LiveValues(slices[..i])| ==> codec.readData(LiveValues(slices[..i])[j]).Ok?
      invariant results == DecodedPrefix(LiveValues(slices[..i]), codec)
    {
      assert slices[..i + 1] == slices[..i] + [slices[i]];
      LiveValuesAppend(slices[..i], [slices[i]]);
      var columns := slices[i].columns;
      if columns == [] {
        assert LiveValues([slices[i]]) == [];
        assert LiveValues(slices[..i + 1]) == LiveValues(slices[..i]);
        i := i + 1;
        continue;
      }
      assert LiveValues([slices[i]]) == [columns[0].value];
      var decoded := codec.readData(columns[0].value);
      if decoded.Err? {
        assert slices == slices[..i] + [slices[i]] + slices[i + 1..];
        LiveValuesAppend(slices[..i] + [slices[i]], slices[i + 1..]);
        DecodedPrefixStops(LiveValues(slices[..i]), columns[0].value, LiveValues(slices[i + 1..]), codec);
        DecodedPrefixCharacterized(LiveValues(slices), codec);
        return;
      }
      DecodedPrefixAppend(LiveValues(slices[..i]), [columns[0].value], codec);
      assert DecodedPrefix([columns[0].value], codec) == [decoded.value] + DecodedPrefix([], codec);
      results := results + [decoded.value];
      assert LiveValues(slices[..i + 1]) == LiveValues(slices[..i]) + [columns[0].value];
      i := i + 1;
    }
    assert slices[..i] == slices;
    DecodedPrefixCharacterized(LiveValues(slices), codec);
  }

  // ---------------------------------------------------------------- scans of tables

  /** A scan in which only position p is live yields exactly its value. */
  lemma {:induction false} OnlyLiveAt(slices: seq<KeySlice>, p: nat, v: Bytes)
    requires p < |slices|
    requires |slices[p].columns| > 0 && slices[p].columns[0].value == v
    requires forall i :: 0 <= i < |slices| && i != p ==> slices[i].columns == []
    ensures LiveValues(slices) == [v]
  {
    if p == 0 {
      NoneLive(slices[1..]);
    } else {
      OnlyLiveAt(slices[1..], p - 1, v);
    }
  }

  lemma {:induction false} NoneLive(slices: seq<KeySlice>)
    requires forall i :: 0 <= i < |slices| ==> slices[i].columns == []
    ensures LiveValues(slices) == []
  {
    if slices != [] {
      NoneLive(slices[1..]);
    }
  }

  /** No row of the table holds the column: the scan has no live values. */
  lemma SilentTable(t: Table, col: string)
    requires forall k :: k in t.rows ==> col !in t.rows[k]
    ensures LiveValues(Slices(t, col)) == []
  {
    NoneLive(Slices(t, col));
  }

  /** Exactly one row of a well-formed table holds the column: the scan yields its value. */
  lemma SingleEntryTable(t: Table, col: string, key: RowKey)
    requires WellFormed(t)
    requires key in t.rows && col in t.rows[key]
    requires forall k :: k in t.rows && k != key ==> col !in t.rows[k]
    ensures LiveValues(Slices(t, col)) == [t.rows[key][col]]
  {
    var p :| 0 <= p < |t.order| && t.order[p] == key;
    OnlyLiveAt(Slices(t, col), p, t.rows[key][col]);
  }

  /** A change that keeps the slices of the old keys and only appends keys
      whose slice is empty is invisible to a scan. */
  lemma ScanUnchanged(t: Table, t': Table, col: string)
    requires |t.order| <= |t'.order| && t'.order[..|t.order|] == t.order
    requires forall i :: 0 <= i < |t.order| ==> SliceOf(t', t.order[i], col) == SliceOf(t, t.order[i], col)
    requires forall i :: |t.order| <= i < |t'.order| ==> SliceOf(t', t'.order[i], col).columns == []
    ensures LiveValues(Slices(t', col)) == LiveValues(Slices(t, col))
  {
    var n := |t.order|;
    var s' := Slices(t', col);
    assert s' == s'[..n] + s'[n..];
    assert s'[..n] == Slices(t, col);
    LiveValuesAppend(s'[..n], s'[n..]);
    NoneLive(s'[n..]);
  }
}
