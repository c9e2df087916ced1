/**
 * The scan aggregator: during a scan window every hit is filed under its
 * device address in a working table (the last hit for an address wins), and
 * at the window's end the table's values are published as a list.
 */
module ScanAggregation {
  import opened Wrappers
  import opened Radio

  /** The view model's scannedDevices: address -> last scan result seen for it. */
  type DeviceTable = map<string, ScanResult>

  /** Every entry is filed under its own device's address. */
  ghost predicate KeyedByAddress(m: DeviceTable) {
    forall a :: a in m ==> m[a].address == a
  }

  /** No two results in a list are for the same device. */
  ghost predicate DistinctAddresses(results: seq<ScanResult>) {
    forall i, j :: 0 <= i < j < |results| ==> results[i].address != results[j].address
  }

  /** What onScanResult does to the table: the hit replaces any earlier entry for its address, nothing else changes. */
  function Upsert(m: DeviceTable, hit: ScanResult): (m': DeviceTable)
    ensures m'.Keys == m.Keys + {hit.address}
    ensures m'[hit.address] == hit
    ensures forall a :: a in m && a != hit.address ==> m'[a] == m[a]
    ensures KeyedByAddress(m) ==> KeyedByAddress(m')
  {
    m[hit.address := hit]
  }

  /** The table after `hits` arrive, in order, on top of `m`. */
  function Aggregate(m: DeviceTable, hits: seq<ScanResult>): DeviceTable
    decreases |hits|
  {
    if hits == [] then m else Upsert(Aggregate(m, hits[..|hits| - 1]), hits[|hits| - 1])
  }

  /** The addresses the hits are for. */
  function Addresses(hits: seq<ScanResult>): set<string> {
    set i | 0 <= i < |hits| :: hits[i].address
  }

  /** Hit i is for address a, and no later hit is. */
  ghost predicate IsLastFor(hits: seq<ScanResult>, i: int, a: string) {
    0 <= i < |hits| && hits[i].address == a && forall j :: i < j < |hits| ==> hits[j].address != a
  }

  /** The addresses of a non-empty hit list are those of all but the last hit, and the last hit's. */
  lemma AddressesOfSnoc(hits: seq<ScanResult>)
    requires hits != []
    ensures Addresses(hits) == Addresses(hits[..|hits| - 1]) + {hits[|hits| - 1].address}
  {
  }

  /**
   * After any sequence of hits the table has an entry for exactly the old
   * addresses and the addresses hit, every entry for an address not hit is as
   * it was, and a table keyed by address stays so.
   */
  lemma {:induction false} AggregateKeys(m: DeviceTable, hits: seq<ScanResult>)
    ensures Aggregate(m, hits).Keys == m.Keys + Addresses(hits)
    ensures forall a :: a in m && a !in Addresses(hits) ==> Aggregate(m, hits)[a] == m[a]
    ensures KeyedByAddress(m) ==> KeyedByAddress(Aggregate(m, hits))
    decreases |hits|
  {
    if hits != [] {
      AggregateKeys(m, hits[..|hits| - 1]);
      AddressesOfSnoc(hits);
    }
  }

  /** After any sequence of hits, an address hit maps to the last hit for it. */
  lemma {:induction false} AggregateLastHitWins(m: DeviceTable, hits: seq<ScanResult>, a: string)
    requires a in Addresses(hits)
    ensures a in Aggregate(m, hits)
    ensures exists i :: IsLastFor(hits, i, a) && Aggregate(m, hits)[a] == hits[i]
    decreases |hits|
  {
    var n := |hits| - 1;
    if hits[n].address == a {
      assert IsLastFor(hits, n, a);
    } else {
      var init := hits[..n];
      AddressesOfSnoc(hits);
      AggregateLastHitWins(m, init, a);
      var i :| IsLastFor(init, i, a) && Aggregate(m, init)[a] == init[i];
      assert hits[i] == init[i];
      assert IsLastFor(hits, i, a);
    }
  }

  /**
   * A scan window that starts from the cleared table ends with one entry per
   * distinct address hit, each the last hit for that address.
   */
  lemma WindowHasOneEntryPerAddress(hits: seq<ScanResult>)
    ensures Aggregate(map[], hits).Keys == Addresses(hits)
    ensures |Aggregate(map[], hits)| == |Addresses(hits)|
    ensures KeyedByAddress(Aggregate(map[], hits))
    ensures forall a :: a in Addresses(hits) ==>
              exists i :: IsLastFor(hits, i, a) && Aggregate(map[], hits)[a] == hits[i]
  {
    AggregateKeys(map[], hits);
    forall a | a in Addresses(hits)
      ensures exists i :: IsLastFor(hits, i, a) && Aggregate(map[], hits)[a] == hits[i]
    {
      AggregateLastHitWins(map[], hits, a);
    }
  }

  /**
   * HashMap.values.toList(): one list element per entry, in an order the
   * model leaves open. `order` names the key each element came from.
   */
  method ValuesToList<K, V(==)>(m: map<K, V>) returns (list: seq<V>, ghost order: seq<K>)
    ensures |list| == |m|
    ensures forall v :: v in list ==> v in m.Values
    ensures forall k :: k in m ==> m[k] in list
    ensures |order| == |list|
    ensures forall i :: 0 <= i < |order| ==> order[i] in m && list[i] == m[order[i]]
    ensures forall k :: k in m ==> k in order
    ensures forall i, j :: 0 <= i < j < |order| ==> order[i] != order[j]
  {
    var rest := m.Keys;
    list, order := [], [];
    while rest != {}
      invariant rest <= m.Keys
      invariant |list| == |order| && |order| + |rest| == |m|
      invariant forall i :: 0 <= i < |order| ==> order[i] in m && list[i] == m[order[i]]
      invariant forall k :: k in m ==> (k in order <==> k !in rest)
      invariant forall i, j :: 0 <= i < j < |order| ==> order[i] != order[j]
      decreases rest
    {
      var k :| k in rest;
      list, order := list + [m[k]], order + [k];
      rest := rest - {k};
    }
  }

  /**
   * Two hits for AA:BB (at -70 dBm, then -60 dBm) and one for CC:DD leave one
   * entry per device, AA:BB's being the later hit.
   */
  lemma TwoDevicesThreeHits()
    ensures var aa70 := ScanResult("AA:BB", None, -70, true);
            var aa60 := ScanResult("AA:BB", None, -60, true);
            var cc80 := ScanResult("CC:DD", None, -80, true);
            Aggregate(map[], [aa70, aa60, cc80]) == map["AA:BB" := aa60, "CC:DD" := cc80]
  {
    var aa70 := ScanResult("AA:BB", None, -70, true);
    var aa60 := ScanResult("AA:BB", None, -60, true);
    var cc80 := ScanResult("CC:DD", None, -80, true);
    var hits := [aa70, aa60, cc80];
    assert hits[..2] == [aa70, aa60] && [aa70, aa60][..1] == [aa70] && [aa70][..0] == [];
    assert Aggregate(map[], [aa70]) == map["AA:BB" := aa70];
    assert Aggregate(map[], [aa70, aa60]) == map["AA:BB" := aa70]["AA:BB" := aa60];
    assert Aggregate(map[], hits) == map["AA:BB" := aa70]["AA:BB" := aa60]["CC:DD" := cc80];
  }
}
