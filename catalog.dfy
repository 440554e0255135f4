/**
 * The static station / gate / stream catalog: app/mock_data.py.
 *
 * Three constant lists and the lookups over them: find-first by id (Python's
 * next(...) over a generator, with None as default) and filters by parent id
 * (list comprehensions, which keep catalog order).
 */
module Catalog {
  import opened Wrappers

  datatype Station = Station(stationId: string, name: string)

  datatype Gate = Gate(gateId: string, stationId: string, name: string)

  datatype Stream = Stream(streamId: string, gateId: string, name: string, status: string)

  // ---------------------------------------------------------------------
  // The two query shapes
  // ---------------------------------------------------------------------

  /** The index of the first element satisfying p, if there is one. */
  function FirstWhere<T>(xs: seq<T>, p: T -> bool): (r: Option<nat>)
    ensures r.None? <==> forall i :: 0 <= i < |xs| ==> !p(xs[i])
    ensures r.Some? ==> r.value < |xs| && p(xs[r.value])
    ensures r.Some? ==> forall j :: 0 <= j < r.value ==> !p(xs[j])
  {
    if xs == [] then None
    else if p(xs[0]) then Some(0)
    else match FirstWhere(xs[1..], p)
      case None => None
      case Some(i) => Some(i + 1)
  }

  /** The elements satisfying p, in their order in xs. */
  function Filter<T>(xs: seq<T>, p: T -> bool): (r: seq<T>)
    ensures |r| <= |xs|
  {
    if xs == [] then []
    else (if p(xs[0]) then [xs[0]] else []) + Filter(xs[1..], p)
  }

  /** The filter keeps exactly the elements that pass. */
  lemma {:induction false} FilterMembers<T>(xs: seq<T>, p: T -> bool)
    ensures forall i :: 0 <= i < |Filter(xs, p)| ==> Filter(xs, p)[i] in xs && p(Filter(xs, p)[i])
    ensures forall i :: 0 <= i < |xs| && p(xs[i]) ==> xs[i] in Filter(xs, p)
  {
    if xs != [] {
      FilterMembers(xs[1..], p);
      var head := if p(xs[0]) then [xs[0]] else [];
      var r := Filter(xs, p);
      assert r == head + Filter(xs[1..], p);
      forall i | 0 <= i < |r| ensures r[i] in xs && p(r[i]) {
        if i >= |head| {
          assert r[i] == Filter(xs[1..], p)[i - |head|];
        }
      }
      forall i | 0 <= i < |xs| && p(xs[i]) ensures xs[i] in r {
        if i > 0 {
          assert xs[i] == xs[1..][i - 1];
        }
      }
    }
  }

  /** The same, as membership: an element is kept exactly when it is present and passes. */
  lemma FilterIff<T>(xs: seq<T>, p: T -> bool)
    ensures forall x :: x in Filter(xs, p) <==> x in xs && p(x)
  {
    FilterMembers(xs, p);
    forall x | x in xs && p(x) ensures x in Filter(xs, p) {
      var i :| 0 <= i < |xs| && xs[i] == x;
    }
  }

  /** Filtering distributes over concatenation, so catalog order is kept. */
  lemma {:induction false} FilterConcat<T>(xs: seq<T>, ys: seq<T>, p: T -> bool)
    ensures Filter(xs + ys, p) == Filter(xs, p) + Filter(ys, p)
  {
    if xs != [] {
      assert (xs + ys)[0] == xs[0];
      assert (xs + ys)[1..] == xs[1..] + ys;
      FilterConcat(xs[1..], ys, p);
      var head := if p(xs[0]) then [xs[0]] else [];
      calc {
        Filter(xs + ys, p);
        head + Filter(xs[1..] + ys, p);
        head + (Filter(xs[1..], p) + Filter(ys, p));
        (head + Filter(xs[1..], p)) + Filter(ys, p);
      }
    } else {
      assert xs + ys == ys;
    }
  }

  /** A filter that every element passes keeps the whole sequence. */
  lemma {:induction false} FilterAll<T>(xs: seq<T>, p: T -> bool)
    requires forall i :: 0 <= i < |xs| ==> p(xs[i])
    ensures Filter(xs, p) == xs
  {
    if xs != [] {
      FilterAll(xs[1..], p);
    }
  }

  /** A filter that no element passes is empty. */
  lemma {:induction false} FilterNone<T>(xs: seq<T>, p: T -> bool)
    requires forall i :: 0 <= i < |xs| ==> !p(xs[i])
    ensures Filter(xs, p) == []
  {
    if xs != [] {
      FilterNone(xs[1..], p);
    }
  }

  /** A filter that exactly one element passes gives that element alone. */
  lemma {:induction false} FilterSingle<T>(xs: seq<T>, p: T -> bool, k: nat)
    requires k < |xs| && p(xs[k])
    requires forall j :: 0 <= j < |xs| && j != k ==> !p(xs[j])
    ensures Filter(xs, p) == [xs[k]]
  {
    var rest := xs[1..];
    if k == 0 {
      forall i | 0 <= i < |rest| ensures !p(rest[i]) {
        assert rest[i] == xs[i + 1];
      }
      FilterNone(rest, p);
    } else {
      forall i | 0 <= i < |rest| && i != k - 1 ensures !p(rest[i]) {
        assert rest[i] == xs[i + 1];
      }
      FilterSingle(rest, p, k - 1);
    }
  }

  // ---------------------------------------------------------------------
  // MOCK_STATIONS, MOCK_GATES, MOCK_STREAMS
  // ---------------------------------------------------------------------

  const Stations: seq<Station> := [
    Station("station-001", "서울역"),
    Station("station-002", "강남역"),
    Station("station-003", "잠실역")
  ]

  /** The gates of station-001. */
  const SeoulGates: seq<Gate> := [
    Gate("gate-001", "station-001", "1번 게이트"),
    Gate("gate-002", "station-001", "2번 게이트"),
    Gate("gate-003", "station-001", "3번 게이트"),
    Gate("gate-004", "station-001", "4번 게이트")
  ]

  /** The gates of station-002. */
  const GangnamGates: seq<Gate> := [
    Gate("gate-005", "station-002", "1번 게이트"),
    Gate("gate-006", "station-002", "2번 게이트"),
    Gate("gate-007", "station-002", "3번 게이트"),
    Gate("gate-008", "station-002", "4번 게이트"),
    Gate("gate-009", "station-002", "5번 게이트"),
    Gate("gate-010", "station-002", "6번 게이트")
  ]

  /** The gates of station-003. */
  const JamsilGates: seq<Gate> := [
    Gate("gate-011", "station-003", "1번 게이트"),
    Gate("gate-012", "station-003", "2번 게이트"),
    Gate("gate-013", "station-003", "3번 게이트")
  ]

  /** MOCK_GATES: the three runs above, in this order. */
  const Gates: seq<Gate> := SeoulGates + GangnamGates + JamsilGates

  const Streams: seq<Stream> := [
    Stream("stream-001", "gate-001", "1번 게이트 카메라", "active"),
    Stream("stream-002", "gate-002", "2번 게이트 카메라", "active"),
    Stream("stream-003", "gate-003", "3번 게이트 카메라", "active"),
    Stream("stream-004", "gate-004", "4번 게이트 카메라", "active"),
    Stream("stream-005", "gate-005", "1번 게이트 카메라", "active"),
    Stream("stream-006", "gate-006", "2번 게이트 카메라", "active"),
    Stream("stream-007", "gate-007", "3번 게이트 카메라", "active"),
    Stream("stream-008", "gate-008", "4번 게이트 카메라", "active"),
    Stream("stream-009", "gate-009", "5번 게이트 카메라", "active"),
    Stream("stream-010", "gate-010", "6번 게이트 카메라", "active"),
    Stream("stream-011", "gate-011", "1번 게이트 카메라", "active"),
    Stream("stream-012", "gate-012", "2번 게이트 카메라", "active"),
    Stream("stream-013", "gate-013", "3번 게이트 카메라", "active")
  ]

  // ---------------------------------------------------------------------
  // The six lookups
  // ---------------------------------------------------------------------

  /** get_all_stations: the station list itself, in declaration order. */
  function AllStations(): (r: seq<Station>)
    ensures |r| == 3
    ensures r[0].stationId == "station-001" && r[1].stationId == "station-002" && r[2].stationId == "station-003"
  {
    Stations
  }

  /** get_station_by_id: the first station with this id, or None. */
  function StationById(stationId: string): (r: Option<Station>)
    ensures r.None? <==> forall s :: s in Stations ==> s.stationId != stationId
    ensures r.Some? ==> r.value in Stations && r.value.stationId == stationId
  {
    match FirstWhere(Stations, (s: Station) => s.stationId == stationId)
    case None => None
    case Some(i) => Some(Stations[i])
  }

  /** get_gates_by_station: the gates of a station, in catalog order. */
  function GatesByStation(stationId: string): (r: seq<Gate>)
    ensures forall g :: g in r <==> g in Gates && g.stationId == stationId
  {
    FilterIff(Gates, (g: Gate) => g.stationId == stationId);
    Filter(Gates, (g: Gate) => g.stationId == stationId)
  }

  /** get_gate_by_id: the first gate with this id, or None. */
  function GateById(gateId: string): (r: Option<Gate>)
    ensures r.None? <==> forall g :: g in Gates ==> g.gateId != gateId
    ensures r.Some? ==> r.value in Gates && r.value.gateId == gateId
  {
    match FirstWhere(Gates, (g: Gate) => g.gateId == gateId)
    case None => None
    case Some(i) => Some(Gates[i])
  }

  /** get_streams_by_gate: the streams of a gate, in catalog order. */
  function StreamsByGate(gateId: string): (r: seq<Stream>)
    ensures forall s :: s in r <==> s in Streams && s.gateId == gateId
  {
    FilterIff(Streams, (s: Stream) => s.gateId == gateId);
    Filter(Streams, (s: Stream) => s.gateId == gateId)
  }

  /** get_stream_by_id: the first stream with this id, or None. */
  function StreamById(streamId: string): (r: Option<Stream>)
    ensures r.None? <==> forall s :: s in Streams ==> s.streamId != streamId
    ensures r.Some? ==> r.value in Streams && r.value.streamId == streamId
  {
    match FirstWhere(Streams, (s: Stream) => s.streamId == streamId)
    case None => None
    case Some(i) => Some(Streams[i])
  }

  // ---------------------------------------------------------------------
  // Properties of the data
  // ---------------------------------------------------------------------

  /** Station ids are unique. */
  lemma StationIdsUnique()
    ensures forall i, j :: 0 <= i < j < |Stations| ==> Stations[i].stationId != Stations[j].stationId
  {
  }

  /** Gate ids are unique. */
  lemma GateIdsUnique()
    ensures forall i, j :: 0 <= i < j < |Gates| ==> Gates[i].gateId != Gates[j].gateId
  {
  }

  /** Stream ids are unique. */
  lemma StreamIdsUnique()
    ensures forall i, j :: 0 <= i < j < |Streams| ==> Streams[i].streamId != Streams[j].streamId
  {
  }

  /** A station is found by its id exactly when it is listed. */
  lemma StationByIdExact(st: Station)
    ensures StationById(st.stationId) == Some(st) <==> st in Stations
  {
    StationIdsUnique();
  }

  /** A gate is found by its id exactly when it is listed. */
  lemma GateByIdExact(g: Gate)
    ensures GateById(g.gateId) == Some(g) <==> g in Gates
  {
    GateIdsUnique();
    if g in Gates {
      var r := GateById(g.gateId).value;
      var i :| 0 <= i < |Gates| && Gates[i] == r;
      var k :| 0 <= k < |Gates| && Gates[k] == g;
      assert i == k;
    }
  }

  /** A stream is found by its id exactly when it is listed. */
  lemma StreamByIdExact(s: Stream)
    ensures StreamById(s.streamId) == Some(s) <==> s in Streams
  {
    StreamIdsUnique();
    if s in Streams {
      var r := StreamById(s.streamId).value;
      var i :| 0 <= i < |Streams| && Streams[i] == r;
      var k :| 0 <= k < |Streams| && Streams[k] == s;
      assert i == k;
    }
  }

  /** Streams are listed gate by gate, in the order of the gates. */
  lemma StreamsFollowGates()
    ensures |Streams| == |Gates|
    ensures forall k :: 0 <= k < |Gates| ==> Streams[k].gateId == Gates[k].gateId
  {
    assert |Gates| == 13;
    forall k | 0 <= k < |Gates| ensures Streams[k].gateId == Gates[k].gateId {
      if k < 4 {
        assert Gates[k] == SeoulGates[k];
      } else if k < 10 {
        assert Gates[k] == GangnamGates[k - 4];
      } else {
        assert Gates[k] == JamsilGates[k - 10];
      }
    }
  }

  /** Every gate names a listed station. */
  lemma GatesReferenceStations()
    ensures forall g :: g in Gates ==> StationById(g.stationId).Some?
  {
    forall g | g in Gates ensures StationById(g.stationId).Some? {
      assert g in SeoulGates || g in GangnamGates || g in JamsilGates;
      assert g.stationId == Stations[0].stationId || g.stationId == Stations[1].stationId || g.stationId == Stations[2].stationId;
    }
  }

  /** Every stream names a listed gate. */
  lemma StreamsReferenceGates()
    ensures forall s :: s in Streams ==> GateById(s.gateId).Some?
  {
    StreamsFollowGates();
    forall s | s in Streams ensures GateById(s.gateId).Some? {
      var k :| 0 <= k < |Streams| && Streams[k] == s;
      assert Gates[k] in Gates;
    }
  }

  /** Each gate has exactly one stream: the one listed at the same position. */
  lemma OneStreamPerGate(k: nat)
    requires k < |Gates|
    ensures StreamsByGate(Gates[k].gateId) == [Streams[k]]
  {
    GateIdsUnique();
    StreamsFollowGates();
    var p := (s: Stream) => s.gateId == Gates[k].gateId;
    FilterSingle(Streams, p, k);
  }

  /** station-001 has 4 gates. */
  lemma SeoulGateCount()
    ensures GatesByStation("station-001") == SeoulGates && |SeoulGates| == 4
  {
    GatesOfOneStation("station-001", SeoulGates, GangnamGates, JamsilGates);
  }

  /** station-002 has 6 gates. */
  lemma GangnamGateCount()
    ensures GatesByStation("station-002") == GangnamGates && |GangnamGates| == 6
  {
    GatesOfOneStation("station-002", GangnamGates, SeoulGates, JamsilGates);
  }

  /** station-003 has 3 gates. */
  lemma JamsilGateCount()
    ensures GatesByStation("station-003") == JamsilGates && |JamsilGates| == 3
  {
    GatesOfOneStation("station-003", JamsilGates, SeoulGates, GangnamGates);
  }

  /** An unknown station has no gates. */
  lemma UnknownStationHasNoGates(id: string)
    requires StationById(id) == None
    ensures GatesByStation(id) == []
  {
    GatesReferenceStations();
    FilterNone(Gates, (g: Gate) => g.stationId == id);
  }

  /** An unknown gate has no streams. */
  lemma UnknownGateHasNoStreams(id: string)
    requires GateById(id) == None
    ensures StreamsByGate(id) == []
  {
    StreamsReferenceGates();
    FilterNone(Streams, (s: Stream) => s.gateId == id);
  }

  /**
   * The gates of a station are its own run of the list when the other two
   * runs hold none of its gates.
   */
  lemma GatesOfOneStation(id: string, run: seq<Gate>, other1: seq<Gate>, other2: seq<Gate>)
    requires Gates == run + other1 + other2 || Gates == other1 + run + other2 || Gates == other1 + other2 + run
    requires forall i :: 0 <= i < |run| ==> run[i].stationId == id
    requires forall i :: 0 <= i < |other1| ==> other1[i].stationId != id
    requires forall i :: 0 <= i < |other2| ==> other2[i].stationId != id
    ensures GatesByStation(id) == run
  {
    var p := (g: Gate) => g.stationId == id;
    FilterAll(run, p);
    FilterNone(other1, p);
    FilterNone(other2, p);
    if Gates == run + other1 + other2 {
      FilterConcat(run + other1, other2, p);
      FilterConcat(run, other1, p);
    } else if Gates == other1 + run + other2 {
      FilterConcat(other1 + run, other2, p);
      FilterConcat(other1, run, p);
    } else {
      FilterConcat(other1 + other2, run, p);
      FilterConcat(other1, other2, p);
    }
  }
}
