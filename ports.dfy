/**
 * The port store as a job's main function sees it: `get_port_from_wave`
 * finds the port of a name at a wave offset, a port has a validity flag
 * (`is_valid`, `set_valid`) and a buffer `arr` whose rows the job writes.
 *
 * The store itself belongs to the framework and is not part of this
 * model; here it is a fixed map from (name, wave offset) to port, whose
 * ports and buffers are all different objects.
 */
module Ports {
  import opened Py
  import opened Jobs

  /** One row of a port's buffer. */
  type Row = seq<int>

  /** A port as it is looked up: name parameter and wave-offset parameter. */
  datatype PortKey = PortKey(name: Param, wave: Param)

  /** The observable state of a port: validity and buffer rows. */
  datatype PortState = PortState(valid: bool, rows: seq<Row>)

  class Port {
    var valid: bool
    const arr: array<Row>

    constructor (buffer: array<Row>)
      ensures !valid && arr == buffer
    {
      valid := false;
      arr := buffer;
    }
  }

  /** The ports a main function can reach, and the wave offset `get_port_from_wave` uses when given none. */
  datatype PortStore = PortStore(ports: map<PortKey, Port>, defaultWave: Param)
  {
    /** Different keys lead to different ports with different buffers. */
    predicate Separate()
    {
      forall k1, k2 :: k1 in ports && k2 in ports && k1 != k2 ==>
        ports[k1] != ports[k2] && ports[k1].arr != ports[k2].arr
    }

    function Footprint(): set<object>
    {
      (set k | k in ports :: ports[k] as object) + (set k | k in ports :: ports[k].arr as object)
    }

    /** The state of every port. */
    function Snapshot(): (s: map<PortKey, PortState>)
      reads Footprint()
      ensures s.Keys == ports.Keys
    {
      map k | k in ports :: PortState(ports[k].valid, ports[k].arr[..])
    }
  }

  /** `rows` after `dst[i][:] = src[i]` for every `i < count` that is a row of `rows`. */
  function CopyPrefix(rows: seq<Row>, src: seq<Row>, count: nat): (r: seq<Row>)
    requires count <= |src|
    ensures |r| == |rows|
    ensures forall i :: 0 <= i < |rows| && i < count ==> r[i] == src[i]
    ensures forall i :: count <= i < |rows| ==> r[i] == rows[i]
  {
    seq(|rows|, i requires 0 <= i < |rows| => if i < count then src[i] else rows[i])
  }

  /** The store after the rows of the port at `key` are overwritten by `src` up to `count`. */
  function WriteRows(s: map<PortKey, PortState>, key: PortKey, src: seq<Row>, count: nat): (r: map<PortKey, PortState>)
    requires key in s && count <= |src|
  {
    s[key := PortState(s[key].valid, CopyPrefix(s[key].rows, src, count))]
  }

  /** The store after `arr[:] = rows[:]` on the port at `key`. */
  function ReplaceRows(s: map<PortKey, PortState>, key: PortKey, rows: seq<Row>): (r: map<PortKey, PortState>)
    requires key in s
  {
    s[key := PortState(s[key].valid, rows)]
  }

  /** The store after `set_valid()` on the port at `key`. */
  function SetValid(s: map<PortKey, PortState>, key: PortKey): (r: map<PortKey, PortState>)
    requires key in s
  {
    s[key := PortState(true, s[key].rows)]
  }

  /**
   * `for idx in range(count): dst[idx][:] = src[idx]`: the loop stops with
   * IndexError (`ok` false) at the first index past the buffer, having
   * written every row before it.
   */
  method CopyRows(dst: array<Row>, src: seq<Row>, count: nat) returns (ok: bool)
    requires count <= |src|
    modifies dst
    ensures ok <==> count <= dst.Length
    ensures dst[..] == CopyPrefix(old(dst[..]), src, count)
  {
    for idx := 0 to count
      invariant idx <= dst.Length
      invariant dst[..] == CopyPrefix(old(dst[..]), src, idx)
    {
      if idx >= dst.Length {
        assert dst[..] == CopyPrefix(old(dst[..]), src, count);
        return false;
      }
      dst[idx] := src[idx];
    }
    return true;
  }

  /** `set_valid()` on the port at `key`: only that port's flag changes. */
  method SetPortValid(store: PortStore, key: PortKey)
    requires store.Separate() && key in store.ports
    modifies store.ports[key]
    ensures store.Snapshot() == SetValid(old(store.Snapshot()), key)
  {
    store.ports[key].valid := true;
  }

  /** `arr[:] = rows[:]` on the port at `key`, for rows of the buffer's length. */
  method ReplacePortRows(store: PortStore, key: PortKey, rows: seq<Row>)
    requires store.Separate() && key in store.ports
    requires |rows| == store.ports[key].arr.Length
    modifies store.ports[key].arr
    ensures store.Snapshot() == ReplaceRows(old(store.Snapshot()), key, rows)
  {
    var arr := store.ports[key].arr;
    ghost var before := store.Snapshot();
    forall i | 0 <= i < arr.Length {
      arr[i] := rows[i];
    }
    assert arr[..] == rows;
    forall k | k in store.ports
      ensures store.Snapshot()[k] == ReplaceRows(before, key, rows)[k]
    {
      if k != key {
        assert store.ports[k].arr != arr;
      }
    }
  }

  /** The row-copy loop on the buffer of the port at `key`. */
  method WritePortRows(store: PortStore, key: PortKey, src: seq<Row>, count: nat) returns (ok: bool)
    requires store.Separate() && key in store.ports && count <= |src|
    modifies store.ports[key].arr
    ensures ok <==> count <= |old(store.Snapshot())[key].rows|
    ensures store.Snapshot() == WriteRows(old(store.Snapshot()), key, src, count)
  {
    var arr := store.ports[key].arr;
    ghost var before := store.Snapshot();
    ok := CopyRows(arr, src, count);
    forall k | k in store.ports
      ensures store.Snapshot()[k] == WriteRows(before, key, src, count)[k]
    {
      if k != key {
        assert store.ports[k].arr != arr;
      }
    }
  }
}
