/**
 * The key selection of the plotting utilities: each `plot_*` function reads
 * one table of a KPI log with `get_table_data_from_csv` and then picks the
 * column keys it draws. Only the choice of keys (and, for the GLCM plot, of
 * the file and axis names) is modelled; the values themselves go to
 * matplotlib.
 */
module Plotting {
  import opened Py
  import opened Strings
  import opened KpiTable

  // ---------------------------------------------------------------------------
  // Filtering keys

  /** The elements of `s` that satisfy `keep`, in the order of `s`. */
  function Filter(s: seq<string>, keep: string -> bool): (r: seq<string>)
    ensures |r| <= |s|
    ensures forall i :: 0 <= i < |r| ==> r[i] in s && keep(r[i])
  {
    if s == [] then []
    else
      var init, last := s[..|s| - 1], s[|s| - 1];
      assert s == init + [last];
      Filter(init, keep) + (if keep(last) then [last] else [])
  }

  /** An element is kept exactly when it is in `s` and satisfies `keep`. */
  lemma {:induction false} FilterMembers(s: seq<string>, keep: string -> bool)
    ensures forall x :: x in Filter(s, keep) <==> x in s && keep(x)
    decreases |s|
  {
    if s != [] {
      var init, last := s[..|s| - 1], s[|s| - 1];
      FilterMembers(init, keep);
      assert s == init + [last];
    }
  }

  /** A filter of a duplicate-free sequence is duplicate-free. */
  lemma {:induction false} FilterNoDuplicates(s: seq<string>, keep: string -> bool)
    requires NoDuplicates(s)
    ensures NoDuplicates(Filter(s, keep))
    decreases |s|
  {
    if s != [] {
      var init, last := s[..|s| - 1], s[|s| - 1];
      FilterNoDuplicates(init, keep);
      FilterMembers(init, keep);
      assert last !in init;
    }
  }

  lemma {:induction false} FilterKeepsOrder(s: seq<string>, keep: string -> bool)
    requires NoDuplicates(s)
    ensures forall i, j :: 0 <= i < j < |Filter(s, keep)| ==>
      FirstIndex(s, Filter(s, keep)[i]) < FirstIndex(s, Filter(s, keep)[j])
    decreases |s|
  {
    if s != [] {
      var init, last := s[..|s| - 1], s[|s| - 1];
      FilterKeepsOrder(init, keep);
      var r := Filter(s, keep);
      forall x | x in init ensures FirstIndex(s, x) == FirstIndex(init, x) {
        var k := FirstIndex(init, x);
        assert s[..k] == init[..k];
        FirstIndexUnique(s, x, k);
      }
      if keep(last) {
        assert last !in init;
        assert s[..|s| - 1] == init;
        FirstIndexUnique(s, last, |s| - 1);
      }
    }
  }

  /** Over a duplicate-free sequence, a filter keeps each kept element once. */
  lemma {:induction false} FilterCount(s: seq<string>, keep: string -> bool, x: string)
    requires NoDuplicates(s) && x in s
    ensures multiset(Filter(s, keep))[x] == if keep(x) then 1 else 0
    decreases |s|
  {
    var init, last := s[..|s| - 1], s[|s| - 1];
    assert s == init + [last];
    var extra := if keep(last) then [last] else [];
    assert Filter(s, keep) == Filter(init, keep) + extra;
    assert NoDuplicates(init) by {
      forall i, j | 0 <= i < j < |init| ensures init[i] != init[j] {
        assert init[i] == s[i] && init[j] == s[j];
      }
    }
    if last == x {
      assert x !in init;
      FilterMembers(init, keep);
      assert multiset(Filter(init, keep))[x] == 0;
    } else {
      assert x in init;
      FilterCount(init, keep, x);
    }
  }

  lemma {:induction false} FilterNone(s: seq<string>, keep: string -> bool)
    requires forall m :: 0 <= m < |s| ==> !keep(s[m])
    ensures Filter(s, keep) == []
    decreases |s|
  {
    if s != [] {
      FilterNone(s[..|s| - 1], keep);
    }
  }

  lemma FilterStep(s: seq<string>, keep: string -> bool, j: nat)
    requires j < |s|
    ensures Filter(s[..j + 1], keep) == Filter(s[..j], keep) + (if keep(s[j]) then [s[j]] else [])
  {
    assert s[..j + 1][..j] == s[..j];
  }

  /** The first element of a filter is the first element of `s` that is kept. */
  lemma {:induction false} FilterHead(s: seq<string>, keep: string -> bool, i: nat)
    requires i < |s| && keep(s[i])
    requires forall m :: 0 <= m < i ==> !keep(s[m])
    ensures Filter(s, keep) != [] && Filter(s, keep)[0] == s[i]
    decreases |s|
  {
    var init := s[..|s| - 1];
    if i == |s| - 1 {
      FilterNone(init, keep);
    } else {
      FilterHead(init, keep, i);
    }
  }

  /** The condition "contains `sub`". */
  function Holding(sub: string): string -> bool
  {
    x => Contains(x, sub)
  }

  /** The condition "is a substring of `key`". */
  function HeldIn(key: string): string -> bool
  {
    p => Contains(key, p)
  }

  /** The condition "is not `key`". */
  function Except(key: string): string -> bool
  {
    x => x != key
  }

  /** Both conditions. */
  function Both(first: string -> bool, second: string -> bool): string -> bool
  {
    x => first(x) && second(x)
  }

  /** Over a duplicate-free sequence, a filter keeps exactly the elements that pass, each once, in order. */
  lemma FilterChosen(s: seq<string>, keep: string -> bool)
    requires NoDuplicates(s)
    ensures var r := Filter(s, keep);
      && NoDuplicates(r)
      && (forall x :: x in r <==> x in s && keep(x))
      && (forall i, j :: 0 <= i < j < |r| ==> FirstIndex(s, r[i]) < FirstIndex(s, r[j]))
  {
    FilterMembers(s, keep);
    FilterNoDuplicates(s, keep);
    FilterKeepsOrder(s, keep);
  }

  /** Filtering twice is filtering once by both conditions. */
  lemma {:induction false} FilterFilter(s: seq<string>, first: string -> bool, second: string -> bool)
    ensures Filter(Filter(s, first), second) == Filter(s, Both(first, second))
    decreases |s|
  {
    if s != [] {
      var init, last := s[..|s| - 1], s[|s| - 1];
      FilterFilter(init, first, second);
      var both := Both(first, second);
      assert Filter(s, both) == Filter(init, both) + (if both(last) then [last] else []);
      if first(last) {
        var kept := Filter(init, first);
        assert Filter(s, first) == kept + [last];
        assert (kept + [last])[..|kept|] == kept;
        assert Filter(kept + [last], second) == Filter(kept, second) + (if second(last) then [last] else []);
      } else {
        assert Filter(s, first) == Filter(init, first);
      }
    }
  }

  /** The table keys of which `sub` is a substring. */
  function KeysContaining(keys: seq<string>, sub: string): seq<string>
  {
    Filter(keys, Holding(sub))
  }

  /** The ports of `ports` that are substrings of `key`. */
  function PortsIn(key: string, ports: seq<string>): seq<string>
  {
    Filter(ports, HeldIn(key))
  }

  // ---------------------------------------------------------------------------
  // plot_avg_time_jobs

  /** The column of the frame-reading job, removed on request. */
  const GetFrameKey: string := "Get frame Avg Time[ms]"
  /** What marks a column of average times. */
  const TimeUnit: string := "[ms]"

  /**
   * The keys `plot_avg_time_jobs` draws: the table keys containing `[ms]`,
   * in table order, after popping `Get frame Avg Time[ms]` from the
   * dictionary when asked to, which raises KeyError if it is not a key.
   */
  function AvgTimeKeys(keys: seq<string>, eliminateGetImage: bool): Result<seq<string>>
  {
    if !eliminateGetImage then Success(KeysContaining(keys, TimeUnit))
    else if GetFrameKey !in keys then Failure(KeyError)
    else Success(KeysContaining(Filter(keys, Except(GetFrameKey)), TimeUnit))
  }

  /**
   * The choice of `plot_avg_time_jobs`: it fails exactly when the frame
   * column is to be removed and is missing; otherwise the kept keys are
   * exactly the table keys containing `[ms]` other than a removed one, each
   * once, in table order.
   */
  lemma AvgTimeKeysChosen(keys: seq<string>, eliminateGetImage: bool)
    requires NoDuplicates(keys)
    ensures AvgTimeKeys(keys, eliminateGetImage).Failure? <==> eliminateGetImage && GetFrameKey !in keys
    ensures AvgTimeKeys(keys, eliminateGetImage).Failure? ==> AvgTimeKeys(keys, eliminateGetImage).error == KeyError
    ensures AvgTimeKeys(keys, eliminateGetImage).Success? ==>
      var r := AvgTimeKeys(keys, eliminateGetImage).value;
      && NoDuplicates(r)
      && (forall x :: x in r <==> x in keys && Contains(x, TimeUnit) && !(eliminateGetImage && x == GetFrameKey))
      && (forall i, j :: 0 <= i < j < |r| ==> FirstIndex(keys, r[i]) < FirstIndex(keys, r[j]))
  {
    if !eliminateGetImage {
      FilterChosen(keys, Holding(TimeUnit));
    } else if GetFrameKey in keys {
      FilterFilter(keys, Except(GetFrameKey), Holding(TimeUnit));
      FilterChosen(keys, Both(Except(GetFrameKey), Holding(TimeUnit)));
    }
  }

  // ---------------------------------------------------------------------------
  // plot_custom_list

  /** The keys `plot_custom_list` draws: port by port, every table key containing the port. */
  function Matching(ports: seq<string>, keys: seq<string>): seq<string>
  {
    if ports == [] then []
    else Matching(ports[..|ports| - 1], keys) + KeysContaining(keys, ports[|ports| - 1])
  }

  /** The nested loops of `plot_custom_list` that append the keys matching each port. */
  method SelectContaining(ports: seq<string>, tableKeys: seq<string>) returns (keys: seq<string>)
    ensures keys == Matching(ports, tableKeys)
  {
    keys := [];
    for i := 0 to |ports|
      invariant keys == Matching(ports[..i], tableKeys)
    {
      keys := AppendContaining(keys, tableKeys, ports[i]);
      MatchingStep(ports, tableKeys, i);
    }
    assert ports[..|ports|] == ports;
  }

  /** The inner loop: every table key containing `port` is appended, in table order. */
  method AppendContaining(keys: seq<string>, tableKeys: seq<string>, port: string) returns (r: seq<string>)
    ensures r == keys + KeysContaining(tableKeys, port)
  {
    r := keys;
    for j := 0 to |tableKeys|
      invariant r == keys + KeysContaining(tableKeys[..j], port)
    {
      ghost var before := KeysContaining(tableKeys[..j], port);
      KeysContainingStep(tableKeys, port, j);
      if Contains(tableKeys[j], port) {
        r := r + [tableKeys[j]];
        assert r == keys + (before + [tableKeys[j]]);
      }
    }
    assert tableKeys[..|tableKeys|] == tableKeys;
  }

  lemma KeysContainingStep(keys: seq<string>, sub: string, j: nat)
    requires j < |keys|
    ensures KeysContaining(keys[..j + 1], sub)
      == KeysContaining(keys[..j], sub) + (if Contains(keys[j], sub) then [keys[j]] else [])
  {
    assert keys[..j + 1][..j] == keys[..j];
  }

  lemma MatchingStep(ports: seq<string>, keys: seq<string>, i: nat)
    requires i < |ports|
    ensures Matching(ports[..i + 1], keys) == Matching(ports[..i], keys) + KeysContaining(keys, ports[i])
  {
    assert ports[..i + 1][..i] == ports[..i];
  }

  /**
   * `plot_custom_list`'s choice of keys: the keys selected for its ports
   * from table `tableNumber` of the log, or the reader's error.
   */
  method PlotCustomListKeys(content: string, tableNumber: int, ports: seq<string>) returns (r: Result<seq<string>>)
    ensures TableData(content, tableNumber).Failure? ==> r == Failure(TableData(content, tableNumber).error)
    ensures TableData(content, tableNumber).Success? ==> r == Success(Matching(ports, TableData(content, tableNumber).value.keys))
  {
    var table := GetTableDataFromCsv(content, tableNumber);
    if table.Failure? {
      return Failure(table.error);
    }
    var keys := SelectContaining(ports, table.value.keys);
    r := Success(keys);
  }

  /** A key is selected exactly when some port is a substring of it. */
  lemma {:induction false} MatchingMembers(ports: seq<string>, keys: seq<string>, x: string)
    ensures x in Matching(ports, keys) <==> x in keys && exists p :: p in ports && Contains(x, p)
    decreases |ports|
  {
    if ports != [] {
      var init := ports[..|ports| - 1];
      MatchingMembers(init, keys, x);
      FilterMembers(keys, Holding(ports[|ports| - 1]));
      assert ports == init + [ports[|ports| - 1]];
      if x in keys && exists p :: p in ports && Contains(x, p) {
        var p :| p in ports && Contains(x, p);
        if p != ports[|ports| - 1] {
          assert p in init;
        }
      }
    }
  }

  /**
   * Over duplicate-free table keys, a key is selected once for every port
   * that is a substring of it: the selection can repeat a key.
   */
  lemma {:induction false} MatchingCount(ports: seq<string>, keys: seq<string>, x: string)
    requires NoDuplicates(keys) && x in keys
    ensures multiset(Matching(ports, keys))[x] == |PortsIn(x, ports)|
    decreases |ports|
  {
    if ports != [] {
      var init, last := ports[..|ports| - 1], ports[|ports| - 1];
      MatchingCount(init, keys, x);
      FilterCount(keys, Holding(last), x);
    }
  }

  /** The keys chosen for one port appear in table order. */
  lemma MatchingFollowsTable(keys: seq<string>, port: string)
    requires NoDuplicates(keys)
    ensures forall i, j :: 0 <= i < j < |KeysContaining(keys, port)| ==>
      FirstIndex(keys, KeysContaining(keys, port)[i]) < FirstIndex(keys, KeysContaining(keys, port)[j])
  {
    FilterKeepsOrder(keys, Holding(port));
  }

  // ---------------------------------------------------------------------------
  // plot_GLCM_data

  /** The characteristics `plot_GLCM_data` accepts. */
  const GlcmCharacteristics: seq<string> :=
    ["CONTRAST", "DISSIMILARITY", "HOMOGENEITY", "ASM", "ENERGY", "CORRELATION", "ENTROPY"]

  /** What `plot_GLCM_data` draws: the file name it would save under, the y label and the keys. */
  datatype GlcmPlot = GlcmPlot(nameToSave: string, yLabel: string, keys: seq<string>)

  /** The port prefix of the GLCM columns of a characteristic. */
  function GlcmPrefix(characteristic: string): string
  {
    "GLCM " + characteristic + " "
  }

  /** The ports searched for: each port after the characteristic's prefix. */
  function GlcmPorts(characteristic: string, ports: seq<string>): (r: seq<string>)
    ensures |r| == |ports|
    ensures forall i :: 0 <= i < |ports| ==> r[i] == GlcmPrefix(characteristic) + ports[i]
  {
    if ports == [] then []
    else GlcmPorts(characteristic, ports[..|ports| - 1]) + [GlcmPrefix(characteristic) + ports[|ports| - 1]]
  }

  /** The default file name: the title, `_` and the characteristic in lower case. */
  function DefaultGlcmName(title: string, characteristic: string): (r: string)
    ensures |r| == |title| + 1 + |characteristic|
    ensures r[..|title| + 1] == title + "_"
    ensures r[|title| + 1..] == Lower(characteristic)
  {
    title + "_" + Lower(characteristic)
  }

  /**
   * The choice of `plot_GLCM_data` on a table: nothing unless the
   * characteristic is listed; else the given or default names and the
   * keys matching the prefixed ports.
   */
  function GlcmSelection(keys: seq<string>, ports: seq<string>, characteristic: string, title: string,
                         nameToSave: Option<string>, yPlotName: Option<string>): Option<GlcmPlot>
  {
    if characteristic !in GlcmCharacteristics then None
    else
      var name := if nameToSave.Some? then nameToSave.value else DefaultGlcmName(title, characteristic);
      var yLabel := if yPlotName.Some? then yPlotName.value else characteristic;
      Some(GlcmPlot(name, yLabel, Matching(GlcmPorts(characteristic, ports), keys)))
  }

  /** The loop of `plot_GLCM_data` that prefixes every port. */
  method PrefixPorts(characteristic: string, ports: seq<string>) returns (prefixed: seq<string>)
    ensures prefixed == GlcmPorts(characteristic, ports)
  {
    prefixed := [];
    for i := 0 to |ports|
      invariant prefixed == GlcmPorts(characteristic, ports[..i])
    {
      assert ports[..i + 1][..i] == ports[..i];
      prefixed := prefixed + [GlcmPrefix(characteristic) + ports[i]];
    }
    assert ports[..|ports|] == ports;
  }

  /**
   * `plot_GLCM_data` up to the drawing: the table is read first, so a bad
   * table number fails even for an unlisted characteristic.
   */
  method PlotGlcmData(content: string, tableNumber: int, ports: seq<string>, characteristic: string, title: string,
                      nameToSave: Option<string>, yPlotName: Option<string>) returns (r: Result<Option<GlcmPlot>>)
    ensures TableData(content, tableNumber).Failure? ==> r == Failure(TableData(content, tableNumber).error)
    ensures TableData(content, tableNumber).Success? ==>
      r == Success(GlcmSelection(TableData(content, tableNumber).value.keys, ports, characteristic, title, nameToSave, yPlotName))
  {
    var table := GetTableDataFromCsv(content, tableNumber);
    if table.Failure? {
      return Failure(table.error);
    }
    if characteristic !in GlcmCharacteristics {
      return Success(None);
    }
    var name := if nameToSave.Some? then nameToSave.value else DefaultGlcmName(title, characteristic);
    var yLabel := if yPlotName.Some? then yPlotName.value else characteristic;
    var searched := PrefixPorts(characteristic, ports);
    var keys := SelectContaining(searched, table.value.keys);
    r := Success(Some(GlcmPlot(name, yLabel, keys)));
  }

  /**
   * What `plot_GLCM_data` promises: it does nothing for an unlisted
   * characteristic; a given name or label is used as is; and a key is drawn
   * exactly when `GLCM <characteristic> <port>` is a substring of it for
   * some port.
   */
  lemma GlcmSelectionChosen(keys: seq<string>, ports: seq<string>, characteristic: string, title: string,
                            nameToSave: Option<string>, yPlotName: Option<string>, x: string)
    ensures GlcmSelection(keys, ports, characteristic, title, nameToSave, yPlotName).None?
      <==> characteristic !in GlcmCharacteristics
    ensures GlcmSelection(keys, ports, characteristic, title, nameToSave, yPlotName).Some? ==>
      var plot := GlcmSelection(keys, ports, characteristic, title, nameToSave, yPlotName).value;
      && (nameToSave.Some? ==> plot.nameToSave == nameToSave.value)
      && (nameToSave.None? ==> plot.nameToSave == title + "_" + Lower(characteristic))
      && (yPlotName.Some? ==> plot.yLabel == yPlotName.value)
      && (yPlotName.None? ==> plot.yLabel == characteristic)
      && (x in plot.keys <==> x in keys && exists p :: p in ports && Contains(x, GlcmPrefix(characteristic) + p))
  {
    var searched := GlcmPorts(characteristic, ports);
    MatchingMembers(searched, keys, x);
    if exists q :: q in searched && Contains(x, q) {
      var q :| q in searched && Contains(x, q);
      var i :| 0 <= i < |searched| && searched[i] == q;
      assert ports[i] in ports;
    }
    if exists p :: p in ports && Contains(x, GlcmPrefix(characteristic) + p) {
      var p :| p in ports && Contains(x, GlcmPrefix(characteristic) + p);
      var i :| 0 <= i < |ports| && ports[i] == p;
      assert searched[i] in searched;
    }
  }

  // ---------------------------------------------------------------------------
  // plot_time_jobs

  /** The position of the first key containing `element` (the loop with `break`), if any. */
  function FirstMatchIndex(keys: seq<string>, element: string): (r: Option<nat>)
    ensures r.Some? ==> r.value < |keys| && Contains(keys[r.value], element)
    ensures r.Some? ==> forall m :: 0 <= m < r.value ==> !Contains(keys[m], element)
    ensures r.None? ==> forall m :: 0 <= m < |keys| ==> !Contains(keys[m], element)
  {
    if keys == [] then None
    else if Contains(keys[0], element) then Some(0)
    else
      match FirstMatchIndex(keys[1..], element)
      case None => None
      case Some(i) => Some(i + 1)
  }

  /** The keys summed into a series: for each element of its port list, its first matching key, if any. */
  function FirstMatches(elements: seq<string>, keys: seq<string>): (r: seq<string>)
    ensures |r| <= |elements|
    ensures forall k :: 0 <= k < |r| ==> r[k] in keys
  {
    if elements == [] then []
    else
      var picked := FirstMatches(elements[..|elements| - 1], keys);
      match FirstMatchIndex(keys, elements[|elements| - 1])
      case None => picked
      case Some(i) => picked + [keys[i]]
  }

  /** What `plot_time_jobs` puts in `new_dict`: its keys in order and, for each, the columns it sums. */
  datatype SeriesTable = SeriesTable(names: seq<string>, sources: map<string, seq<string>>, length: nat)

  /** `new_dict` after the series `names[..]`, each a later assignment over an earlier one of the same name. */
  function Assign(names: seq<string>, ports: seq<seq<string>>, keys: seq<string>): (r: map<string, seq<string>>)
    requires |names| <= |ports|
    ensures forall x :: x in r <==> x in names
  {
    if names == [] then map[]
    else
      var n := |names| - 1;
      assert names == names[..n] + [names[n]];
      Assign(names[..n], ports, keys)[names[n] := FirstMatches(ports[n], keys)]
  }

  /**
   * The series of `plot_time_jobs` on a table: IndexError when there are
   * more series names than port lists; otherwise one series per distinct
   * name, each as long as the table's columns.
   */
  function TimeJobsSeries(t: Table, names: seq<string>, ports: seq<seq<string>>): Result<SeriesTable>
    requires |t.keys| >= 1 && |t.columns| == |t.keys|
  {
    if |names| > |ports| then Failure(IndexError)
    else Success(SeriesTable(Distinct(names), Assign(names, ports, t.keys), |t.columns[0]|))
  }

  /** The two inner loops of `plot_time_jobs`: for each element, the first key containing it. */
  method FirstMatchesOf(elements: seq<string>, keys: seq<string>) returns (picked: seq<string>)
    ensures picked == FirstMatches(elements, keys)
  {
    picked := [];
    for e := 0 to |elements|
      invariant picked == FirstMatches(elements[..e], keys)
    {
      var element := elements[e];
      var j := 0;
      while j < |keys|
        invariant j <= |keys|
        invariant forall m :: 0 <= m < j ==> !Contains(keys[m], element)
      {
        if Contains(keys[j], element) {
          break;
        }
        j := j + 1;
      }
      assert elements[..e + 1][..e] == elements[..e];
      if j < |keys| {
        assert FirstMatchIndex(keys, element) == Some(j);
        picked := picked + [keys[j]];
      } else {
        assert FirstMatchIndex(keys, element) == None;
      }
    }
    assert elements[..|elements|] == elements;
  }

  /** The loop of `plot_time_jobs` over the series names. */
  method TimeJobsSources(t: Table, names: seq<string>, ports: seq<seq<string>>) returns (r: Result<SeriesTable>)
    requires |t.keys| >= 1 && |t.columns| == |t.keys|
    ensures r == TimeJobsSeries(t, names, ports)
  {
    var order: seq<string> := [];
    var sources: map<string, seq<string>> := map[];
    var length := |t.columns[0]|;
    for index := 0 to |names|
      invariant index <= |ports|
      invariant order == Distinct(names[..index])
      invariant sources == Assign(names[..index], ports, t.keys)
    {
      if index >= |ports| {
        return Failure(IndexError);
      }
      var name := names[index];
      var picked := FirstMatchesOf(ports[index], t.keys);
      DistinctStep(names, index);
      AssignStep(names, ports, t.keys, index);
      if name !in order {
        order := order + [name];
      }
      sources := sources[name := picked];
    }
    assert names[..|names|] == names;
    r := Success(SeriesTable(order, sources, length));
  }

  lemma DistinctStep(names: seq<string>, i: nat)
    requires i < |names|
    ensures Distinct(names[..i + 1]) ==
      if names[i] in Distinct(names[..i]) then Distinct(names[..i]) else Distinct(names[..i]) + [names[i]]
  {
    assert names[..i + 1][..i] == names[..i];
  }

  lemma AssignStep(names: seq<string>, ports: seq<seq<string>>, keys: seq<string>, i: nat)
    requires i < |names| && i < |ports|
    ensures Assign(names[..i + 1], ports, keys) == Assign(names[..i], ports, keys)[names[i] := FirstMatches(ports[i], keys)]
  {
    assert names[..i + 1][..i] == names[..i];
  }

  /** `plot_time_jobs` up to the drawing. */
  method PlotTimeJobsSeries(content: string, tableNumber: int, names: seq<string>, ports: seq<seq<string>>)
    returns (r: Result<SeriesTable>)
    ensures TableData(content, tableNumber).Failure? ==> r == Failure(TableData(content, tableNumber).error)
    ensures TableData(content, tableNumber).Success? ==> r == TimeJobsSeries(TableData(content, tableNumber).value, names, ports)
  {
    var table := GetTableDataFromCsv(content, tableNumber);
    if table.Failure? {
      return Failure(table.error);
    }
    r := TimeJobsSources(table.value, names, ports);
  }

  /** The series of a name is given by its last occurrence among the series names. */
  lemma {:induction false} AssignLastWins(names: seq<string>, ports: seq<seq<string>>, keys: seq<string>, i: nat)
    requires |names| <= |ports| && i < |names|
    requires names[i] !in names[i + 1..]
    ensures Assign(names, ports, keys)[names[i]] == FirstMatches(ports[i], keys)
    decreases |names|
  {
    var n := |names| - 1;
    if i < n {
      assert names[i + 1..] == names[..n][i + 1..] + [names[n]];
      AssignLastWins(names[..n], ports, keys, i);
    }
  }

  /**
   * Each element of a port list contributes at most one key: the first
   * table key containing it, which is the first of all the keys containing it.
   */
  lemma FirstMatchIsFirstContaining(keys: seq<string>, element: string)
    ensures FirstMatchIndex(keys, element).None? <==> KeysContaining(keys, element) == []
    ensures FirstMatchIndex(keys, element).Some? ==>
      KeysContaining(keys, element) != [] && keys[FirstMatchIndex(keys, element).value] == KeysContaining(keys, element)[0]
  {
    match FirstMatchIndex(keys, element)
    case Some(i) =>
      FilterHead(keys, Holding(element), i);
    case None =>
      FilterNone(keys, Holding(element));
  }
}
