/** The files that the mirroring trials exchange with their solvers: one line per flow, switch, solution or
    port.  Printing appends to a string line by line, parsing fills a dictionary line by line; the theorems say
    exactly when parsing gives back what was printed. */
module MirroringFiles {
  import opened Basics
  import opened Text

  // ----- dictionaries -----

  /** Entries in insertion order. */
  type Dict<V> = seq<(int, V)>

  predicate DistinctKeys<V>(d: Dict<V>) {
    forall i, j :: 0 <= i < j < |d| ==> d[i].0 != d[j].0
  }

  /** d[k] = v: replaces in place, or appends. */
  function Put<V>(d: Dict<V>, k: int, v: V): Dict<V> {
    if d == [] then [(k, v)]
    else if d[0].0 == k then [(k, v)] + d[1..]
    else [d[0]] + Put(d[1..], k, v)
  }

  function PutAll<V>(entries: seq<(int, V)>): Dict<V> {
    if entries == [] then []
    else
      var n := |entries| - 1;
      Put(PutAll(entries[..n]), entries[n].0, entries[n].1)
  }

  lemma {:induction false} PutNew<V>(d: Dict<V>, k: int, v: V)
    requires forall i :: 0 <= i < |d| ==> d[i].0 != k
    ensures Put(d, k, v) == d + [(k, v)]
  {
    if d != [] {
      PutNew(d[1..], k, v);
    }
  }

  lemma {:induction false} PutAllDistinct<V>(entries: seq<(int, V)>)
    requires DistinctKeys(entries)
    ensures PutAll(entries) == entries
  {
    if entries != [] {
      var n := |entries| - 1;
      PutAllDistinct(entries[..n]);
      PutNew(entries[..n], entries[n].0, entries[n].1);
    }
  }

  lemma {:induction false} PutKeeps<V>(d: Dict<V>, k: int, v: V, e: (int, V))
    requires e in Put(d, k, v)
    ensures e in d || e == (k, v)
  {
    if d != [] && d[0].0 != k && e != d[0] {
      PutKeeps(d[1..], k, v, e);
    }
  }

  lemma {:induction false} PutAllFrom<V>(entries: seq<(int, V)>, e: (int, V))
    requires e in PutAll(entries)
    ensures e in entries
  {
    if entries != [] {
      var n := |entries| - 1;
      PutKeeps(PutAll(entries[..n]), entries[n].0, entries[n].1, e);
      if e != entries[n] {
        PutAllFrom(entries[..n], e);
      }
    }
  }

  /** A key that is there keeps its place. */
  lemma {:induction false} PutReplaces<V>(d: Dict<V>, k: int, v: V, i: nat)
    requires DistinctKeys(d) && i < |d| && d[i].0 == k
    ensures Put(d, k, v) == d[i := (k, v)]
  {
    if i > 0 {
      PutReplaces(d[1..], k, v, i - 1);
      assert d[0].0 != d[i].0;
    }
  }

  lemma PutKeepsDistinct<V>(d: Dict<V>, k: int, v: V)
    requires DistinctKeys(d)
    ensures DistinctKeys(Put(d, k, v)) && (k, v) in Put(d, k, v)
    ensures forall e :: e in d && e.0 != k ==> e in Put(d, k, v)
  {
    if i :| 0 <= i < |d| && d[i].0 == k {
      PutReplaces(d, k, v, i);
      assert d[i := (k, v)][i] == (k, v);
      forall e | e in d && e.0 != k ensures e in Put(d, k, v) {
        var j :| 0 <= j < |d| && d[j] == e;
        assert d[i := (k, v)][j] == e;
      }
    } else {
      PutNew(d, k, v);
    }
  }

  /** The last value put under a key stays, and no other. */
  lemma {:induction false} LastStays<V>(entries: seq<(int, V)>)
    ensures DistinctKeys(PutAll(entries))
    ensures forall i :: 0 <= i < |entries| && (forall j :: i < j < |entries| ==> entries[j].0 != entries[i].0) ==>
              entries[i] in PutAll(entries)
  {
    if entries != [] {
      var n := |entries| - 1;
      LastStays(entries[..n]);
      PutKeepsDistinct(PutAll(entries[..n]), entries[n].0, entries[n].1);
      forall i | 0 <= i < |entries| && (forall j :: i < j < |entries| ==> entries[j].0 != entries[i].0)
        ensures entries[i] in PutAll(entries)
      {
        if i < n {
          assert entries[..n][i] == entries[i];
          assert entries[i] in PutAll(entries[..n]);
        }
      }
    }
  }

  // ----- reading line by line -----

  /** The entries on the lines, or None when a line is malformed. */
  function ParseLines<V>(lines: seq<string>, parse: seq<string> -> Option<(int, V)>): (r: Option<seq<(int, V)>>)
    ensures r.Some? ==> |r.value| == |lines|
  {
    if lines == [] then Some([])
    else
      var n := |lines| - 1;
      var init, last := ParseLines(lines[..n], parse), parse(Split(lines[n], ' '));
      if init.None? || last.None? then None else Some(init.value + [last.value])
  }

  function Read<V>(entries: Option<seq<(int, V)>>): Option<Dict<V>> {
    if entries.None? then None else Some(PutAll(entries.value))
  }

  lemma {:induction false} ParseLinesOk<V>(
      lines: seq<string>, parse: seq<string> -> Option<(int, V)>, entries: seq<(int, V)>)
    requires |lines| == |entries| && forall i :: 0 <= i < |lines| ==> parse(Split(lines[i], ' ')) == Some(entries[i])
    ensures ParseLines(lines, parse) == Some(entries)
  {
    if lines != [] {
      var n := |lines| - 1;
      ParseLinesOk(lines[..n], parse, entries[..n]);
      assert entries == entries[..n] + [entries[n]];
    }
  }

  lemma {:induction false} FailureStays<V>(lines: seq<string>, parse: seq<string> -> Option<(int, V)>, i: nat)
    requires i <= |lines| && ParseLines(lines[..i], parse).None?
    ensures ParseLines(lines, parse).None?
  {
    if i == |lines| {
      assert lines[..i] == lines;
    } else {
      var n := |lines| - 1;
      assert lines[..n][..i] == lines[..i];
      FailureStays(lines[..n], parse, i);
    }
  }

  /** Fills a dictionary line by line. */
  method ReadLines<V>(lines: seq<string>, parse: seq<string> -> Option<(int, V)>) returns (r: Option<Dict<V>>)
    ensures r == Read(ParseLines(lines, parse))
  {
    var d: Dict<V> := [];
    for i := 0 to |lines|
      invariant Some(d) == Read(ParseLines(lines[..i], parse))
    {
      assert lines[..i + 1][..i] == lines[..i];
      var entry := parse(Split(lines[i], ' '));
      if entry.None? {
        FailureStays(lines, parse, i + 1);
        return None;
      }
      d := Put(d, entry.value.0, entry.value.1);
    }
    assert lines[..|lines|] == lines;
    r := Some(d);
  }

  /** The file read back holds every value under its own identifier; so it is the dictionary printed if and
      only if that has the same keys. */
  lemma ReadBack<V>(d: Dict<V>, own: seq<(int, V)>)
    requires DistinctKeys(d) && |own| == |d| && forall i :: 0 <= i < |d| ==> own[i].1 == d[i].1
    requires forall i, j :: 0 <= i < |d| && 0 <= j < |d| && d[i].1 == own[j].1 ==> own[i].0 == own[j].0
    ensures PutAll(own) == d <==> forall i :: 0 <= i < |d| ==> d[i].0 == own[i].0
  {
    if forall i :: 0 <= i < |d| ==> d[i].0 == own[i].0 {
      assert own == d;
      PutAllDistinct(d);
    }
    if PutAll(own) == d {
      forall i | 0 <= i < |d| ensures d[i].0 == own[i].0 {
        PutAllFrom(own, d[i]);
        var j :| 0 <= j < |own| && own[j] == d[i];
      }
    }
  }

  // ----- files as rows of tokens -----

  ghost predicate AreRows(rows: seq<seq<string>>) {
    forall i :: 0 <= i < |rows| ==> rows[i] != [] && forall j :: 0 <= j < |rows[i]| ==> Plain(rows[i][j])
  }

  function Written(rows: seq<seq<string>>): (lines: seq<string>)
    ensures |lines| == |rows| && forall i :: 0 <= i < |rows| ==> lines[i] == Join(rows[i])
  {
    seq(|rows|, i requires 0 <= i < |rows| => Join(rows[i]))
  }

  lemma RowsAreLines(rows: seq<seq<string>>)
    requires AreRows(rows)
    ensures forall i :: 0 <= i < |rows| ==> '\n' !in Written(rows)[i] && Split(Written(rows)[i], ' ') == rows[i]
    ensures Lines(Unlines(Written(rows))) == Written(rows)
  {
    hide Split;
    hide Join;
    hide Unlines;
    hide Lines;
    forall i | 0 <= i < |rows| ensures '\n' !in Written(rows)[i] && Split(Written(rows)[i], ' ') == rows[i] {
      SplitJoin(rows[i]);
    }
    LinesRoundTrip(Written(rows));
  }

  /** The rows are read one by one, and all of them must be well formed. */
  lemma RowsRead<V>(rows: seq<seq<string>>, parse: seq<string> -> Option<(int, V)>)
    requires AreRows(rows)
    ensures ParseLines(Written(rows), parse).Some? <==> forall i :: 0 <= i < |rows| ==> parse(rows[i]).Some?
    ensures ParseLines(Written(rows), parse).Some? ==>
              forall i :: 0 <= i < |rows| ==> parse(rows[i]) == Some(ParseLines(Written(rows), parse).value[i])
  {
    hide Split;
    hide Join;
    hide Written;
    hide Plain;
    RowsAreLines(rows);
    if i :| 0 <= i < |rows| && parse(rows[i]).None? {
      ParseLinesFails(Written(rows), parse, i);
    } else {
      var entries := seq(|rows|, i requires 0 <= i < |rows| => parse(rows[i]).value);
      ParseLinesOk(Written(rows), parse, entries);
    }
  }

  // ----- lists of integers -----

  function PrintInts(xs: seq<int>): (ts: seq<string>)
    ensures |ts| == |xs| && forall i :: 0 <= i < |xs| ==> ts[i] == PrintInt(xs[i])
  {
    seq(|xs|, i requires 0 <= i < |xs| => PrintInt(xs[i]))
  }

  function ParseInts(ts: seq<string>): Option<seq<int>> {
    if ts == [] then Some([])
    else
      var head, tail := ParseInt(ts[0]), ParseInts(ts[1..]);
      if head.None? || tail.None? then None else Some([head.value] + tail.value)
  }

  lemma {:induction false} IntsRoundTrip(xs: seq<int>)
    ensures ParseInts(PrintInts(xs)) == Some(xs)
    ensures forall i :: 0 <= i < |xs| ==> Plain(PrintInts(xs)[i]) && PrintInts(xs)[i] != ""
  {
    hide PrintInt;
    hide ParseInt;
    if xs != [] {
      IntRoundTrip(xs[0]);
      NumbersArePlain(xs[0]);
      IntsRoundTrip(xs[1..]);
      assert xs == [xs[0]] + xs[1..];
      assert PrintInts(xs)[1..] == PrintInts(xs[1..]);
      assert forall i :: 1 <= i < |xs| ==> PrintInts(xs)[i] == PrintInts(xs[1..])[i - 1];
    }
  }

  ghost predicate DenoteInts(ts: seq<string>, xs: seq<int>) {
    |ts| == |xs| && forall i :: 0 <= i < |ts| ==> DenotesInt(ts[i], xs[i])
  }

  lemma {:induction false} IntsRead(ts: seq<string>, xs: seq<int>)
    ensures ParseInts(ts) == Some(xs) <==> DenoteInts(ts, xs)
  {
    hide ParseInt;
    hide DenotesInt;
    if ts != [] && xs != [] {
      IntReads(ts[0], xs[0]);
      IntsRead(ts[1..], xs[1..]);
      assert xs == [xs[0]] + xs[1..];
      if DenoteInts(ts[1..], xs[1..]) && DenotesInt(ts[0], xs[0]) {
        assert forall i :: 1 <= i < |ts| ==> ts[i] == ts[1..][i - 1] && xs[i] == xs[1..][i - 1];
      }
    }
  }

  /** All elements with a space between them; fails on the empty list, which has no last element. */
  method UndelimitedList(xs: seq<int>) returns (r: Option<string>)
    ensures r.None? <==> xs == []
    ensures r.Some? ==> r.value == Join(PrintInts(xs))
  {
    if xs == [] {
      return None;
    }
    var s := "";
    for i := 0 to |xs| - 1
      invariant s == if i == 0 then "" else Join(PrintInts(xs[..i])) + " "
    {
      GrowList(xs, i);
      s := s + PrintInt(xs[i]) + " ";
    }
    GrowList(xs, |xs| - 1);
    assert xs[..|xs|] == xs;
    r := Some(s + PrintInt(xs[|xs| - 1]));
  }

  lemma GrowList(xs: seq<int>, i: nat)
    requires i < |xs|
    ensures Join(PrintInts(xs[..i + 1])) == (if i == 0 then "" else Join(PrintInts(xs[..i])) + " ") + PrintInt(xs[i])
  {
    assert PrintInts(xs[..i + 1]) == PrintInts(xs[..i]) + [PrintInt(xs[i])];
    if i > 0 {
      JoinSnoc(PrintInts(xs[..i]), PrintInt(xs[i]));
    }
  }

  lemma JoinCons(a: string, ts: seq<string>)
    requires ts != []
    ensures Join([a] + ts) == a + " " + Join(ts)
  {
    assert ([a] + ts)[1..] == ts;
  }

  lemma UnlinesSnoc(lines: seq<string>, line: string)
    ensures Unlines(lines + [line]) == Unlines(lines) + line + "\n"
  {
    assert (lines + [line])[..|lines|] == lines;
  }

  lemma UnlinesNone(lines: seq<string>)
    requires lines == []
    ensures Unlines(lines) == ""
  {
  }

  // ----- flows -----

  /** Rates are in millionths. */
  datatype FlowDefinition = FlowDefinition(flowId: int, trafficRate: int, path: seq<int>)

  function FlowTokens(f: FlowDefinition): seq<string> {
    [PrintInt(f.flowId)] + ([PrintRate(f.trafficRate)] + PrintInts(f.path))
  }

  function ParseFlow(ts: seq<string>): Option<(int, FlowDefinition)> {
    if |ts| < 2 then None
    else
      var id, rate, path := ParseInt(ts[0]), ParseRate(ts[1]), ParseInts(ts[2..]);
      if id.None? || rate.None? || path.None? then None
      else Some((id.value, FlowDefinition(id.value, rate.value, path.value)))
  }

  function FlowLines(d: Dict<FlowDefinition>): (lines: seq<string>)
    ensures |lines| == |d| && forall i :: 0 <= i < |d| ==> lines[i] == Join(FlowTokens(d[i].1))
  {
    seq(|d|, i requires 0 <= i < |d| => Join(FlowTokens(d[i].1)))
  }

  lemma FlowRoundTrip(f: FlowDefinition)
    ensures ParseFlow(Split(Join(FlowTokens(f)), ' ')) == Some((f.flowId, f)) && '\n' !in Join(FlowTokens(f))
  {
    hide PrintInt;
    hide PrintRate;
    hide ParseInt;
    hide ParseRate;
    hide Split;
    hide Join;
    IntRoundTrip(f.flowId);
    RateRoundTrip(f.trafficRate);
    IntsRoundTrip(f.path);
    NumbersArePlain(f.flowId);
    NumbersArePlain(f.trafficRate);
    SplitJoin(FlowTokens(f));
    assert FlowTokens(f)[2..] == PrintInts(f.path);
  }

  /** Fails when some flow has an empty path. */
  method SerializeFlows(flows: Dict<FlowDefinition>) returns (r: Option<string>)
    ensures r.Some? <==> forall i :: 0 <= i < |flows| ==> flows[i].1.path != []
    ensures r.Some? ==> r.value == Unlines(FlowLines(flows))
  {
    hide Join;
    hide Unlines;
    var s := "";
    assert Unlines(FlowLines(flows[..0])) == "" by {
      UnlinesNone(FlowLines(flows[..0]));
    }
    for i := 0 to |flows|
      invariant s == Unlines(FlowLines(flows[..i])) && forall j :: 0 <= j < i ==> flows[j].1.path != []
    {
      var flow := flows[i].1;
      var path := UndelimitedList(flow.path);
      if path.None? {
        return None;
      }
      s := AppendFlow(flow, path.value, s, FlowLines(flows[..i]));
      assert FlowLines(flows[..i + 1]) == FlowLines(flows[..i]) + [Join(FlowTokens(flow))];
    }
    assert flows[..|flows|] == flows;
    r := Some(s);
  }

  method AppendFlow(flow: FlowDefinition, path: string, s: string, ghost lines: seq<string>) returns (s': string)
    requires s == Unlines(lines) && flow.path != [] && path == Join(PrintInts(flow.path))
    ensures s' == Unlines(lines + [Join(FlowTokens(flow))])
  {
    hide Join;
    JoinCons(PrintRate(flow.trafficRate), PrintInts(flow.path));
    JoinCons(PrintInt(flow.flowId), [PrintRate(flow.trafficRate)] + PrintInts(flow.path));
    UnlinesSnoc(lines, Join(FlowTokens(flow)));
    s' := s + (PrintInt(flow.flowId) + " " + (PrintRate(flow.trafficRate) + " " + path)) + "\n";
  }

  function FlowsIn(text: string): Option<Dict<FlowDefinition>> {
    Read(ParseLines(Lines(text), ParseFlow))
  }

  method DeserializeFlows(text: string) returns (r: Option<Dict<FlowDefinition>>)
    ensures r == FlowsIn(text)
  {
    r := ReadLines(Lines(text), ParseFlow);
  }

  /** Parsing gives back the flows printed, in the same order, if and only if each is filed under its own
      identifier. */
  lemma FlowsRoundTrip(d: Dict<FlowDefinition>)
    requires DistinctKeys(d)
    ensures FlowsIn(Unlines(FlowLines(d))) == Some(d) <==> forall i :: 0 <= i < |d| ==> d[i].0 == d[i].1.flowId
  {
    var own := seq(|d|, i requires 0 <= i < |d| => (d[i].1.flowId, d[i].1));
    forall i | 0 <= i < |d| ensures ParseFlow(Split(FlowLines(d)[i], ' ')) == Some(own[i]) && '\n' !in FlowLines(d)[i] {
      FlowRoundTrip(d[i].1);
    }
    LinesRoundTrip(FlowLines(d));
    ParseLinesOk(FlowLines(d), ParseFlow, own);
    ReadBack(d, own);
  }

  /** A line of a flow file: identifier, rate and path. */
  ghost predicate FlowRow(ts: seq<string>, f: FlowDefinition) {
    && |ts| >= 2 && DenotesInt(ts[0], f.flowId) && DenotesRate(ts[1], f.trafficRate)
    && DenoteInts(ts[2..], f.path)
  }

  ghost predicate IsFlowRow(ts: seq<string>) {
    exists x :: FlowRow(ts, x)
  }

  lemma FlowRowIff(ts: seq<string>, f: FlowDefinition)
    ensures ParseFlow(ts) == Some((f.flowId, f)) <==> FlowRow(ts, f)
  {
    hide ParseInt;
    hide ParseRate;
    hide ParseInts;
    hide DenotesInt;
    hide DenotesRate;
    hide DenoteInts;
    if |ts| >= 2 {
      IntReads(ts[0], f.flowId);
      RateReads(ts[1], f.trafficRate);
      IntsRead(ts[2..], f.path);
    }
  }

  /** Any file of such lines, whatever the form of its numbers, is read as the flows they describe... */
  lemma FlowsRead(rows: seq<seq<string>>, flows: seq<FlowDefinition>)
    requires AreRows(rows) && |rows| == |flows| && forall i :: 0 <= i < |rows| ==> FlowRow(rows[i], flows[i])
    ensures FlowsIn(Unlines(Written(rows))) ==
            Some(PutAll(seq(|flows|, i requires 0 <= i < |flows| => (flows[i].flowId, flows[i]))))
  {
    hide ParseFlow;
    hide FlowRow;
    hide Lines;
    hide Unlines;
    hide PutAll;
    var entries := seq(|flows|, i requires 0 <= i < |flows| => (flows[i].flowId, flows[i]));
    forall i | 0 <= i < |rows| ensures ParseFlow(rows[i]) == Some(entries[i]) {
      FlowRowIff(rows[i], flows[i]);
    }
    RowsAreLines(rows);
    RowsRead(rows, ParseFlow);
    assert ParseLines(Written(rows), ParseFlow).value == entries;
  }

  lemma FlowRowExists(ts: seq<string>)
    ensures ParseFlow(ts).Some? <==> IsFlowRow(ts)
  {
    hide FlowRow;
    hide ParseInt;
    hide ParseRate;
    hide DenotesRate;
    hide ParseInts;
    hide DenoteInts;
    if ParseFlow(ts).Some? {
      FlowRowIff(ts, ParseFlow(ts).value.1);
    }
    if x :| FlowRow(ts, x) {
      FlowRowIff(ts, x);
    }
  }

  /** ... and reading fails if and only if a line describes no flow. */
  lemma FlowsReadIff(rows: seq<seq<string>>)
    requires AreRows(rows)
    ensures FlowsIn(Unlines(Written(rows))).Some? <==> forall i :: 0 <= i < |rows| ==> IsFlowRow(rows[i])
  {
    hide IsFlowRow;
    hide Lines;
    hide Unlines;
    hide PutAll;
    hide ParseFlow;
    hide FlowRow;
    RowsAreLines(rows);
    RowsRead(rows, ParseFlow);
    forall i | 0 <= i < |rows| ensures ParseFlow(rows[i]).Some? <==> IsFlowRow(rows[i]) {
      FlowRowExists(rows[i]);
    }
  }

  /** A line as a solver may write it, with a short rate. */
  lemma ShortRateIsRead()
    ensures FlowsIn("1 0.5 2 6 1\n") == Some([(1, FlowDefinition(1, 500_000, [2, 6, 1]))])
  {
    hide FlowsIn;
    hide Plain;
    var ts, f := ["1", "0.5", "2", "6", "1"], FlowDefinition(1, 500_000, [2, 6, 1]);
    ExampleRow();
    FlowsRead([ts], [f]);
    assert [(1, f)] == seq(1, i requires 0 <= i < 1 => ([f][i].flowId, [f][i]));
    PutAllDistinct([(1, f)]);
    assert Written([ts]) == [Join(ts)];
    UnlinesSnoc([], Join(ts));
    assert [] + [Join(ts)] == Written([ts]);
    assert Unlines(Written([ts])) == "" + "1 0.5 2 6 1" + "\n" == "1 0.5 2 6 1\n";
  }

  lemma ExampleRow()
    ensures var ts := ["1", "0.5", "2", "6", "1"];
            && AreRows([ts]) && Join(ts) == "1 0.5 2 6 1"
            && FlowRow(ts, FlowDefinition(1, 500_000, [2, 6, 1]))
  {
    hide DenotesInt;
    hide DenotesRate;
    OneDigit('1', 1);
    OneDigit('2', 2);
    OneDigit('6', 6);
    var ts := ["1", "0.5", "2", "6", "1"];
    assert ts[2..] == ["2", "6", "1"];
    assert DenotesRate("0.5", 500_000) by {
      Half();
    }
    assert ts[1..] == ["0.5", "2", "6", "1"] && ts[1..][1..] == ["2", "6", "1"];
    assert ["2", "6", "1"][1..] == ["6", "1"] && ["6", "1"][1..] == ["1"];
    assert Join(["6", "1"]) == "6 1" && Join(["2", "6", "1"]) == "2 6 1";
  }

  lemma OneDigit(c: char, d: nat)
    requires d < 10 && c == Digit(d)
    ensures DenotesInt([c], d)
  {
    ValueOfSnoc("", d);
    assert "" + [Digit(d)] == [c];
  }

  lemma Half()
    ensures DenotesRate("0.5", 500_000)
  {
    assert "05"[..1] == "0" && "0"[..0] == "" && Value("0") == 0 && Value("05") == 5;
    assert "0" + "5" == "05" && Pow10(1) == 10;
    assert WithPoint("0.5", "0", "5", 500_000);
  }

  // ----- switches -----

  datatype SwitchDefinition = SwitchDefinition(switchId: int, residentFlows: seq<int>)

  function SwitchTokens(s: SwitchDefinition): seq<string> {
    [PrintInt(s.switchId)] + PrintInts(s.residentFlows)
  }

  function ParseSwitch(ts: seq<string>): Option<(int, SwitchDefinition)> {
    if ts == [] then None
    else
      var id, flows := ParseInt(ts[0]), ParseInts(ts[1..]);
      if id.None? || flows.None? then None else Some((id.value, SwitchDefinition(id.value, flows.value)))
  }

  function SwitchLines(d: Dict<SwitchDefinition>): (lines: seq<string>)
    ensures |lines| == |d| && forall i :: 0 <= i < |d| ==> lines[i] == Join(SwitchTokens(d[i].1))
  {
    seq(|d|, i requires 0 <= i < |d| => Join(SwitchTokens(d[i].1)))
  }

  lemma SwitchRoundTrip(s: SwitchDefinition)
    ensures ParseSwitch(Split(Join(SwitchTokens(s)), ' ')) == Some((s.switchId, s)) && '\n' !in Join(SwitchTokens(s))
  {
    hide PrintInt;
    hide PrintRate;
    hide ParseInt;
    hide ParseRate;
    hide Split;
    hide Join;
    IntRoundTrip(s.switchId);
    IntsRoundTrip(s.residentFlows);
    NumbersArePlain(s.switchId);
    SplitJoin(SwitchTokens(s));
    assert SwitchTokens(s)[1..] == PrintInts(s.residentFlows);
  }

  method SerializeSwitches(switches: Dict<SwitchDefinition>) returns (s: string)
    ensures s == Unlines(SwitchLines(switches))
  {
    s := "";
    for i := 0 to |switches|
      invariant s == Unlines(SwitchLines(switches[..i]))
    {
      var switch := switches[i].1;
      assert SwitchLines(switches[..i + 1]) == SwitchLines(switches[..i]) + [Join(SwitchTokens(switch))];
      UnlinesSnoc(SwitchLines(switches[..i]), Join(SwitchTokens(switch)));
      if |switch.residentFlows| > 0 {
        var flows := UndelimitedList(switch.residentFlows);
        JoinCons(PrintInt(switch.switchId), PrintInts(switch.residentFlows));
        s := s + (PrintInt(switch.switchId) + " " + flows.value) + "\n";
      } else {
        assert SwitchTokens(switch) == [PrintInt(switch.switchId)];
        s := s + PrintInt(switch.switchId) + "\n";
      }
    }
    assert switches[..|switches|] == switches;
  }

  function SwitchesIn(text: string): Option<Dict<SwitchDefinition>> {
    Read(ParseLines(Lines(text), ParseSwitch))
  }

  method DeserializeSwitches(text: string) returns (r: Option<Dict<SwitchDefinition>>)
    ensures r == SwitchesIn(text)
  {
    r := ReadLines(Lines(text), ParseSwitch);
  }

  /** The same for switches, with or without resident flows. */
  lemma SwitchesRoundTrip(d: Dict<SwitchDefinition>)
    requires DistinctKeys(d)
    ensures SwitchesIn(Unlines(SwitchLines(d))) == Some(d) <==> forall i :: 0 <= i < |d| ==> d[i].0 == d[i].1.switchId
  {
    var own := seq(|d|, i requires 0 <= i < |d| => (d[i].1.switchId, d[i].1));
    forall i | 0 <= i < |d|
      ensures ParseSwitch(Split(SwitchLines(d)[i], ' ')) == Some(own[i]) && '\n' !in SwitchLines(d)[i]
    {
      SwitchRoundTrip(d[i].1);
    }
    LinesRoundTrip(SwitchLines(d));
    ParseLinesOk(SwitchLines(d), ParseSwitch, own);
    ReadBack(d, own);
  }

  ghost predicate SwitchRow(ts: seq<string>, s: SwitchDefinition) {
    ts != [] && DenotesInt(ts[0], s.switchId) && DenoteInts(ts[1..], s.residentFlows)
  }

  ghost predicate IsSwitchRow(ts: seq<string>) {
    exists x :: SwitchRow(ts, x)
  }

  lemma SwitchRowIff(ts: seq<string>, s: SwitchDefinition)
    ensures ParseSwitch(ts) == Some((s.switchId, s)) <==> SwitchRow(ts, s)
  {
    hide ParseInt;
    hide ParseInts;
    hide DenotesInt;
    hide DenoteInts;
    if ts != [] {
      IntReads(ts[0], s.switchId);
      IntsRead(ts[1..], s.residentFlows);
    }
  }

  lemma SwitchesRead(rows: seq<seq<string>>, switches: seq<SwitchDefinition>)
    requires AreRows(rows) && |rows| == |switches| && forall i :: 0 <= i < |rows| ==> SwitchRow(rows[i], switches[i])
    ensures SwitchesIn(Unlines(Written(rows))) ==
            Some(PutAll(seq(|switches|, i requires 0 <= i < |switches| => (switches[i].switchId, switches[i]))))
  {
    hide ParseSwitch;
    hide SwitchRow;
    hide Lines;
    hide Unlines;
    hide PutAll;
    var entries := seq(|switches|, i requires 0 <= i < |switches| => (switches[i].switchId, switches[i]));
    forall i | 0 <= i < |rows| ensures ParseSwitch(rows[i]) == Some(entries[i]) {
      SwitchRowIff(rows[i], switches[i]);
    }
    RowsAreLines(rows);
    RowsRead(rows, ParseSwitch);
    assert ParseLines(Written(rows), ParseSwitch).value == entries;
  }

  lemma SwitchRowExists(ts: seq<string>)
    ensures ParseSwitch(ts).Some? <==> IsSwitchRow(ts)
  {
    hide SwitchRow;
    hide ParseInt;
    hide ParseRate;
    hide DenotesRate;
    hide ParseInts;
    hide DenoteInts;
    if ParseSwitch(ts).Some? {
      SwitchRowIff(ts, ParseSwitch(ts).value.1);
    }
    if x :| SwitchRow(ts, x) {
      SwitchRowIff(ts, x);
    }
  }

  lemma SwitchesReadIff(rows: seq<seq<string>>)
    requires AreRows(rows)
    ensures SwitchesIn(Unlines(Written(rows))).Some? <==> forall i :: 0 <= i < |rows| ==> IsSwitchRow(rows[i])
  {
    hide IsSwitchRow;
    hide Lines;
    hide Unlines;
    hide PutAll;
    hide ParseSwitch;
    hide SwitchRow;
    RowsAreLines(rows);
    RowsRead(rows, ParseSwitch);
    forall i | 0 <= i < |rows| ensures ParseSwitch(rows[i]).Some? <==> IsSwitchRow(rows[i]) {
      SwitchRowExists(rows[i]);
    }
  }

  // ----- solutions -----

  datatype SolutionDefinition = SolutionDefinition(flowId: int, mirrorSwitchId: int, objectiveValue: int)

  function SolutionTokens(s: SolutionDefinition): seq<string> {
    [PrintInt(s.flowId), PrintInt(s.mirrorSwitchId)]
  }

  /** Solution lines do not hold the objective value: it is read from the last line of the file. */
  function SolutionParser(objective: int): seq<string> -> Option<(int, SolutionDefinition)> {
    (ts: seq<string>) =>
      if |ts| != 2 then None
      else
        var id, switch := ParseInt(ts[0]), ParseInt(ts[1]);
        if id.None? || switch.None? then None
        else Some((id.value, SolutionDefinition(id.value, switch.value, objective)))
  }

  function SolutionLines(d: Dict<SolutionDefinition>): (lines: seq<string>)
    ensures |lines| == |d| && forall i :: 0 <= i < |d| ==> lines[i] == Join(SolutionTokens(d[i].1))
  {
    seq(|d|, i requires 0 <= i < |d| => Join(SolutionTokens(d[i].1)))
  }

  /** The file of a dictionary that is not empty. */
  function SolutionText(d: Dict<SolutionDefinition>): string
    requires d != []
  {
    Unlines(SolutionLines(d)) + PrintRate(d[|d| - 1].1.objectiveValue)
  }

  lemma SolutionRoundTrip(s: SolutionDefinition, objective: int)
    ensures SolutionParser(objective)(Split(Join(SolutionTokens(s)), ' ')) ==
            Some((s.flowId, s.(objectiveValue := objective)))
    ensures '\n' !in Join(SolutionTokens(s))
  {
    hide PrintInt;
    hide PrintRate;
    hide ParseInt;
    hide ParseRate;
    hide Split;
    hide Join;
    IntRoundTrip(s.flowId);
    IntRoundTrip(s.mirrorSwitchId);
    NumbersArePlain(s.flowId);
    NumbersArePlain(s.mirrorSwitchId);
    SplitJoin(SolutionTokens(s));
  }

  /** Fails when there is no solution, and so no objective value to print. */
  method SerializeSolutions(solutions: Dict<SolutionDefinition>) returns (r: Option<string>)
    ensures r == if solutions == [] then None else Some(SolutionText(solutions))
  {
    var s := "";
    var objective: Option<int> := None;
    for i := 0 to |solutions|
      invariant s == Unlines(SolutionLines(solutions[..i]))
      invariant objective == if i == 0 then None else Some(solutions[i - 1].1.objectiveValue)
    {
      var solution := solutions[i].1;
      objective := Some(solution.objectiveValue);
      assert SolutionLines(solutions[..i + 1]) == SolutionLines(solutions[..i]) + [Join(SolutionTokens(solution))];
      UnlinesSnoc(SolutionLines(solutions[..i]), Join(SolutionTokens(solution)));
      JoinCons(PrintInt(solution.flowId), [PrintInt(solution.mirrorSwitchId)]);
      s := s + (PrintInt(solution.flowId) + " " + PrintInt(solution.mirrorSwitchId)) + "\n";
    }
    assert solutions[..|solutions|] == solutions;
    if objective.None? {
      return None;
    }
    r := Some(s + PrintRate(objective.value));
  }

  function SolutionsIn(text: string): Option<Dict<SolutionDefinition>> {
    var lines := Lines(text);
    if lines == [] then None
    else
      var n := |lines| - 1;
      var objective := ParseRate(lines[n]);
      if objective.None? then None else Read(ParseLines(lines[..n], SolutionParser(objective.value)))
  }

  method DeserializeSolutions(text: string) returns (r: Option<Dict<SolutionDefinition>>)
    ensures r == SolutionsIn(text)
  {
    var lines := Lines(text);
    if lines == [] {
      return None;
    }
    var objective := ParseRate(lines[|lines| - 1]);
    if objective.None? {
      return None;
    }
    r := ReadLines(lines[..|lines| - 1], SolutionParser(objective.value));
  }

  /** Parsing gives back the solutions printed if and only if each is filed under its own flow identifier and
      all have the same objective value: only the last one is printed. */
  lemma SolutionsRoundTrip(d: Dict<SolutionDefinition>)
    requires DistinctKeys(d) && d != []
    ensures SolutionsIn(SolutionText(d)) == Some(d) <==>
            && (forall i :: 0 <= i < |d| ==> d[i].0 == d[i].1.flowId)
            && forall i, j :: 0 <= i < |d| && 0 <= j < |d| ==> d[i].1.objectiveValue == d[j].1.objectiveValue
  {
    var n := |d| - 1;
    var objective, lines := d[n].1.objectiveValue, SolutionLines(d);
    var read := seq(|d|, i requires 0 <= i < |d| => (d[i].1.flowId, d[i].1.(objectiveValue := objective)));
    forall i | 0 <= i < |d|
      ensures SolutionParser(objective)(Split(lines[i], ' ')) == Some(read[i]) && '\n' !in lines[i]
    {
      SolutionRoundTrip(d[i].1, objective);
    }
    NumbersArePlain(objective);
    RateRoundTrip(objective);
    LinesWithTail(lines, PrintRate(objective));
    assert (lines + [PrintRate(objective)])[..|lines|] == lines;
    ParseLinesOk(lines, SolutionParser(objective), read);
    assert SolutionsIn(SolutionText(d)) == Some(PutAll(read));
    SameObjective(d, read, objective);
  }

  lemma SameObjective(d: Dict<SolutionDefinition>, read: seq<(int, SolutionDefinition)>, objective: int)
    requires DistinctKeys(d) && |d| == |read| > 0 && objective == d[|d| - 1].1.objectiveValue
    requires forall i :: 0 <= i < |d| ==> read[i] == (d[i].1.flowId, d[i].1.(objectiveValue := objective))
    ensures PutAll(read) == d <==>
            && (forall i :: 0 <= i < |d| ==> d[i].0 == d[i].1.flowId)
            && forall i, j :: 0 <= i < |d| && 0 <= j < |d| ==> d[i].1.objectiveValue == d[j].1.objectiveValue
  {
    if (forall i :: 0 <= i < |d| ==> d[i].0 == d[i].1.flowId) &&
       forall i, j :: 0 <= i < |d| && 0 <= j < |d| ==> d[i].1.objectiveValue == d[j].1.objectiveValue {
      assert read == d;
      PutAllDistinct(d);
    }
    if PutAll(read) == d {
      forall i | 0 <= i < |d| ensures d[i].0 == d[i].1.flowId && d[i].1.objectiveValue == objective {
        PutAllFrom(read, d[i]);
        var j :| 0 <= j < |read| && read[j] == d[i];
      }
    }
  }

  ghost predicate SolutionRow(ts: seq<string>, s: SolutionDefinition) {
    |ts| == 2 && DenotesInt(ts[0], s.flowId) && DenotesInt(ts[1], s.mirrorSwitchId)
  }

  ghost predicate IsSolutionRow(ts: seq<string>) {
    exists s :: SolutionRow(ts, s)
  }

  lemma SolutionRowIff(ts: seq<string>, s: SolutionDefinition)
    ensures SolutionParser(s.objectiveValue)(ts) == Some((s.flowId, s)) <==> SolutionRow(ts, s)
  {
    hide ParseInt;
    hide DenotesInt;
    if |ts| == 2 {
      IntReads(ts[0], s.flowId);
      IntReads(ts[1], s.mirrorSwitchId);
    }
  }

  lemma RateIsOneLine(s: string, u: int)
    requires DenotesRate(s, u)
    ensures s != "" && '\n' !in s
  {
    hide Value;
    hide Pow10;
  }

  /** Any file of solution lines and a last line that denotes a rate is read as solutions with that objective value. */
  lemma SolutionsRead(rows: seq<seq<string>>, tail: string, objective: int, solutions: seq<SolutionDefinition>)
    requires AreRows(rows) && |rows| == |solutions| && DenotesRate(tail, objective)
    requires forall i :: 0 <= i < |rows| ==>
               SolutionRow(rows[i], solutions[i]) && solutions[i].objectiveValue == objective
    ensures SolutionsIn(Unlines(Written(rows)) + tail) ==
            Some(PutAll(seq(|solutions|, i requires 0 <= i < |solutions| => (solutions[i].flowId, solutions[i]))))
  {
    hide ParseRate;
    hide DenotesRate;
    hide SolutionParser;
    hide SolutionRow;
    hide Lines;
    hide Unlines;
    hide PutAll;
    var entries := seq(|solutions|, i requires 0 <= i < |solutions| => (solutions[i].flowId, solutions[i]));
    forall i | 0 <= i < |rows| ensures SolutionParser(objective)(rows[i]) == Some(entries[i]) {
      SolutionRowIff(rows[i], solutions[i]);
    }
    RateReads(tail, objective);
    RateIsOneLine(tail, objective);
    RowsAreLines(rows);
    LinesWithTail(Written(rows), tail);
    assert (Written(rows) + [tail])[..|rows|] == Written(rows);
    RowsRead(rows, SolutionParser(objective));
    assert ParseLines(Written(rows), SolutionParser(objective)).value == entries;
  }

  /** Reading them fails if and only if the last line denotes no rate or another describes no solution. */
  lemma SolutionsReadIff(rows: seq<seq<string>>, tail: string)
    requires AreRows(rows) && tail != "" && '\n' !in tail
    ensures SolutionsIn(Unlines(Written(rows)) + tail).Some? <==>
            && (exists u :: DenotesRate(tail, u))
            && forall i :: 0 <= i < |rows| ==> IsSolutionRow(rows[i])
  {
    hide IsSolutionRow;
    hide ParseRate;
    hide DenotesRate;
    hide SolutionParser;
    hide SolutionRow;
    hide Lines;
    hide Unlines;
    hide PutAll;
    RowsAreLines(rows);
    LinesWithTail(Written(rows), tail);
    assert (Written(rows) + [tail])[..|rows|] == Written(rows);
    if u :| DenotesRate(tail, u) {
      RateReads(tail, u);
    }
    if ParseRate(tail).Some? {
      var u := ParseRate(tail).value;
      RateReads(tail, u);
      RowsRead(rows, SolutionParser(u));
      forall i | 0 <= i < |rows| ensures SolutionParser(u)(rows[i]).Some? <==> IsSolutionRow(rows[i]) {
        SolutionRowExists(rows[i], u);
      }
    }
  }

  lemma SolutionRowExists(ts: seq<string>, objective: int)
    ensures SolutionParser(objective)(ts).Some? <==> IsSolutionRow(ts)
  {
    hide ParseInt;
    hide DenotesInt;
    var r := SolutionParser(objective)(ts);
    if r.Some? {
      SolutionRowIff(ts, r.value.1);
    }
    if s :| SolutionRow(ts, s) {
      var other := s.(objectiveValue := objective);
      assert SolutionRow(ts, other);
      SolutionRowIff(ts, other);
    }
  }

  // ----- switches with mirrored ports -----

  datatype SwitchPort = SwitchPort(portId: int, flowRate: int, flowList: seq<int>)
  datatype PortMirroringSwitch = PortMirroringSwitch(switchId: int, ports: seq<SwitchPort>)

  /** A port without flows is printed with an empty last token. */
  function PortTokens(id: int, p: SwitchPort): seq<string> {
    var flows := if p.flowList == [] then [""] else PrintInts(p.flowList);
    [PrintInt(id)] + ([PrintInt(p.portId)] + ([PrintRate(p.flowRate)] + flows))
  }

  function NonEmpty(ts: seq<string>): seq<string> {
    if ts == [] then [] else (if ts[0] == "" then [] else [ts[0]]) + NonEmpty(ts[1..])
  }

  function ParsePort(ts: seq<string>): Option<(int, SwitchPort)> {
    if |ts| < 3 then None
    else
      var id, port, rate, flows := ParseInt(ts[0]), ParseInt(ts[1]), ParseRate(ts[2]), ParseInts(NonEmpty(ts[3..]));
      if id.None? || port.None? || rate.None? || flows.None? then None
      else Some((id.value, SwitchPort(port.value, rate.value, flows.value)))
  }

  lemma {:induction false} NothingEmpty(ts: seq<string>)
    requires forall i :: 0 <= i < |ts| ==> ts[i] != ""
    ensures NonEmpty(ts) == ts
  {
    if ts != [] {
      NothingEmpty(ts[1..]);
    }
  }

  /** Empty tokens are left out wherever they are. */
  lemma NonEmptyOf(a: seq<string>, t: string, b: seq<string>)
    ensures NonEmpty(a + ([t] + b)) == NonEmpty(a) + ((if t == "" then [] else [t]) + NonEmpty(b))
  {
    NonEmptyConcat(a, [t] + b);
    assert ([t] + b)[1..] == b;
  }

  lemma {:induction false} NonEmptyConcat(a: seq<string>, b: seq<string>)
    ensures NonEmpty(a + b) == NonEmpty(a) + NonEmpty(b)
  {
    if a == [] {
      assert a + b == b;
    } else {
      var head := if a[0] == "" then [] else [a[0]];
      NonEmptyConcat(a[1..], b);
      assert (a + b)[1..] == a[1..] + b;
      Reassociate(head, NonEmpty(a[1..]), NonEmpty(b));
    }
  }

  lemma Reassociate(a: seq<string>, b: seq<string>, c: seq<string>)
    ensures a + (b + c) == (a + b) + c
  {
  }

  lemma PortRoundTrip(id: int, p: SwitchPort)
    ensures ParsePort(Split(Join(PortTokens(id, p)), ' ')) == Some((id, p)) && '\n' !in Join(PortTokens(id, p))
  {
    hide PrintInt;
    hide PrintRate;
    hide ParseInt;
    hide ParseRate;
    hide Split;
    hide Join;
    IntRoundTrip(id);
    IntRoundTrip(p.portId);
    RateRoundTrip(p.flowRate);
    IntsRoundTrip(p.flowList);
    NumbersArePlain(id);
    NumbersArePlain(p.portId);
    NumbersArePlain(p.flowRate);
    SplitJoin(PortTokens(id, p));
    var flows := PortTokens(id, p)[3..];
    if p.flowList == [] {
      assert flows == [""] && NonEmpty(flows[1..]) == [];
      assert NonEmpty(flows) == PrintInts(p.flowList);
    } else {
      assert flows == PrintInts(p.flowList);
      NothingEmpty(flows);
    }
  }

  /** Ports with their switch, in the order of the lines. */
  function Labelled(id: int, ports: seq<SwitchPort>): (entries: seq<(int, SwitchPort)>)
    ensures |entries| == |ports| && forall i :: 0 <= i < |ports| ==> entries[i] == (id, ports[i])
  {
    seq(|ports|, i requires 0 <= i < |ports| => (id, ports[i]))
  }

  function PortEntries(d: Dict<PortMirroringSwitch>): seq<(int, SwitchPort)> {
    if d == [] then []
    else
      var n := |d| - 1;
      PortEntries(d[..n]) + Labelled(d[n].1.switchId, d[n].1.ports)
  }

  function PortLines(entries: seq<(int, SwitchPort)>): (lines: seq<string>)
    ensures |lines| == |entries|
    ensures forall i :: 0 <= i < |entries| ==> lines[i] == Join(PortTokens(entries[i].0, entries[i].1))
  {
    seq(|entries|, i requires 0 <= i < |entries| => Join(PortTokens(entries[i].0, entries[i].1)))
  }

  function PortText(d: Dict<PortMirroringSwitch>): string {
    Unlines(PortLines(PortEntries(d)))
  }

  /** All flows with a space between them; nothing for the empty list. */
  method FlowListToStr(flows: seq<int>) returns (s: string)
    ensures s == Join(if flows == [] then [""] else PrintInts(flows))
  {
    if |flows| > 0 {
      var r := UndelimitedList(flows);
      return r.value;
    }
    s := "";
  }

  method SerializePorts(switches: Dict<PortMirroringSwitch>) returns (s: string)
    ensures s == PortText(switches)
  {
    hide Join;
    hide Unlines;
    s := "";
    UnlinesNone(PortLines(PortEntries(switches[..0])));
    for i := 0 to |switches|
      invariant s == PortText(switches[..i])
    {
      s := PrintSwitch(switches[i].1, s, PortEntries(switches[..i]));
      assert switches[..i + 1][..i] == switches[..i];
    }
    assert switches[..|switches|] == switches;
  }

  method PrintSwitch(switch: PortMirroringSwitch, s: string, ghost before: seq<(int, SwitchPort)>) returns (s': string)
    requires s == Unlines(PortLines(before))
    ensures s' == Unlines(PortLines(before + Labelled(switch.switchId, switch.ports)))
  {
    hide Unlines;
    hide PortLines;
    s' := s;
    assert before + Labelled(switch.switchId, switch.ports[..0]) == before;
    for j := 0 to |switch.ports|
      invariant s' == Unlines(PortLines(before + Labelled(switch.switchId, switch.ports[..j])))
    {
      s' := PrintPort(switch.switchId, switch.ports[j], s', before + Labelled(switch.switchId, switch.ports[..j]));
      LabelledGrows(before, switch.switchId, switch.ports, j);
    }
    assert switch.ports[..|switch.ports|] == switch.ports;
  }

  lemma LabelledGrows(before: seq<(int, SwitchPort)>, id: int, ports: seq<SwitchPort>, j: nat)
    requires j < |ports|
    ensures before + Labelled(id, ports[..j + 1]) == before + Labelled(id, ports[..j]) + [(id, ports[j])]
  {
  }

  method PrintPort(id: int, p: SwitchPort, s: string, ghost entries: seq<(int, SwitchPort)>) returns (s': string)
    requires s == Unlines(PortLines(entries))
    ensures s' == Unlines(PortLines(entries + [(id, p)]))
  {
    hide Join;
    var flows := FlowListToStr(p.flowList);
    ghost var last := if p.flowList == [] then [""] else PrintInts(p.flowList);
    JoinCons(PrintRate(p.flowRate), last);
    JoinCons(PrintInt(p.portId), [PrintRate(p.flowRate)] + last);
    JoinCons(PrintInt(id), [PrintInt(p.portId)] + ([PrintRate(p.flowRate)] + last));
    assert PortLines(entries + [(id, p)]) == PortLines(entries) + [Join(PortTokens(id, p))];
    UnlinesSnoc(PortLines(entries), Join(PortTokens(id, p)));
    s' := s + (PrintInt(id) + " " + (PrintInt(p.portId) + " " + (PrintRate(p.flowRate) + " " + flows))) + "\n";
  }

  /** d[k].append(p), with an empty list by default. */
  function Append(d: Dict<seq<SwitchPort>>, k: int, p: SwitchPort): Dict<seq<SwitchPort>> {
    if d == [] then [(k, [p])]
    else if d[0].0 == k then [(k, d[0].1 + [p])] + d[1..]
    else [d[0]] + Append(d[1..], k, p)
  }

  /** Ports by switch. */
  function Group(entries: seq<(int, SwitchPort)>): Dict<seq<SwitchPort>> {
    if entries == [] then []
    else
      var n := |entries| - 1;
      Append(Group(entries[..n]), entries[n].0, entries[n].1)
  }

  function Switches(g: Dict<seq<SwitchPort>>): (d: Dict<PortMirroringSwitch>)
    ensures |d| == |g| && forall i :: 0 <= i < |g| ==> d[i] == (g[i].0, PortMirroringSwitch(g[i].0, g[i].1))
  {
    seq(|g|, i requires 0 <= i < |g| => (g[i].0, PortMirroringSwitch(g[i].0, g[i].1)))
  }

  function PortsIn(text: string): Option<Dict<PortMirroringSwitch>> {
    var entries := ParseLines(Lines(text), ParsePort);
    if entries.None? then None else Some(Switches(Group(entries.value)))
  }

  lemma PortsStep(lines: seq<string>, i: nat)
    requires i < |lines| && ParseLines(lines[..i], ParsePort).Some?
    ensures var before, entry := ParseLines(lines[..i], ParsePort).value, ParsePort(Split(lines[i], ' '));
            var after := ParseLines(lines[..i + 1], ParsePort);
            && (after.Some? <==> entry.Some?)
            && (after.Some? ==> Group(after.value) == Append(Group(before), entry.value.0, entry.value.1))
  {
    hide ParsePort;
    hide Split;
    hide Append;
    assert lines[..i + 1][..i] == lines[..i];
    var before, entry := ParseLines(lines[..i], ParsePort).value, ParsePort(Split(lines[i], ' '));
    if entry.Some? {
      assert (before + [entry.value])[..|before|] == before;
    }
  }

  method DeserializePorts(text: string) returns (r: Option<Dict<PortMirroringSwitch>>)
    ensures r == PortsIn(text)
  {
    hide ParsePort;
    hide Split;
    hide Lines;
    hide Append;
    var lines := Lines(text);
    var ports: Dict<seq<SwitchPort>> := [];
    for i := 0 to |lines|
      invariant ParseLines(lines[..i], ParsePort).Some? && ports == Group(ParseLines(lines[..i], ParsePort).value)
    {
      PortsStep(lines, i);
      var entry := ParsePort(Split(lines[i], ' '));
      if entry.None? {
        FailureStays(lines, ParsePort, i + 1);
        return None;
      }
      ports := Append(ports, entry.value.0, entry.value.1);
    }
    assert lines[..|lines|] == lines;
    r := Some(Switches(ports));
  }

  lemma {:induction false} AppendNew(d: Dict<seq<SwitchPort>>, k: int, p: SwitchPort)
    requires forall i :: 0 <= i < |d| ==> d[i].0 != k
    ensures Append(d, k, p) == d + [(k, [p])]
  {
    if d != [] {
      AppendNew(d[1..], k, p);
    }
  }

  lemma {:induction false} AppendLastSwitch(d: Dict<seq<SwitchPort>>, k: int, ps: seq<SwitchPort>, p: SwitchPort)
    requires forall i :: 0 <= i < |d| ==> d[i].0 != k
    ensures Append(d + [(k, ps)], k, p) == d + [(k, ps + [p])]
  {
    if d != [] {
      AppendLastSwitch(d[1..], k, ps, p);
      assert (d + [(k, ps)])[1..] == d[1..] + [(k, ps)];
    }
  }

  /** The lines of one switch make one group, in port order. */
  lemma {:induction false} GroupSwitch(entries: seq<(int, SwitchPort)>, k: int, ports: seq<SwitchPort>)
    requires ports != [] && forall i :: 0 <= i < |Group(entries)| ==> Group(entries)[i].0 != k
    ensures Group(entries + Labelled(k, ports)) == Group(entries) + [(k, ports)]
  {
    var n := |ports| - 1;
    var init, all := Labelled(k, ports[..n]), entries + Labelled(k, ports);
    assert all[..|all| - 1] == entries + init && all[|all| - 1] == (k, ports[n]);
    if n == 0 {
      assert entries + init == entries;
      AppendNew(Group(entries), k, ports[0]);
      assert ports == [ports[0]];
    } else {
      GroupSwitch(entries, k, ports[..n]);
      AppendLastSwitch(Group(entries), k, ports[..n], ports[n]);
      assert ports == ports[..n] + [ports[n]];
    }
  }

  lemma {:induction false} GroupAll(d: Dict<PortMirroringSwitch>)
    requires DistinctKeys(d) && forall i :: 0 <= i < |d| ==> d[i].0 == d[i].1.switchId && d[i].1.ports != []
    ensures Switches(Group(PortEntries(d))) == d
  {
    if d != [] {
      var n := |d| - 1;
      var g := Group(PortEntries(d[..n]));
      GroupAll(d[..n]);
      forall i | 0 <= i < |g| ensures g[i].0 != d[n].0 {
        assert Switches(g)[i] == d[..n][i];
      }
      GroupSwitch(PortEntries(d[..n]), d[n].0, d[n].1.ports);
      assert Switches(g + [(d[n].0, d[n].1.ports)]) == Switches(g) + [d[n]];
    }
  }

  lemma {:induction false} AppendNotEmpty(d: Dict<seq<SwitchPort>>, k: int, p: SwitchPort)
    requires forall i :: 0 <= i < |d| ==> d[i].1 != []
    ensures forall i :: 0 <= i < |Append(d, k, p)| ==> Append(d, k, p)[i].1 != []
  {
    if d != [] && d[0].0 != k {
      AppendNotEmpty(d[1..], k, p);
    }
  }

  lemma {:induction false} GroupsNotEmpty(entries: seq<(int, SwitchPort)>)
    ensures forall i :: 0 <= i < |Group(entries)| ==> Group(entries)[i].1 != []
  {
    if entries != [] {
      var n := |entries| - 1;
      GroupsNotEmpty(entries[..n]);
      AppendNotEmpty(Group(entries[..n]), entries[n].0, entries[n].1);
    }
  }

  /** Parsing gives back the switches printed, ports in the same order, if and only if each is filed under its
      own identifier and has a port: a switch without ports leaves no line. */
  lemma PortsRoundTrip(d: Dict<PortMirroringSwitch>)
    requires DistinctKeys(d)
    ensures PortsIn(PortText(d)) == Some(d) <==>
              forall i :: 0 <= i < |d| ==> d[i].0 == d[i].1.switchId && d[i].1.ports != []
  {
    var entries := PortEntries(d);
    var lines := PortLines(entries);
    forall i | 0 <= i < |entries| ensures ParsePort(Split(lines[i], ' ')) == Some(entries[i]) && '\n' !in lines[i] {
      PortRoundTrip(entries[i].0, entries[i].1);
    }
    LinesRoundTrip(lines);
    ParseLinesOk(lines, ParsePort, entries);
    if forall i :: 0 <= i < |d| ==> d[i].0 == d[i].1.switchId && d[i].1.ports != [] {
      GroupAll(d);
    }
    GroupsNotEmpty(entries);
  }

  /** A line of a port file: switch, port, rate and flows; empty tokens among the flows do not matter. */
  ghost predicate PortRow(ts: seq<string>, id: int, p: SwitchPort) {
    && |ts| >= 3 && DenotesInt(ts[0], id) && DenotesInt(ts[1], p.portId) && DenotesRate(ts[2], p.flowRate)
    && DenoteInts(NonEmpty(ts[3..]), p.flowList)
  }

  ghost predicate IsPortRow(ts: seq<string>) {
    exists id, p :: PortRow(ts, id, p)
  }

  lemma PortRowIff(ts: seq<string>, id: int, p: SwitchPort)
    ensures ParsePort(ts) == Some((id, p)) <==> PortRow(ts, id, p)
  {
    hide ParseInt;
    hide ParseRate;
    hide ParseInts;
    hide DenotesInt;
    hide DenotesRate;
    hide DenoteInts;
    hide NonEmpty;
    if |ts| >= 3 {
      IntReads(ts[0], id);
      IntReads(ts[1], p.portId);
      RateReads(ts[2], p.flowRate);
      IntsRead(NonEmpty(ts[3..]), p.flowList);
    }
  }

  /** Any file of such lines is read as the ports they describe, by switch. */
  lemma PortsRead(rows: seq<seq<string>>, entries: seq<(int, SwitchPort)>)
    requires AreRows(rows) && |rows| == |entries|
    requires forall i :: 0 <= i < |rows| ==> PortRow(rows[i], entries[i].0, entries[i].1)
    ensures PortsIn(Unlines(Written(rows))) == Some(Switches(Group(entries)))
  {
    hide ParsePort;
    hide PortRow;
    hide Lines;
    hide Unlines;
    hide Group;
    forall i | 0 <= i < |rows| ensures ParsePort(rows[i]) == Some(entries[i]) {
      PortRowIff(rows[i], entries[i].0, entries[i].1);
    }
    RowsAreLines(rows);
    RowsRead(rows, ParsePort);
    assert ParseLines(Written(rows), ParsePort).value == entries;
  }

  lemma PortRowExists(ts: seq<string>)
    ensures ParsePort(ts).Some? <==> IsPortRow(ts)
  {
    hide PortRow;
    hide ParseInt;
    hide ParseRate;
    hide ParseInts;
    hide NonEmpty;
    if ParsePort(ts).Some? {
      PortRowIff(ts, ParsePort(ts).value.0, ParsePort(ts).value.1);
    }
    if id, p :| PortRow(ts, id, p) {
      PortRowIff(ts, id, p);
    }
  }

  lemma PortsReadIff(rows: seq<seq<string>>)
    requires AreRows(rows)
    ensures PortsIn(Unlines(Written(rows))).Some? <==> forall i :: 0 <= i < |rows| ==> IsPortRow(rows[i])
  {
    hide IsPortRow;
    hide Lines;
    hide Unlines;
    hide Group;
    hide ParsePort;
    hide PortRow;
    RowsAreLines(rows);
    RowsRead(rows, ParsePort);
    forall i | 0 <= i < |rows| ensures ParsePort(rows[i]).Some? <==> IsPortRow(rows[i]) {
      PortRowExists(rows[i]);
    }
  }

  /** The ports on all lines of switch k, in the order of the lines. */
  ghost function PortsOf(entries: seq<(int, SwitchPort)>, k: int): seq<SwitchPort> {
    if entries == [] then []
    else
      var n := |entries| - 1;
      PortsOf(entries[..n], k) + if entries[n].0 == k then [entries[n].1] else []
  }

  /** Each switch that has a line is there once, with the ports on its lines. */
  ghost predicate GroupedBy(g: Dict<seq<SwitchPort>>, entries: seq<(int, SwitchPort)>) {
    && DistinctKeys(g)
    && (forall i :: 0 <= i < |g| ==> g[i].1 == PortsOf(entries, g[i].0))
    && (forall k :: (exists i :: 0 <= i < |g| && g[i].0 == k) <==> PortsOf(entries, k) != [])
  }

  lemma {:induction false} AppendAt(d: Dict<seq<SwitchPort>>, k: int, p: SwitchPort, i: nat)
    requires DistinctKeys(d) && i < |d| && d[i].0 == k
    ensures Append(d, k, p) == d[i := (k, d[i].1 + [p])]
  {
    if i > 0 {
      AppendAt(d[1..], k, p, i - 1);
      assert d[0].0 != d[i].0;
    }
  }

  /** Every switch gets the ports on its own lines, wherever they are in the file. */
  lemma {:induction false} GroupIsByPorts(entries: seq<(int, SwitchPort)>)
    ensures GroupedBy(Group(entries), entries)
  {
    if entries != [] {
      var n := |entries| - 1;
      var g, k, p := Group(entries[..n]), entries[n].0, entries[n].1;
      GroupIsByPorts(entries[..n]);
      if i :| 0 <= i < |g| && g[i].0 == k {
        AppendAt(g, k, p, i);
      } else {
        AppendNew(g, k, p);
      }
      GroupStep(g, entries, Append(g, k, p));
    }
  }

  lemma GroupStep(g: Dict<seq<SwitchPort>>, entries: seq<(int, SwitchPort)>, g2: Dict<seq<SwitchPort>>)
    requires entries != []
    requires var n := |entries| - 1;
             var k, p := entries[n].0, entries[n].1;
             && GroupedBy(g, entries[..n])
             && ((exists i :: 0 <= i < |g| && g[i].0 == k && g2 == g[i := (k, g[i].1 + [p])])
                 || ((forall i :: 0 <= i < |g| ==> g[i].0 != k) && g2 == g + [(k, [p])]))
    ensures GroupedBy(g2, entries)
  {
    var n := |entries| - 1;
    var k, p := entries[n].0, entries[n].1;
    if i :| 0 <= i < |g| && g[i].0 == k && g2 == g[i := (k, g[i].1 + [p])] {
      assert forall j :: 0 <= j < |g| ==> g2[j].0 == g[j].0;
      assert g2[i].1 == PortsOf(entries, k);
    } else {
      assert PortsOf(entries[..n], k) == [];
      assert g2[|g|] == (k, [p]);
      assert forall j :: 0 <= j < |g| ==> g2[j] == g[j];
    }
  }

  // ----- flows with mirrored ports -----

  /** Hops are pairs of a node and the port to leave it by. */
  datatype PortMirroringFlow = PortMirroringFlow(flowId: int, trafficRate: int, hops: seq<(int, int)>)

  function HopTokens(hops: seq<(int, int)>): seq<string> {
    if hops == [] then [] else [PrintInt(hops[0].0), PrintInt(hops[0].1)] + HopTokens(hops[1..])
  }

  /** The printer writes node and port of every hop, the last one included. */
  function PortFlowTokens(f: PortMirroringFlow): seq<string> {
    [PrintInt(f.flowId)] + ([PrintRate(f.trafficRate)] + if f.hops == [] then [""] else HopTokens(f.hops))
  }

  /** The pairs of consecutive tokens; an odd one at the end is left over. */
  function ParsePairs(ts: seq<string>): Option<seq<(int, int)>> {
    if |ts| < 2 then Some([])
    else
      var node, port, rest := ParseInt(ts[0]), ParseInt(ts[1]), ParsePairs(ts[2..]);
      if node.None? || port.None? || rest.None? then None else Some([(node.value, port.value)] + rest.value)
  }

  /** The parser takes the last token for a node without a port. */
  function ParsePortFlow(ts: seq<string>): Option<(int, PortMirroringFlow)> {
    if |ts| < 3 then None
    else
      var id, rate, hops, last := ParseInt(ts[0]), ParseRate(ts[1]), ParsePairs(ts[2..]), ParseInt(ts[|ts| - 1]);
      if id.None? || rate.None? || hops.None? || last.None? then None
      else Some((id.value, PortMirroringFlow(id.value, rate.value, hops.value + [(last.value, 0)])))
  }

  function PortFlowLines(d: Dict<PortMirroringFlow>): (lines: seq<string>)
    ensures |lines| == |d| && forall i :: 0 <= i < |d| ==> lines[i] == Join(PortFlowTokens(d[i].1))
  {
    seq(|d|, i requires 0 <= i < |d| => Join(PortFlowTokens(d[i].1)))
  }

  function PortFlowsIn(text: string): Option<Dict<PortMirroringFlow>> {
    Read(ParseLines(Lines(text), ParsePortFlow))
  }

  /** What a printed flow is read as: one hop longer, by a node named like the last port. */
  function Misread(f: PortMirroringFlow): PortMirroringFlow
    requires f.hops != []
  {
    f.(hops := f.hops + [(f.hops[|f.hops| - 1].1, 0)])
  }

  lemma {:induction false} HopsRoundTrip(hops: seq<(int, int)>)
    ensures ParsePairs(HopTokens(hops)) == Some(hops) && |HopTokens(hops)| == 2 * |hops|
    ensures forall i :: 0 <= i < |HopTokens(hops)| ==> Plain(HopTokens(hops)[i])
    ensures hops != [] ==> HopTokens(hops)[2 * |hops| - 1] == PrintInt(hops[|hops| - 1].1)
  {
    hide PrintInt;
    hide ParseInt;
    hide Plain;
    if hops != [] {
      IntRoundTrip(hops[0].0);
      IntRoundTrip(hops[0].1);
      NumbersArePlain(hops[0].0);
      NumbersArePlain(hops[0].1);
      HopsRoundTrip(hops[1..]);
      assert HopTokens(hops)[2..] == HopTokens(hops[1..]);
      assert hops == [hops[0]] + hops[1..];
      assert forall i :: 2 <= i < |HopTokens(hops)| ==> HopTokens(hops)[i] == HopTokens(hops[1..])[i - 2];
    }
  }

  lemma PortFlowMisread(f: PortMirroringFlow)
    ensures ParsePortFlow(Split(Join(PortFlowTokens(f)), ' ')) ==
            if f.hops == [] then None else Some((f.flowId, Misread(f)))
    ensures '\n' !in Join(PortFlowTokens(f))
  {
    hide PrintInt;
    hide PrintRate;
    hide ParseRate;
    hide ParsePairs;
    hide Split;
    hide Join;
    IntRoundTrip(f.flowId);
    RateRoundTrip(f.trafficRate);
    HopsRoundTrip(f.hops);
    NumbersArePlain(f.flowId);
    NumbersArePlain(f.trafficRate);
    SplitJoin(PortFlowTokens(f));
    var ts := PortFlowTokens(f);
    if f.hops == [] {
      assert ts[2] == "";
    } else {
      IntRoundTrip(f.hops[|f.hops| - 1].1);
      assert ts[2..] == HopTokens(f.hops);
    }
  }

  ghost predicate DenotePairs(ts: seq<string>, hops: seq<(int, int)>) {
    && |hops| == |ts| / 2
    && forall i :: 0 <= i < |hops| ==> DenotesInt(ts[2 * i], hops[i].0) && DenotesInt(ts[2 * i + 1], hops[i].1)
  }

  lemma {:induction false} PairsRead(ts: seq<string>, hops: seq<(int, int)>)
    ensures ParsePairs(ts) == Some(hops) <==> DenotePairs(ts, hops)
  {
    hide ParseInt;
    hide DenotesInt;
    if |ts| >= 2 && hops != [] {
      IntReads(ts[0], hops[0].0);
      IntReads(ts[1], hops[0].1);
      PairsRead(ts[2..], hops[1..]);
      assert hops == [hops[0]] + hops[1..];
      PairsShift(ts, hops);
    }
  }

  lemma PairsShift(ts: seq<string>, hops: seq<(int, int)>)
    requires |ts| >= 2 && hops != []
    ensures DenotePairs(ts, hops) <==>
            DenotesInt(ts[0], hops[0].0) && DenotesInt(ts[1], hops[0].1) && DenotePairs(ts[2..], hops[1..])
  {
    hide DenotesInt;
    var us, rest := ts[2..], hops[1..];
    assert forall i :: 0 <= i < |rest| && 2 * i + 1 < |us| ==>
        rest[i] == hops[i + 1] && us[2 * i] == ts[2 * (i + 1)] && us[2 * i + 1] == ts[2 * (i + 1) + 1];
    if DenotePairs(us, rest) && DenotesInt(ts[0], hops[0].0) && DenotesInt(ts[1], hops[0].1) {
      forall i | 0 <= i < |hops| ensures DenotesInt(ts[2 * i], hops[i].0) && DenotesInt(ts[2 * i + 1], hops[i].1) {
        if i > 0 {
          assert DenotesInt(us[2 * (i - 1)], rest[i - 1].0) && DenotesInt(us[2 * (i - 1) + 1], rest[i - 1].1);
        }
      }
    }
  }

  /** A line of a file of flows with ports: identifier, rate, pairs of node and port, and a last node. */
  ghost predicate PortFlowRow(ts: seq<string>, f: PortMirroringFlow) {
    && |ts| >= 3 && DenotesInt(ts[0], f.flowId) && DenotesRate(ts[1], f.trafficRate)
    && f.hops != [] && f.hops[|f.hops| - 1].1 == 0
    && DenotePairs(ts[2..], f.hops[..|f.hops| - 1]) && DenotesInt(ts[|ts| - 1], f.hops[|f.hops| - 1].0)
  }

  lemma PortFlowRowIff(ts: seq<string>, f: PortMirroringFlow)
    ensures ParsePortFlow(ts) == Some((f.flowId, f)) <==> PortFlowRow(ts, f)
  {
    hide ParseInt;
    hide ParseRate;
    hide ParsePairs;
    hide DenotesInt;
    hide DenotesRate;
    hide DenotePairs;
    if |ts| >= 3 && f.hops != [] {
      var n := |f.hops| - 1;
      IntReads(ts[0], f.flowId);
      RateReads(ts[1], f.trafficRate);
      PairsRead(ts[2..], f.hops[..n]);
      IntReads(ts[|ts| - 1], f.hops[n].0);
      assert f.hops == f.hops[..n] + [f.hops[n]];
    }
  }

  /** Any file of such lines is read as the flows they describe. */
  lemma PortFlowsRead(rows: seq<seq<string>>, flows: seq<PortMirroringFlow>)
    requires AreRows(rows) && |rows| == |flows| && forall i :: 0 <= i < |rows| ==> PortFlowRow(rows[i], flows[i])
    ensures PortFlowsIn(Unlines(Written(rows))) ==
            Some(PutAll(seq(|flows|, i requires 0 <= i < |flows| => (flows[i].flowId, flows[i]))))
  {
    hide ParsePortFlow;
    hide PortFlowRow;
    hide Lines;
    hide Unlines;
    hide PutAll;
    var entries := seq(|flows|, i requires 0 <= i < |flows| => (flows[i].flowId, flows[i]));
    forall i | 0 <= i < |rows| ensures ParsePortFlow(rows[i]) == Some(entries[i]) {
      PortFlowRowIff(rows[i], flows[i]);
    }
    RowsAreLines(rows);
    RowsRead(rows, ParsePortFlow);
    assert ParseLines(Written(rows), ParsePortFlow).value == entries;
  }

  lemma {:induction false} ParseLinesFails<V>(lines: seq<string>, parse: seq<string> -> Option<(int, V)>, i: nat)
    requires i < |lines| && parse(Split(lines[i], ' ')).None?
    ensures ParseLines(lines, parse).None?
  {
    if i < |lines| - 1 {
      ParseLinesFails(lines[..|lines| - 1], parse, i);
    }
  }

  predicate AllHaveHops(d: Dict<PortMirroringFlow>) {
    forall i :: 0 <= i < |d| ==> d[i].1.hops != []
  }

  function Misreadings(d: Dict<PortMirroringFlow>): (read: seq<(int, PortMirroringFlow)>)
    requires AllHaveHops(d)
    ensures |read| == |d| && forall i :: 0 <= i < |d| ==> read[i] == (d[i].1.flowId, Misread(d[i].1))
  {
    seq(|d|, i requires 0 <= i < |d| => (d[i].1.flowId, Misread(d[i].1)))
  }

  /** What a printed file of flows with ports is read as: nothing if some flow has no hops, otherwise every flow
      one hop longer. */
  lemma PortFlowsReadBack(d: Dict<PortMirroringFlow>)
    ensures PortFlowsIn(Unlines(PortFlowLines(d))) == if AllHaveHops(d) then Some(PutAll(Misreadings(d))) else None
  {
    hide Split;
    hide Unlines;
    hide ParsePortFlow;
    hide Join;
    hide Misread;
    var lines := PortFlowLines(d);
    forall i | 0 <= i < |d|
      ensures ParsePortFlow(Split(lines[i], ' ')) ==
              if d[i].1.hops == [] then None else Some((d[i].1.flowId, Misread(d[i].1)))
      ensures '\n' !in lines[i]
    {
      PortFlowMisread(d[i].1);
    }
    LinesRoundTrip(lines);
    if i :| 0 <= i < |d| && d[i].1.hops == [] {
      ParseLinesFails(lines, ParsePortFlow, i);
    } else {
      ParseLinesOk(lines, ParsePortFlow, Misreadings(d));
    }
  }

  /** So flows with ports never survive the trip: the flow with the fewest hops is lost.  Only the empty
      dictionary is read back as it was printed. */
  lemma PortFlowsDoNotRoundTrip(d: Dict<PortMirroringFlow>)
    ensures PortFlowsIn(Unlines(PortFlowLines(d))) == Some(d) <==> d == []
  {
    hide PortFlowsIn;
    hide Unlines;
    PortFlowsReadBack(d);
    if AllHaveHops(d) && d != [] {
      var i := FewestHops(d);
      var read := Misreadings(d);
      forall j | 0 <= j < |d| ensures read[j] != d[i] {
        assert |read[j].1.hops| == |d[j].1.hops| + 1;
      }
      if d[i] in PutAll(read) {
        PutAllFrom(read, d[i]);
        assert false;
      }
      assert d[i] in d;
    }
  }

  lemma {:induction false} FewestHops(d: Dict<PortMirroringFlow>) returns (i: nat)
    requires d != []
    ensures i < |d| && forall j :: 0 <= j < |d| ==> |d[i].1.hops| <= |d[j].1.hops|
  {
    i := 0;
    if |d| > 1 {
      var k := FewestHops(d[1..]);
      assert forall j :: 1 <= j < |d| ==> d[j] == d[1..][j - 1];
      i := if |d[k + 1].1.hops| < |d[0].1.hops| then k + 1 else 0;
    }
  }
}
