/** The bounded history of system metrics (packages/core/src/index.ts). */
module MetricsHistory {
  import opened Wrappers

  datatype Point = Point(rx: int, tx: int)

  /** `rest` stands for the fields that each sample replaces. */
  datatype Metrics = Metrics(
    networkSamples: seq<Point>,
    byInterface: Option<map<string, seq<Point>>>,
    diskRows: Option<seq<string>>,
    fileSystemRows: Option<seq<string>>,
    rest: int)

  /** `slice(start)`: a negative start counts from the end. */
  function Slice<T>(xs: seq<T>, start: int): seq<T> {
    if start >= 0 then if start <= |xs| then xs[start..] else []
    else if -start <= |xs| then xs[|xs| + start..] else xs
  }

  function LastPoint(samples: seq<Point>): Point {
    if samples == [] then Point(0, 0) else samples[|samples| - 1]
  }

  function Interfaces(m: Metrics): map<string, seq<Point>> {
    if m.byInterface.Some? then m.byInterface.value else map[]
  }

  function PointsOf(m: map<string, seq<Point>>, name: string): seq<Point> {
    if name in m then m[name] else []
  }

  function Appended(history: seq<Point>, samples: seq<Point>, limit: int): seq<Point> {
    Slice(history + [LastPoint(samples)], -limit)
  }

  /** Empty rows do not replace rows that were there. */
  function Rows(previous: Option<seq<string>>, next: Option<seq<string>>): seq<string> {
    if next.Some? && next.value != [] then next.value else if previous.Some? then previous.value else []
  }

  const NOTHING := Metrics([], None, None, None, 0)

  function Merge(previous: Option<Metrics>, next: Metrics, limit: int): Metrics {
    var before := if previous.Some? then previous.value else NOTHING;
    Metrics(
      Appended(before.networkSamples, next.networkSamples, limit),
      Some(map name | name in Interfaces(next) ::
             Appended(PointsOf(Interfaces(before), name), Interfaces(next)[name], limit)),
      Some(Rows(before.diskRows, next.diskRows)),
      Some(Rows(before.fileSystemRows, next.fileSystemRows)),
      next.rest)
  }

  /** The metrics shown after a stream of samples, starting from none. */
  function History(stream: seq<Metrics>, limit: int): Option<Metrics> {
    if stream == [] then None
    else Some(Merge(History(stream[..|stream| - 1], limit), stream[|stream| - 1], limit))
  }

  // ----- what the history should be

  /** The point of each sample. */
  function Points(stream: seq<Metrics>): seq<Point> {
    if stream == [] then []
    else Points(stream[..|stream| - 1]) + [LastPoint(stream[|stream| - 1].networkSamples)]
  }

  /** The points of an interface since a sample last did not report it. */
  function PointsSince(stream: seq<Metrics>, name: string): seq<Point> {
    if stream == [] || name !in Interfaces(stream[|stream| - 1]) then []
    else
      PointsSince(stream[..|stream| - 1], name) + [LastPoint(Interfaces(stream[|stream| - 1])[name])]
  }

  /** The rows of the latest sample that has any. */
  function LatestRows(stream: seq<Metrics>, rowsOf: Metrics -> Option<seq<string>>): seq<string> {
    if stream == [] then []
    else
      var rows := rowsOf(stream[|stream| - 1]);
      if rows.Some? && rows.value != [] then rows.value else LatestRows(stream[..|stream| - 1], rowsOf)
  }

  function LastOf<T>(xs: seq<T>, n: nat): seq<T> {
    if n <= |xs| then xs[|xs| - n..] else xs
  }

  lemma LastOfPush<T>(xs: seq<T>, x: T, n: int)
    requires n > 0
    ensures Slice(LastOf(xs, n) + [x], -n) == LastOf(xs + [x], n)
  {
  }

  /** With a positive limit the history is exactly the last points of the stream. */
  lemma {:induction false} HistoryIsTheLastPoints(stream: seq<Metrics>, limit: int)
    requires stream != [] && limit > 0
    ensures History(stream, limit).value.networkSamples == LastOf(Points(stream), limit)
  {
    var front, last := stream[..|stream| - 1], stream[|stream| - 1];
    var point := LastPoint(last.networkSamples);
    if front == [] {
      assert LastOf(Points(front), limit) == [];
    } else {
      HistoryIsTheLastPoints(front, limit);
    }
    LastOfPush(Points(front), point, limit);
  }

  /** With limit zero the slice starts at the beginning: everything is kept. */
  lemma {:induction false} ZeroKeepsEverything(stream: seq<Metrics>)
    requires stream != []
    ensures History(stream, 0).value.networkSamples == Points(stream)
  {
    var front := stream[..|stream| - 1];
    if front != [] {
      ZeroKeepsEverything(front);
    }
    assert forall xs: seq<Point> :: Slice(xs, 0) == xs;
  }

  lemma {:induction false} PointsAreAsMany(stream: seq<Metrics>)
    ensures |Points(stream)| == |stream|
  {
    if stream != [] {
      PointsAreAsMany(stream[..|stream| - 1]);
    }
  }

  /** So the limit holds exactly when it is positive. */
  lemma LimitHoldsIff(stream: seq<Metrics>, limit: nat)
    requires stream != []
    ensures History(stream, limit).value.networkSamples == LastOf(Points(stream), limit) <==> limit > 0
  {
    if limit > 0 {
      HistoryIsTheLastPoints(stream, limit);
    } else {
      ZeroKeepsEverything(stream);
      PointsAreAsMany(stream);
    }
  }

  /** The history of an interface is its last points since it was last absent; an
      interface the latest sample does not report has none. */
  lemma {:induction false} InterfaceHistoryIsTheLastPoints(stream: seq<Metrics>, limit: int, name: string)
    requires stream != [] && limit > 0
    ensures var shown := Interfaces(History(stream, limit).value);
            && (name in shown <==> name in Interfaces(stream[|stream| - 1]))
            && PointsOf(shown, name) == LastOf(PointsSince(stream, name), limit)
  {
    var front, last := stream[..|stream| - 1], stream[|stream| - 1];
    if front == [] {
      assert LastOf(PointsSince(front, name), limit) == [];
    } else {
      InterfaceHistoryIsTheLastPoints(front, limit, name);
    }
    if name in Interfaces(last) {
      LastOfPush(PointsSince(front, name), LastPoint(Interfaces(last)[name]), limit);
    }
  }

  /** Disk and file system rows are those of the latest sample that had any. */
  lemma {:induction false} RowsAreTheLatest(stream: seq<Metrics>, limit: int)
    requires stream != []
    ensures History(stream, limit).value.diskRows == Some(LatestRows(stream, (m: Metrics) => m.diskRows))
    ensures History(stream, limit).value.fileSystemRows == Some(LatestRows(stream, (m: Metrics) => m.fileSystemRows))
  {
    var front := stream[..|stream| - 1];
    if front != [] {
      RowsAreTheLatest(front, limit);
    }
  }
}
