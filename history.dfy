/**
 * The history window (app.py `history`): the records of a device's history
 * file at or after `since`, in file order, at most the last 2000.
 */
module History {
  import opened Wrappers
  import opened PyValues

  /** Seconds in the default window (`24 * 3600`). */
  const DefaultWindow: int := 86400

  /** The most points one response carries (`points[-2000:]`). */
  const MaxPoints: nat := 2000

  /**
   * `since_ts`: `int(since)` when the parameter is present and non-empty,
   * else `now - 86400`; a parameter `int()` rejects also falls back.
   */
  function SinceTs(since: Option<string>, now: int): (ts: int)
    ensures since.None? || since == Some("") ==> ts == now - DefaultWindow
    ensures since.Some? && since.value != "" && ParseInt(since.value).Some? ==> ts == ParseInt(since.value).value
    ensures since.Some? && ParseInt(since.value).None? ==> ts == now - DefaultWindow
  {
    match since
    case None => now - DefaultWindow
    case Some(s) =>
      if s == "" then now - DefaultWindow
      else match ParseInt(s)
        case Some(n) => n
        case None => now - DefaultWindow
  }

  /** A record's timestamp, `int(rec.get("t") or 0)`; None where `int()` raises. */
  function Stamp(rec: Record): Option<int>
  {
    IntOf(GetOr(rec, "t", Int(0)))
  }

  /** Whether one history line ends the request: a non-object, or a timestamp `int()` rejects. */
  predicate Aborts(line: JsonDoc)
  {
    line.NonObject? || (line.Object? && Stamp(line.rec).None?)
  }

  /** Some line of the file ends the request. */
  predicate AnyAborts(lines: seq<JsonDoc>)
  {
    exists k :: 0 <= k < |lines| && Aborts(lines[k])
  }

  /** Whether one line is kept: an object stamped at or after `sinceTs`. */
  predicate Kept(line: JsonDoc, sinceTs: int)
  {
    line.Object? && Stamp(line.rec).Some? && Stamp(line.rec).value >= sinceTs
  }

  /**
   * The points the loop over the lines collects, in file order; None once a
   * line ends the request (the handler's outer `except` answers `[]`).
   */
  function Collected(lines: seq<JsonDoc>, sinceTs: int): (r: Option<seq<Record>>)
    ensures r.Some? ==> |r.value| <= |lines|
  {
    if lines == [] then Some([])
    else
      match Collected(lines[..|lines| - 1], sinceTs)
      case None => None
      case Some(points) =>
        var line := lines[|lines| - 1];
        if Aborts(line) then None
        else if Kept(line, sinceTs) then Some(points + [line.rec])
        else Some(points)
  }

  /** The kept records, in file order (the reference filter). */
  function Filter(lines: seq<JsonDoc>, sinceTs: int): (r: seq<Record>)
    ensures |r| <= |lines|
  {
    if lines == [] then []
    else
      var last := lines[|lines| - 1];
      Filter(lines[..|lines| - 1], sinceTs) + (if Kept(last, sinceTs) then [last.rec] else [])
  }

  /** The filter distributes over concatenation, so it keeps file order. */
  lemma {:induction false} FilterAppend(a: seq<JsonDoc>, b: seq<JsonDoc>, sinceTs: int)
    ensures Filter(a + b, sinceTs) == Filter(a, sinceTs) + Filter(b, sinceTs)
    decreases |b|
  {
    if b != [] {
      var b' := b[..|b| - 1];
      assert (a + b)[..|a + b| - 1] == a + b';
      FilterAppend(a, b', sinceTs);
    } else {
      assert a + b == a;
    }
  }

  /** Every collected point has `int(t) >= sinceTs`. */
  lemma {:induction false} FilterAtOrAfter(lines: seq<JsonDoc>, sinceTs: int)
    ensures forall k :: 0 <= k < |Filter(lines, sinceTs)| ==>
      Stamp(Filter(lines, sinceTs)[k]).Some? && Stamp(Filter(lines, sinceTs)[k]).value >= sinceTs
  {
    if lines != [] {
      FilterAtOrAfter(lines[..|lines| - 1], sinceTs);
    }
  }

  /** The loop collects the filter unless some line ends the request. */
  lemma {:induction false} CollectedSpec(lines: seq<JsonDoc>, sinceTs: int)
    ensures Collected(lines, sinceTs).None? <==> AnyAborts(lines)
    ensures Collected(lines, sinceTs).Some? ==> Collected(lines, sinceTs).value == Filter(lines, sinceTs)
  {
    if lines != [] {
      var init := lines[..|lines| - 1];
      CollectedSpec(init, sinceTs);
      assert forall k :: 0 <= k < |init| ==> init[k] == lines[k];
    }
  }

  /** `points[-2000:]`. */
  function Tail(points: seq<Record>): (r: seq<Record>)
    ensures |r| == if |points| <= MaxPoints then |points| else MaxPoints
    ensures r == points[|points| - |r|..]
  {
    if |points| <= MaxPoints then points else points[|points| - MaxPoints..]
  }

  /**
   * `history`: no file gives `[]`; otherwise the records at or after
   * `since_ts`, in file order, the last 2000 of them, or `[]` when a line
   * ends the request.
   */
  method History(file: Option<seq<JsonDoc>>, since: Option<string>, now: int) returns (points: seq<Record>)
    ensures |points| <= MaxPoints
    ensures file.None? ==> points == []
    ensures file.Some? && AnyAborts(file.value) ==> points == []
    ensures file.Some? && !AnyAborts(file.value) ==> points == Tail(Filter(file.value, SinceTs(since, now)))
  {
    var sinceTs := SinceTs(since, now);
    if file.None? {
      return [];
    }
    var lines := file.value;
    var collected: seq<Record> := [];
    for i := 0 to |lines|
      invariant Collected(lines[..i], sinceTs) == Some(collected)
    {
      ghost var prefix := lines[..i + 1];
      assert prefix[..i] == lines[..i] && prefix[i] == lines[i];
      var line := lines[i];
      if Aborts(line) {
        assert Collected(prefix, sinceTs).None?;
        AbortPropagates(lines, sinceTs, i + 1);
        CollectedSpec(lines, sinceTs);
        return [];
      }
      if line.Object? && Stamp(line.rec).value >= sinceTs {
        collected := collected + [line.rec];
      }
    }
    assert lines[..|lines|] == lines;
    CollectedSpec(lines, sinceTs);
    points := Tail(collected);
  }

  /** Once a prefix of the lines has ended the request, the whole file does. */
  lemma {:induction false} AbortPropagates(lines: seq<JsonDoc>, sinceTs: int, n: nat)
    requires n <= |lines| && Collected(lines[..n], sinceTs).None?
    ensures Collected(lines, sinceTs).None?
    decreases |lines| - n
  {
    if n < |lines| {
      assert lines[..n + 1][..n] == lines[..n];
      AbortPropagates(lines, sinceTs, n + 1);
    } else {
      assert lines[..n] == lines;
    }
  }

  /** The response is a suffix of the filtered records, and the whole of them when there are at most 2000. */
  lemma {:induction false} TailIsSuffix(points: seq<Record>)
    ensures exists d :: 0 <= d <= |points| && Tail(points) == points[d..]
    ensures |points| <= MaxPoints ==> Tail(points) == points
  {
    assert Tail(points) == points[|points| - |Tail(points)|..];
  }
}
