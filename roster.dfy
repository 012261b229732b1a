/**
 * The device roster (app.py `devices`): one summary per per-device latest
 * file, with defaults filled in, most recently heard from first.
 */
module Roster {
  import opened Wrappers
  import opened PyValues

  /** One roster entry as `devices` builds it. */
  datatype Summary = Summary(
    key: string,
    device: Value,
    ip: Value,
    receivedAt: Value,
    totalBytes: Value,
    lanBytes: Value,
    localBytes: Value)

  /** A per-device latest file: its stem (the device key) and what `json.loads` made of its text. */
  datatype LatestFile = LatestFile(stem: string, doc: JsonDoc)

  /** The entry `devices` appends for a file with stem `key` holding object `data`. */
  function Project(key: string, data: Record): (s: Summary)
    ensures s.key == key
    ensures s.device == (if "device" in data && Truthy(data["device"]) then data["device"] else Str(key))
    ensures s.ip == (if "ip" in data && Truthy(data["ip"]) then data["ip"] else Str(""))
    ensures s.receivedAt == (if "received_at" in data && Truthy(data["received_at"]) then data["received_at"] else Int(0))
    ensures s.totalBytes == (if "total_bytes" in data && Truthy(data["total_bytes"]) then data["total_bytes"] else Int(0))
    ensures s.lanBytes == (if "lan_bytes" in data && Truthy(data["lan_bytes"]) then data["lan_bytes"] else Int(0))
    ensures s.localBytes == (if "local_bytes" in data && Truthy(data["local_bytes"]) then data["local_bytes"] else Int(0))
  {
    Summary(
      key,
      GetOr(data, "device", Str(key)),
      GetOr(data, "ip", Str("")),
      GetOr(data, "received_at", Int(0)),
      GetOr(data, "total_bytes", Int(0)),
      GetOr(data, "lan_bytes", Int(0)),
      GetOr(data, "local_bytes", Int(0)))
  }

  /**
   * The entries appended by the loop over the files, in file order: a file
   * that does not parse is skipped; one that parses to something other than
   * an object makes `data.get` raise, which ends the request (None).
   */
  function Entries(files: seq<LatestFile>): (r: Option<seq<Summary>>)
    ensures r.Some? ==> |r.value| <= |files|
  {
    if files == [] then Some([])
    else
      match Entries(files[..|files| - 1])
      case None => None
      case Some(items) =>
        var f := files[|files| - 1];
        match f.doc
        case Unparseable => Some(items)
        case NonObject => None
        case Object(data) => Some(items + [Project(f.stem, data)])
  }

  /** The entries are, as a multiset, the projections of the files that parse to objects; None exactly when some file is a non-object. */
  lemma {:induction false} EntriesSpec(files: seq<LatestFile>)
    ensures Entries(files).None? <==> exists k :: 0 <= k < |files| && files[k].doc.NonObject?
    ensures Entries(files).Some? ==> multiset(Entries(files).value) == ParsedProjections(files)
  {
    if files != [] {
      var init := files[..|files| - 1];
      EntriesSpec(init);
      assert forall k :: 0 <= k < |init| ==> init[k] == files[k];
    }
  }

  /** The multiset of projections of the files that parse to objects. */
  function ParsedProjections(files: seq<LatestFile>): multiset<Summary>
  {
    if files == [] then multiset{}
    else
      var f := files[|files| - 1];
      ParsedProjections(files[..|files| - 1])
        + (if f.doc.Object? then multiset{Project(f.stem, f.doc.rec)} else multiset{})
  }

  // ---------------------------------------------------------------------
  // Sorting by received_at, newest first

  /** The value Python orders `received_at` by; None for values that do not compare with numbers. */
  function Rank(v: Value): Option<real>
  {
    match v
    case Bool(b) => Some(if b then 1.0 else 0.0)
    case Int(i) => Some(i as real)
    case Float(f, _) => Some(f)
    case _ => None
  }

  function Key(s: Summary): real
  {
    match Rank(s.receivedAt)
    case Some(r) => r
    case None => 0.0
  }

  predicate Comparable(items: seq<Summary>)
  {
    forall k :: 0 <= k < |items| ==> Rank(items[k].receivedAt).Some?
  }

  /** Ordered by received_at, non-increasing. */
  predicate NewestFirst(items: seq<Summary>)
  {
    forall i, j :: 0 <= i < j < |items| ==> Key(items[i]) >= Key(items[j])
  }

  /** An entry no newer than `a` may follow it in a newest-first list. */
  lemma {:induction false} PrependNewestFirst(a: Summary, rest: seq<Summary>)
    requires NewestFirst(rest)
    requires forall k :: 0 <= k < |rest| ==> Key(rest[k]) <= Key(a)
    ensures NewestFirst([a] + rest)
  {
    var r := [a] + rest;
    forall i, j | 0 <= i < j < |r| ensures Key(r[i]) >= Key(r[j]) {
      if i > 0 {
        assert r[i] == rest[i - 1] && r[j] == rest[j - 1];
      } else {
        assert r[j] == rest[j - 1];
      }
    }
  }

  /** Inserts `x` into a newest-first list ahead of the entries it does not come after. */
  function Insert(x: Summary, items: seq<Summary>): (r: seq<Summary>)
    requires NewestFirst(items)
    ensures NewestFirst(r)
    ensures multiset(r) == multiset(items) + multiset{x}
  {
    if items == [] || Key(items[0]) <= Key(x) then
      PrependNewestFirst(x, items);
      [x] + items
    else
      var head, tail := items[0], items[1..];
      assert items == [head] + tail;
      var rest := Insert(x, tail);
      assert forall k :: 0 <= k < |rest| ==> Key(rest[k]) <= Key(head) by {
        forall k | 0 <= k < |rest| ensures Key(rest[k]) <= Key(head) {
          assert rest[k] in multiset(rest);
          if rest[k] != x {
            assert rest[k] in multiset(tail);
            var j :| 0 <= j < |tail| && tail[j] == rest[k];
            assert items[j + 1] == tail[j];
          }
        }
      }
      PrependNewestFirst(head, rest);
      [head] + rest
  }

  /** `sorted(items, key=received_at, reverse=True)`, as an insertion sort. */
  function SortNewestFirst(items: seq<Summary>): (r: seq<Summary>)
    ensures NewestFirst(r)
    ensures multiset(r) == multiset(items)
  {
    if items == [] then []
    else
      assert items == [items[0]] + items[1..];
      Insert(items[0], SortNewestFirst(items[1..]))
  }

  /**
   * `devices`: the entries of the parsed files, sorted newest first. The
   * request fails where a file is not an object, or where two or more
   * entries are to be sorted and some received_at is not a number (Python's
   * comparison raises).
   */
  method Devices(files: seq<LatestFile>) returns (r: Result<seq<Summary>, Fault>)
    ensures r.Err? <==> Entries(files).None? || (|Entries(files).value| >= 2 && !Comparable(Entries(files).value))
    ensures r.Ok? ==> multiset(r.value) == multiset(Entries(files).value)
    ensures r.Ok? ==> NewestFirst(r.value)
  {
    var items: seq<Summary> := [];
    for i := 0 to |files|
      invariant Entries(files[..i]) == Some(items)
    {
      assert files[..i + 1][..i] == files[..i];
      var f := files[i];
      match f.doc {
        case Unparseable =>
        case NonObject =>
          NonObjectFails(files, i + 1);
          return Err(InternalError);
        case Object(data) =>
          items := items + [Project(f.stem, data)];
      }
    }
    assert files[..|files|] == files;
    if |items| >= 2 && !Comparable(items) {
      return Err(InternalError);
    }
    r := Ok(SortNewestFirst(items));
  }

  /** Once a prefix of the files has ended the request, the whole of them does. */
  lemma {:induction false} NonObjectFails(files: seq<LatestFile>, n: nat)
    requires n <= |files| && Entries(files[..n]).None?
    ensures Entries(files).None?
    decreases |files| - n
  {
    if n < |files| {
      assert files[..n + 1][..n] == files[..n];
      NonObjectFails(files, n + 1);
    } else {
      assert files[..n] == files;
    }
  }
}
