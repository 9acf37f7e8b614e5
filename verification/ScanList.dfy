/**
 The bounded Wi-Fi scan list (lib/fry_core/improv_scan.cpp:9-33): the rows are shifted in place, and
 after any sightings the list is what it should be of all of them.
 */
module ScanList {

  const MAX := 24
  const SSID_BYTES := 32

  datatype Row = Row(ssid: string, rssi: int, secure: bool)

  /** Over-long SSIDs lose their end (strncpy into 33 characters). */
  function Name(ssid: string): string {
    if |ssid| > SSID_BYTES then ssid[..SSID_BYTES] else ssid
  }

  // ---- one sighting, on values -----------------------------------------------------------------

  /** The row with this SSID; |rows| when there is none. */
  function Find(rows: seq<Row>, ssid: string): (i: nat)
    ensures i <= |rows| && (i < |rows| ==> rows[i].ssid == ssid)
    ensures forall k :: 0 <= k < i ==> rows[k].ssid != ssid
  {
    if rows == [] || rows[0].ssid == ssid then 0 else 1 + Find(rows[1..], ssid)
  }

  /** How many leading rows are at least this strong. */
  function Rank(rows: seq<Row>, rssi: int): (i: nat)
    ensures i <= |rows| && (i < |rows| ==> rows[i].rssi < rssi)
    ensures forall k :: 0 <= k < i ==> rows[k].rssi >= rssi
  {
    if rows == [] || rows[0].rssi < rssi then 0 else 1 + Rank(rows[1..], rssi)
  }

  function Without(rows: seq<Row>, i: nat): seq<Row> {
    if i < |rows| then rows[..i] + rows[i + 1..] else rows
  }

  /** `row` at `pos`; a full list loses its last row. */
  function Insert(rows: seq<Row>, row: Row): (r: seq<Row>)
    requires |rows| <= MAX
    ensures |r| <= MAX
  {
    var pos := Rank(rows, row.rssi);
    if pos >= MAX then rows
    else rows[..pos] + [row] + rows[pos..if |rows| < MAX then |rows| else MAX - 1]
  }

  function Put(rows: seq<Row>, row: Row): seq<Row>
    requires |rows| <= MAX
  {
    var i := Find(rows, row.ssid);
    if row.ssid == "" || (i < |rows| && row.rssi <= rows[i].rssi) then rows
    else Insert(Without(rows, i), row)
  }

  /** An SSID keeps its first 32 characters. */
  lemma NameKeeps32(ssid: string)
    ensures Name(ssid) <= ssid && |Name(ssid)| == if |ssid| < 32 then |ssid| else 32
  {
  }

  /** A sighting no stronger than the row its network has changes nothing, and neither does one without a
      name. */
  lemma NoStrongerChangesNothing(rows: seq<Row>, row: Row)
    requires |rows| <= MAX
    requires row.ssid == "" || exists i :: 0 <= i < |rows| && rows[i].ssid == row.ssid && row.rssi <= rows[i].rssi
    requires forall i, j :: 0 <= i < j < |rows| ==> rows[i].ssid != rows[j].ssid
    ensures Put(rows, row) == rows
  {
  }

  // ---- what the list is of all sightings -------------------------------------------------------

  predicate StrongestFirst(rows: seq<Row>) {
    forall i, j :: 0 <= i < j < |rows| ==> rows[i].rssi >= rows[j].rssi
  }

  predicate OnePerSsid(rows: seq<Row>) {
    forall i, j :: 0 <= i < j < |rows| ==> rows[i].ssid != rows[j].ssid
  }

  predicate Listed(rows: seq<Row>, ssid: string) {
    exists i :: 0 <= i < |rows| && rows[i].ssid == ssid
  }

  /** A named network is left out only when 24 rows at least as strong as it ever was are kept. */
  predicate LeftOut(rows: seq<Row>, s: Row) {
    |rows| == 24 && forall i :: 0 <= i < |rows| ==> rows[i].rssi >= s.rssi
  }

  predicate Ordered(rows: seq<Row>) {
    |rows| <= MAX && StrongestFirst(rows) && OnePerSsid(rows)
  }

  /** Rows are real sightings, of the strongest their network had. */
  ghost predicate Strongest(rows: seq<Row>, seen: set<Row>) {
    && (forall i :: 0 <= i < |rows| ==> rows[i] in seen && rows[i].ssid != "")
    && (forall i, s :: 0 <= i < |rows| && s in seen && s.ssid == rows[i].ssid ==> s.rssi <= rows[i].rssi)
  }

  ghost predicate Covered(rows: seq<Row>, seen: set<Row>) {
    forall s :: s in seen && s.ssid != "" ==> Listed(rows, s.ssid) || LeftOut(rows, s)
  }

  ghost predicate Best(rows: seq<Row>, seen: set<Row>) {
    Ordered(rows) && Strongest(rows, seen) && Covered(rows, seen)
  }

  /** r is `rows` with `row` at `pos`, the last row lost when there were 24. */
  predicate Inserted(r: seq<Row>, rows: seq<Row>, row: Row, pos: nat) {
    && pos < |r| <= |rows| + 1 && |r| == (if |rows| < MAX then |rows| + 1 else MAX)
    && r[pos] == row
    && (forall k :: 0 <= k < pos ==> r[k] == rows[k])
    && (forall k :: pos < k < |r| ==> r[k] == rows[k - 1])
  }

  lemma InsertAt(rows: seq<Row>, row: Row)
    requires |rows| <= MAX && Rank(rows, row.rssi) < MAX
    ensures Inserted(Insert(rows, row), rows, row, Rank(rows, row.rssi))
  {
    Splice(rows, row, Rank(rows, row.rssi), if |rows| < MAX then |rows| else MAX - 1);
  }

  lemma Splice(rows: seq<Row>, row: Row, pos: nat, end: nat)
    requires pos <= end <= |rows|
    ensures var r := rows[..pos] + [row] + rows[pos..end];
      && |r| == end + 1 && r[pos] == row
      && (forall k :: 0 <= k < pos ==> r[k] == rows[k])
      && (forall k :: pos < k < |r| ==> r[k] == rows[k - 1])
  {
    var front, back := rows[..pos], rows[pos..end];
    forall k | pos < k < end + 1
      ensures (front + [row] + back)[k] == rows[k - 1]
    {
      assert back[k - pos - 1] == rows[k - 1];
    }
  }

  /** The row goes exactly where the order wants it. */
  lemma InsertOrders(r: seq<Row>, rows: seq<Row>, row: Row, pos: nat)
    requires Ordered(rows) && !Listed(rows, row.ssid)
    requires pos == Rank(rows, row.rssi) < MAX && Inserted(r, rows, row, pos)
    ensures Ordered(r)
  {
    forall i, j | 0 <= i < j < |r|
      ensures r[i].rssi >= r[j].rssi && r[i].ssid != r[j].ssid
    {
      var i', j' := if i < pos then i else i - 1, if j < pos then j else j - 1;
      assert i != pos ==> r[i] == rows[i'];
      assert j != pos ==> r[j] == rows[j'];
      assert pos < |rows| ==> rows[pos].rssi < row.rssi;
      assert j > pos ==> rows[pos].rssi >= rows[j'].rssi;
    }
  }

  lemma InsertStrongest(r: seq<Row>, rows: seq<Row>, seen: set<Row>, row: Row, pos: nat)
    requires Strongest(rows, seen) && !Listed(rows, row.ssid) && row.ssid != ""
    requires forall s :: s in seen && s.ssid == row.ssid ==> s.rssi <= row.rssi
    requires Inserted(r, rows, row, pos)
    ensures Strongest(r, seen + {row})
  {
    forall i | 0 <= i < |r|
      ensures r[i] in seen + {row} && r[i].ssid != ""
      ensures forall s :: s in seen + {row} && s.ssid == r[i].ssid ==> s.rssi <= r[i].rssi
    {
      if i != pos {
        var i' := if i < pos then i else i - 1;
        assert r[i] == rows[i'];
      }
    }
  }

  lemma InsertCovers(r: seq<Row>, rows: seq<Row>, row: Row, pos: nat, s: Row)
    requires Ordered(rows) && pos == Rank(rows, row.rssi) && Inserted(r, rows, row, pos)
    requires Settles(rows, row, s)
    requires forall i :: 0 <= i < |rows| && rows[i].ssid == s.ssid ==> s.rssi <= rows[i].rssi
    ensures Listed(r, s.ssid) || LeftOut(r, s)
  {
    if Listed(rows, s.ssid) {
      var k := Find(rows, s.ssid);
      if k < pos {
        assert r[k] == rows[k];
      } else if k + 1 < |r| {
        assert r[k + 1] == rows[k];
      } else {
        Evicted(r, rows, row, pos, s);
      }
    } else if LeftOut(rows, s) {
      Evicted(r, rows, row, pos, s);
    } else {
      assert forall i :: 0 <= i < |r| && i != pos ==> r[i] == rows[if i < pos then i else i - 1];
    }
  }

  /** What falls off a full list is no stronger than any row left. */
  lemma Evicted(r: seq<Row>, rows: seq<Row>, row: Row, pos: nat, s: Row)
    requires Ordered(rows) && |rows| == MAX && rows[MAX - 1].rssi >= s.rssi
    requires pos == Rank(rows, row.rssi) && Inserted(r, rows, row, pos)
    ensures LeftOut(r, s)
  {
    forall i | 0 <= i < |r|
      ensures r[i].rssi >= s.rssi
    {
      if i != pos {
        var i' := if i < pos then i else i - 1;
        assert r[i] == rows[i'] && rows[i'].rssi >= rows[MAX - 1].rssi;
      } else {
        assert row.rssi > rows[pos].rssi >= rows[MAX - 1].rssi;
      }
    }
  }

  /** s is listed, or will be rightly left out once `row` is in. */
  predicate Settles(rows: seq<Row>, row: Row, s: Row) {
    || Listed(rows, s.ssid)
    || LeftOut(rows, s)
    || (|rows| == MAX - 1 && row.rssi >= s.rssi && forall i :: 0 <= i < |rows| ==> rows[i].rssi >= s.rssi)
  }

  /** Inserting a network that is not in the rows, and is stronger than it was seen before unless
      the rows leave it out. */
  lemma InsertKeepsBest(rows: seq<Row>, seen: set<Row>, row: Row)
    requires Ordered(rows) && Strongest(rows, seen) && !Listed(rows, row.ssid) && row.ssid != ""
    requires forall s :: s in seen && s.ssid != "" && s.ssid != row.ssid ==> Settles(rows, row, s)
    requires forall s :: s in seen && s.ssid == row.ssid ==> s.rssi <= row.rssi || LeftOut(rows, s)
    ensures Best(Insert(rows, row), seen + {row})
  {
    var r, pos := Insert(rows, row), Rank(rows, row.rssi);
    if pos >= MAX {
      assert LeftOut(rows, row);
    } else {
      InsertAt(rows, row);
      InsertOrders(r, rows, row, pos);
      forall s | s in seen && s.ssid == row.ssid ensures s.rssi <= row.rssi {
        if LeftOut(rows, s) {
          assert row.rssi > rows[pos].rssi >= s.rssi;
        }
      }
      InsertStrongest(r, rows, seen, row, pos);
      forall s | s in seen + {row} && s.ssid != "" ensures Listed(r, s.ssid) || LeftOut(r, s) {
        if s.ssid == row.ssid {
          assert r[pos].ssid == s.ssid;
        } else {
          InsertCovers(r, rows, row, pos, s);
        }
      }
    }
  }

  lemma WithoutRow(rows: seq<Row>, seen: set<Row>, i: nat)
    requires Ordered(rows) && Strongest(rows, seen) && i < |rows|
    ensures var less := Without(rows, i);
      |less| == |rows| - 1 && Ordered(less) && Strongest(less, seen) && !Listed(less, rows[i].ssid)
  {
    var less := Without(rows, i);
    assert forall k :: 0 <= k < |less| ==> less[k] == rows[Old(k, i)];
    forall j, k | 0 <= j < k < |less|
      ensures less[j].rssi >= less[k].rssi && less[j].ssid != less[k].ssid
    {
      assert Old(j, i) < Old(k, i);
    }
    forall k | 0 <= k < |less| ensures less[k].ssid != rows[i].ssid {
      assert Old(k, i) != i;
    }
  }

  /** Where row k was before row i went. */
  function Old(k: nat, i: nat): nat {
    if k < i then k else k + 1
  }

  lemma WithoutSettles(rows: seq<Row>, i: nat, row: Row, s: Row)
    requires Ordered(rows) && i < |rows| && row.rssi >= rows[i].rssi && s.ssid != rows[i].ssid
    requires Listed(rows, s.ssid) || LeftOut(rows, s)
    ensures Settles(Without(rows, i), row, s)
  {
    var less := Without(rows, i);
    assert forall k :: 0 <= k < |less| ==> less[k] == rows[if k < i then k else k + 1];
    if Listed(rows, s.ssid) {
      var k := Find(rows, s.ssid);
      assert less[if k < i then k else k - 1] == rows[k];
    }
  }

  /** One sighting keeps the list best. */
  lemma PutKeepsBest(rows: seq<Row>, seen: set<Row>, row: Row)
    requires Best(rows, seen)
    ensures Best(Put(rows, row), seen + {row})
  {
    var i := Find(rows, row.ssid);
    if row.ssid != "" {
      if i == |rows| {
        InsertKeepsBest(rows, seen, row);
      } else if row.rssi > rows[i].rssi {
        WithoutRow(rows, seen, i);
        forall s | s in seen && s.ssid != "" && s.ssid != row.ssid
          ensures Settles(Without(rows, i), row, s)
        {
          WithoutSettles(rows, i, row, s);
        }
        InsertKeepsBest(Without(rows, i), seen, row);
      }
    }
  }

  /** A network seen stronger always finds a place. */
  lemma ReplacedIsPut(rows: seq<Row>, row: Row)
    requires |rows| <= MAX && Find(rows, row.ssid) < |rows|
    ensures |Without(rows, Find(rows, row.ssid))| < MAX
    ensures Rank(Without(rows, Find(rows, row.ssid)), row.rssi) < MAX
  {
  }

  function AddAll(h: seq<Row>): (rows: seq<Row>)
    ensures |rows| <= MAX
  {
    if h == [] then [] else
      var rows := Put(AddAll(h[..|h| - 1]), h[|h| - 1]);
      PutFits(AddAll(h[..|h| - 1]), h[|h| - 1]);
      rows
  }

  lemma PutFits(rows: seq<Row>, row: Row)
    requires |rows| <= MAX
    ensures |Put(rows, row)| <= MAX
  {
  }

  /** After any sightings: strongest first, one row per network and each the strongest sighting it
      ever had, and whatever is missing was never stronger than any of 24 rows. */
  lemma {:induction false} AfterAnySightings(h: seq<Row>)
    ensures Best(AddAll(h), set s | s in h)
  {
    if h != [] {
      var n := |h| - 1;
      AfterAnySightings(h[..n]);
      PutKeepsBest(AddAll(h[..n]), (set s | s in h[..n]), h[n]);
      OneMoreSighting(h);
    }
  }

  lemma OneMoreSighting(h: seq<Row>)
    requires h != []
    ensures var n := |h| - 1; (set s | s in h) == (set s | s in h[..n]) + {h[n]}
  {
    var n := |h| - 1;
    assert h == h[..n] + [h[n]];
  }

  // ---- the array -------------------------------------------------------------------------------

  class List {
    const rows: array<Row>
    var n: nat
    ghost var seen: set<Row>   // every sighting so far

    ghost predicate Valid()
      reads this, rows
    {
      rows.Length == MAX && n <= MAX && Best(rows[..n], seen)
    }

    function Rows(): seq<Row>
      reads this, rows
      requires n <= rows.Length
    {
      rows[..n]
    }

    constructor ()
      ensures Valid() && Rows() == [] && seen == {} && fresh(rows)
    {
      rows := new Row[MAX](_ => Row("", 0, false));
      n, seen := 0, {};
    }

    method Add(ssid: string, rssi: int, secure: bool) returns (kept: bool)
      requires Valid()
      modifies this, rows
      ensures Valid() && seen == old(seen) + {Row(Name(ssid), rssi, secure)}
      ensures Rows() == Put(old(Rows()), Row(Name(ssid), rssi, secure))
      ensures kept ==> Row(Name(ssid), rssi, secure) in Rows()
      ensures !kept ==> Rows() == old(Rows())
    {
      var row := Row(Name(ssid), rssi, secure);
      PutKeepsBest(rows[..n], seen, row);
      seen := seen + {row};
      kept := false;
      if ssid != "" { kept := PutRow(row); }
    }

    method PutRow(row: Row) returns (kept: bool)
      requires rows.Length == MAX && n <= MAX && row.ssid != ""
      modifies this`n, rows
      ensures n <= MAX && rows[..n] == Put(old(rows[..n]), row)
      ensures if kept then row in rows[..n] else rows[..n] == old(rows[..n])
    {
      ghost var was := rows[..n];
      var i := Seek(row.ssid);
      if i < n {
        if row.rssi <= rows[i].rssi { return false; }
        RemoveAt(i);
        ReplacedIsPut(was, row);
      }
      kept := Place(row);
    }

    method Seek(ssid: string) returns (i: nat)
      requires rows.Length == MAX && n <= MAX
      ensures i == Find(rows[..n], ssid)
    {
      i := 0;
      while i < n && rows[i].ssid != ssid
        invariant i <= n && Find(rows[..n], ssid) == i + Find(rows[i..n], ssid)
      {
        assert rows[i..n][1..] == rows[i + 1..n];
        i := i + 1;
      }
    }

    /** The rows behind the dropped one move up. */
    method RemoveAt(i: nat)
      requires rows.Length == MAX && i < n <= MAX
      modifies this`n, rows
      ensures n == old(n) - 1 && rows[..n] == Without(old(rows[..n]), i)
    {
      n := n - 1;
      ghost var was := rows[..];
      for j := i to n
        invariant n == old(n) - 1
        invariant rows[..j] == was[..i] + was[i + 1..j + 1]
        invariant rows[j..] == was[j..]
      {
        assert rows[j + 1] == rows[j..][1] == was[j + 1];
        rows[j] := rows[j + 1];
        assert rows[..j + 1] == rows[..j] + [was[j + 1]];
        assert rows[j + 1..] == was[j + 1..];
      }
      assert was[..n + 1][..i] == was[..i] && was[..n + 1][i + 1..] == was[i + 1..n + 1];
    }

    method Locate(rssi: int) returns (pos: nat)
      requires rows.Length == MAX && n <= MAX
      ensures pos == Rank(rows[..n], rssi)
    {
      pos := 0;
      while pos < n && rows[pos].rssi >= rssi
        invariant pos <= n && Rank(rows[..n], rssi) == pos + Rank(rows[pos..n], rssi)
      {
        assert rows[pos..n][1..] == rows[pos + 1..n];
        pos := pos + 1;
      }
    }

    /** The rows from the place down move down, the last of a full list over the edge. */
    method Place(row: Row) returns (kept: bool)
      requires rows.Length == MAX && n <= MAX
      modifies this`n, rows
      ensures n <= MAX && rows[..n] == Insert(old(rows[..n]), row)
      ensures if kept then row in rows[..n] else rows[..n] == old(rows[..n])
      ensures kept <==> Rank(old(rows[..n]), row.rssi) < MAX
    {
      var pos := Locate(row.rssi);
      if pos >= MAX { return false; }
      var last := if n < MAX then n else MAX - 1;
      ghost var was := rows[..n];
      assert rows[..pos] == was[..pos] && rows[pos..last] == was[pos..last];
      Shift(pos, last);
      ghost var back := rows[pos + 1..last + 1];
      rows[pos] := row;
      assert rows[pos + 1..last + 1] == back;
      assert rows[..last + 1] == rows[..pos] + [row] + back;
      n := if n < MAX then n + 1 else n;
      assert rows[pos] in rows[..n];
      kept := true;
    }

    method Shift(pos: nat, last: nat)
      requires pos <= last < rows.Length
      modifies rows
      ensures rows[..pos] == old(rows[..pos])
      ensures rows[pos + 1..last + 1] == old(rows[pos..last])
    {
      var j := last;
      ghost var was := rows[..];
      while j > pos
        invariant pos <= j <= last
        invariant rows[..j + 1] == was[..j + 1]
        invariant rows[j + 1..last + 1] == was[j..last]
      {
        assert rows[j - 1] == rows[..j + 1][j - 1] == was[j - 1];
        rows[j] := rows[j - 1];
        assert rows[j..last + 1] == [was[j - 1]] + rows[j + 1..last + 1];
        assert rows[..j] == was[..j];
        j := j - 1;
      }
    }
  }
}
