/** Repairing the timestamps of a legacy table when a store is opened (src/kline/store.py `_normalize_stored_timestamps`). */
module Repair {
  import opened Results
  import opened Timestamps
  import opened Spellings

  datatype Bar = Bar(open: real, high: real, low: real, close: real, volume: real, amount: Option<real>)

  /** The first four columns of the unique index. */
  datatype Series = Series(sourceId: string, ticker: string, assetClass: string, timeframe: string)

  /** The unique index. */
  datatype Key = Key(series: Series, timestamp: string)

  datatype LegacyRow = LegacyRow(key: Key, bar: Bar)

  /** Rows by their database id. */
  type Table = map<int, LegacyRow>

  // ----- which rows are repaired -----

  /** SQL `LIKE '%T%'`, which ignores case. */
  predicate HasT(s: string) {
    'T' in s || 't' in s
  }

  /** `LIKE '%+__:__'` */
  predicate EndsWithOffset(s: string) {
    |s| >= 6 && s[|s| - 6] == '+' && s[|s| - 3] == ':'
  }

  /** `LIKE '%Z'` */
  predicate EndsWithZ(s: string) {
    s != "" && (s[|s| - 1] == 'Z' || s[|s| - 1] == 'z')
  }

  predicate Scanned(s: string) {
    HasT(s) && !EndsWithOffset(s) && !EndsWithZ(s)
  }

  /** The instant a text reads as: as it stands, or else stripped and with its `Z` written out. */
  function Reads(s: string): Option<int> {
    if ParseIso(s).Some? then ParseIso(s) else ParseIso(ReplaceZ(Strip(s)))
  }

  /** The instant a text denotes, without its fraction of a second. */
  function Moment(s: string): Option<int> {
    match Reads(s)
    case None => None
    case Some(t) => if Representable(t) then Some(t - t % SECOND) else None
  }

  /** The text a scanned timestamp is replaced by; None when it cannot be parsed as it stands. */
  function Fixed(s: string): (r: Option<string>)
  {
    match ParseIso(s)
    case None => None
    case Some(t) => if Representable(t) then Some(Canon(t - t % SECOND)) else None
  }

  lemma WholeSecond(t: int)
    requires Representable(t)
    ensures Representable(t - t % SECOND) && (t - t % SECOND) % SECOND == 0
  {
  }

  lemma CanonEnds(t: int)
    requires Representable(t)
    ensures EndsWithOffset(Canon(t)) && !Scanned(Canon(t))
  {
    var s := Canon(t);
    assert s[|s| - 6..] == "+00:00";
    assert s[|s| - 6] == s[|s| - 6..][0] && s[|s| - 3] == s[|s| - 6..][3];
  }

  /** A replaced text denotes the same second and is not scanned again. */
  lemma FixedKeeps(s: string)
    requires Fixed(s).Some?
    ensures Moment(s).Some? && Moment(Fixed(s).value) == Moment(s) && !Scanned(Fixed(s).value) && Fixed(Fixed(s).value) == Fixed(s)
  {
    hide ParseIso, Canon, Representable, Scanned, ReplaceZ, Strip;
    var t := ParseIso(s).value;
    WholeSecond(t);
    CanonEnds(t - t % SECOND);
    ParseCanon(t - t % SECOND);
  }

  // ----- the table as a map of its index -----

  /** The table holds exactly these bars, each key once. */
  ghost predicate Represents(t: Table, v: map<Key, Bar>) {
    && (forall i :: i in t ==> t[i].key in v && v[t[i].key] == t[i].bar)
    && (forall k :: k in v ==> exists i :: i in t && t[i].key == k)
    && Unique(t)
  }

  ghost predicate Unique(t: Table) {
    forall i, j :: i in t && j in t && t[i].key == t[j].key ==> i == j
  }

  /** A row's key after the repair. */
  function NewKey(r: LegacyRow): Key
    requires Fixed(r.key.timestamp).Some?
  {
    r.key.(timestamp := Fixed(r.key.timestamp).value)
  }

  /** The repair of one row: its bar moves to the canonical key, over whatever stood there. */
  function Moved(v: map<Key, Bar>, r: LegacyRow): map<Key, Bar>
    requires Fixed(r.key.timestamp).Some?
  {
    (v - {r.key})[NewKey(r) := r.bar]
  }

  predicate Readable(rows: seq<LegacyRow>) {
    forall i :: 0 <= i < |rows| ==> Scanned(rows[i].key.timestamp) && Fixed(rows[i].key.timestamp).Some?
  }

  function AllMoved(v: map<Key, Bar>, rows: seq<LegacyRow>): map<Key, Bar>
    requires Readable(rows)
  {
    if rows == [] then v else Moved(AllMoved(v, rows[..|rows| - 1]), rows[|rows| - 1])
  }

  lemma MergedInto(t: Table, v: map<Key, Bar>, i: int, j: int)
    requires Represents(t, v) && i in t && j in t && i != j && Fixed(t[i].key.timestamp).Some? && t[j].key == NewKey(t[i])
    ensures Represents(t[j := t[j].(bar := t[i].bar)] - {i}, Moved(v, t[i]))
  {
    hide Fixed;
    var after := t[j := t[j].(bar := t[i].bar)] - {i};
    forall k | k in Moved(v, t[i])
      ensures exists m :: m in after && after[m].key == k
    {
      if k == NewKey(t[i]) {
        assert j in after && after[j].key == k;
      } else {
        var m :| m in t && t[m].key == k;
        assert m in after && after[m].key == k;
      }
    }
  }

  lemma Renamed(t: Table, v: map<Key, Bar>, i: int)
    requires Represents(t, v) && i in t && Fixed(t[i].key.timestamp).Some?
    requires forall j :: j in t && j != i ==> t[j].key != NewKey(t[i])
    ensures Represents(t[i := t[i].(key := NewKey(t[i]))], Moved(v, t[i]))
  {
    hide Fixed;
    var after := t[i := t[i].(key := NewKey(t[i]))];
    forall k | k in Moved(v, t[i])
      ensures exists m :: m in after && after[m].key == k
    {
      if k == NewKey(t[i]) {
        assert i in after && after[i].key == k;
      } else {
        var m :| m in t && t[m].key == k;
        assert m in after && after[m].key == k;
      }
    }
  }

  // ----- the loop -----

  /** The scanned rows' ids, each once, in the order the database returns them. */
  ghost predicate ScanOf(t: Table, order: seq<int>) {
    && (forall n :: 0 <= n < |order| ==> order[n] in t && Scanned(t[order[n]].key.timestamp))
    && (forall n, m :: 0 <= n < m < |order| ==> order[n] != order[m])
    && (forall i :: i in t && Scanned(t[i].key.timestamp) ==> i in order)
  }

  function Snapshot(t: Table, order: seq<int>): (r: seq<LegacyRow>)
    requires forall n :: 0 <= n < |order| ==> order[n] in t
    ensures |r| == |order| && forall n :: 0 <= n < |order| ==> r[n] == t[order[n]]
  {
    seq(|order|, n requires 0 <= n < |order| => t[order[n]])
  }

  predicate AllFixed(rows: seq<LegacyRow>) {
    forall n :: 0 <= n < |rows| ==> Fixed(rows[n].key.timestamp).Some?
  }

  /** One row of the loop. */
  method RepairRow(t: Table, i: int, row: LegacyRow, ghost v: map<Key, Bar>) returns (after: Table)
    requires Represents(t, v) && i in t && t[i] == row && Scanned(row.key.timestamp) && Fixed(row.key.timestamp).Some?
    ensures Represents(after, Moved(v, row))
    ensures forall k :: k in t && k != i && t[k].key != NewKey(row) ==> k in after && after[k] == t[k]
  {
    hide Scanned, Represents, Moved, Fixed;
    var canonical := NewKey(row);
    if exists j :: j in t && t[j].key == canonical && j != i {
      var j :| j in t && t[j].key == canonical && j != i;
      MergedInto(t, v, i, j);
      after := t[j := t[j].(bar := row.bar)] - {i};
    } else {
      Renamed(t, v, i);
      after := t[i := row.(key := canonical)];
    }
  }

  lemma NothingRead(v: map<Key, Bar>)
    ensures Readable([]) && AllMoved(v, []) == v
  {
  }

  lemma NotReadable(scanned: seq<LegacyRow>, n: nat)
    requires n < |scanned| && Fixed(scanned[n].key.timestamp).None?
    ensures !Readable(scanned) && !AllFixed(scanned)
  {
    hide Fixed, Scanned;
  }

  lemma ReadIsFixed(scanned: seq<LegacyRow>)
    requires Readable(scanned)
    ensures AllFixed(scanned)
  {
    hide Fixed, Scanned;
  }

  /** One more scanned row is read; its new key is no scanned row's. */
  lemma OneMoreRead(v: map<Key, Bar>, scanned: seq<LegacyRow>, n: nat)
    requires n < |scanned| && Readable(scanned[..n]) && Fixed(scanned[n].key.timestamp).Some?
    requires forall m :: n <= m < |scanned| ==> Scanned(scanned[m].key.timestamp)
    ensures Readable(scanned[..n + 1]) && AllMoved(v, scanned[..n + 1]) == Moved(AllMoved(v, scanned[..n]), scanned[n])
    ensures forall m :: n <= m < |scanned| ==> scanned[m].key != NewKey(scanned[n])
  {
    hide Fixed, Scanned, Moved, Moment;
    assert scanned[..n + 1][..n] == scanned[..n];
    FixedKeeps(scanned[n].key.timestamp);
  }

  class LegacyTable {
    var rows: Table

    constructor (rows: Table)
      ensures this.rows == rows
    {
      this.rows := rows;
    }

    /**
     `_normalize_stored_timestamps`, in one transaction: an unreadable timestamp leaves the table as it
     was; otherwise the rows become the map in which every scanned row, in scan order, has moved to its
     canonical key.  The index holds after every row.
     */
    method NormalizeStoredTimestamps(order: seq<int>, ghost v: map<Key, Bar>) returns (ok: bool)
      requires Represents(rows, v) && ScanOf(rows, order)
      modifies this
      ensures ok == AllFixed(Snapshot(old(rows), order))
      ensures !ok ==> rows == old(rows)
      ensures Readable(Snapshot(old(rows), order)) == ok
      ensures ok ==> Represents(rows, AllMoved(v, Snapshot(old(rows), order)))
      ensures ok ==> forall i :: i in rows ==> !Scanned(rows[i].key.timestamp)
    {
      hide ScanOf, Represents, AllMoved, Scanned, Fixed, Moment, Readable, Snapshot;
      NothingRead(v);
      ScanIsAll(rows, v, order);
      OrderedScan(rows, order);
      var staged := rows;
      var scanned := Snapshot(rows, order);
      for n := 0 to |order|
        invariant rows == old(rows)
        invariant Readable(scanned[..n])
        invariant Represents(staged, AllMoved(v, scanned[..n]))
        invariant forall m :: n <= m < |order| ==> order[m] in staged && staged[order[m]] == scanned[m]
      {
        if Fixed(scanned[n].key.timestamp).None? {
          NotReadable(scanned, n);
          return false;
        }
        OneMoreRead(v, scanned, n);
        staged := RepairRow(staged, order[n], scanned[n], AllMoved(v, scanned[..n]));
      }
      assert scanned[..|order|] == scanned;
      ReadIsFixed(scanned);
      NothingScanned(staged, v, scanned);
      rows := staged;
      ok := true;
    }
  }

  // ----- what the repair comes to -----

  /** The last position of a key, -1 when there is none. */
  function LastIn(keys: seq<Key>, k: Key): (n: int)
    ensures -1 <= n < |keys|
    ensures n >= 0 ==> keys[n] == k
    ensures forall m :: n < m < |keys| ==> keys[m] != k
  {
    if keys == [] then -1 else if keys[|keys| - 1] == k then |keys| - 1 else LastIn(keys[..|keys| - 1], k)
  }

  function NewKeys(rows: seq<LegacyRow>): (r: seq<Key>)
    requires Readable(rows)
    ensures |r| == |rows| && forall n :: 0 <= n < |rows| ==> r[n] == NewKey(rows[n])
  {
    hide Fixed, Scanned, NewKey;
    seq(|rows|, n requires 0 <= n < |rows| => NewKey(rows[n]))
  }

  /** The last of the rows with this canonical key. */
  function LastTo(rows: seq<LegacyRow>, k: Key): (n: int)
    requires Readable(rows)
    ensures -1 <= n < |rows| && (n >= 0 ==> NewKey(rows[n]) == k)
  {
    LastIn(NewKeys(rows), k)
  }

  predicate IsScannedKey(rows: seq<LegacyRow>, k: Key) {
    exists n :: 0 <= n < |rows| && rows[n].key == k
  }

  /** What one move does at one key. */
  lemma MovedAt(v: map<Key, Bar>, r: LegacyRow, k: Key)
    requires Fixed(r.key.timestamp).Some?
    ensures k in Moved(v, r) <==> k == NewKey(r) || (k in v && k != r.key)
    ensures k in Moved(v, r) ==> Moved(v, r)[k] == if k == NewKey(r) then r.bar else v[k]
  {
    hide Fixed, NewKey;
  }

  /**
   After the repair a key holds the bar of the last scanned row that moved to it, or else what it held
   before when it was not itself scanned; there is no other key.
   */
  lemma {:induction false} LastScannedWins(v: map<Key, Bar>, rows: seq<LegacyRow>, k: Key)
    requires Readable(rows)
    ensures var n := LastTo(rows, k);
            && (k in AllMoved(v, rows) <==> n >= 0 || (k in v && !IsScannedKey(rows, k)))
            && (k in AllMoved(v, rows) ==> AllMoved(v, rows)[k] == if n >= 0 then rows[n].bar else v[k])
  {
    hide Fixed, Scanned, Moved, IsScannedKey;
    if rows == [] {
      NoneScanned(k);
    } else {
      var p, last := rows[..|rows| - 1], rows[|rows| - 1];
      LastScannedWins(v, p, k);
      MovedAt(AllMoved(v, p), last, k);
      FixedKeeps(last.key.timestamp);
      ScannedSplit(rows, k);
      NotScannedTo(p, last);
      assert NewKeys(rows)[..|p|] == NewKeys(p);
    }
  }

  lemma NoneScanned(k: Key)
    ensures !IsScannedKey([], k)
  {
  }

  lemma ScannedSplit(rows: seq<LegacyRow>, k: Key)
    requires rows != []
    ensures IsScannedKey(rows, k) <==> IsScannedKey(rows[..|rows| - 1], k) || rows[|rows| - 1].key == k
  {
    var p := rows[..|rows| - 1];
    assert forall m :: 0 <= m < |p| ==> p[m] == rows[m];
  }

  /** No row has moved to a key that is still to be scanned. */
  lemma NotScannedTo(rows: seq<LegacyRow>, last: LegacyRow)
    requires Readable(rows) && Scanned(last.key.timestamp)
    ensures LastTo(rows, last.key) == -1
  {
    hide Fixed, Scanned;
    var n := LastTo(rows, last.key);
    if n >= 0 {
      FixedKeeps(rows[n].key.timestamp);
    }
  }

  /** Every row of the map that asks for repair is among these. */
  predicate ScansAll(v: map<Key, Bar>, rows: seq<LegacyRow>) {
    && (forall k :: k in v && Scanned(k.timestamp) ==> IsScannedKey(rows, k))
    && (forall n :: 0 <= n < |rows| ==> rows[n].key in v)
  }

  lemma ScanIsAll(t: Table, v: map<Key, Bar>, order: seq<int>)
    requires Represents(t, v) && ScanOf(t, order)
    ensures ScansAll(v, Snapshot(t, order))
  {
    hide Scanned;
    var rows := Snapshot(t, order);
    forall k | k in v && Scanned(k.timestamp)
      ensures IsScannedKey(rows, k)
    {
      var i :| i in t && t[i].key == k;
      assert Scanned(t[i].key.timestamp);
      var n :| 0 <= n < |order| && order[n] == i;
      assert rows[n].key == k;
    }
    forall n | 0 <= n < |rows|
      ensures rows[n].key in v
    {
      KeyHeld(t, v, order[n]);
    }
  }

  lemma KeyHeld(t: Table, v: map<Key, Bar>, i: int)
    requires Represents(t, v) && i in t
    ensures t[i].key in v
  {
  }

  /** No key is left that the scan would find, so a second pass finds nothing to do. */
  lemma NothingLeft(v: map<Key, Bar>, rows: seq<LegacyRow>)
    requires Readable(rows) && ScansAll(v, rows)
    ensures forall k :: k in AllMoved(v, rows) ==> !Scanned(k.timestamp)
  {
    hide Fixed, Scanned, AllMoved, LastTo;
    forall k | k in AllMoved(v, rows)
      ensures !Scanned(k.timestamp)
    {
      LastScannedWins(v, rows, k);
      var n := LastTo(rows, k);
      if n >= 0 {
        FixedKeeps(rows[n].key.timestamp);
      }
    }
  }

  lemma NothingScanned(t: Table, v: map<Key, Bar>, rows: seq<LegacyRow>)
    requires Readable(rows) && ScansAll(v, rows) && Represents(t, AllMoved(v, rows))
    ensures forall i :: i in t ==> !Scanned(t[i].key.timestamp)
  {
    hide Fixed, Scanned, AllMoved, IsScannedKey;
    NothingLeft(v, rows);
    forall i | i in t
      ensures !Scanned(t[i].key.timestamp)
    {
      KeyHeld(t, AllMoved(v, rows), i);
    }
  }

  lemma OrderedScan(t: Table, order: seq<int>)
    requires ScanOf(t, order)
    ensures forall n :: 0 <= n < |order| ==> order[n] in t && Scanned(t[order[n]].key.timestamp)
    ensures forall n, m :: 0 <= n < m < |order| ==> order[n] != order[m]
  {
    hide Scanned;
  }

  lemma SecondPassIsIdle(t: Table, v: map<Key, Bar>, rows: seq<LegacyRow>, again: seq<int>)
    requires Readable(rows) && ScansAll(v, rows) && Represents(t, AllMoved(v, rows)) && ScanOf(t, again)
    ensures again == []
  {
    hide Fixed, Scanned, AllMoved, IsScannedKey, Represents;
    NothingScanned(t, v, rows);
    assert forall i :: i in t ==> !Scanned(t[i].key.timestamp);
    if again != [] {
      FirstScanned(t, again);
    }
  }

  lemma FirstScanned(t: Table, order: seq<int>)
    requires ScanOf(t, order) && order != []
    ensures order[0] in t && Scanned(t[order[0]].key.timestamp)
  {
    hide Scanned;
  }

  ghost predicate Holds(v: map<Key, Bar>, s: Series, m: int) {
    exists k :: k in v && k.series == s && Moment(k.timestamp) == Some(m)
  }

  /** The instants of every series, whole seconds, are what they were. */
  lemma MomentsKept(v: map<Key, Bar>, rows: seq<LegacyRow>, s: Series, m: int)
    requires Readable(rows) && ScansAll(v, rows)
    ensures Holds(AllMoved(v, rows), s, m) <==> Holds(v, s, m)
  {
    hide Fixed, Scanned, AllMoved, LastTo, Moment;
    if Holds(v, s, m) {
      var k :| k in v && k.series == s && Moment(k.timestamp) == Some(m);
      LastScannedWins(v, rows, k);
      if IsScannedKey(rows, k) {
        var n :| 0 <= n < |rows| && rows[n].key == k;
        FixedKeeps(k.timestamp);
        MovedIsHeld(v, rows, n);
      }
    }
    if Holds(AllMoved(v, rows), s, m) {
      var k :| k in AllMoved(v, rows) && k.series == s && Moment(k.timestamp) == Some(m);
      LastScannedWins(v, rows, k);
      var n := LastTo(rows, k);
      if n >= 0 {
        FixedKeeps(rows[n].key.timestamp);
        assert rows[n].key in v;
      }
    }
  }

  lemma MovedIsHeld(v: map<Key, Bar>, rows: seq<LegacyRow>, n: nat)
    requires Readable(rows) && n < |rows|
    ensures NewKey(rows[n]) in AllMoved(v, rows)
  {
    hide Fixed, Scanned, AllMoved, NewKey;
    LastScannedWins(v, rows, NewKey(rows[n]));
    assert NewKeys(rows)[n] == NewKey(rows[n]);
  }

  // ----- one row an instant -----

  predicate SameMoment(k: Key, l: Key) {
    k.series == l.series && Moment(k.timestamp).Some? && Moment(k.timestamp) == Moment(l.timestamp)
  }

  /** No series has two rows of one instant. */
  predicate Single(v: map<Key, Bar>) {
    forall k, l :: k in v && l in v && SameMoment(k, l) ==> k == l
  }

  /** Of two rows on one instant at most one is left alone, and that one is already where the other moves. */
  predicate Mergeable(v: map<Key, Bar>) {
    forall k, l :: k in v && l in v && k != l && SameMoment(k, l) && !Scanned(k.timestamp) ==>
      Scanned(l.timestamp) && Fixed(l.timestamp) == Some(k.timestamp)
  }

  /** Where a row of the repaired map came from. */
  lemma CameFrom(v: map<Key, Bar>, rows: seq<LegacyRow>, k: Key) returns (l: Key)
    requires Readable(rows) && ScansAll(v, rows) && k in AllMoved(v, rows) && Moment(k.timestamp).Some?
    ensures l in v && SameMoment(k, l)
    ensures Scanned(l.timestamp) ==> Fixed(l.timestamp) == Some(k.timestamp)
    ensures !Scanned(l.timestamp) ==> l == k
  {
    hide Fixed, Scanned, AllMoved, LastTo, Moment;
    LastScannedWins(v, rows, k);
    var n := LastTo(rows, k);
    if n >= 0 {
      l := rows[n].key;
      FixedKeeps(l.timestamp);
    } else {
      l := k;
      assert Scanned(k.timestamp) ==> IsScannedKey(rows, k);
    }
  }

  lemma SameMomentSameText(k: string, l: string)
    requires Fixed(k).Some? && Fixed(l).Some? && Moment(k) == Moment(l)
    ensures Fixed(l) == Fixed(k)
  {
    hide Canon, ParseIso, ReplaceZ, Strip;
  }

  /** A row left alone is still there, and a scanned one is where it moves. */
  lemma WentTo(v: map<Key, Bar>, rows: seq<LegacyRow>, l: Key)
    requires Readable(rows) && ScansAll(v, rows) && l in v
    ensures !Scanned(l.timestamp) ==> l in AllMoved(v, rows)
    ensures Scanned(l.timestamp) ==>
              Fixed(l.timestamp).Some? && Key(l.series, Fixed(l.timestamp).value) in AllMoved(v, rows) &&
              Moment(Fixed(l.timestamp).value) == Moment(l.timestamp)
  {
    hide Fixed, Scanned, AllMoved, Moment, LastTo;
    LastScannedWins(v, rows, l);
    if Scanned(l.timestamp) {
      var n :| 0 <= n < |rows| && rows[n].key == l;
      MovedIsHeld(v, rows, n);
      FixedKeeps(l.timestamp);
    }
  }

  /** The repair leaves one row per series and instant exactly when the rows it cannot see were no obstacle. */
  lemma SingleIff(v: map<Key, Bar>, rows: seq<LegacyRow>)
    requires Readable(rows) && ScansAll(v, rows)
    ensures Single(AllMoved(v, rows)) <==> Mergeable(v)
  {
    hide Fixed, Scanned, AllMoved, Moment, IsScannedKey;
    var after := AllMoved(v, rows);
    if Mergeable(v) {
      forall k, l | k in after && l in after && SameMoment(k, l)
        ensures k == l
      {
        var k0 := CameFrom(v, rows, k);
        var l0 := CameFrom(v, rows, l);
        if Scanned(k0.timestamp) && Scanned(l0.timestamp) {
          SameMomentSameText(k0.timestamp, l0.timestamp);
        }
      }
    }
    if Single(after) {
      forall k, l | k in v && l in v && k != l && SameMoment(k, l) && !Scanned(k.timestamp)
        ensures Scanned(l.timestamp) && Fixed(l.timestamp) == Some(k.timestamp)
      {
        WentTo(v, rows, k);
        WentTo(v, rows, l);
        assert Scanned(l.timestamp) ==> SameMoment(k, Key(l.series, Fixed(l.timestamp).value));
      }
    }
  }

  lemma EndsSpelled(t: int)
    requires Representable(t + HOUR)
    ensures EndsWithOffset(Spelled(t, HOUR, "+01:00"))
  {
    hide FractionText, Stem;
    var s := Spelled(t, HOUR, "+01:00");
    assert s == (Stem(t + HOUR) + FractionText(t % SECOND)) + "+01:00";
    assert s[|s| - 6..] == "+01:00";
    assert s[|s| - 6] == s[|s| - 6..][0] && s[|s| - 3] == s[|s| - 6..][3];
  }

  /** Two rows of a series on one instant, of which the repair scans neither and leaves both. */
  ghost predicate SideBySide(s: Series, x: string, y: string, b: Bar, c: Bar) {
    var v := map[Key(s, x) := b, Key(s, y) := c];
    && SameMoment(Key(s, x), Key(s, y)) && |v| == 2 && ScansAll(v, [])
    && AllMoved(v, []) == v && !Single(v) && !Mergeable(v)
  }

  lemma UnseenStay(s: Series, x: string, y: string, b: Bar, c: Bar)
    requires x != y && !Scanned(x) && !Scanned(y) && Moment(x).Some? && Moment(x) == Moment(y)
    ensures SideBySide(s, x, y, b, c)
  {
    hide Scanned, Moment;
    var v := map[Key(s, x) := b, Key(s, y) := c];
    assert Key(s, x) != Key(s, y) && Key(s, x) in v && Key(s, y) in v && SameMoment(Key(s, x), Key(s, y));
  }

  /** Two rows of one instant, in UTC and an hour east, which the repair leaves side by side. */
  lemma TwoRowsStay(s: Series, t: int, b: Bar, c: Bar)
    requires Representable(t) && Representable(t + HOUR) && t % SECOND == 0
    ensures SideBySide(s, Canon(t), Spelled(t, HOUR, "+01:00"), b, c)
  {
    hide ParseIso, Canon, Spelled, Representable, ZoneText, ReplaceZ, Strip, SideBySide;
    var x, y := Canon(t), Spelled(t, HOUR, "+01:00");
    HourZone();
    CanonEnds(t);
    EndsSpelled(t);
    ParseCanon(t);
    SpelledParses(t, HOUR, "+01:00");
    ShiftedStem(t, HOUR, "+01:00");
    StrLessIrreflexive(x);
    UnseenStay(s, x, y, b, c);
  }

  /** A text ending in `Z` does not parse as it stands, and the scan passes it by. */
  lemma ZuluText(t: int)
    requires Representable(t) && t % SECOND == 0
    ensures var y := Spelled(t, 0, "Z");
            Moment(y) == Some(t) && !Scanned(y) && y != Canon(t)
  {
    hide ParseIso, Canon, Spelled, Representable, ReplaceZ, Strip;
    var y := Spelled(t, 0, "Z");
    SpelledReads(t, 0, "Z");
    SpelledIsStripped(t, 0, "Z");
    EndsZ(t);
    CanonIsPlain(t);
    ZuluParses(t);
  }

  lemma EndsZ(t: int)
    requires Representable(t)
    ensures EndsWithZ(Spelled(t, 0, "Z")) && 'Z' in Spelled(t, 0, "Z")
  {
    hide FractionText, Stem;
    var s := Spelled(t, 0, "Z");
    assert s[|s| - 1] == 'Z';
  }

  lemma ZuluParses(t: int)
    requires Representable(t) && t % SECOND == 0
    ensures ParseIso(Spelled(t, 0, "Z")) == None
  {
    hide ParseDate, ParseHourMinute, DateText, DateOf, Pad, ParseZone;
    var s := Spelled(t, 0, "Z");
    var clock := ClockText(HourOf(t), MinuteOf(t), SecondOf(t));
    assert FractionText(t % SECOND) + "Z" == "Z";
    assert s[11..] == clock + "Z";
    assert (clock + "Z")[3] == clock[3];
    assert (clock + "Z")[5..] == clock[5..] + "Z";
  }

  /** Two rows of one instant, one spelled with `Z`, which the repair leaves side by side. */
  lemma ZuluStays(s: Series, t: int, b: Bar, c: Bar)
    requires Representable(t) && t % SECOND == 0
    ensures SideBySide(s, Canon(t), Spelled(t, 0, "Z"), b, c)
  {
    hide ParseIso, Canon, Spelled, Representable, ReplaceZ, Strip, SideBySide;
    CanonEnds(t);
    ParseCanon(t);
    ZuluText(t);
    UnseenStay(s, Canon(t), Spelled(t, 0, "Z"), b, c);
  }

  // ----- what the scan sees -----

  /** Of the spellings of a full date and time the scan sees those that name no zone or one west of Greenwich. */
  lemma ScannedIff(a: int, offset: int, z: string)
    requires ZoneText(z, offset) && Representable(a + offset)
    ensures Scanned(Spelled(a, offset, z)) <==> z == "" || z[0] == '-'
  {
    hide Spelled, Representable, ParseDate, ParseClock;
    var date, clock, day, tod := SpelledParts(a, offset, z);
    ZoneTail(z, offset);
    var s := (date + "T" + clock) + z;
    assert s[10] == 'T';
    if z == "" {
      assert s[|s| - 1] == clock[|clock| - 1] && s[|s| - 6] == clock[|clock| - 6];
    } else if z != "Z" {
      assert s[|s| - 6] == z[0] && s[|s| - 3] == z[3] && s[|s| - 1] == z[5];
    } else {
      assert s[|s| - 1] == 'Z';
    }
  }

  lemma ZoneTail(z: string, offset: int)
    requires ZoneText(z, offset)
    ensures z != "" && z != "Z" ==> (z[0] == '+' || z[0] == '-') && z[3] == ':' && IsDigit(z[5])
  {
    if |z| == 6 {
      assert z[1..][2] == z[3] && z[1..][3..][1] == z[5];
    }
  }

  /** An instant with a space between date and time. */
  function Spaced(t: int): string
    requires Representable(t)
  {
    DateText(DateOf(t / DAY)) + " " + ClockText(HourOf(t), MinuteOf(t), SecondOf(t))
  }

  lemma SpaceReads(t: int)
    requires Representable(t) && t % SECOND == 0
    ensures ParseIso(Spaced(t)) == Some(t)
  {
    hide ParseDate, ParseClock, ParseZone, DateOf, DateText, ClockText, HourOf, MinuteOf, SecondOf, Representable;
    SpelledParses(t, 0, "");
    var date, clock := DateText(DateOf(t / DAY)), ClockText(HourOf(t), MinuteOf(t), SecondOf(t));
    var x, y := date + "T" + clock, date + " " + clock;
    assert Spelled(t, 0, "") == x;
    assert x[..10] == date == y[..10] && x[11..] == clock == y[11..];
  }

  lemma SpaceUnseen(t: int)
    requires Representable(t)
    ensures !Scanned(Spaced(t)) && Spaced(t) != Canon(t)
  {
    hide DateOf, Pad, HourOf, MinuteOf, SecondOf, Date.Valid, FractionText;
    var date, clock := DateText(DateOf(t / DAY)), ClockText(HourOf(t), MinuteOf(t), SecondOf(t));
    assert Spaced(t)[10] == ' ';
    assert Canon(t)[10] == 'T';
  }

  /** Two rows of one instant, one spelled with a space for its `T`, which the repair leaves side by side. */
  lemma SpaceStays(s: Series, t: int, b: Bar, c: Bar)
    requires Representable(t) && t % SECOND == 0
    ensures SideBySide(s, Canon(t), Spaced(t), b, c)
  {
    hide ParseIso, Canon, Spaced, Representable, ReplaceZ, Strip, SideBySide;
    CanonEnds(t);
    ParseCanon(t);
    SpaceReads(t);
    SpaceUnseen(t);
    UnseenStay(s, Canon(t), Spaced(t), b, c);
  }
}
