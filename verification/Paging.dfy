/** Keyset pages and the walks that follow their cursors, over tables that may
    change between two pages (sdf_core/human_read.py). */
module Paging {
  import opened Results
  import opened Unicode
  import opened Orders
  import opened Listing
  import Cursor
  import IsoTime

  // ---- (created_at, id) order ----------------------------------------------

  // Timestamps of one table share an offset; it is compared last.
  function PlaceCodes(k: Cursor.Place): seq<int> {
    [k.at.year, k.at.month, k.at.day, k.at.hour, k.at.minute, k.at.second, k.at.micro]
    + (if k.at.offset.Some? then [1, k.at.offset.value] else [0, 0]) + k.id
  }

  predicate PlaceLe(a: Cursor.Place, b: Cursor.Place) { CodesLe(PlaceCodes(a), PlaceCodes(b)) }

  // The earlier timestamp, field by field; naive ones come first, then by offset.
  ghost predicate Sooner(a: IsoTime.Stamp, b: IsoTime.Stamp) {
    || a.year < b.year
    || (a.year == b.year && a.month < b.month)
    || (a.year == b.year && a.month == b.month && a.day < b.day)
    || (a.year == b.year && a.month == b.month && a.day == b.day && SoonerThatDay(a, b))
  }

  ghost predicate SoonerThatDay(a: IsoTime.Stamp, b: IsoTime.Stamp) {
    || a.hour < b.hour
    || (a.hour == b.hour && a.minute < b.minute)
    || (a.hour == b.hour && a.minute == b.minute && a.second < b.second)
    || (a.hour == b.hour && a.minute == b.minute && a.second == b.second && a.micro < b.micro)
    || (&& a.hour == b.hour && a.minute == b.minute && a.second == b.second && a.micro == b.micro && b.offset.Some?
        && (a.offset.None? || a.offset.value < b.offset.value))
  }

  lemma HeadDecides(u: int, s: seq<int>, v: int, t: seq<int>)
    ensures CodesLe([u] + s, [v] + t) <==> u < v || (u == v && CodesLe(s, t))
  {
    assert ([u] + s)[1..] == s && ([v] + t)[1..] == t;
  }

  function ZoneCodes(k: Cursor.Place): seq<int> {
    (if k.at.offset.Some? then [1, k.at.offset.value] else [0, 0]) + k.id
  }

  function ClockCodes(k: Cursor.Place): seq<int> {
    [k.at.hour] + ([k.at.minute] + ([k.at.second] + ([k.at.micro] + ZoneCodes(k))))
  }

  lemma ZonesAre(a: Cursor.Place, b: Cursor.Place)
    ensures CodesLe(ZoneCodes(a), ZoneCodes(b)) <==>
              || (b.at.offset.Some? && (a.at.offset.None? || a.at.offset.value < b.at.offset.value))
              || (a.at.offset == b.at.offset && CodesLe(a.id, b.id))
  {
    var u, v := if a.at.offset.Some? then a.at.offset.value else 0, if b.at.offset.Some? then b.at.offset.value else 0;
    var x, y := if a.at.offset.Some? then 1 else 0, if b.at.offset.Some? then 1 else 0;
    assert ZoneCodes(a) == [x] + ([u] + a.id) && ZoneCodes(b) == [y] + ([v] + b.id);
    HeadDecides(x, [u] + a.id, y, [v] + b.id);
    HeadDecides(u, a.id, v, b.id);
  }

  lemma ClocksAre(a: Cursor.Place, b: Cursor.Place)
    ensures CodesLe(ClockCodes(a), ClockCodes(b)) <==>
              || SoonerThatDay(a.at, b.at)
              || (&& a.at.hour == b.at.hour && a.at.minute == b.at.minute && a.at.second == b.at.second
                  && a.at.micro == b.at.micro && a.at.offset == b.at.offset && CodesLe(a.id, b.id))
  {
    hide CodesLe, ZoneCodes;
    ZonesAre(a, b);
    var p, q := [a.at.micro] + ZoneCodes(a), [b.at.micro] + ZoneCodes(b);
    HeadDecides(a.at.micro, ZoneCodes(a), b.at.micro, ZoneCodes(b));
    HeadDecides(a.at.second, p, b.at.second, q);
    HeadDecides(a.at.minute, [a.at.second] + p, b.at.minute, [b.at.second] + q);
    HeadDecides(a.at.hour, [a.at.minute] + ([a.at.second] + p), b.at.hour, [b.at.minute] + ([b.at.second] + q));
  }

  lemma CodesAre(k: Cursor.Place)
    ensures PlaceCodes(k) == [k.at.year] + ([k.at.month] + ([k.at.day] + ClockCodes(k)))
  {
  }

  // By timestamp, then by identifier.
  lemma PlaceLeIs(a: Cursor.Place, b: Cursor.Place)
    ensures PlaceLe(a, b) <==> Sooner(a.at, b.at) || (a.at == b.at && CodesLe(a.id, b.id))
  {
    hide CodesLe, ClockCodes, PlaceCodes, SoonerThatDay;
    CodesAre(a);
    CodesAre(b);
    ClocksAre(a, b);
    HeadDecides(a.at.day, ClockCodes(a), b.at.day, ClockCodes(b));
    HeadDecides(a.at.month, [a.at.day] + ClockCodes(a), b.at.month, [b.at.day] + ClockCodes(b));
    HeadDecides(a.at.year, [a.at.month] + ([a.at.day] + ClockCodes(a)), b.at.year,
                [b.at.month] + ([b.at.day] + ClockCodes(b)));
  }

  lemma PlaceCodesInjective(a: Cursor.Place, b: Cursor.Place)
    requires PlaceCodes(a) == PlaceCodes(b)
    ensures a == b
  {
    var x, y := PlaceCodes(a), PlaceCodes(b);
    assert a.id == x[9..] && b.id == y[9..];
    assert x[0] == y[0] && x[1] == y[1] && x[2] == y[2] && x[3] == y[3] && x[4] == y[4];
    assert x[5] == y[5] && x[6] == y[6] && x[7] == y[7] && x[8] == y[8];
  }

  lemma PlaceLeIsTotalOrder()
    ensures TotalOrder(PlaceLe)
  {
    forall a, b
      ensures PlaceLe(a, b) || PlaceLe(b, a)
      ensures PlaceLe(a, b) && PlaceLe(b, a) ==> a == b
    {
      CodesTotal(PlaceCodes(a), PlaceCodes(b));
      if PlaceCodes(a) == PlaceCodes(b) { PlaceCodesInjective(a, b); }
    }
    forall a, b, c | PlaceLe(a, b) && PlaceLe(b, c) ensures PlaceLe(a, c) {
      CodesTransitive(PlaceCodes(a), PlaceCodes(b), PlaceCodes(c));
    }
  }

  // ---- One page ------------------------------------------------------------

  type Table<T> = seq<Row<Cursor.Place, T>>

  datatype Served<T> = Served(rows: Table<T>, next: Option<Text>)

  // At most `limit` rows of the `limit + 1` fetched; one more means there is a
  // next page, starting after the last row served.
  function Cut<T>(listed: Table<T>, limit: nat): Served<T>
    requires limit >= 1
  {
    var fetched := if |listed| <= limit then listed else listed[..limit + 1];
    if |fetched| > limit then
      Served(fetched[..limit], Some(Cursor.Encode(fetched[limit - 1].key.at, fetched[limit - 1].key.id)))
    else Served(fetched, None)
  }

  function KeysetPage<T(!new)>(table: Table<T>, p: T -> bool, limit: nat, cursor: Option<Text>)
    : Result<Served<T>, Cursor.Error>
    requires limit >= 1
  {
    if cursor.None? || cursor.value == [] then Ok(Cut(Listed(table, PlaceLe, p, None), limit))
    else
      var place := Cursor.Decode(cursor.value);
      if place.Err? then Err(place.error) else Ok(Cut(Listed(table, PlaceLe, p, Some(place.value)), limit))
  }

  // A place that a cursor brings back unchanged.
  ghost predicate Faithful(k: Cursor.Place) { IsoTime.Valid(k.at) && k.id != [] && !HasPair(k.id) }

  ghost predicate WellFormed<T(!new)>(table: Table<T>) {
    UniqueKeys(table) && forall r :: r in table ==> Faithful(r.key)
  }

  function CursorAt(from: Option<Cursor.Place>): Option<Text> {
    if from.None? then None else Some(Cursor.Encode(from.value.at, from.value.id))
  }

  lemma CursorResumes<T(!new)>(table: Table<T>, p: T -> bool, limit: nat, from: Option<Cursor.Place>)
    requires limit >= 1 && (from.Some? ==> Faithful(from.value))
    ensures KeysetPage(table, p, limit, CursorAt(from)) == Ok(Cut(Listed(table, PlaceLe, p, from), limit))
  {
    if from.Some? {
      Cursor.RoundTripIff(from.value.at, from.value.id);
      assert CursorAt(from).value != [];
    }
  }

  // ---- Walks ---------------------------------------------------------------

  // Following `next_cursor` to null; page `i` is served from `tables[i]`.
  ghost predicate Walk<T(!new)>(tables: seq<Table<T>>, p: T -> bool, limit: nat, cursor: Option<Text>,
                                walk: seq<Served<T>>)
    requires limit >= 1
    decreases |walk|
  {
    && walk != [] && |tables| == |walk|
    && KeysetPage(tables[0], p, limit, cursor) == Ok(walk[0])
    && if |walk| == 1 then walk[0].next.None?
       else walk[0].next.Some? && Walk(tables[1..], p, limit, walk[0].next, walk[1..])
  }

  function RowsOf<T>(walk: seq<Served<T>>): Table<T> {
    if walk == [] then [] else walk[0].rows + RowsOf(walk[1..])
  }

  ghost predicate AllWellFormed<T(!new)>(tables: seq<Table<T>>) { forall t :: t in tables ==> WellFormed(t) }

  // The first page of a walk, and where the next one starts.
  lemma FirstPage<T(!new)>(tables: seq<Table<T>>, p: T -> bool, limit: nat, from: Option<Cursor.Place>,
                           walk: seq<Served<T>>)
    requires limit >= 1 && (from.Some? ==> Faithful(from.value))
    requires AllWellFormed(tables) && Walk(tables, p, limit, CursorAt(from), walk)
    ensures TotalOrder(PlaceLe) && Ascending(Listed(tables[0], PlaceLe, p, from), PlaceLe)
    ensures forall r :: r in Listed(tables[0], PlaceLe, p, from) <==> r in tables[0] && Past(PlaceLe, p, from)(r)
    ensures var l := Listed(tables[0], PlaceLe, p, from);
            if |l| <= limit then |walk| == 1 && walk[0].rows == l
            else |walk| > 1 && walk[0].rows == l[..limit] && Faithful(l[limit - 1].key)
                 && walk[0].next == CursorAt(Some(l[limit - 1].key))
  {
    hide PlaceLe, KeysetPage;
    PlaceLeIsTotalOrder();
    CursorResumes(tables[0], p, limit, from);
    assert tables[0] in tables;
    ListedAscends(tables[0], PlaceLe, p, from);
    ListedMembers(tables[0], PlaceLe, p, from);
    var l := Listed(tables[0], PlaceLe, p, from);
    if |l| > limit {
      assert l[limit - 1] in l;
      assert l[..limit + 1][..limit] == l[..limit];
    }
  }

  // No row twice, in order, all past the starting point.
  lemma {:induction false} WalkAscends<T(!new)>(tables: seq<Table<T>>, p: T -> bool, limit: nat,
                                                from: Option<Cursor.Place>, walk: seq<Served<T>>)
    requires limit >= 1 && (from.Some? ==> Faithful(from.value))
    requires AllWellFormed(tables) && Walk(tables, p, limit, CursorAt(from), walk)
    ensures Ascending(RowsOf(walk), PlaceLe)
    ensures forall i :: 0 <= i < |RowsOf(walk)| ==> Past(PlaceLe, p, from)(RowsOf(walk)[i])
    decreases |walk|
  {
    FirstPage(tables, p, limit, from, walk);
    var l := Listed(tables[0], PlaceLe, p, from);
    if |l| <= limit {
      assert RowsOf(walk) == l;
      assert forall i :: 0 <= i < |l| ==> l[i] in l;
    } else {
      WalkAscends(tables[1..], p, limit, Some(l[limit - 1].key), walk[1..]);
      AscendingOn(l, p, limit, from, RowsOf(walk[1..]));
    }
  }

  // A page and the rows that follow it.
  lemma AscendingOn<T(!new)>(l: Table<T>, p: T -> bool, limit: nat, from: Option<Cursor.Place>, later: Table<T>)
    requires TotalOrder(PlaceLe) && Ascending(l, PlaceLe) && 0 < limit < |l|
    requires forall r :: r in l ==> Past(PlaceLe, p, from)(r)
    requires Ascending(later, PlaceLe)
    requires forall i :: 0 <= i < |later| ==> Past(PlaceLe, p, Some(l[limit - 1].key))(later[i])
    ensures Ascending(l[..limit] + later, PlaceLe)
    ensures forall i :: 0 <= i < |l[..limit] + later| ==> Past(PlaceLe, p, from)((l[..limit] + later)[i])
  {
    var pivot := l[limit - 1].key;
    JoinAscending(l[..limit], later, pivot);
    assert l[limit - 1] in l;
    forall i | 0 <= i < |l[..limit] + later| ensures Past(PlaceLe, p, from)((l[..limit] + later)[i]) {
      if i < limit {
        assert l[i] in l;
      } else if from.Some? {
        assert PlaceLe(from.value, pivot) && Past(PlaceLe, p, Some(pivot))(later[i - limit]);
      }
    }
  }

  lemma JoinAscending<T(!new)>(a: Table<T>, b: Table<T>, pivot: Cursor.Place)
    requires TotalOrder(PlaceLe) && Ascending(a, PlaceLe) && Ascending(b, PlaceLe)
    requires a != [] && a[|a| - 1].key == pivot
    requires forall i :: 0 <= i < |b| ==> !PlaceLe(b[i].key, pivot)
    ensures Ascending(a + b, PlaceLe)
  {
    var s := a + b;
    forall i, j | 0 <= i < j < |s| ensures PlaceLe(s[i].key, s[j].key) && s[i].key != s[j].key {
      if i < |a| <= j {
        assert s[j] == b[j - |a|] && s[i] == a[i];
        assert PlaceLe(pivot, b[j - |a|].key);
        assert i == |a| - 1 || PlaceLe(a[i].key, pivot);
      }
    }
  }


  // Whatever is there all the time is returned.
  lemma {:induction false} WalkMissesNothing<T(!new)>(tables: seq<Table<T>>, p: T -> bool, limit: nat,
                                                      from: Option<Cursor.Place>, walk: seq<Served<T>>, k: Cursor.Place)
    requires limit >= 1 && (from.Some? ==> Faithful(from.value))
    requires AllWellFormed(tables) && Walk(tables, p, limit, CursorAt(from), walk)
    requires from.Some? ==> !PlaceLe(k, from.value)
    requires forall t :: t in tables ==> Present(t, p, k)
    ensures exists r :: r in RowsOf(walk) && r.key == k
    decreases |walk|
  {
    hide PlaceLe;
    FirstPage(tables, p, limit, from, walk);
    var l := Listed(tables[0], PlaceLe, p, from);
    var i := ListedAt(tables[0], PlaceLe, p, from, k);
    if |l| <= limit || i < limit {
      assert walk[0].rows[i] == l[i];
      assert l[i] in RowsOf(walk);
    } else {
      BeyondThePage(l, limit, i);
      WalkMissesNothing(tables[1..], p, limit, Some(l[limit - 1].key), walk[1..], k);
      var q :| q in RowsOf(walk[1..]) && q.key == k;
      assert q in RowsOf(walk);
    }
  }

  lemma BeyondThePage<T(!new)>(l: Table<T>, limit: nat, i: nat)
    requires TotalOrder(PlaceLe) && Ascending(l, PlaceLe) && 0 < limit <= i < |l|
    ensures !PlaceLe(l[i].key, l[limit - 1].key)
  {
    hide PlaceLe;
    assert PlaceLe(l[limit - 1].key, l[i].key) && l[limit - 1].key != l[i].key;
  }

  // Whatever is returned was there when its page was read.
  lemma {:induction false} WalkInventsNothing<T(!new)>(tables: seq<Table<T>>, p: T -> bool, limit: nat,
                                                       from: Option<Cursor.Place>, walk: seq<Served<T>>,
                                                       r: Row<Cursor.Place, T>)
    requires limit >= 1 && (from.Some? ==> Faithful(from.value))
    requires AllWellFormed(tables) && Walk(tables, p, limit, CursorAt(from), walk)
    requires r in RowsOf(walk)
    ensures exists t :: t in tables && r in t
    decreases |walk|
  {
    FirstPage(tables, p, limit, from, walk);
    var l := Listed(tables[0], PlaceLe, p, from);
    if r in walk[0].rows {
      assert r in l;
      assert r in tables[0];
    } else {
      WalkInventsNothing(tables[1..], p, limit, Some(l[limit - 1].key), walk[1..], r);
    }
  }

  // ---- Main results --------------------------------------------------------

  lemma ExactlyOnce<T(!new)>(tables: seq<Table<T>>, p: T -> bool, limit: nat, walk: seq<Served<T>>, k: Cursor.Place)
    requires limit >= 1 && AllWellFormed(tables) && Walk(tables, p, limit, None, walk)
    requires forall t :: t in tables ==> Present(t, p, k)
    ensures exists i :: 0 <= i < |RowsOf(walk)| && RowsOf(walk)[i].key == k
                        && forall j :: 0 <= j < |RowsOf(walk)| && RowsOf(walk)[j].key == k ==> j == i
  {
    var rows := RowsOf(walk);
    WalkAscends(tables, p, limit, None, walk);
    WalkMissesNothing(tables, p, limit, None, walk, k);
    var r :| r in rows && r.key == k;
    var i :| 0 <= i < |rows| && rows[i] == r;
  }

  ghost predicate Unchanging<V(!new)>(views: seq<V>, v: V) { forall u :: u in views ==> u == v }

  // Over a table that does not change, the pages spell out the simple list.
  lemma WalkIsListing<T(!new)>(tables: seq<Table<T>>, table: Table<T>, p: T -> bool, limit: nat, walk: seq<Served<T>>)
    requires limit >= 1 && WellFormed(table) && Unchanging(tables, table) && Walk(tables, p, limit, None, walk)
    ensures RowsOf(walk) == Listed(table, PlaceLe, p, None)
  {
    hide Walk, PlaceLe, RowsOf, Listed, WellFormed;
    var rows, listed := RowsOf(walk), Listed(table, PlaceLe, p, None);
    PlaceLeIsTotalOrder();
    WellFormedRows(table);
    ListedAscends(table, PlaceLe, p, None);
    WalkAscends(tables, p, limit, None, walk);
    forall r ensures multiset(rows)[r] == multiset(listed)[r] {
      ListedOnce(table, PlaceLe, p, None, r);
      AscendingCounts(rows, r);
      WalkHolds(tables, table, p, limit, walk, r);
    }
    SameCounts(multiset(rows), multiset(listed));
    AscendingUnique(rows, listed, PlaceLe);
  }

  lemma WellFormedRows<T(!new)>(table: Table<T>)
    requires WellFormed(table)
    ensures UniqueKeys(table) && forall r :: r in table ==> Faithful(r.key)
  {
  }

  lemma WalkHolds<T(!new)>(tables: seq<Table<T>>, table: Table<T>, p: T -> bool, limit: nat, walk: seq<Served<T>>,
                           r: Row<Cursor.Place, T>)
    requires limit >= 1 && WellFormed(table) && Unchanging(tables, table) && Walk(tables, p, limit, None, walk)
    ensures r in RowsOf(walk) <==> r in table && p(r.data)
  {
    hide Walk, PlaceLe, RowsOf, WellFormed;
    var rows := RowsOf(walk);
    WalkAscends(tables, p, limit, None, walk);
    if r in rows {
      WalkInventsNothing(tables, p, limit, None, walk, r);
      var i :| 0 <= i < |rows| && rows[i] == r;
      assert Past(PlaceLe, p, None)(rows[i]);
    }
    if r in table && p(r.data) {
      WellFormedRows(table);
      WalkMissesNothing(tables, p, limit, None, walk, r.key);
      var q :| q in rows && q.key == r.key;
      WalkInventsNothing(tables, p, limit, None, walk, q);
      SameKeySameRow(table, q, r);
    }
  }

  lemma AscendingCounts<T(!new)>(s: Table<T>, r: Row<Cursor.Place, T>)
    requires Ascending(s, PlaceLe)
    ensures multiset(s)[r] == if r in s then 1 else 0
  {
    UniqueCounts(s, r);
  }

  // A walk over a table that does not change ends: every page but the last is
  // full, so there are no more pages than rows, or one for an empty list.
  lemma {:induction false} WalkEnds<T(!new)>(table: Table<T>, p: T -> bool, limit: nat, from: Option<Cursor.Place>)
    returns (tables: seq<Table<T>>, walk: seq<Served<T>>)
    requires limit >= 1 && WellFormed(table) && (from.Some? ==> Faithful(from.value))
    ensures Unchanging(tables, table) && Walk(tables, p, limit, CursorAt(from), walk)
    ensures |walk| <= |Listed(table, PlaceLe, p, from)| || |walk| == 1
    ensures forall i :: 0 <= i < |walk| - 1 ==> |walk[i].rows| == limit
    decreases |Listed(table, PlaceLe, p, from)|
  {
    hide PlaceLe, Listed, KeysetPage, WellFormed, Faithful;
    var l := Listed(table, PlaceLe, p, from);
    PlaceLeIsTotalOrder();
    WellFormedRows(table);
    CursorResumes(table, p, limit, from);
    if |l| <= limit {
      tables, walk := [table], [Cut(l, limit)];
    } else {
      var pivot := l[limit - 1].key;
      ListedMembers(table, PlaceLe, p, from);
      assert l[limit - 1] in l;
      RestIsListed(table, PlaceLe, p, from, limit);
      var laterTables, later := WalkEnds(table, p, limit, Some(pivot));
      assert l[..limit + 1][..limit] == l[..limit];
      tables, walk := [table] + laterTables, [Cut(l, limit)] + later;
      PageInFront(tables, p, limit, CursorAt(from), walk);
    }
  }

  // A page, and the walk that goes on from its cursor.
  lemma PageInFront<T(!new)>(tables: seq<Table<T>>, p: T -> bool, limit: nat, cursor: Option<Text>,
                             walk: seq<Served<T>>)
    requires limit >= 1 && |walk| > 1 && |tables| > 1 && KeysetPage(tables[0], p, limit, cursor) == Ok(walk[0])
    requires walk[0].next.Some? && Walk(tables[1..], p, limit, walk[0].next, walk[1..])
    ensures Walk(tables, p, limit, cursor, walk)
  {
  }
}
