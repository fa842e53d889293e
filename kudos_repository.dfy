/**
 * The kudos repository over the `kudos` table: `createKudos` inserts one row
 * and returns it as a DTO, `listKudos` reads one page of the rows ordered by
 * `created_at`, newest first, with `LIMIT` and `OFFSET`.
 *
 * The table is append-only: rows are inserted and never updated or deleted.
 * `ORDER BY created_at DESC` leaves the order of rows with equal timestamps to
 * the database engine; the model takes the engine's order as a parameter that
 * must be a newest-first arrangement of the stored rows, proves that one
 * always exists, and proves that the timestamps at every position do not
 * depend on which one the engine picks.
 */
module KudosRepository {
  import opened Wrappers
  import opened JsDate
  import opened KudosTypes
  import opened KudosSchema
  import opened DbSchema

  /** `CreateKudosInput`: a parsed body together with the sender. */
  datatype NewKudos = NewKudos(senderId: string, receiverId: string, message: string, category: KudosCategory)

  /** Why an `INSERT` fails: the `id` is taken, or the category check rejects the row. */
  datatype DbError = PrimaryKeyViolation | CategoryCheckViolation

  // ---------------------------------------------------------------------------
  // mapRowToKudosDto
  // ---------------------------------------------------------------------------

  /** `mapRowToKudosDto`: the columns copied, the category read as a label, and
      `createdAt` rendered by `toISOString`; reading that string back gives the
      stored instant. */
  function MapRowToKudosDto(row: Row): (d: Kudos)
    requires RowInvariant(row)
    ensures d.id == row.id && d.senderId == row.senderId && d.receiverId == row.receiverId
    ensures d.message == row.message && d.category == row.category
    ensures ParseIso(d.createdAt) == Some(row.createdAt * 1000)
    ensures IsIsoDateTime(d.createdAt)
  {
    CategoryCheckIffCategory(row);
    IsoStringRoundTrip(row.createdAt * 1000);
    IsoStringIsIsoDateTime(row.createdAt * 1000);
    Kudos(row.id, row.senderId, row.receiverId, row.message, row.category, IsoString(row.createdAt * 1000))
  }

  /** `new Date(dto.createdAt).toISOString() === dto.createdAt` for every DTO
      the repository returns. */
  lemma CreatedAtIsStable(row: Row)
    requires RowInvariant(row)
    ensures var d := MapRowToKudosDto(row);
      ParseIso(d.createdAt).Some? && InIsoRange(ParseIso(d.createdAt).value)
      && IsoString(ParseIso(d.createdAt).value) == d.createdAt
  {
  }

  /** A row whose three ids are UUIDs maps to a DTO that `KudosDtoSchema` accepts. */
  lemma MappedRowConforms(row: Row)
    requires RowInvariant(row) && IsUuid(row.id) && IsUuid(row.senderId) && IsUuid(row.receiverId)
    ensures IsKudosDto(MapRowToKudosDto(row))
  {
  }

  // ---------------------------------------------------------------------------
  // ORDER BY created_at DESC
  // ---------------------------------------------------------------------------

  predicate SortedNewestFirst(s: seq<Row>) {
    forall i, j :: 0 <= i < j < |s| ==> s[i].createdAt >= s[j].createdAt
  }

  /** `order` is an arrangement of `rows` that `ORDER BY created_at DESC` may return. */
  predicate IsNewestFirst(order: seq<Row>, rows: seq<Row>) {
    multiset(order) == multiset(rows) && SortedNewestFirst(order)
  }

  /** Places `x` in front of the first row that is strictly older. */
  function InsertByTime(x: Row, s: seq<Row>): (r: seq<Row>)
    ensures multiset(r) == multiset(s) + multiset{x}
    ensures |r| == |s| + 1 && (r[0] == x || (s != [] && r[0] == s[0]))
  {
    if s == [] || s[0].createdAt <= x.createdAt then
      [x] + s
    else
      var rest := InsertByTime(x, s[1..]);
      assert s == [s[0]] + s[1..];
      [s[0]] + rest
  }

  /** Inserting into a sorted sequence keeps it sorted. */
  lemma {:induction false} InsertKeepsSorted(x: Row, s: seq<Row>)
    requires SortedNewestFirst(s)
    ensures SortedNewestFirst(InsertByTime(x, s))
  {
    if s == [] || s[0].createdAt <= x.createdAt {
      ConsSorted(x, s);
    } else {
      var rest := InsertByTime(x, s[1..]);
      TailSorted(s);
      InsertKeepsSorted(x, s[1..]);
      assert rest[0] == x || rest[0] == s[1];
      ConsSorted(s[0], rest);
    }
  }

  /** A row no older than the head of a sorted sequence can go in front of it. */
  lemma ConsSorted(h: Row, t: seq<Row>)
    requires SortedNewestFirst(t) && (t != [] ==> h.createdAt >= t[0].createdAt)
    ensures SortedNewestFirst([h] + t)
  {
    var s := [h] + t;
    forall i, j | 0 <= i < j < |s| ensures s[i].createdAt >= s[j].createdAt {
      if i == 0 { assert s[j] == t[j - 1]; } else { assert s[i] == t[i - 1] && s[j] == t[j - 1]; }
    }
  }

  /** A newest-first arrangement of `rows`; its existence shows that the
      requirement on the engine's order can always be met. */
  function SortNewestFirst(rows: seq<Row>): (order: seq<Row>)
    ensures IsNewestFirst(order, rows)
  {
    if rows == [] then []
    else
      assert rows == [rows[0]] + rows[1..];
      InsertKeepsSorted(rows[0], SortNewestFirst(rows[1..]));
      InsertByTime(rows[0], SortNewestFirst(rows[1..]))
  }

  /** The timestamps of a sequence of rows, as a multiset. */
  function KeyBag(s: seq<Row>): multiset<int> {
    if s == [] then multiset{} else multiset{s[0].createdAt} + KeyBag(s[1..])
  }

  lemma {:induction false} KeyBagAppend(u: seq<Row>, v: seq<Row>)
    ensures KeyBag(u + v) == KeyBag(u) + KeyBag(v)
    decreases |u|
  {
    if u == [] {
      assert u + v == v;
    } else {
      assert (u + v)[1..] == u[1..] + v;
      KeyBagAppend(u[1..], v);
    }
  }

  /** Rearranging rows rearranges their timestamps. */
  lemma {:induction false} KeyBagOfArrangement(a: seq<Row>, b: seq<Row>)
    requires multiset(a) == multiset(b)
    ensures KeyBag(a) == KeyBag(b)
    decreases |a|
  {
    if a != [] {
      assert a[0] in multiset(b);
      var j :| 0 <= j < |b| && b[j] == a[0];
      RemoveMatching(a, b, j);
      KeyBagOfArrangement(a[1..], b[..j] + b[j + 1..]);
      KeyBagRemoveAt(b, j);
    }
  }

  /** Taking the same row out of two arrangements leaves two arrangements. */
  lemma RemoveMatching(a: seq<Row>, b: seq<Row>, j: nat)
    requires multiset(a) == multiset(b) && a != [] && j < |b| && b[j] == a[0]
    ensures multiset(a[1..]) == multiset(b[..j] + b[j + 1..])
  {
    RemoveAt(b, j);
    assert a == [a[0]] + a[1..];
    assert multiset(a[1..]) == multiset(a) - multiset{a[0]};
  }

  lemma RemoveAt(b: seq<Row>, j: nat)
    requires j < |b|
    ensures multiset(b[..j] + b[j + 1..]) == multiset(b) - multiset{b[j]}
  {
    assert b == b[..j] + [b[j]] + b[j + 1..];
  }

  lemma KeyBagRemoveAt(b: seq<Row>, j: nat)
    requires j < |b|
    ensures KeyBag(b) == KeyBag(b[..j] + b[j + 1..]) + multiset{b[j].createdAt}
  {
    var pre, rest := b[..j], b[j..];
    assert pre + rest == b;
    KeyBagAppend(pre, rest);
    assert rest[0] == b[j] && rest[1..] == b[j + 1..];
    assert KeyBag(rest) == multiset{b[j].createdAt} + KeyBag(b[j + 1..]);
    KeyBagAppend(pre, b[j + 1..]);
  }

  /** The newest timestamp of a sorted sequence is at its head. */
  lemma {:induction false} HeadIsNewest(s: seq<Row>, v: int)
    requires SortedNewestFirst(s) && v in KeyBag(s)
    ensures s != [] && v <= s[0].createdAt
    decreases |s|
  {
    if v != s[0].createdAt {
      assert v in KeyBag(s[1..]);
      HeadIsNewest(s[1..], v);
    }
  }

  lemma TailSorted(s: seq<Row>)
    requires SortedNewestFirst(s) && s != []
    ensures SortedNewestFirst(s[1..])
  {
    forall i, j | 0 <= i < j < |s[1..]| ensures s[1..][i].createdAt >= s[1..][j].createdAt {
      assert s[1..][i] == s[i + 1] && s[1..][j] == s[j + 1];
    }
  }

  /** Two sorted sequences with the same timestamps have the same timestamp at
      every position. */
  lemma {:induction false} SortedKeysAgree(a: seq<Row>, b: seq<Row>)
    requires SortedNewestFirst(a) && SortedNewestFirst(b) && KeyBag(a) == KeyBag(b)
    ensures |a| == |b| && forall i :: 0 <= i < |a| ==> a[i].createdAt == b[i].createdAt
    decreases |a|
  {
    if a != [] && b != [] {
      var h := a[0].createdAt;
      assert b[0].createdAt == h by {
        HeadIsNewest(b, h);
        HeadIsNewest(a, b[0].createdAt);
      }
      assert KeyBag(a[1..]) == KeyBag(b[1..]) by {
        assert KeyBag(a[1..]) == KeyBag(a) - multiset{h};
        assert KeyBag(b[1..]) == KeyBag(b) - multiset{h};
      }
      TailSorted(a);
      TailSorted(b);
      SortedKeysAgree(a[1..], b[1..]);
      forall i | 1 <= i < |a| ensures a[i].createdAt == b[i].createdAt {
        assert a[i] == a[1..][i - 1] && b[i] == b[1..][i - 1];
      }
    }
  }

  /** Whatever order the engine picks among rows with equal timestamps, the
      page positions carry the same timestamps. */
  lemma OrderKeysDetermined(a: seq<Row>, b: seq<Row>, rows: seq<Row>)
    requires IsNewestFirst(a, rows) && IsNewestFirst(b, rows)
    ensures |a| == |b| && forall i :: 0 <= i < |a| ==> a[i].createdAt == b[i].createdAt
  {
    KeyBagOfArrangement(a, b);
    SortedKeysAgree(a, b);
  }

  /** No two rows were created in the same second. */
  predicate DistinctTimes(rows: seq<Row>) {
    forall i, j :: 0 <= i < |rows| && 0 <= j < |rows| && i != j ==> rows[i].createdAt != rows[j].createdAt
  }

  /** When no two timestamps are equal, the order is fully determined. */
  lemma DistinctTimesFixOrder(a: seq<Row>, b: seq<Row>, rows: seq<Row>)
    requires IsNewestFirst(a, rows) && IsNewestFirst(b, rows) && DistinctTimes(rows)
    ensures a == b
  {
    OrderKeysDetermined(a, b, rows);
    forall i | 0 <= i < |a| ensures a[i] == b[i] {
      assert a[i] in multiset(rows) && b[i] in multiset(rows);
      var p :| 0 <= p < |rows| && rows[p] == a[i];
      var q :| 0 <= q < |rows| && rows[q] == b[i];
    }
  }

  // ---------------------------------------------------------------------------
  // LIMIT / OFFSET
  // ---------------------------------------------------------------------------

  /** Where a page starts: a negative `OFFSET` counts as zero. */
  function PageStart(n: nat, offset: int): (k: nat)
    ensures k <= n
  {
    if offset < 0 then 0 else if offset > n then n else offset
  }

  /** `LIMIT limit OFFSET offset` over an ordered result: skips `offset` rows
      and keeps at most `limit`, a negative limit meaning no limit. */
  function Window<T>(s: seq<T>, offset: int, limit: int): (w: seq<T>)
    ensures limit < 0 ==> |w| == |s| - PageStart(|s|, offset)
    ensures limit >= 0 ==> |w| == if limit < |s| - PageStart(|s|, offset) then limit else |s| - PageStart(|s|, offset)
    ensures forall i :: 0 <= i < |w| ==> w[i] == s[PageStart(|s|, offset) + i]
  {
    var rest := s[PageStart(|s|, offset)..];
    if limit < 0 || limit >= |rest| then rest else rest[..limit]
  }

  /** Two consecutive pages together are the page of their combined size:
      paging neither skips nor repeats a row. */
  lemma WindowsTile<T>(s: seq<T>, offset: nat, a: nat, b: nat)
    ensures Window(s, offset, a) + Window(s, offset + a, b) == Window(s, offset, a + b)
  {
    var l, r, w := Window(s, offset, a), Window(s, offset + a, b), Window(s, offset, a + b);
    assert |l + r| == |w|;
    forall i | 0 <= i < |w| ensures (l + r)[i] == w[i] {
      if i >= |l| { assert (l + r)[i] == r[i - |l|]; }
    }
  }

  /** Every row stored in the table is valid, so is every row of an arrangement of it. */
  lemma ArrangementValid(order: seq<Row>, rows: seq<Row>)
    requires AllRowsValid(rows) && multiset(order) == multiset(rows)
    ensures AllRowsValid(order)
  {
    forall i | 0 <= i < |order| ensures RowInvariant(order[i]) {
      assert order[i] in multiset(rows);
      var k :| 0 <= k < |rows| && rows[k] == order[i];
    }
  }

  /** An arrangement of the rows has as many rows. */
  lemma ArrangementLength(order: seq<Row>, rows: seq<Row>)
    requires multiset(order) == multiset(rows)
    ensures |order| == |rows|
  {
    assert |multiset(order)| == |multiset(rows)|;
  }

  /** DTOs whose timestamps read back as instants that never increase. */
  predicate NewestFirstDtos(page: seq<Kudos>) {
    forall i, j :: 0 <= i < j < |page| ==>
      ParseIso(page[i].createdAt).Some? && ParseIso(page[j].createdAt).Some?
      && ParseIso(page[i].createdAt).value >= ParseIso(page[j].createdAt).value
  }

  /** `.map(mapRowToKudosDto)`. */
  function MapRows(w: seq<Row>): (dtos: seq<Kudos>)
    requires AllRowsValid(w)
    ensures |dtos| == |w| && forall i :: 0 <= i < |w| ==> dtos[i] == MapRowToKudosDto(w[i])
  {
    seq(|w|, i requires 0 <= i < |w| => MapRowToKudosDto(w[i]))
  }

  /** The DTOs of rows sorted newest first list their instants newest first. */
  lemma MappedRowsNewestFirst(w: seq<Row>)
    requires AllRowsValid(w) && SortedNewestFirst(w)
    ensures NewestFirstDtos(MapRows(w))
  {
    var dtos := MapRows(w);
    forall i, j | 0 <= i < j < |dtos|
      ensures ParseIso(dtos[i].createdAt).Some? && ParseIso(dtos[j].createdAt).Some?
      ensures ParseIso(dtos[i].createdAt).value >= ParseIso(dtos[j].createdAt).value
    {
      assert ParseIso(dtos[i].createdAt) == Some(w[i].createdAt * 1000);
      assert ParseIso(dtos[j].createdAt) == Some(w[j].createdAt * 1000);
    }
  }

  /** A window of valid rows holds valid rows. */
  lemma WindowValid(order: seq<Row>, offset: int, limit: int)
    requires AllRowsValid(order)
    ensures AllRowsValid(Window(order, offset, limit))
  {
    var w, k := Window(order, offset, limit), PageStart(|order|, offset);
    forall i | 0 <= i < |w| ensures RowInvariant(w[i]) {
      assert w[i] == order[k + i];
    }
  }

  /** A window of a sorted sequence is sorted. */
  lemma WindowSorted(order: seq<Row>, offset: int, limit: int)
    requires SortedNewestFirst(order)
    ensures SortedNewestFirst(Window(order, offset, limit))
  {
    var w, k := Window(order, offset, limit), PageStart(|order|, offset);
    forall i, j | 0 <= i < j < |w| ensures w[i].createdAt >= w[j].createdAt {
      assert w[i] == order[k + i] && w[j] == order[k + j];
    }
  }

  /** `listKudos({ limit, offset })` over the engine's newest-first order of the
      rows: the page has the rows from position `offset` on, at most `limit` of
      them, each mapped to a DTO, and their instants never increase. */
  function Page(order: seq<Row>, limit: int, offset: int): (page: seq<Kudos>)
    requires AllRowsValid(order) && SortedNewestFirst(order)
    ensures |page| == |Window(order, offset, limit)|
    ensures forall i :: 0 <= i < |page| ==> page[i] == MapRowToKudosDto(order[PageStart(|order|, offset) + i])
    ensures NewestFirstDtos(page)
  {
    WindowValid(order, offset, limit);
    WindowSorted(order, offset, limit);
    MappedRowsNewestFirst(Window(order, offset, limit));
    MapRows(Window(order, offset, limit))
  }

  // ---------------------------------------------------------------------------
  // The table
  // ---------------------------------------------------------------------------

  /** The row `createKudos` inserts: the input's columns, the generated `id`
      and the insertion time in seconds. */
  function NewRow(input: NewKudos, id: string, now: int): Row {
    Row(id, input.senderId, input.receiverId, input.message, input.category, now)
  }

  /** The `kudos` table. Its rows are kept in insertion order. */
  class KudosTable {
    var rows: seq<Row>

    ghost predicate Valid()
      reads this
    {
      TableInvariant(rows)
    }

    /** A freshly migrated, empty table. */
    constructor ()
      ensures Valid() && rows == []
    {
      rows := [];
    }

    /** `INSERT INTO kudos ... RETURNING *`: the row is appended when its `id`
        is new and its category passes the check; otherwise the statement
        fails and the table is unchanged. */
    method Insert(row: Row) returns (r: Result<Row, DbError>)
      requires Valid() && StorableSeconds(row.createdAt)
      modifies this
      ensures Valid()
      ensures r.Ok? <==> row.id !in Ids(old(rows)) && IsKudosCategory(row.category)
      ensures r.Ok? ==> r.value == row && rows == old(rows) + [row]
      ensures r.Err? ==> rows == old(rows)
      ensures r.Err? ==> (r.error == PrimaryKeyViolation <==> row.id in Ids(old(rows)))
    {
      CategoryCheckIffCategory(row);
      if row.id in Ids(rows) {
        r := Err(PrimaryKeyViolation);
      } else if !SatisfiesCategoryCheck(row) {
        r := Err(CategoryCheckViolation);
      } else {
        AppendKeepsInvariant(rows, row);
        rows := rows + [row];
        r := Ok(row);
      }
    }

    /** `createKudos(input)`. The generated id (`crypto.randomUUID()`) and the
        time (`unixepoch()`) are parameters; the id has the layout
        `randomUUID` produces. A new id inserts exactly one row, the input with
        that id and time, and returns it as a DTO, which `KudosDtoSchema`
        accepts when the sender and receiver are UUIDs, as the handler
        ensures; a taken id fails and changes nothing. The category check
        never fails, because the input's category is a label. */
    method CreateKudos(input: NewKudos, freshId: string, now: int) returns (r: Result<Kudos, DbError>)
      requires Valid() && StorableSeconds(now) && IsUuid(freshId)
      modifies this
      ensures Valid()
      ensures r.Ok? <==> freshId !in Ids(old(rows))
      ensures r.Ok? ==> IsUuid(r.value.id)
      ensures r.Ok? && IsUuid(input.senderId) && IsUuid(input.receiverId) ==> IsKudosDto(r.value)
      ensures r.Ok? ==> rows == old(rows) + [NewRow(input, freshId, now)]
      ensures r.Ok? ==> r.value == MapRowToKudosDto(NewRow(input, freshId, now))
      ensures r.Err? ==> rows == old(rows) && r.error == PrimaryKeyViolation
    {
      var inserted := Insert(NewRow(input, freshId, now));
      if inserted.Err? {
        r := Err(inserted.error);
      } else {
        CategoryCheckIffCategory(inserted.value);
        if IsUuid(input.senderId) && IsUuid(input.receiverId) {
          MappedRowConforms(inserted.value);
        }
        r := Ok(MapRowToKudosDto(inserted.value));
      }
    }

    /** `listKudos({ limit, offset })`, given the order the engine returns the
        rows in. The page is read from that order and the table is unchanged. */
    method ListKudos(limit: int, offset: int, engineOrder: seq<Row>) returns (page: seq<Kudos>)
      requires Valid() && IsNewestFirst(engineOrder, rows)
      ensures |engineOrder| == |rows| && AllRowsValid(engineOrder)
      ensures page == Page(engineOrder, limit, offset)
      ensures |page| == |Window(rows, offset, limit)|
      ensures NewestFirstDtos(page)
    {
      ArrangementValid(engineOrder, rows);
      ArrangementLength(engineOrder, rows);
      page := Page(engineOrder, limit, offset);
    }
  }

  // ---------------------------------------------------------------------------
  // Properties of the repository as a whole
  // ---------------------------------------------------------------------------

  /** An empty table lists nothing, whatever the limit and offset. */
  lemma EmptyTableListsNothing(limit: int, offset: int)
    ensures Page([], limit, offset) == []
  {
  }

  /** Consecutive pages of the same order read it without gaps or repeats. */
  lemma PagesTile(order: seq<Row>, offset: nat, a: nat, b: nat)
    requires AllRowsValid(order)
    requires SortedNewestFirst(order)
    ensures Page(order, a, offset) + Page(order, b, offset + a) == Page(order, a + b, offset)
  {
    WindowsTile(order, offset, a, b);
    var l, r, w := Page(order, a, offset), Page(order, b, offset + a), Page(order, a + b, offset);
    assert |l + r| == |w|;
    forall i | 0 <= i < |w| ensures (l + r)[i] == w[i] {
      if i >= |l| { assert (l + r)[i] == r[i - |l|]; }
    }
  }

  // The three rows the repository's sorting test seeds, created at midnight
  // UTC on 2024-01-01, 2024-01-02 and 2024-01-03.

  const SeedSender: string := "11111111-1111-4111-8111-111111111111"
  const SeedReceiver: string := "22222222-2222-4222-8222-222222222222"

  function SeededRows(): seq<Row> {
    [ Row("00000000-0000-4000-8000-000000000001", SeedSender, SeedReceiver, "old", "Teamwork", 1704067200),
      Row("00000000-0000-4000-8000-000000000002", SeedSender, SeedReceiver, "middle", "Teamwork", 1704153600),
      Row("00000000-0000-4000-8000-000000000003", SeedSender, SeedReceiver, "new", "Teamwork", 1704240000) ]
  }

  /** The seeded rows are valid rows of the table. */
  lemma SeededRowsValid()
    ensures AllRowsValid(SeededRows())
  {
    var rows := SeededRows();
    CategoryCheckIffCategory(rows[0]);
    CategoryCheckIffCategory(rows[1]);
    CategoryCheckIffCategory(rows[2]);
    assert RowInvariant(rows[0]) && RowInvariant(rows[1]) && RowInvariant(rows[2]);
  }

  /** Their ids differ, so inserting them one after another keeps the key. */
  lemma SeededIdsUnique()
    ensures UniqueIds(SeededRows())
  {
    var rows := SeededRows();
    assert rows[0].id[35] == '1' && rows[1].id[35] == '2' && rows[2].id[35] == '3';
  }

  /** Inserted one after another into an empty table, the seeded rows keep its
      integrity: every row is valid and the ids form a key. */
  lemma SeededTableValid()
    ensures TableInvariant(SeededRows())
  {
    SeededRowsValid();
    SeededIdsUnique();
  }

  /** Their timestamps are distinct, so the engine has one order to choose. */
  lemma SeededOrder(order: seq<Row>)
    requires IsNewestFirst(order, SeededRows())
    ensures order == [SeededRows()[2], SeededRows()[1], SeededRows()[0]]
  {
    var rows := SeededRows();
    var expected := [rows[2], rows[1], rows[0]];
    assert rows == [rows[0], rows[1], rows[2]];
    assert multiset(expected) == multiset(rows);
    assert SortedNewestFirst(expected);
    assert DistinctTimes(rows);
    DistinctTimesFixOrder(order, expected, rows);
  }

  /** Whatever order the engine returns, the first page of two is `new`,
      `middle` and the second is `old`. */
  lemma SeededPages(order: seq<Row>)
    requires IsNewestFirst(order, SeededRows())
    ensures AllRowsValid(order)
    ensures var first := Page(order, 2, 0);
      |first| == 2 && first[0].message == "new" && first[1].message == "middle"
    ensures var second := Page(order, 2, 2);
      |second| == 1 && second[0].message == "old"
  {
    SeededOrder(order);
    SeededRowsValid();
    ArrangementValid(order, SeededRows());
    var first, second := Page(order, 2, 0), Page(order, 2, 2);
    assert |order| == 3;
    assert |first| == 2 && |second| == 1;
    assert first[0].message == "new" && first[1].message == "middle" && second[0].message == "old";
  }
}
