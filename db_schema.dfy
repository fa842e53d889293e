/**
 * The `kudos` table: its columns, the primary key on `id` and the check
 * constraint that keeps `category` inside the three labels. A row holds
 * `created_at` as the integer number of seconds since the epoch, which is how
 * a `timestamp`-mode integer column stores it.
 */
module DbSchema {
  import opened JsDate
  import opened KudosTypes

  /** One stored row; every column is NOT NULL, so every field is present. */
  datatype Row = Row(
    id: string,
    senderId: string,
    receiverId: string,
    message: string,
    category: string,
    createdAt: int)

  /** `'label'`: a category as an SQL string literal. */
  function Quote(s: string): (q: string)
    ensures |q| == |s| + 2 && q[0] == '\'' && q[|q| - 1] == '\'' && q[1..|q| - 1] == s
  {
    "'" + s + "'"
  }

  /** The quoted labels joined by `, `. */
  function JoinQuoted(labels: seq<string>): string {
    if labels == [] then ""
    else if |labels| == 1 then Quote(labels[0])
    else Quote(labels[0]) + ", " + JoinQuoted(labels[1..])
  }

  /** `categoryListSql`, the list the check constraint tests against. */
  function CategoryListSql(): string {
    JoinQuoted(KudosCategories)
  }

  /** The check constraint's list is the three labels, quoted, in declaration order. */
  lemma CategoryListSqlText()
    ensures CategoryListSql() == "'Great Job', 'Thank You', 'Teamwork'"
  {
    var labels := KudosCategories;
    assert labels[1..] == ["Thank You", "Teamwork"];
    TwoLabelsSql();
    assert Quote("Great Job") == "'Great Job'";
    assert CategoryListSql() == "'Great Job'" + ", " + "'Thank You', 'Teamwork'";
    ThreeLabelsText();
  }

  lemma ThreeLabelsText()
    ensures "'Great Job'" + ", " + "'Thank You', 'Teamwork'" == "'Great Job', 'Thank You', 'Teamwork'"
  {
  }

  lemma TwoLabelsSql()
    ensures JoinQuoted(["Thank You", "Teamwork"]) == "'Thank You', 'Teamwork'"
  {
    assert ["Thank You", "Teamwork"][1..] == ["Teamwork"];
    OneLabelSql();
    assert Quote("Thank You") == "'Thank You'";
    assert JoinQuoted(["Thank You", "Teamwork"]) == "'Thank You'" + ", " + "'Teamwork'";
    TwoLabelsText();
  }

  lemma TwoLabelsText()
    ensures "'Thank You'" + ", " + "'Teamwork'" == "'Thank You', 'Teamwork'"
  {
  }

  lemma OneLabelSql()
    ensures JoinQuoted(["Teamwork"]) == "'Teamwork'"
  {
    assert JoinQuoted(["Teamwork"]) == "'" + "Teamwork" + "'";
  }

  /** The literals of `categoryListSql`, one per label, in order. */
  function QuotedLabels(): (q: seq<string>)
    ensures |q| == |KudosCategories|
    ensures forall i :: 0 <= i < |q| ==> q[i] == Quote(KudosCategories[i])
  {
    seq(|KudosCategories|, i requires 0 <= i < |KudosCategories| => Quote(KudosCategories[i]))
  }

  /** `kudos_category_check`: `category in ('Great Job', 'Thank You', 'Teamwork')`,
      an SQL `IN`: the category, as a literal, is one of the list's literals. */
  predicate SatisfiesCategoryCheck(row: Row) {
    Quote(row.category) in QuotedLabels()
  }

  /** The check constraint admits exactly the rows whose category is a label. */
  lemma CategoryCheckIffCategory(row: Row)
    ensures SatisfiesCategoryCheck(row) <==> IsKudosCategory(row.category)
  {
    var q := QuotedLabels();
    if SatisfiesCategoryCheck(row) {
      var i :| 0 <= i < |q| && q[i] == Quote(row.category);
      assert row.category == Quote(row.category)[1..|row.category| + 1];
      assert row.category == KudosCategories[i];
    } else {
      forall i | 0 <= i < |KudosCategories| ensures row.category != KudosCategories[i] {
        assert q[i] != Quote(row.category);
      }
    }
  }

  /** The instants the model keeps in `created_at`: from the epoch up to the
      end of year 9999, so the value renders with a four-digit year. */
  predicate StorableSeconds(seconds: int) {
    InIsoRange(seconds * 1000)
  }

  /** What every stored row satisfies: the check constraint and a timestamp the
      model can render. */
  predicate RowInvariant(row: Row) {
    SatisfiesCategoryCheck(row) && StorableSeconds(row.createdAt)
  }

  function Ids(rows: seq<Row>): set<string> {
    set i | 0 <= i < |rows| :: rows[i].id
  }

  /** The primary key: no two rows share an `id`. */
  predicate UniqueIds(rows: seq<Row>) {
    forall i, j :: 0 <= i < |rows| && 0 <= j < |rows| && i != j ==> rows[i].id != rows[j].id
  }

  predicate AllRowsValid(rows: seq<Row>) {
    forall i :: 0 <= i < |rows| ==> RowInvariant(rows[i])
  }

  /** The table's integrity: every row is valid and `id` is a key. */
  predicate TableInvariant(rows: seq<Row>) {
    AllRowsValid(rows) && UniqueIds(rows)
  }

  /** Appending a valid row whose id is new keeps the table's integrity. */
  lemma AppendKeepsInvariant(rows: seq<Row>, row: Row)
    requires TableInvariant(rows) && RowInvariant(row) && row.id !in Ids(rows)
    ensures TableInvariant(rows + [row])
    ensures Ids(rows + [row]) == Ids(rows) + {row.id}
  {
    var s := rows + [row];
    forall i, j | 0 <= i < |s| && 0 <= j < |s| && i != j ensures s[i].id != s[j].id {
      if i < |rows| && j < |rows| {
      } else if i < |rows| {
        assert s[i].id in Ids(rows);
      } else {
        assert s[j].id in Ids(rows);
      }
    }
    assert forall i :: 0 <= i < |rows| ==> s[i] == rows[i];
    assert s[|rows|] == row;
  }
}
