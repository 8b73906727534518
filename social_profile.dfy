/**
 * The SQL text and arguments the social-profile repository sends to
 * PostgreSQL: the batched `INSERT ... VALUES ($1, ...), (...)` statements of
 * the two upserts, the name-to-id maps built from the rows they select, and
 * the dynamic `UPDATE ... SET col = $k, ...` of `UpdateTTOUser`. The
 * database itself is a parameter: the replies it gives to each call.
 */
module SocialProfile {
  import opened Wrappers
  import opened GoValues
  import opened GoStrings

  // ---------------------------------------------------------------- statements

  /** A query argument as handed to `database/sql`; `Time` is a `time.Time`, `Raw` an interface value passed as is. */
  datatype Arg = Text(s: string) | Int(i: int) | Time(t: int) | TextArray(items: seq<string>)
               | JsonBytes(b: seq<bv8>) | Raw(v: Value)

  /** One SQL statement with its positional arguments (`$1` is `args[0]`). */
  datatype Statement = Statement(sql: string, args: seq<Arg>)

  /** The errors the repository methods return, one per failing database call. */
  datatype DbError = BeginFailed | ExecFailed | QueryFailed | ScanFailed | IterationFailed | CommitFailed

  /** The placeholder `$k`. */
  function Placeholder(k: nat): string
  {
    "$" + NatToString(k)
  }

  /** The argument number a placeholder names, read back from its text; `None` if it is not one. */
  function PlaceholderNumber(p: string): Option<nat>
  {
    if |p| > 0 && p[0] == '$' then ParseDecimal(p[1..]) else None
  }

  /** `$k` names argument `k`: rendering and reading back agree. */
  lemma PlaceholderReadsBack(k: nat)
    ensures PlaceholderNumber(Placeholder(k)) == Some(k)
  {
    assert Placeholder(k)[1..] == NatToString(k);
    ParseNatToString(k);
  }

  /** The placeholder numbers of row `i` of a VALUES clause with `width` columns. */
  function RowIndices(width: nat, i: nat): seq<nat>
  {
    seq(width, j requires 0 <= j < width => width * i + j + 1)
  }

  /** Concatenation of a sequence of sequences. */
  function Flatten<T>(rows: seq<seq<T>>): seq<T>
  {
    if rows == [] then [] else Flatten(rows[..|rows| - 1]) + rows[|rows| - 1]
  }

  lemma MulStep(w: nat, n: nat)
    ensures w * (n + 1) == w * n + w
  {
  }

  lemma {:induction false} MulMonotone(w: nat, a: nat, b: nat)
    requires a <= b
    ensures w * a <= w * b
    decreases b - a
  {
    if a < b {
      MulMonotone(w, a, b - 1);
      MulStep(w, b - 1);
    }
  }

  lemma {:induction false} FlattenLength<T>(rows: seq<seq<T>>, width: nat)
    requires forall i :: 0 <= i < |rows| ==> |rows[i]| == width
    ensures |Flatten(rows)| == width * |rows|
  {
    if rows != [] {
      var n := |rows| - 1;
      FlattenLength(rows[..n], width);
      MulStep(width, n);
    }
  }

  lemma {:induction false} FlattenAt<T>(rows: seq<seq<T>>, width: nat, i: nat, j: nat)
    requires forall k :: 0 <= k < |rows| ==> |rows[k]| == width
    requires i < |rows| && j < width
    ensures width * i + j < |Flatten(rows)|
    ensures Flatten(rows)[width * i + j] == rows[i][j]
  {
    var n := |rows| - 1;
    FlattenLength(rows[..n], width);
    FlattenLength(rows, width);
    if i < n {
      FlattenAt(rows[..n], width, i, j);
      assert rows[..n][i] == rows[i];
    } else {
      MulMonotone(width, i, n);
    }
  }

  /** Row-major layout: `k` is column `k % width` of row `k / width`. */
  lemma DivMod(k: nat, width: nat)
    requires width > 0
    ensures k == width * (k / width) + k % width
  {
  }

  /** The placeholders of `n` rows of `width` columns, read in order, are $1 .. $width*n. */
  lemma IndicesConsecutive(width: nat, n: nat)
    ensures Flatten(seq(n, i requires 0 <= i < n => RowIndices(width, i)))
      == seq(width * n, k requires 0 <= k < width * n => k + 1)
  {
    var idx := seq(n, i requires 0 <= i < n => RowIndices(width, i));
    FlattenLength(idx, width);
    var all := Flatten(idx);
    forall k | 0 <= k < width * n
      ensures all[k] == k + 1
    {
      IndexAt(idx, width, n, k);
    }
  }

  lemma IndexAt(idx: seq<seq<nat>>, width: nat, n: nat, k: nat)
    requires idx == seq(n, i requires 0 <= i < n => RowIndices(width, i))
    requires k < width * n
    ensures k < |Flatten(idx)| && Flatten(idx)[k] == k + 1
  {
    assert width > 0;
    var i, j := k / width, k % width;
    DivMod(k, width);
    if i >= n {
      MulMonotone(width, n, i);
      assert false;
    }
    FlattenAt(idx, width, i, j);
  }

  /**
   * In a VALUES clause of `|rows|` rows of `width` columns whose arguments
   * are the rows laid end to end, the placeholders, read in order, are
   * exactly `$1` .. `$width*|rows|`, one per argument, and the j-th
   * placeholder of row i is bound to column j of row i.
   */
  lemma PlaceholdersBindRows<T>(rows: seq<seq<T>>, width: nat)
    requires forall i :: 0 <= i < |rows| ==> |rows[i]| == width
    ensures Flatten(seq(|rows|, i requires 0 <= i < |rows| => RowIndices(width, i)))
      == seq(width * |rows|, k requires 0 <= k < width * |rows| => k + 1)
    ensures |Flatten(rows)| == width * |rows|
    ensures forall i, j :: 0 <= i < |rows| && 0 <= j < width ==>
      1 <= RowIndices(width, i)[j] <= |Flatten(rows)|
      && Flatten(rows)[RowIndices(width, i)[j] - 1] == rows[i][j]
  {
    IndicesConsecutive(width, |rows|);
    FlattenLength(rows, width);
    forall i, j | 0 <= i < |rows| && 0 <= j < width
      ensures 1 <= RowIndices(width, i)[j] <= |Flatten(rows)|
      ensures Flatten(rows)[RowIndices(width, i)[j] - 1] == rows[i][j]
    {
      FlattenAt(rows, width, i, j);
    }
  }

  // ---------------------------------------------------------------- row folds

  /** One selected row: an id and a name (or title). */
  datatype Row = Row(id: int, name: string)

  /**
   * The rows a SELECT yields, one `rows.Next()` at a time (`None` when
   * `Scan` fails on that row), and whether `rows.Err()` reports an error.
   */
  datatype Rows = Rows(items: seq<Option<Row>>, iterErr: bool)

  /** The map the scan loop builds: each name to the id of its row, later rows overwriting earlier ones. */
  function IdMap(rows: seq<Row>): map<string, int>
  {
    if rows == [] then map[]
    else IdMap(rows[..|rows| - 1])[rows[|rows| - 1].name := rows[|rows| - 1].id]
  }

  /**
   * A name is in the map exactly when some row has it, and it maps to the
   * id of the last such row.
   */
  lemma {:induction false} IdMapIsLastRowPerName(rows: seq<Row>, name: string)
    ensures name in IdMap(rows) <==> exists i :: 0 <= i < |rows| && rows[i].name == name
    ensures name in IdMap(rows) ==>
      exists i :: 0 <= i < |rows| && rows[i].name == name && IdMap(rows)[name] == rows[i].id
        && forall j :: i < j < |rows| ==> rows[j].name != name
  {
    if rows != [] {
      var n := |rows| - 1;
      IdMapIsLastRowPerName(rows[..n], name);
      assert forall i :: 0 <= i < n ==> rows[..n][i] == rows[i];
      if rows[n].name != name && name in IdMap(rows) {
        var i :| 0 <= i < n && rows[..n][i].name == name && IdMap(rows[..n])[name] == rows[..n][i].id
          && forall j :: i < j < n ==> rows[..n][j].name != name;
        assert forall j :: i < j < |rows| ==> rows[j].name != name;
      }
    }
  }

  /** All scanned rows, or `None` if a scan failed. */
  function AllScanned(items: seq<Option<Row>>): (r: Option<seq<Row>>)
    ensures r.Some? <==> forall i :: 0 <= i < |items| ==> items[i].Some?
    ensures r.Some? ==> |r.value| == |items| && forall i :: 0 <= i < |items| ==> r.value[i] == items[i].value
  {
    if items == [] then Some([])
    else
      var front := AllScanned(items[..|items| - 1]);
      assert forall i :: 0 <= i < |items| - 1 ==> items[..|items| - 1][i] == items[i];
      match items[|items| - 1]
      case None => None
      case Some(row) => if front.Some? then Some(front.value + [row]) else None
  }

  /**
   * The `for rows.Next()` loop: scan each row into the map; the first row
   * that fails to scan ends the operation with an error (shared by both
   * upserts).
   */
  method ScanIDs(items: seq<Option<Row>>) returns (r: Result<map<string, int>, DbError>)
    ensures AllScanned(items).Some? ==> r == Ok(IdMap(AllScanned(items).value))
    ensures AllScanned(items).None? ==> r == Err(ScanFailed)
  {
    var ids: map<string, int> := map[];
    var i := 0;
    while i < |items|
      invariant 0 <= i <= |items|
      invariant AllScanned(items[..i]).Some? && ids == IdMap(AllScanned(items[..i]).value)
    {
      assert items[..i + 1][..i] == items[..i];
      if items[i].None? {
        assert AllScanned(items).None? by {
          assert !(forall k :: 0 <= k < |items| ==> items[k].Some?);
        }
        return Err(ScanFailed);
      }
      var row := items[i].value;
      ids := ids[row.name := row.id];
      i := i + 1;
    }
    assert items[..i] == items;
    r := Ok(ids);
  }

  // ---------------------------------------------------------------- upserts

  /** The replies the database gives to the calls of one upsert, in call order. */
  datatype DbReplies = DbReplies(beginOk: bool, execOk: bool, selected: Option<Rows>, commitOk: bool)

  /**
   * The transaction both upserts run after building their INSERT: begin,
   * execute the INSERT, run the SELECT, scan its rows, commit. Any failing
   * call ends it with that call's error (and rolls back); it returns the
   * result and the statements sent.
   */
  function Transaction(db: DbReplies, insert: Statement, select: Statement)
    : (out: (Result<map<string, int>, DbError>, seq<Statement>))
    ensures out.0.Ok? <==> db.beginOk && db.execOk && db.selected.Some?
                           && AllScanned(db.selected.value.items).Some?
                           && !db.selected.value.iterErr && db.commitOk
    ensures out.0.Ok? ==> out.0.value == IdMap(AllScanned(db.selected.value.items).value)
                          && out.1 == [insert, select]
  {
    if !db.beginOk then (Err(BeginFailed), [])
    else if !db.execOk then (Err(ExecFailed), [insert])
    else if db.selected.None? then (Err(QueryFailed), [insert, select])
    else match AllScanned(db.selected.value.items)
      case None => (Err(ScanFailed), [insert, select])
      case Some(rows) =>
        if db.selected.value.iterErr then (Err(IterationFailed), [insert, select])
        else if !db.commitOk then (Err(CommitFailed), [insert, select])
        else (Ok(IdMap(rows)), [insert, select])
  }

  /**
   * The transactional tail shared by both upserts: execute the INSERT, run
   * the SELECT, scan every row, check the iteration error and commit; the
   * first failure returns its error (the deferred rollback is not modelled).
   */
  method InsertThenSelect(db: DbReplies, insert: Statement, select: Statement)
    returns (r: Result<map<string, int>, DbError>, sent: seq<Statement>)
    requires db.beginOk
    ensures (r, sent) == Transaction(db, insert, select)
  {
    sent := [insert];
    if !db.execOk {
      return Err(ExecFailed), sent;
    }
    sent := [insert, select];
    if db.selected.None? {
      return Err(QueryFailed), sent;
    }
    var rows := db.selected.value;
    r := ScanIDs(rows.items);
    if r.Err? {
      return r, sent;
    }
    if rows.iterErr {
      return Err(IterationFailed), sent;
    }
    if !db.commitOk {
      return Err(CommitFailed), sent;
    }
  }

  /** The arguments of one content-interest row: name, created_by, updated_by, created_at, updated_at, status. */
  function ContentRow(name: string, userID: int, now: int): seq<Arg>
  {
    [Text(name), Int(userID), Int(userID), Time(now), Time(now), Int(1)]
  }

  /** The arguments of one brand row: title, positioning, created_by, updated_by, created_at, updated_at, client_id, status. */
  function BrandRow(title: string, userID: int, clientID: int, now: int): seq<Arg>
  {
    [Text(title), Int(1), Int(userID), Int(userID), Time(now), Time(now), Int(clientID), Int(1)]
  }

  function ContentRows(names: seq<string>, userID: int, now: int): seq<seq<Arg>>
  {
    seq(|names|, i requires 0 <= i < |names| => ContentRow(names[i], userID, now))
  }

  function BrandRows(names: seq<string>, userID: int, clientID: int, now: int): seq<seq<Arg>>
  {
    seq(|names|, i requires 0 <= i < |names| => BrandRow(names[i], userID, clientID, now))
  }

  /** The content-interest INSERT template around a VALUES list, with its exact whitespace. */
  function ContentInsertTemplate(values: string): string
  {
    ContentInsertHead + values + ContentInsertTail
  }

  const ContentInsertHead := "\n\t\tINSERT INTO cms.content_interest (\n\t\t\tname, created_by, updated_by, created_at, updated_at, status\n\t\t)\n\t\tVALUES "
  const ContentInsertTail := "\n\t\tON CONFLICT (name) DO NOTHING;\n\t"

  /** The brand INSERT template around a VALUES list, with its exact whitespace. */
  function BrandInsertTemplate(values: string): string
  {
    BrandInsertHead + values + BrandInsertTail
  }

  const BrandInsertHead := "\n\t\tINSERT INTO cms.brands (\n\t\t\ttitle, positioning, created_by, updated_by, created_at, updated_at, client_id, status\n\t\t)\n\t\tVALUES "
  const BrandInsertTail := "\n\t\tON CONFLICT (title) DO NOTHING;\n\t"

  /** The batched INSERT of `n` content interests. */
  function ContentInsertSql(n: nat): string
  {
    ContentInsertTemplate(ContentValues(n))
  }

  /** The batched INSERT of `n` brands. */
  function BrandInsertSql(n: nat): string
  {
    BrandInsertTemplate(BrandValues(n))
  }

  const ContentSelectSql := "SELECT id, name FROM cms.content_interest WHERE name = ANY($1);"
  const BrandSelectSql := "SELECT id, title FROM cms.brands WHERE title = ANY($1);"

  /**
   * The content-interest INSERT: group i of the VALUES text is the group of
   * `RowIndices(6, i)`, so its j-th placeholder reads back as 6i+j+1 and is
   * bound, in order, to name i, the user id twice, the time twice and
   * status 1; the groups number $1 .. $6n and the argument count is 6n.
   */
  lemma ContentInsertBindsRows(names: seq<string>, userID: int, now: int)
    ensures |Flatten(ContentRows(names, userID, now))| == 6 * |names|
    ensures forall i :: 0 <= i < |names| ==> ContentGroups(|names|)[i] == Group(RowIndices(6, i))
    ensures Flatten(seq(|names|, i requires 0 <= i < |names| => RowIndices(6, i)))
         == seq(6 * |names|, k requires 0 <= k < 6 * |names| => k + 1)
    ensures forall i, j :: 0 <= i < |names| && 0 <= j < 6 ==>
              RowIndices(6, i)[j] == 6 * i + j + 1
              && PlaceholderNumber(GroupParts(RowIndices(6, i))[j]) == Some(6 * i + j + 1)
              && Flatten(ContentRows(names, userID, now))[RowIndices(6, i)[j] - 1] == ContentRow(names[i], userID, now)[j]
  {
    ContentArgsAt(names, userID, now);
    IndicesConsecutive(6, |names|);
    ContentGroupsNumberRows(|names|);
  }

  /** Argument 6i+j of the content INSERT, placeholder $6i+j+1, is column j of row i. */
  lemma ContentArgsAt(names: seq<string>, userID: int, now: int)
    ensures |Flatten(ContentRows(names, userID, now))| == 6 * |names|
    ensures forall i, j :: 0 <= i < |names| && 0 <= j < 6 ==>
              RowIndices(6, i)[j] == 6 * i + j + 1
              && Flatten(ContentRows(names, userID, now))[RowIndices(6, i)[j] - 1] == ContentRow(names[i], userID, now)[j]
  {
    var rows := ContentRows(names, userID, now);
    FlattenLength(rows, 6);
    forall i, j | 0 <= i < |names| && 0 <= j < 6
      ensures RowIndices(6, i)[j] == 6 * i + j + 1
      ensures Flatten(rows)[RowIndices(6, i)[j] - 1] == ContentRow(names[i], userID, now)[j]
    {
      FlattenAt(rows, 6, i, j);
    }
  }

  /** Group i of the content VALUES list is the group of `RowIndices(6, i)`, read back as 6i+1 .. 6i+6. */
  lemma ContentGroupsNumberRows(n: nat)
    ensures forall i :: 0 <= i < n ==> ContentGroups(n)[i] == Group(RowIndices(6, i))
    ensures forall i, j :: 0 <= i < n && 0 <= j < 6 ==>
              PlaceholderNumber(GroupParts(RowIndices(6, i))[j]) == Some(6 * i + j + 1)
  {
    forall i | 0 <= i < n
      ensures ContentGroups(n)[i] == Group(RowIndices(6, i))
      ensures forall j :: 0 <= j < 6 ==> PlaceholderNumber(GroupParts(RowIndices(6, i))[j]) == Some(6 * i + j + 1)
    {
      ContentGroupsAt(n, i);
    }
  }

  lemma ContentGroupsAt(n: nat, i: nat)
    requires i < n
    ensures ContentGroups(n)[i] == Group(RowIndices(6, i))
    ensures forall j :: 0 <= j < 6 ==> PlaceholderNumber(GroupParts(RowIndices(6, i))[j]) == Some(6 * i + j + 1)
  {
    assert ContentGroups(n)[i] == Group(RowIndices(6, i)) by {
      SixIndices(i);
      assert ContentGroups(n)[i] == SixPlaceholders(6 * i + 1);
    }
    GroupNamesItsIndices(RowIndices(6, i));
  }

  lemma SixIndices(i: nat)
    ensures RowIndices(6, i) == [6 * i + 1, 6 * i + 2, 6 * i + 3, 6 * i + 4, 6 * i + 5, 6 * i + 6]
  {
  }

  /**
   * The brand INSERT: group i of the VALUES text is the group of
   * `RowIndices(8, i)`, so its j-th placeholder reads back as 8i+j+1 and is
   * bound to title i, positioning 1, the user id twice, the time twice, the
   * client id and status 1; the groups number $1 .. $8n and the argument
   * count is 8n.
   */
  lemma BrandInsertBindsRows(names: seq<string>, userID: int, clientID: int, now: int)
    ensures |Flatten(BrandRows(names, userID, clientID, now))| == 8 * |names|
    ensures forall i :: 0 <= i < |names| ==> BrandGroups(|names|)[i] == Group(RowIndices(8, i))
    ensures Flatten(seq(|names|, i requires 0 <= i < |names| => RowIndices(8, i)))
         == seq(8 * |names|, k requires 0 <= k < 8 * |names| => k + 1)
    ensures forall i, j :: 0 <= i < |names| && 0 <= j < 8 ==>
              RowIndices(8, i)[j] == 8 * i + j + 1
              && PlaceholderNumber(GroupParts(RowIndices(8, i))[j]) == Some(8 * i + j + 1)
              && Flatten(BrandRows(names, userID, clientID, now))[RowIndices(8, i)[j] - 1] == BrandRow(names[i], userID, clientID, now)[j]
  {
    BrandArgsAt(names, userID, clientID, now);
    IndicesConsecutive(8, |names|);
    BrandGroupsNumberRows(|names|);
  }

  /** Argument 8i+j of the brand INSERT, placeholder $8i+j+1, is column j of row i. */
  lemma BrandArgsAt(names: seq<string>, userID: int, clientID: int, now: int)
    ensures |Flatten(BrandRows(names, userID, clientID, now))| == 8 * |names|
    ensures forall i, j :: 0 <= i < |names| && 0 <= j < 8 ==>
              RowIndices(8, i)[j] == 8 * i + j + 1
              && Flatten(BrandRows(names, userID, clientID, now))[RowIndices(8, i)[j] - 1] == BrandRow(names[i], userID, clientID, now)[j]
  {
    var rows := BrandRows(names, userID, clientID, now);
    FlattenLength(rows, 8);
    forall i, j | 0 <= i < |names| && 0 <= j < 8
      ensures RowIndices(8, i)[j] == 8 * i + j + 1
      ensures Flatten(rows)[RowIndices(8, i)[j] - 1] == BrandRow(names[i], userID, clientID, now)[j]
    {
      FlattenAt(rows, 8, i, j);
    }
  }

  /** Group i of the brand VALUES list is the group of `RowIndices(8, i)`, read back as 8i+1 .. 8i+8. */
  lemma BrandGroupsNumberRows(n: nat)
    ensures forall i :: 0 <= i < n ==> BrandGroups(n)[i] == Group(RowIndices(8, i))
    ensures forall i, j :: 0 <= i < n && 0 <= j < 8 ==>
              PlaceholderNumber(GroupParts(RowIndices(8, i))[j]) == Some(8 * i + j + 1)
  {
    forall i | 0 <= i < n
      ensures BrandGroups(n)[i] == Group(RowIndices(8, i))
      ensures forall j :: 0 <= j < 8 ==> PlaceholderNumber(GroupParts(RowIndices(8, i))[j]) == Some(8 * i + j + 1)
    {
      BrandGroupsAt(n, i);
    }
  }

  lemma BrandGroupsAt(n: nat, i: nat)
    requires i < n
    ensures BrandGroups(n)[i] == Group(RowIndices(8, i))
    ensures forall j :: 0 <= j < 8 ==> PlaceholderNumber(GroupParts(RowIndices(8, i))[j]) == Some(8 * i + j + 1)
  {
    assert BrandGroups(n)[i] == Group(RowIndices(8, i)) by {
      EightIndices(i);
      assert BrandGroups(n)[i] == EightPlaceholders(8 * i + 1);
    }
    GroupNamesItsIndices(RowIndices(8, i));
  }

  lemma EightIndices(i: nat)
    ensures RowIndices(8, i) == [8 * i + 1, 8 * i + 2, 8 * i + 3, 8 * i + 4, 8 * i + 5, 8 * i + 6, 8 * i + 7, 8 * i + 8]
  {
  }

  /** The placeholders `$k` for the numbers `indices`, in order. */
  function GroupParts(indices: seq<nat>): seq<string>
  {
    seq(|indices|, j requires 0 <= j < |indices| => Placeholder(indices[j]))
  }

  /** One row of a VALUES clause: the placeholders of `indices`, separated by ", ", in parentheses. */
  function Group(indices: seq<nat>): string
  {
    "(" + Join(GroupParts(indices), ", ") + ")"
  }

  /** Every placeholder of a group reads back as its number. */
  lemma GroupNamesItsIndices(indices: seq<nat>)
    ensures forall j :: 0 <= j < |indices| ==> PlaceholderNumber(GroupParts(indices)[j]) == Some(indices[j])
  {
    forall j | 0 <= j < |indices|
      ensures PlaceholderNumber(GroupParts(indices)[j]) == Some(indices[j])
    {
      PlaceholderReadsBack(indices[j]);
    }
  }

  /** `fmt.Sprintf("($%d, $%d, $%d, $%d, $%d, $%d)", p, p+1, ..., p+5)`. */
  function SixPlaceholders(p: nat): string
  {
    Group([p, p + 1, p + 2, p + 3, p + 4, p + 5])
  }

  /** `fmt.Sprintf("($%d, $%d, $%d, $%d, $%d, $%d, $%d, $%d)", p, p+1, ..., p+7)`. */
  function EightPlaceholders(p: nat): string
  {
    Group([p, p + 1, p + 2, p + 3, p + 4, p + 5, p + 6, p + 7])
  }

  /** The placeholder groups of `n` content-interest rows: row i is `SixPlaceholders(6i+1)`. */
  function ContentGroups(n: nat): seq<string>
  {
    seq(n, i requires 0 <= i < n => SixPlaceholders(6 * i + 1))
  }

  /** The placeholder groups of `n` brand rows: row i is `EightPlaceholders(8i+1)`. */
  function BrandGroups(n: nat): seq<string>
  {
    seq(n, i requires 0 <= i < n => EightPlaceholders(8 * i + 1))
  }

  /** The VALUES list of `n` content-interest rows, groups joined by ",". */
  function ContentValues(n: nat): string
  {
    Join(ContentGroups(n), ",")
  }

  /** The VALUES list of `n` brand rows, groups joined by ",". */
  function BrandValues(n: nat): string
  {
    Join(BrandGroups(n), ",")
  }

  lemma ContentGroupsSnoc(n: nat)
    ensures ContentGroups(n + 1) == ContentGroups(n) + [SixPlaceholders(6 * n + 1)]
  {
  }

  lemma BrandGroupsSnoc(n: nat)
    ensures BrandGroups(n + 1) == BrandGroups(n) + [EightPlaceholders(8 * n + 1)]
  {
  }

  /**
   * The VALUES list grows row by row: the list for n + 1 rows is the list
   * for n rows, a comma, and the group of row n, numbered from 6n + 1.
   */
  lemma ContentValuesExtend(n: nat)
    requires n > 0
    ensures ContentValues(n + 1) == ContentValues(n) + "," + Group(RowIndices(6, n))
  {
    ContentGroupsSnoc(n);
    SixIndices(n);
    JoinSnoc(ContentGroups(n), SixPlaceholders(6 * n + 1), ",");
  }

  /** As `ContentValuesExtend`, for the brand groups of eight placeholders. */
  lemma BrandValuesExtend(n: nat)
    requires n > 0
    ensures BrandValues(n + 1) == BrandValues(n) + "," + Group(RowIndices(8, n))
  {
    BrandGroupsSnoc(n);
    EightIndices(n);
    JoinSnoc(BrandGroups(n), EightPlaceholders(8 * n + 1), ",");
  }

  /**
   * The loop that builds the content-interest VALUES list: row i gets the
   * placeholders `SixPlaceholders(6i+1)` and its six arguments.
   */
  method ContentValueRows(contentInterests: seq<string>, userID: int, now: int)
    returns (valueStrings: seq<string>, valueArgs: seq<Arg>)
    ensures valueStrings == ContentGroups(|contentInterests|)
    ensures valueArgs == Flatten(ContentRows(contentInterests, userID, now))
  {
    var currentTime := now;
    var statusValue := 1;
    var numFields := 6;

    valueStrings := [];
    valueArgs := [];
    var placeholderIdx := 1;
    var i := 0;
    while i < |contentInterests|
      invariant 0 <= i <= |contentInterests|
      invariant placeholderIdx == 6 * i + 1
      invariant valueStrings == ContentGroups(i)
      invariant valueArgs == Flatten(ContentRows(contentInterests[..i], userID, now))
    {
      var name := contentInterests[i];
      ContentGroupsSnoc(i);
      valueStrings := valueStrings + [SixPlaceholders(placeholderIdx)];
      valueArgs := valueArgs + [Text(name), Int(userID), Int(userID), Time(currentTime), Time(currentTime), Int(statusValue)];
      placeholderIdx := placeholderIdx + numFields;
      assert ContentRows(contentInterests[..i + 1], userID, now)
        == ContentRows(contentInterests[..i], userID, now) + [ContentRow(name, userID, now)];
      i := i + 1;
    }
    assert contentInterests[..i] == contentInterests;
  }

  /**
   * The loop that builds the brand VALUES list: row i gets the
   * placeholders `EightPlaceholders(8i+1)` and its eight arguments.
   */
  method BrandValueRows(brandNames: seq<string>, userID: int, clientID: int, now: int)
    returns (valueStrings: seq<string>, valueArgs: seq<Arg>)
    ensures valueStrings == BrandGroups(|brandNames|)
    ensures valueArgs == Flatten(BrandRows(brandNames, userID, clientID, now))
  {
    var currentTime := now;
    var positioningValue := 1;
    var statusValue := 1;
    var numFields := 8;

    valueStrings := [];
    valueArgs := [];
    var placeholderIdx := 1;
    var i := 0;
    while i < |brandNames|
      invariant 0 <= i <= |brandNames|
      invariant placeholderIdx == 8 * i + 1
      invariant valueStrings == BrandGroups(i)
      invariant valueArgs == Flatten(BrandRows(brandNames[..i], userID, clientID, now))
    {
      var name := brandNames[i];
      BrandGroupsSnoc(i);
      valueStrings := valueStrings + [EightPlaceholders(placeholderIdx)];
      valueArgs := valueArgs + [Text(name), Int(positioningValue), Int(userID), Int(userID),
                                Time(currentTime), Time(currentTime), Int(clientID), Int(statusValue)];
      placeholderIdx := placeholderIdx + numFields;
      assert BrandRows(brandNames[..i + 1], userID, clientID, now)
        == BrandRows(brandNames[..i], userID, clientID, now) + [BrandRow(name, userID, clientID, now)];
      i := i + 1;
    }
    assert brandNames[..i] == brandNames;
  }

  /**
   * `UpsertContentInterestsAndGetIDs`: an empty list returns an empty map
   * and touches no database; otherwise one batched INSERT of six-column
   * rows (placeholders numbered on by `placeholderIdx`) and one SELECT run
   * in a transaction, and the result maps each selected name to its id.
   */
  method UpsertContentInterestsAndGetIDs(contentInterests: seq<string>, userID: int, now: int, db: DbReplies)
    returns (r: Result<map<string, int>, DbError>, sent: seq<Statement>)
    ensures |contentInterests| == 0 ==> r == Ok(map[]) && sent == []
    ensures |contentInterests| > 0 ==> (r, sent) == Transaction(db,
      Statement(ContentInsertSql(|contentInterests|), Flatten(ContentRows(contentInterests, userID, now))),
      Statement(ContentSelectSql, [TextArray(contentInterests)]))
  {
    if |contentInterests| == 0 {
      return Ok(map[]), [];
    }
    if !db.beginOk {
      return Err(BeginFailed), [];
    }
    var valueStrings, valueArgs := ContentValueRows(contentInterests, userID, now);
    var insertQuery := ContentInsertTemplate(Join(valueStrings, ","));
    var insert := Statement(insertQuery, valueArgs);
    assert insert == Statement(ContentInsertSql(|contentInterests|), Flatten(ContentRows(contentInterests, userID, now)));
    var select := Statement(ContentSelectSql, [TextArray(contentInterests)]);
    r, sent := InsertThenSelect(db, insert, select);
  }

  /**
   * `UpsertBrandsAndGetIDs`: as the content-interest upsert, with
   * eight-column rows that also carry the positioning and the client id.
   */
  method UpsertBrandsAndGetIDs(brandNames: seq<string>, userID: int, clientID: int, now: int, db: DbReplies)
    returns (r: Result<map<string, int>, DbError>, sent: seq<Statement>)
    ensures |brandNames| == 0 ==> r == Ok(map[]) && sent == []
    ensures |brandNames| > 0 ==> (r, sent) == Transaction(db,
      Statement(BrandInsertSql(|brandNames|), Flatten(BrandRows(brandNames, userID, clientID, now))),
      Statement(BrandSelectSql, [TextArray(brandNames)]))
  {
    if |brandNames| == 0 {
      return Ok(map[]), [];
    }
    if !db.beginOk {
      return Err(BeginFailed), [];
    }
    var valueStrings, valueArgs := BrandValueRows(brandNames, userID, clientID, now);
    var insertQuery := BrandInsertTemplate(Join(valueStrings, ","));
    var insert := Statement(insertQuery, valueArgs);
    assert insert == Statement(BrandInsertSql(|brandNames|), Flatten(BrandRows(brandNames, userID, clientID, now)));
    var select := Statement(BrandSelectSql, [TextArray(brandNames)]);
    r, sent := InsertThenSelect(db, insert, select);
  }

  // ---------------------------------------------------------------- UpdateTTOUser

  /** The identity-data keys `UpdateTTOUser` writes, and the column each one goes to. */
  const DbMapping: map<string, string> := map[
    "content_interest" := "content_interest",
    "audience_age" := "content_interest",
    "audience_location" := "content_interest",
    "audience_gender" := "content_interest",
    "kol_growth" := "content_interest",
    "tiktokshop_updated_at" := "tiktokshop_updated_at",
    "tiktokshop_creator_status" := "tiktokshop_creator_status"
  ]

  /**
   * An order in which `range dbMapping` may visit the mapping: every key
   * exactly once. Go leaves that order unspecified, so it is a parameter.
   */
  predicate IsMappingOrder(order: seq<string>)
  {
    && (forall i :: 0 <= i < |order| ==> order[i] in DbMapping)
    && (forall k :: k in DbMapping ==> k in order)
    && (forall i, j :: 0 <= i < j < |order| ==> order[i] != order[j])
  }

  /**
   * The parameter a value is bound as: nothing for nil (or a missing key);
   * the JSON bytes for a map or a slice, nothing when marshalling fails;
   * the value itself otherwise.
   */
  function ParamOf(v: Value, marshal: Value -> Option<seq<bv8>>): Option<Arg>
  {
    match v
    case Nil => None
    case MapVal(_) => if marshal(v).Some? then Some(JsonBytes(marshal(v).value)) else None
    case SliceVal(_) => if marshal(v).Some? then Some(JsonBytes(marshal(v).value)) else None
    case _ => Some(Raw(v))
  }

  /** A key of the identity data that made it into the UPDATE: its column and its parameter. */
  datatype Assignment = Assignment(dataKey: string, column: string, param: Arg)

  /** The keys of `order` that survive, in order, each with its column and parameter. */
  function Survivors(order: seq<string>, data: map<string, Value>, marshal: Value -> Option<seq<bv8>>): seq<Assignment>
    requires forall i :: 0 <= i < |order| ==> order[i] in DbMapping
  {
    if order == [] then []
    else
      var key := order[|order| - 1];
      var earlier := Survivors(order[..|order| - 1], data, marshal);
      match ParamOf(Lookup(data, key), marshal)
      case None => earlier
      case Some(a) => earlier + [Assignment(key, DbMapping[key], a)]
  }

  /** `fmt.Sprintf("%s = $%d", column, k)`. */
  function SetClause(column: string, k: nat): string
  {
    column + " = " + Placeholder(k)
  }

  /** The clauses `col = $k`, numbered from 1 in the order of the survivors. */
  function SetClauses(s: seq<Assignment>): seq<string>
  {
    seq(|s|, k requires 0 <= k < |s| => SetClause(s[k].column, k + 1))
  }

  /** The parameters of the survivors, in order. */
  function Params(s: seq<Assignment>): seq<Arg>
  {
    seq(|s|, k requires 0 <= k < |s| => s[k].param)
  }

  lemma SurvivorsStep(order: seq<string>, i: nat, data: map<string, Value>, marshal: Value -> Option<seq<bv8>>)
    requires i < |order| && forall k :: 0 <= k < |order| ==> order[k] in DbMapping
    ensures ParamOf(Lookup(data, order[i]), marshal).None? ==>
              Survivors(order[..i + 1], data, marshal) == Survivors(order[..i], data, marshal)
    ensures ParamOf(Lookup(data, order[i]), marshal).Some? ==>
              Survivors(order[..i + 1], data, marshal) == Survivors(order[..i], data, marshal)
                + [Assignment(order[i], DbMapping[order[i]], ParamOf(Lookup(data, order[i]), marshal).value)]
  {
    assert order[..i + 1][..i] == order[..i];
  }

  lemma AssignmentsSnoc(s: seq<Assignment>, a: Assignment)
    ensures SetClauses(s + [a]) == SetClauses(s) + [SetClause(a.column, |s| + 1)]
    ensures Params(s + [a]) == Params(s) + [a.param]
  {
  }

  /** The UPDATE template around the joined SET list and the placeholder of the id, with its exact whitespace. */
  function UpdateTemplate(assignments: string, idPlaceholder: nat): string
  {
    UpdateHead + assignments + UpdateWhere + Placeholder(idPlaceholder) + ";"
  }

  const UpdateHead := "\n\t\tUPDATE crawler.social_profiles\n\t\tSET "
  const UpdateWhere := "\n\t\tWHERE id = "

  /** The UPDATE for the survivors `s`: their clauses, then `updated_at = $m+1`, then `WHERE id = $m+2`. */
  function UpdateStatement(s: seq<Assignment>, userID: int, now: int): Statement
  {
    Statement(
      UpdateTemplate(Join(SetClauses(s) + [SetClause("updated_at", |s| + 1)], ", "), |s| + 2),
      Params(s) + [Time(now), Int(userID)])
  }

  /** The replies of the database to the three calls of the UPDATE transaction. */
  datatype UpdateReplies = UpdateReplies(beginOk: bool, execOk: bool, commitOk: bool)

  /** The error `UpdateTTOUser` returns and the statements it sends, once there is an UPDATE to run. */
  function UpdateTransaction(db: UpdateReplies, update: Statement): (out: (Option<DbError>, seq<Statement>))
    ensures out.0 == None <==> db.beginOk && db.execOk && db.commitOk
    ensures out.1 == if db.beginOk then [update] else []
  {
    if !db.beginOk then (Some(BeginFailed), [])
    else if !db.execOk then (Some(ExecFailed), [update])
    else if !db.commitOk then (Some(CommitFailed), [update])
    else (None, [update])
  }

  /** Every survivor is a visited key with its mapped column and the parameter its value yields. */
  lemma {:induction false} SurvivorsSound(order: seq<string>, data: map<string, Value>, marshal: Value -> Option<seq<bv8>>)
    requires forall i :: 0 <= i < |order| ==> order[i] in DbMapping
    ensures forall j :: 0 <= j < |Survivors(order, data, marshal)| ==>
      var a := Survivors(order, data, marshal)[j];
      a.dataKey in order && a.column == DbMapping[a.dataKey]
      && Some(a.param) == ParamOf(Lookup(data, a.dataKey), marshal)
  {
    if order != [] {
      var init := order[..|order| - 1];
      SurvivorsSound(init, data, marshal);
      assert forall k :: k in init ==> k in order;
    }
  }

  /**
   * A key appears among the survivors exactly when the mapping visits it
   * and its value yields a parameter; it then carries its mapped column
   * and that parameter.
   */
  lemma {:induction false} SurvivorsAreTheBoundKeys(order: seq<string>, data: map<string, Value>,
                                                     marshal: Value -> Option<seq<bv8>>, key: string)
    requires forall i :: 0 <= i < |order| ==> order[i] in DbMapping
    ensures (exists j :: 0 <= j < |Survivors(order, data, marshal)| && Survivors(order, data, marshal)[j].dataKey == key)
        <==> key in order && ParamOf(Lookup(data, key), marshal).Some?
    ensures forall j :: 0 <= j < |Survivors(order, data, marshal)| && Survivors(order, data, marshal)[j].dataKey == key ==>
        Survivors(order, data, marshal)[j].column == DbMapping[key]
        && Some(Survivors(order, data, marshal)[j].param) == ParamOf(Lookup(data, key), marshal)
  {
    if order != [] {
      var init := order[..|order| - 1];
      var last := order[|order| - 1];
      var earlier := Survivors(init, data, marshal);
      SurvivorsAreTheBoundKeys(init, data, marshal, key);
      assert order == init + [last];
      assert key in order <==> key in init || key == last;
      var s := Survivors(order, data, marshal);
      assert s[..|earlier|] == earlier;
      SurvivorsSound(order, data, marshal);
      if key in order && ParamOf(Lookup(data, key), marshal).Some? {
        if key in init {
          var j :| 0 <= j < |earlier| && earlier[j].dataKey == key;
          assert s[j].dataKey == key;
        } else {
          assert s[|earlier|].dataKey == key;
        }
      }
    }
  }

  /**
   * Without a single surviving key there is no UPDATE: every visited key
   * is missing, nil or fails to marshal exactly when the survivors are empty.
   */
  lemma {:induction false} NoSurvivorsIffNothingBound(order: seq<string>, data: map<string, Value>,
                                                      marshal: Value -> Option<seq<bv8>>)
    requires forall i :: 0 <= i < |order| ==> order[i] in DbMapping
    ensures |Survivors(order, data, marshal)| == 0
        <==> forall i :: 0 <= i < |order| ==> ParamOf(Lookup(data, order[i]), marshal).None?
  {
    if order != [] {
      var init := order[..|order| - 1];
      NoSurvivorsIffNothingBound(init, data, marshal);
      assert forall i :: 0 <= i < |init| ==> init[i] == order[i];
    }
  }

  /**
   * Placeholder numbering of the UPDATE: with m survivors the statement has
   * m + 2 parameters; the k-th SET clause names the k-th survivor's column
   * and a placeholder whose number reads back as k + 1, bound to that
   * survivor's parameter; `updated_at` reads back as m + 1, bound to the
   * time; the id placeholder is m + 2, bound to the user id, the last one.
   */
  lemma UpdateBindsParams(s: seq<Assignment>, userID: int, now: int)
    ensures var st := UpdateStatement(s, userID, now);
      && |st.args| == |s| + 2
      && (forall k :: 0 <= k < |s| ==>
            SetClauses(s)[k] == s[k].column + " = " + Placeholder(k + 1)
            && PlaceholderNumber(Placeholder(k + 1)) == Some(k + 1) && st.args[k] == s[k].param)
      && PlaceholderNumber(Placeholder(|s| + 1)) == Some(|s| + 1) && st.args[|s|] == Time(now)
      && PlaceholderNumber(Placeholder(|s| + 2)) == Some(|s| + 2) && st.args[|s| + 1] == Int(userID)
  {
    forall n | 1 <= n <= |s| + 2
      ensures PlaceholderNumber(Placeholder(n)) == Some(n)
    {
      PlaceholderReadsBack(n);
    }
  }

  /**
   * The content-interest key and the four audience and growth keys all
   * write column `content_interest`: when two of them survive, the SET list names that column twice,
   * whatever order the mapping is visited in.
   */
  lemma ContentInterestColumnRepeats(order: seq<string>, data: map<string, Value>,
                                     marshal: Value -> Option<seq<bv8>>, first: string, second: string)
    requires IsMappingOrder(order)
    requires first in DbMapping && second in DbMapping && first != second
    requires DbMapping[first] == "content_interest" && DbMapping[second] == "content_interest"
    requires ParamOf(Lookup(data, first), marshal).Some? && ParamOf(Lookup(data, second), marshal).Some?
    ensures exists j1, j2 ::
              && 0 <= j1 < j2 < |Survivors(order, data, marshal)|
              && Survivors(order, data, marshal)[j1].column == "content_interest"
              && Survivors(order, data, marshal)[j2].column == "content_interest"
  {
    var s := Survivors(order, data, marshal);
    assert first in order && second in order;
    SurvivorsSound(order, data, marshal);
    SurvivorsAreTheBoundKeys(order, data, marshal, first);
    SurvivorsAreTheBoundKeys(order, data, marshal, second);
    var a :| 0 <= a < |s| && s[a].dataKey == first;
    var b :| 0 <= b < |s| && s[b].dataKey == second;
    assert a != b;
    assert s[a].column == DbMapping[first] == "content_interest";
    assert s[b].column == DbMapping[second] == "content_interest";
    if a < b {
      assert 0 <= a < b < |s|;
    } else {
      assert 0 <= b < a < |s|;
    }
  }

  /**
   * The loop of `UpdateTTOUser` over the mapping: one `col = $k` clause and
   * one parameter per surviving key, `placeholderIdx` counting from 1.
   */
  method CollectAssignments(identityData: map<string, Value>, order: seq<string>, marshal: Value -> Option<seq<bv8>>)
    returns (setClauses: seq<string>, params: seq<Arg>)
    requires forall i :: 0 <= i < |order| ==> order[i] in DbMapping
    ensures setClauses == SetClauses(Survivors(order, identityData, marshal))
    ensures params == Params(Survivors(order, identityData, marshal))
  {
    setClauses := [];
    params := [];
    var placeholderIdx := 1;
    for i := 0 to |order|
      invariant placeholderIdx == |Survivors(order[..i], identityData, marshal)| + 1
      invariant setClauses == SetClauses(Survivors(order[..i], identityData, marshal))
      invariant params == Params(Survivors(order[..i], identityData, marshal))
    {
      SurvivorsStep(order, i, identityData, marshal);
      ghost var earlier := Survivors(order[..i], identityData, marshal);
      var dataKey := order[i];
      var dbCol := DbMapping[dataKey];
      ghost var bound := ParamOf(Lookup(identityData, dataKey), marshal);
      if dataKey !in identityData || identityData[dataKey] == Nil {
        continue;
      }
      var value := identityData[dataKey];
      var paramValue: Arg;
      if value.MapVal? {
        var jsonValue := marshal(value);
        if jsonValue.None? {
          continue;
        }
        paramValue := JsonBytes(jsonValue.value);
      } else if value.SliceVal? {
        var jsonValue := marshal(value);
        if jsonValue.None? {
          continue;
        }
        paramValue := JsonBytes(jsonValue.value);
      } else {
        paramValue := Raw(value);
      }
      assert bound == Some(paramValue);
      AssignmentsSnoc(earlier, Assignment(dataKey, dbCol, paramValue));
      params := params + [paramValue];
      setClauses := setClauses + [SetClause(dbCol, placeholderIdx)];
      placeholderIdx := placeholderIdx + 1;
    }
    assert order[..|order|] == order;
  }

  /**
   * `UpdateTTOUser`: visits the mapping in `order`, skips keys that are
   * missing, nil or fail to marshal, numbers a `col = $k` clause for each
   * survivor, and returns nil without a query when none survives;
   * otherwise appends `updated_at` and the id and runs the UPDATE in a
   * transaction.
   */
  method UpdateTTOUser(userID: int, identityData: map<string, Value>, order: seq<string>,
                       marshal: Value -> Option<seq<bv8>>, now: int, db: UpdateReplies)
    returns (err: Option<DbError>, sent: seq<Statement>)
    requires IsMappingOrder(order)
    ensures var s := Survivors(order, identityData, marshal);
      && (|s| == 0 ==> err == None && sent == [])
      && (|s| > 0 ==> (err, sent) == UpdateTransaction(db, UpdateStatement(s, userID, now)))
  {
    var setClauses, params := CollectAssignments(identityData, order, marshal);
    var placeholderIdx := |setClauses| + 1;
    ghost var s := Survivors(order, identityData, marshal);

    if |setClauses| == 0 {
      return None, [];
    }
    setClauses := setClauses + [SetClause("updated_at", placeholderIdx)];
    params := params + [Time(now)];
    placeholderIdx := placeholderIdx + 1;
    var updateQuery := UpdateTemplate(Join(setClauses, ", "), placeholderIdx);
    params := params + [Int(userID)];
    var update := Statement(updateQuery, params);
    assert update == UpdateStatement(s, userID, now);

    if !db.beginOk {
      return Some(BeginFailed), [];
    }
    sent := [update];
    if !db.execOk {
      return Some(ExecFailed), sent;
    }
    if !db.commitOk {
      return Some(CommitFailed), sent;
    }
    err := None;
  }
}
