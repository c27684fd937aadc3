/** The transformation half of the loader (src/load_bank_data.py, `main`,
    steps 2 to 9): the exported sheet as a table of cells, the derived
    columns, and the projection to the records the loader inserts. */
module Ingest {
  import opened Text
  import opened Options
  import opened Seqs
  import opened Amounts
  import opened Headers

  /** One dataframe cell. */
  datatype Cell =
    | Null            // Python `None`, and pandas `NaT`
    | Nan             // an empty spreadsheet cell
    | Str(s: string)  // any other value of the export, by its `str()` text
    | Amount(x: real) // a number the loader computed

  predicate IsMissing(c: Cell)
  {
    c.Null? || c.Nan?
  }

  /** A cell as read from the export, before any number is computed. */
  predicate Raw(c: Cell)
  {
    !c.Amount?
  }

  /** Python's `str()` of a cell read from the export. */
  function Show(c: Cell): string
    requires Raw(c)
  {
    match c
    case Null => "None"
    case Nan => "nan"
    case Str(s) => s
  }

  /** A dataframe: column headers and rows of cells. */
  datatype Table = Table(headers: seq<string>, rows: seq<seq<Cell>>)

  predicate WellFormed(t: Table)
  {
    forall i :: 0 <= i < |t.rows| ==> |t.rows[i]| == |t.headers|
  }

  predicate RawTable(t: Table)
  {
    WellFormed(t) && forall i, j :: 0 <= i < |t.rows| && 0 <= j < |t.rows[i]| ==> Raw(t.rows[i][j])
  }

  // Column access by name. pandas allows repeated headers; the model reads
  // and writes the first column of a name.

  /** The cell of column `n` in `row`, when there is such a column. */
  function Get(h: seq<string>, row: seq<Cell>, n: string): (r: Option<Cell>)
    requires |row| == |h|
    ensures r.Some? <==> n in h
  {
    if |h| == 0 then None
    else if h[0] == n then Some(row[0])
    else Get(h[1..], row[1..], n)
  }

  /** `df[n]` for a row, with a missing column read as `None`. */
  function Lookup(h: seq<string>, row: seq<Cell>, n: string): Cell
    requires |row| == |h|
  {
    match Get(h, row, n)
    case Some(c) => c
    case None => Null
  }

  /** The headers after `df[m] = ...`: a new name is appended. */
  function AddName(h: seq<string>, m: string): (r: seq<string>)
    ensures m in r && forall n :: n in r <==> n in h || n == m
  {
    if m in h then h else h + [m]
  }

  /** A row after `df[m] = ...` stores `v`: it overwrites the first column
      named `m`, or is appended when there is none. */
  function Put(h: seq<string>, row: seq<Cell>, m: string, v: Cell): (r: seq<Cell>)
    requires |row| == |h|
    ensures |r| == |AddName(h, m)|
  {
    if |h| == 0 then [v]
    else if h[0] == m then [v] + row[1..]
    else [row[0]] + Put(h[1..], row[1..], m, v)
  }

  /** After storing `v` under `m`, `m` reads `v` and every other name reads
      what it read before. */
  lemma {:induction false} GetPut(h: seq<string>, row: seq<Cell>, m: string, v: Cell, n: string)
    requires |row| == |h|
    ensures Get(AddName(h, m), Put(h, row, m, v), n) == if n == m then Some(v) else Get(h, row, n)
  {
    if |h| == 0 {
      assert AddName(h, m) == [m];
    } else if h[0] == m {
      GetPutHead(h, row, m, v, n);
    } else {
      GetPut(h[1..], row[1..], m, v, n);
      GetPutTail(h, row, m, v, n);
    }
  }

  lemma {:induction false} GetPutHead(h: seq<string>, row: seq<Cell>, m: string, v: Cell, n: string)
    requires |row| == |h| && |h| > 0 && h[0] == m
    ensures Get(AddName(h, m), Put(h, row, m, v), n) == if n == m then Some(v) else Get(h, row, n)
  {
    assert AddName(h, m) == h;
    assert Put(h, row, m, v)[1..] == row[1..];
  }

  lemma {:induction false} GetPutTail(h: seq<string>, row: seq<Cell>, m: string, v: Cell, n: string)
    requires |row| == |h| && |h| > 0 && h[0] != m
    requires Get(AddName(h[1..], m), Put(h[1..], row[1..], m, v), n)
      == if n == m then Some(v) else Get(h[1..], row[1..], n)
    ensures Get(AddName(h, m), Put(h, row, m, v), n) == if n == m then Some(v) else Get(h, row, n)
  {
    var h', r' := AddName(h, m), Put(h, row, m, v);
    AddNameCons(h, m);
    assert h'[0] == h[0] && h'[1..] == AddName(h[1..], m);
    assert r'[0] == row[0] && r'[1..] == Put(h[1..], row[1..], m, v);
  }

  lemma {:induction false} AddNameCons(h: seq<string>, m: string)
    requires |h| > 0 && h[0] != m
    ensures AddName(h, m) == [h[0]] + AddName(h[1..], m)
  {
    assert m in h <==> m in h[1..];
    if m !in h {
      assert h + [m] == [h[0]] + (h[1..] + [m]);
    }
  }

  /** Appending a column leaves every existing cell where it was. */
  lemma {:induction false} PutNew(h: seq<string>, row: seq<Cell>, m: string, v: Cell)
    requires |row| == |h| && m !in h
    ensures Put(h, row, m, v) == row + [v]
  {
    if |h| > 0 {
      PutNew(h[1..], row[1..], m, v);
      assert row == [row[0]] + row[1..];
    }
  }

  /** pandas' `df[m] = col`. */
  function Assign(t: Table, m: string, col: seq<Cell>): (r: Table)
    requires WellFormed(t) && |col| == |t.rows|
    ensures WellFormed(r) && |r.rows| == |t.rows| && r.headers == AddName(t.headers, m)
  {
    Table(AddName(t.headers, m),
          seq(|t.rows|, i requires 0 <= i < |t.rows| => Put(t.headers, t.rows[i], m, col[i])))
  }

  /** Reading any column of any row after `df[m] = col`. */
  lemma {:induction false} GetAssign(t: Table, m: string, col: seq<Cell>, i: int, n: string)
    requires WellFormed(t) && |col| == |t.rows| && 0 <= i < |t.rows|
    ensures var r := Assign(t, m, col);
      Get(r.headers, r.rows[i], n) == if n == m then Some(col[i]) else Get(t.headers, t.rows[i], n)
  {
    GetPut(t.headers, t.rows[i], m, col[i], n);
  }

  /** Every cell of a raw row reads as raw, whatever the name. */
  lemma {:induction false} RawLookup(h: seq<string>, row: seq<Cell>, n: string)
    requires |row| == |h| && forall j :: 0 <= j < |row| ==> Raw(row[j])
    ensures Raw(Lookup(h, row, n))
  {
    if |h| > 0 && h[0] != n {
      RawLookup(h[1..], row[1..], n);
    }
  }

  // Step 2: `dropna(how="all")`, then the columns whose header contains
  // "Unnamed" go.

  predicate NonEmptyRow(row: seq<Cell>)
  {
    exists j :: 0 <= j < |row| && !IsMissing(row[j])
  }

  function WithoutEmptyRows(t: Table): (r: Table)
    requires WellFormed(t)
    ensures WellFormed(r)
  {
    var rows := Filter(t.rows, NonEmptyRow);
    assert forall i :: 0 <= i < |rows| ==> rows[i] in t.rows by {
      forall i | 0 <= i < |rows| {
        FilterMembers(t.rows, NonEmptyRow, rows[i]);
      }
    }
    Table(t.headers, rows)
  }

  /** A header pandas made up for a column without one ("Unnamed: 3"). */
  predicate Named(h: string)
  {
    !Contains(h, "Unnamed")
  }

  /** The cells of `row` under named headers, in order. */
  function NamedCells(h: seq<string>, row: seq<Cell>): (r: seq<Cell>)
    requires |row| == |h|
    ensures |r| == |Filter(h, Named)|
    ensures forall j :: 0 <= j < |r| ==> r[j] in row
  {
    if |h| == 0 then []
    else (if Named(h[0]) then [row[0]] else []) + NamedCells(h[1..], row[1..])
  }

  function WithoutUnnamed(t: Table): (r: Table)
    requires WellFormed(t)
    ensures WellFormed(r) && |r.rows| == |t.rows|
  {
    Table(Filter(t.headers, Named),
          seq(|t.rows|, i requires 0 <= i < |t.rows| => NamedCells(t.headers, t.rows[i])))
  }

  /** Dropping unnamed columns changes no named column. */
  lemma {:induction false} GetNamed(h: seq<string>, row: seq<Cell>, n: string)
    requires |row| == |h| && Named(n)
    ensures Get(Filter(h, Named), NamedCells(h, row), n) == Get(h, row, n)
  {
    if |h| > 0 {
      GetNamed(h[1..], row[1..], n);
      if Named(h[0]) {
        assert Filter(h, Named) == [h[0]] + Filter(h[1..], Named);
        assert NamedCells(h, row) == [row[0]] + NamedCells(h[1..], row[1..]);
      } else {
        assert h[0] != n;
        assert Filter(h, Named) == Filter(h[1..], Named);
        assert NamedCells(h, row) == NamedCells(h[1..], row[1..]);
      }
    }
  }

  // Step 3: header normalisation.

  function NormalizedHeaders(h: seq<string>): (r: seq<string>)
    ensures |r| == |h|
  {
    seq(|h|, j requires 0 <= j < |h| => NormalizeHeader(h[j]))
  }

  function WithNormalizedHeaders(t: Table): (r: Table)
    requires WellFormed(t)
    ensures WellFormed(r) && |r.rows| == |t.rows|
  {
    Table(NormalizedHeaders(t.headers), t.rows)
  }

  /** The table as it stands after steps 2 and 3. */
  function Prepared(t: Table): (r: Table)
    requires WellFormed(t)
    ensures WellFormed(r)
  {
    WithNormalizedHeaders(WithoutUnnamed(WithoutEmptyRows(t)))
  }

  /** Steps 2 and 3 keep the non-empty rows in their order, drop exactly
      the unnamed headers and normalise the rest; no cell is invented. */
  lemma {:induction false} PreparedShape(t: Table)
    requires RawTable(t)
    ensures var u := WithoutEmptyRows(t); var p := Prepared(t);
      u.rows == Filter(t.rows, NonEmptyRow)
      && p.headers == NormalizedHeaders(Filter(t.headers, Named))
      && |p.rows| == |u.rows|
      && (forall i :: 0 <= i < |p.rows| ==> p.rows[i] == NamedCells(t.headers, u.rows[i]))
      && (forall j :: 0 <= j < |p.headers| ==> NoSep(p.headers[j]) && IsLower(p.headers[j]))
      && RawTable(p)
  {
    var u := WithoutEmptyRows(t);
    var p := Prepared(t);
    forall j | 0 <= j < |p.headers| {
      NormalizedShape(Filter(t.headers, Named)[j]);
    }
    forall i, j | 0 <= i < |p.rows| && 0 <= j < |p.rows[i]|
      ensures Raw(p.rows[i][j])
    {
      FilterMembers(t.rows, NonEmptyRow, u.rows[i]);
    }
  }

  // Step 4: the essential columns.

  const Essential: seq<string> := ["debit_credit_", "balance_", "channel", "transaction_reference", "counterparty"]

  function Nulls(k: nat): (r: seq<Cell>)
    ensures |r| == k
  {
    seq(k, _ => Null)
  }

  /** `if n not in df.columns: df[n] = None` */
  function EnsureColumn(t: Table, n: string): (r: Table)
    requires WellFormed(t)
    ensures WellFormed(r) && |r.rows| == |t.rows| && r.headers == AddName(t.headers, n)
  {
    if n in t.headers then t else Assign(t, n, Nulls(|t.rows|))
  }

  /** The defaulting loop run over the names `ns`, in order. */
  function EnsureAll(t: Table, ns: seq<string>): (r: Table)
    requires WellFormed(t)
    ensures WellFormed(r) && |r.rows| == |t.rows|
  {
    if |ns| == 0 then t else EnsureColumn(EnsureAll(t, ns[..|ns| - 1]), ns[|ns| - 1])
  }

  /** One pass of the loop body keeps the table when the name is there and
      otherwise appends a column of `None`. */
  lemma {:induction false} EnsureColumnShape(q: Table, m: string)
    requires WellFormed(q)
    ensures var r := EnsureColumn(q, m);
      (m in q.headers ==> r == q)
      && (m !in q.headers ==>
            r.headers == q.headers + [m] && forall i :: 0 <= i < |r.rows| ==> r.rows[i] == q.rows[i] + [Null])
  {
    if m !in q.headers {
      var r := EnsureColumn(q, m);
      forall i | 0 <= i < |q.rows|
        ensures r.rows[i] == q.rows[i] + [Null]
      {
        PutNew(q.headers, q.rows[i], m, Null);
      }
    }
  }

  /** One pass of the loop body: a missing name gets a column of `None`
      at the end, and every other name reads as before. */
  lemma {:induction false} EnsureColumnSpec(q: Table, m: string)
    requires WellFormed(q)
    ensures var r := EnsureColumn(q, m);
      (m in q.headers ==> r == q)
      && (m !in q.headers ==>
            r.headers == q.headers + [m] && forall i :: 0 <= i < |r.rows| ==> r.rows[i] == q.rows[i] + [Null])
      && (forall i, n :: 0 <= i < |r.rows| && n != m ==> Get(r.headers, r.rows[i], n) == Get(q.headers, q.rows[i], n))
      && (forall i :: 0 <= i < |r.rows| ==> Lookup(r.headers, r.rows[i], m) == Lookup(q.headers, q.rows[i], m))
  {
    if m !in q.headers {
      var r := EnsureColumn(q, m);
      forall i | 0 <= i < |q.rows|
        ensures r.rows[i] == q.rows[i] + [Null]
        ensures forall n :: Get(r.headers, r.rows[i], n) == if n == m then Some(Null) else Get(q.headers, q.rows[i], n)
      {
        PutNew(q.headers, q.rows[i], m, Null);
        forall n {
          GetAssign(q, m, Nulls(|q.rows|), i, n);
        }
      }
    }
  }

  /** After the loop every listed name is a column, and nothing else is new. */
  lemma {:induction false} EnsureAllNames(t: Table, ns: seq<string>)
    requires WellFormed(t)
    ensures forall n :: n in EnsureAll(t, ns).headers <==> n in t.headers || n in ns
  {
    if |ns| > 0 {
      EnsureAllNames(t, ns[..|ns| - 1]);
      assert forall n :: n in ns <==> n in ns[..|ns| - 1] || n == ns[|ns| - 1] by {
        assert ns == ns[..|ns| - 1] + [ns[|ns| - 1]];
      }
    }
  }

  /** `r` is `t` with columns of `None` added at the end. */
  predicate PaddedWithNulls(t: Table, r: Table)
  {
    |t.headers| <= |r.headers| && r.headers[..|t.headers|] == t.headers
    && |r.rows| == |t.rows|
    && (forall i :: 0 <= i < |r.rows| ==> |t.headers| <= |r.rows[i]| && r.rows[i][..|t.headers|] == t.rows[i])
    && (forall i, j :: 0 <= i < |r.rows| && |t.headers| <= j < |r.rows[i]| ==> r.rows[i][j] == Null)
  }

  /** One pass of the loop keeps the padding property. */
  lemma {:induction false} EnsureColumnPads(t: Table, q: Table, m: string)
    requires WellFormed(t) && WellFormed(q) && PaddedWithNulls(t, q)
    ensures PaddedWithNulls(t, EnsureColumn(q, m))
  {
    EnsureColumnShape(q, m);
    var r := EnsureColumn(q, m);
    if m !in q.headers {
      assert r.headers[..|t.headers|] == q.headers[..|t.headers|];
      forall i | 0 <= i < |r.rows|
        ensures r.rows[i][..|t.headers|] == t.rows[i]
      {
        assert r.rows[i][..|t.headers|] == q.rows[i][..|t.headers|];
      }
      forall i, j | 0 <= i < |r.rows| && |t.headers| <= j < |r.rows[i]|
        ensures r.rows[i][j] == Null
      {
        if j < |q.headers| {
          assert r.rows[i][j] == q.rows[i][j];
        }
      }
    }
  }

  /** The old columns are still the first ones, with their cells
      unchanged, and every added cell is `None`. */
  lemma {:induction false} EnsureAllKeeps(t: Table, ns: seq<string>)
    requires WellFormed(t)
    ensures PaddedWithNulls(t, EnsureAll(t, ns))
  {
    if |ns| > 0 {
      EnsureAllKeeps(t, ns[..|ns| - 1]);
      EnsureColumnPads(t, EnsureAll(t, ns[..|ns| - 1]), ns[|ns| - 1]);
    }
  }

  /** Names outside the list read exactly as before, and no name reads
      differently at all, since a missing column reads as `None` too. */
  lemma {:induction false} EnsureAllReads(t: Table, ns: seq<string>)
    requires WellFormed(t)
    ensures var r := EnsureAll(t, ns);
      (forall i, n :: 0 <= i < |r.rows| && n !in ns ==> Get(r.headers, r.rows[i], n) == Get(t.headers, t.rows[i], n))
      && (forall i, n :: 0 <= i < |r.rows| ==> Lookup(r.headers, r.rows[i], n) == Lookup(t.headers, t.rows[i], n))
  {
    if |ns| > 0 {
      var init, m := ns[..|ns| - 1], ns[|ns| - 1];
      assert forall n :: n !in ns ==> n !in init && n != m by {
        assert ns == init + [m];
      }
      EnsureAllReads(t, init);
      EnsureColumnSpec(EnsureAll(t, init), m);
    }
  }

  lemma {:induction false} EnsureAllRaw(t: Table, ns: seq<string>)
    requires RawTable(t)
    ensures RawTable(EnsureAll(t, ns))
  {
    var r := EnsureAll(t, ns);
    EnsureAllKeeps(t, ns);
    forall i, j | 0 <= i < |r.rows| && 0 <= j < |r.rows[i]|
      ensures Raw(r.rows[i][j])
    {
      if j < |t.headers| {
        assert r.rows[i][j] == r.rows[i][..|t.headers|][j];
      }
    }
  }

  // Steps 5 to 8: the derived columns. `parseDate` stands for
  // `pd.to_datetime(..., errors="coerce")` applied to one cell.

  /** Steps 7's cleaning and `pd.to_numeric(..., errors="coerce")`. */
  function BalanceOf(c: Cell): (r: Cell)
    requires Raw(c)
    ensures r.Amount? || r.Nan?
    ensures r.Amount? <==> ParseFloat(CleanAmountText(Show(c))).Some?
  {
    match ParseFloat(CleanAmountText(Show(c)))
    case Some(x) => Amount(x)
    case None => Nan
  }

  /** `.str.strip().str.upper().replace({"NAN": "UNKNOWN", "": "UNKNOWN"})` */
  function CleanChannel(s: string): (r: string)
    ensures r != "" && r != "NAN"
  {
    var u := Upper(Strip(s));
    if u == "NAN" || u == "" then "UNKNOWN" else u
  }

  /** Step 8 exactly as written: `astype(str)` first, so the `None` of a
      defaulted channel column becomes the text "None". */
  function ChannelAsWritten(c: Cell): string
    requires Raw(c)
  {
    CleanChannel(Show(c))
  }

  /** Step 8 as intended: a missing channel is "UNKNOWN" like an empty one. */
  function ChannelOf(c: Cell): (r: string)
    requires Raw(c)
    ensures r != "" && r != "NAN"
    ensures !c.Null? ==> r == ChannelAsWritten(c)
    ensures c.Null? ==> r == "UNKNOWN"
  {
    if c.Null? then "UNKNOWN" else CleanChannel(Show(c))
  }

  /** Channel cleaning maps exactly the values that trim and upper-case to
      "NAN" or "" to "UNKNOWN" and keeps every other one trimmed and
      upper-cased. */
  lemma {:induction false} CleanChannelSpec(s: string)
    ensures var u := Upper(Strip(s));
      (u == "NAN" || u == "" ==> CleanChannel(s) == "UNKNOWN")
      && (u != "NAN" && u != "" ==> CleanChannel(s) == u)
      && Upper(CleanChannel(s)) == CleanChannel(s)
  {
    var u := Upper(Strip(s));
    CaseMappings(Strip(s));
    assert Upper("UNKNOWN") == "UNKNOWN";
  }

  /** Cleaning depends only on the trimmed, upper-cased text. */
  lemma {:induction false} CleanChannelOf(s: string, u: string)
    requires Upper(Strip(s)) == u
    ensures CleanChannel(s) == if u == "NAN" || u == "" then "UNKNOWN" else u
  {
  }

  lemma {:induction false} NoneStripped()
    ensures Strip("None") == "None"
  {
    StripOfTrimmed("None");
  }

  lemma {:induction false} NoneShowsAsNone()
    ensures Strip("None") == "None" && Upper("None") == "NONE"
  {
    NoneStripped();
  }

  lemma {:induction false} NanStripped()
    ensures Strip("nan") == "nan"
  {
    StripOfTrimmed("nan");
  }

  lemma {:induction false} NanShowsAsNan()
    ensures Strip("nan") == "nan" && Upper("nan") == "NAN"
  {
    NanStripped();
  }

  /** A sheet without a channel column gets "NONE" in every row, not
      "UNKNOWN". */
  lemma {:induction false} MissingChannelAsWritten()
    ensures ChannelAsWritten(Null) == "NONE"
  {
    NoneShowsAsNone();
    CleanChannelOf("None", "NONE");
  }

  /** The intended cleaning agrees with the written one on every cell the
      sheet itself can hold, and maps the missing column to "UNKNOWN". */
  lemma {:induction false} MissingChannelCorrected(c: Cell)
    requires Raw(c)
    ensures ChannelOf(Null) == "UNKNOWN"
    ensures c.Nan? ==> ChannelOf(c) == "UNKNOWN"
    ensures c.Str? ==> ChannelOf(c) == ChannelAsWritten(c)
  {
    if c.Nan? {
      NanShowsAsNan();
      CleanChannelOf("nan", "NAN");
    }
  }

  /** The names the loader assigns in steps 5 to 8, in order. */
  const Derived: seq<string> := ["trans_date", "value_date", "debit", "credit", "balance_", "channel"]

  predicate NeedsText(name: string)
  {
    name == "debit" || name == "credit" || name == "balance_" || name == "channel"
  }

  /** The column a derived text column is computed from. */
  function Source(name: string): string
  {
    if name == "debit" || name == "credit" then "debit_credit_" else name
  }

  /** The value the loader leaves in column `name` of a row of the table
      after step 3; columns it does not compute are read as they are. */
  function Field(h: seq<string>, row: seq<Cell>, name: string, parseDate: Cell -> Cell): Cell
    requires |row| == |h|
    requires NeedsText(name) ==> Raw(Lookup(h, row, Source(name)))
  {
    if name == "trans_date" then
      match Get(h, row, "trans._date")
      case Some(c) => parseDate(c)
      case None =>
        match Get(h, row, "trans_date")
        case Some(c) => parseDate(c)
        case None => Null
    else if name == "value_date" then
      match Get(h, row, "value_date")
      case Some(c) => parseDate(c)
      case None => Null
    else if name == "debit" then Amount(ExtractDebit(Show(Lookup(h, row, "debit_credit_"))))
    else if name == "credit" then Amount(ExtractCredit(Show(Lookup(h, row, "debit_credit_"))))
    else if name == "balance_" then BalanceOf(Lookup(h, row, "balance_"))
    else if name == "channel" then Str(ChannelOf(Lookup(h, row, "channel")))
    else Lookup(h, row, name)
  }

  predicate RawColumn(t: Table, n: string)
    requires WellFormed(t)
  {
    forall i :: 0 <= i < |t.rows| ==> Raw(Lookup(t.headers, t.rows[i], n))
  }

  predicate StepReady(t: Table, name: string)
  {
    WellFormed(t) && (NeedsText(name) ==> RawColumn(t, Source(name)))
  }

  /** `df[name] = ...` for one derived column. */
  function Step(t: Table, name: string, parseDate: Cell -> Cell): (r: Table)
    requires StepReady(t, name)
    ensures WellFormed(r) && |r.rows| == |t.rows| && r.headers == AddName(t.headers, name)
  {
    Assign(t, name, seq(|t.rows|, i requires 0 <= i < |t.rows| => Field(t.headers, t.rows[i], name, parseDate)))
  }

  lemma {:induction false} StepGet(t: Table, name: string, parseDate: Cell -> Cell, i: int, n: string)
    requires StepReady(t, name) && 0 <= i < |t.rows|
    ensures var r := Step(t, name, parseDate);
      Get(r.headers, r.rows[i], n)
      == if n == name then Some(Field(t.headers, t.rows[i], name, parseDate)) else Get(t.headers, t.rows[i], n)
  {
    GetAssign(t, name, seq(|t.rows|, i requires 0 <= i < |t.rows| => Field(t.headers, t.rows[i], name, parseDate)), i, n);
  }

  lemma {:induction false} StepKeepsRaw(t: Table, name: string, parseDate: Cell -> Cell, n: string)
    requires StepReady(t, name) && RawColumn(t, n) && n != name
    ensures RawColumn(Step(t, name, parseDate), n)
  {
    var r := Step(t, name, parseDate);
    forall i | 0 <= i < |r.rows|
      ensures Raw(Lookup(r.headers, r.rows[i], n))
    {
      StepGet(t, name, parseDate, i, n);
    }
  }

  lemma {:induction false} RawColumns(t: Table)
    requires RawTable(t)
    ensures forall n :: RawColumn(t, n)
  {
    forall n, i | 0 <= i < |t.rows|
      ensures Raw(Lookup(t.headers, t.rows[i], n))
    {
      RawLookup(t.headers, t.rows[i], n);
    }
  }

  /** Step 5: `trans_date` from the first of "trans._date" and "trans_date" present. */
  function AfterTransDate(t: Table, parseDate: Cell -> Cell): (r: Table)
    requires RawTable(t)
    ensures WellFormed(r) && |r.rows| == |t.rows|
    ensures RawColumn(r, "debit_credit_") && RawColumn(r, "balance_") && RawColumn(r, "channel")
  {
    RawColumns(t);
    NamesDistinct();
    StepKeepsRaw(t, "trans_date", parseDate, "debit_credit_");
    StepKeepsRaw(t, "trans_date", parseDate, "balance_");
    StepKeepsRaw(t, "trans_date", parseDate, "channel");
    Step(t, "trans_date", parseDate)
  }

  /** Step 5: `value_date`, `NaT` when the column is missing. */
  function AfterValueDate(t: Table, parseDate: Cell -> Cell): (r: Table)
    requires RawTable(t)
    ensures WellFormed(r) && |r.rows| == |t.rows|
    ensures RawColumn(r, "debit_credit_") && RawColumn(r, "balance_") && RawColumn(r, "channel")
  {
    var s := AfterTransDate(t, parseDate);
    NamesDistinct();
    StepKeepsRaw(s, "value_date", parseDate, "debit_credit_");
    StepKeepsRaw(s, "value_date", parseDate, "balance_");
    StepKeepsRaw(s, "value_date", parseDate, "channel");
    Step(s, "value_date", parseDate)
  }

  /** Step 6: `debit`, by `extract_debit`. */
  function AfterDebit(t: Table, parseDate: Cell -> Cell): (r: Table)
    requires RawTable(t)
    ensures WellFormed(r) && |r.rows| == |t.rows|
    ensures RawColumn(r, "debit_credit_") && RawColumn(r, "balance_") && RawColumn(r, "channel")
  {
    var s := AfterValueDate(t, parseDate);
    NamesDistinct();
    StepKeepsRaw(s, "debit", parseDate, "debit_credit_");
    StepKeepsRaw(s, "debit", parseDate, "balance_");
    StepKeepsRaw(s, "debit", parseDate, "channel");
    Step(s, "debit", parseDate)
  }

  /** Step 6: `credit`, by `extract_credit`. */
  function AfterCredit(t: Table, parseDate: Cell -> Cell): (r: Table)
    requires RawTable(t)
    ensures WellFormed(r) && |r.rows| == |t.rows|
    ensures RawColumn(r, "balance_") && RawColumn(r, "channel")
  {
    var s := AfterDebit(t, parseDate);
    NamesDistinct();
    StepKeepsRaw(s, "credit", parseDate, "balance_");
    StepKeepsRaw(s, "credit", parseDate, "channel");
    Step(s, "credit", parseDate)
  }

  /** Step 7: `balance_` cleaned and made numeric. */
  function AfterBalance(t: Table, parseDate: Cell -> Cell): (r: Table)
    requires RawTable(t)
    ensures WellFormed(r) && |r.rows| == |t.rows|
    ensures RawColumn(r, "channel")
  {
    var s := AfterCredit(t, parseDate);
    NamesDistinct();
    StepKeepsRaw(s, "balance_", parseDate, "channel");
    Step(s, "balance_", parseDate)
  }

  /** Step 8: `channel` cleaned; the result of steps 5 to 8. */
  function Derive(t: Table, parseDate: Cell -> Cell): (r: Table)
    requires RawTable(t)
    ensures WellFormed(r) && |r.rows| == |t.rows|
  {
    var s := AfterBalance(t, parseDate);
    Step(s, "channel", parseDate)
  }

  // Step 9: the projection and the records.

  /** `final_cols`, written around its one optional column. */
  const FinalCols: seq<string> := FinalBefore + ["description"] + FinalAfter
  const FinalBefore: seq<string> := ["trans_date", "value_date"]
  const FinalAfter: seq<string> := ["debit", "credit", "balance_", "channel", "transaction_reference", "counterparty"]

  /** The columns and rows of `final_df`, one record per row. */
  datatype Output = Output(columns: seq<string>, records: seq<seq<Cell>>)

  /** `df[[c for c in final_cols if c in df.columns]]` and its rows. */
  function Projected(t: Table): (r: Output)
    requires WellFormed(t)
    ensures |r.records| == |t.rows|
    ensures forall i :: 0 <= i < |r.records| ==> |r.records[i]| == |r.columns|
  {
    var cols := Filter(FinalCols, n => n in t.headers);
    Output(cols, seq(|t.rows|, i requires 0 <= i < |t.rows| => Pick(t.headers, t.rows[i], cols)))
  }

  /** The cells of the columns `cols` of one row, in that order. */
  function Pick(h: seq<string>, row: seq<Cell>, cols: seq<string>): (r: seq<Cell>)
    requires |row| == |h|
    ensures |r| == |cols|
  {
    seq(|cols|, k requires 0 <= k < |cols| => Lookup(h, row, cols[k]))
  }

  /** Steps 4 to 9 of the loader on the prepared table. */
  function Finish(p: Table, parseDate: Cell -> Cell): Output
    requires RawTable(p)
  {
    EnsureAllRaw(p, Essential);
    Projected(Derive(EnsureAll(p, Essential), parseDate))
  }

  /** Steps 2 to 9 of the loader on the sheet as read. */
  function Transform(t: Table, parseDate: Cell -> Cell): Output
    requires RawTable(t)
  {
    PreparedShape(t);
    Finish(Prepared(t), parseDate)
  }

  /** The output columns: all of `final_cols` but "description", which is
      kept only when the sheet has it. */
  function PresentColumns(h: seq<string>): seq<string>
  {
    if "description" in h then FinalCols else FinalBefore + FinalAfter
  }

  /** The record the loader should produce for one row of the prepared
      table, field by field. */
  function CanonicalRecord(h: seq<string>, row: seq<Cell>, parseDate: Cell -> Cell): (r: seq<Cell>)
    requires |row| == |h| && forall j :: 0 <= j < |row| ==> Raw(row[j])
    ensures |r| == |PresentColumns(h)|
  {
    var cols := PresentColumns(h);
    assert forall n :: Raw(Lookup(h, row, n)) by {
      forall n {
        RawLookup(h, row, n);
      }
    }
    seq(|cols|, k requires 0 <= k < |cols| => Field(h, row, cols[k], parseDate))
  }

  /** A field depends only on the columns it is computed from. */
  lemma {:induction false} FieldAgree(h: seq<string>, row: seq<Cell>, h2: seq<string>, row2: seq<Cell>, name: string, parseDate: Cell -> Cell)
    requires |row| == |h| && |row2| == |h2|
    requires NeedsText(name) ==> Raw(Lookup(h, row, Source(name)))
    requires Lookup(h, row, Source(name)) == Lookup(h2, row2, Source(name))
    requires name == "trans_date" ==>
               Get(h, row, "trans._date") == Get(h2, row2, "trans._date") && Get(h, row, "trans_date") == Get(h2, row2, "trans_date")
    requires name == "value_date" ==> Get(h, row, "value_date") == Get(h2, row2, "value_date")
    ensures NeedsText(name) ==> Raw(Lookup(h2, row2, Source(name)))
    ensures Field(h, row, name, parseDate) == Field(h2, row2, name, parseDate)
  {
  }

  lemma {:induction false} NamesDistinct()
    ensures "trans_date" != "value_date" && "trans_date" != "debit" && "trans_date" != "credit"
    ensures "trans_date" != "balance_" && "trans_date" != "channel"
    ensures "value_date" != "debit" && "value_date" != "credit" && "value_date" != "balance_" && "value_date" != "channel"
    ensures "debit" != "credit" && "debit" != "balance_" && "debit" != "channel"
    ensures "credit" != "balance_" && "credit" != "channel" && "balance_" != "channel"
    ensures "debit_credit_" != "trans_date" && "debit_credit_" != "value_date" && "debit_credit_" != "debit"
    ensures "debit_credit_" != "credit" && "debit_credit_" != "balance_" && "debit_credit_" != "channel"
    ensures "trans._date" != "trans_date" && "trans._date" != "value_date"
    ensures Source("debit") == "debit_credit_" && Source("credit") == "debit_credit_"
    ensures Source("balance_") == "balance_" && Source("channel") == "channel"
    ensures Source("trans_date") == "trans_date" && Source("value_date") == "value_date"
  {
  }

  lemma {:induction false} ReadsAfterTransDate(t: Table, parseDate: Cell -> Cell, i: int, n: string)
    requires RawTable(t) && 0 <= i < |t.rows|
    ensures Raw(Lookup(t.headers, t.rows[i], Source(n)))
    ensures var r := AfterTransDate(t, parseDate);
      Get(r.headers, r.rows[i], n)
      == if n == "trans_date" then Some(Field(t.headers, t.rows[i], n, parseDate)) else Get(t.headers, t.rows[i], n)
  {
    RawLookup(t.headers, t.rows[i], Source(n));
    assert AfterTransDate(t, parseDate) == Step(t, "trans_date", parseDate) by {
      RawColumns(t);
    }
    StepGet(t, "trans_date", parseDate, i, n);
  }

  lemma {:induction false} ReadsAfterValueDate(t: Table, parseDate: Cell -> Cell, i: int, n: string)
    requires RawTable(t) && 0 <= i < |t.rows|
    ensures Raw(Lookup(t.headers, t.rows[i], Source(n)))
    ensures var r := AfterValueDate(t, parseDate);
      Get(r.headers, r.rows[i], n)
      == if n == "trans_date" || n == "value_date" then Some(Field(t.headers, t.rows[i], n, parseDate)) else Get(t.headers, t.rows[i], n)
  {
    RawLookup(t.headers, t.rows[i], Source(n));
    var s := AfterTransDate(t, parseDate);
    ReadsAfterTransDate(t, parseDate, i, "value_date");
    FieldAgree(s.headers, s.rows[i], t.headers, t.rows[i], "value_date", parseDate);
    ReadsAfterTransDate(t, parseDate, i, n);
    StepGet(s, "value_date", parseDate, i, n);
  }

  lemma {:induction false} ReadsAfterDebit(t: Table, parseDate: Cell -> Cell, i: int, n: string)
    requires RawTable(t) && 0 <= i < |t.rows|
    ensures Raw(Lookup(t.headers, t.rows[i], Source(n)))
    ensures var r := AfterDebit(t, parseDate);
      Get(r.headers, r.rows[i], n)
      == if n == "trans_date" || n == "value_date" || n == "debit" then Some(Field(t.headers, t.rows[i], n, parseDate)) else Get(t.headers, t.rows[i], n)
  {
    RawLookup(t.headers, t.rows[i], Source(n));
    var s := AfterValueDate(t, parseDate);
    ReadsAfterValueDate(t, parseDate, i, "debit_credit_");
    FieldAgree(s.headers, s.rows[i], t.headers, t.rows[i], "debit", parseDate);
    ReadsAfterValueDate(t, parseDate, i, n);
    StepGet(s, "debit", parseDate, i, n);
  }

  lemma {:induction false} ReadsAfterCredit(t: Table, parseDate: Cell -> Cell, i: int, n: string)
    requires RawTable(t) && 0 <= i < |t.rows|
    ensures Raw(Lookup(t.headers, t.rows[i], Source(n)))
    ensures var r := AfterCredit(t, parseDate);
      Get(r.headers, r.rows[i], n)
      == if n == "trans_date" || n == "value_date" || n == "debit" || n == "credit" then Some(Field(t.headers, t.rows[i], n, parseDate)) else Get(t.headers, t.rows[i], n)
  {
    RawLookup(t.headers, t.rows[i], Source(n));
    var s := AfterDebit(t, parseDate);
    ReadsAfterDebit(t, parseDate, i, "debit_credit_");
    FieldAgree(s.headers, s.rows[i], t.headers, t.rows[i], "credit", parseDate);
    ReadsAfterDebit(t, parseDate, i, n);
    StepGet(s, "credit", parseDate, i, n);
  }

  lemma {:induction false} ReadsAfterBalance(t: Table, parseDate: Cell -> Cell, i: int, n: string)
    requires RawTable(t) && 0 <= i < |t.rows|
    ensures Raw(Lookup(t.headers, t.rows[i], Source(n)))
    ensures var r := AfterBalance(t, parseDate);
      Get(r.headers, r.rows[i], n)
      == if n == "trans_date" || n == "value_date" || n == "debit" || n == "credit" || n == "balance_" then Some(Field(t.headers, t.rows[i], n, parseDate)) else Get(t.headers, t.rows[i], n)
  {
    RawLookup(t.headers, t.rows[i], Source(n));
    var s := AfterCredit(t, parseDate);
    ReadsAfterCredit(t, parseDate, i, "balance_");
    FieldAgree(s.headers, s.rows[i], t.headers, t.rows[i], "balance_", parseDate);
    ReadsAfterCredit(t, parseDate, i, n);
    StepGet(s, "balance_", parseDate, i, n);
  }

  /** After steps 5 to 8 each derived name reads its field, computed from
      the table the defaulting loop left, and every other name reads as
      before. */
  lemma {:induction false} ReadsDerive(t: Table, parseDate: Cell -> Cell, i: int, n: string)
    requires RawTable(t) && 0 <= i < |t.rows|
    ensures Raw(Lookup(t.headers, t.rows[i], Source(n)))
    ensures var r := Derive(t, parseDate);
      Get(r.headers, r.rows[i], n)
      == if n == "trans_date" || n == "value_date" || n == "debit" || n == "credit" || n == "balance_" || n == "channel" then Some(Field(t.headers, t.rows[i], n, parseDate)) else Get(t.headers, t.rows[i], n)
  {
    RawLookup(t.headers, t.rows[i], Source(n));
    var s := AfterBalance(t, parseDate);
    ReadsAfterBalance(t, parseDate, i, "channel");
    FieldAgree(s.headers, s.rows[i], t.headers, t.rows[i], "channel", parseDate);
    ReadsAfterBalance(t, parseDate, i, n);
    StepGet(s, "channel", parseDate, i, n);
  }

  /** Steps 5 to 8 add exactly the derived names to the headers. */
  lemma {:induction false} DeriveHeaders(t: Table, parseDate: Cell -> Cell)
    requires RawTable(t)
    ensures forall n :: n in Derive(t, parseDate).headers <==> n in t.headers || n in Derived
  {
    var t5 := AfterTransDate(t, parseDate);
    var t6 := AfterValueDate(t, parseDate);
    var t7 := AfterDebit(t, parseDate);
    var t8 := AfterCredit(t, parseDate);
    var t9 := AfterBalance(t, parseDate);
    assert t5.headers == AddName(t.headers, "trans_date") by {
      RawColumns(t);
    }
    assert t6.headers == AddName(t5.headers, "value_date");
    assert t7.headers == AddName(t6.headers, "debit");
    assert t8.headers == AddName(t7.headers, "credit");
    assert t9.headers == AddName(t8.headers, "balance_");
    assert Derive(t, parseDate).headers == AddName(t9.headers, "channel");
  }

  /** Which of `final_cols` survive, when all but "description" are
      known to be columns. */
  lemma {:induction false} FinalColumns(p: string -> bool)
    requires p("trans_date") && p("value_date") && p("debit") && p("credit") && p("balance_")
    requires p("channel") && p("transaction_reference") && p("counterparty")
    ensures Filter(FinalCols, p) == if p("description") then FinalCols else FinalBefore + FinalAfter
  {
    FinalColsPass(p);
    FilterSkipOne(FinalBefore, "description", FinalAfter, p);
  }

  lemma {:induction false} FinalColsPass(p: string -> bool)
    requires p("trans_date") && p("value_date") && p("debit") && p("credit") && p("balance_")
    requires p("channel") && p("transaction_reference") && p("counterparty")
    ensures forall i :: 0 <= i < |FinalBefore| ==> p(FinalBefore[i])
    ensures forall i :: 0 <= i < |FinalAfter| ==> p(FinalAfter[i])
  {
  }

  /** Filtering keeps everything but one element, which it keeps when that
      element passes. */
  lemma {:induction false} FilterSkipOne<T>(a: seq<T>, x: T, b: seq<T>, p: T -> bool)
    requires forall i :: 0 <= i < |a| ==> p(a[i])
    requires forall i :: 0 <= i < |b| ==> p(b[i])
    ensures Filter(a + [x] + b, p) == if p(x) then a + [x] + b else a + b
  {
    FilterConcat(a + [x], b, p);
    FilterConcat(a, [x], p);
    FilterAll(a, p);
    FilterAll(b, p);
    assert Filter([x], p) == if p(x) then [x] else [] by {
      assert [x][1..] == [];
    }
  }

  lemma {:induction false} DateNamesNotEssential()
    ensures "trans._date" !in Essential && "trans_date" !in Essential && "value_date" !in Essential
  {
  }

  lemma {:induction false} EnsureAllReadsAt(t: Table, ns: seq<string>, i: int, n: string)
    requires WellFormed(t) && 0 <= i < |t.rows|
    ensures var r := EnsureAll(t, ns);
      (n !in ns ==> Get(r.headers, r.rows[i], n) == Get(t.headers, t.rows[i], n))
      && Lookup(r.headers, r.rows[i], n) == Lookup(t.headers, t.rows[i], n)
  {
    EnsureAllReads(t, ns);
  }

  /** The defaulting loop changes no field of any row. */
  lemma {:induction false} FieldAfterDefaults(p: Table, parseDate: Cell -> Cell, i: int, name: string)
    requires RawTable(p) && 0 <= i < |p.rows|
    ensures var t := EnsureAll(p, Essential);
      RawTable(t)
      && Raw(Lookup(p.headers, p.rows[i], Source(name)))
      && Raw(Lookup(t.headers, t.rows[i], Source(name)))
      && Field(t.headers, t.rows[i], name, parseDate) == Field(p.headers, p.rows[i], name, parseDate)
  {
    var t := EnsureAll(p, Essential);
    var h, row, h2, row2 := t.headers, t.rows[i], p.headers, p.rows[i];
    EnsureAllRaw(p, Essential);
    RawLookup(h2, row2, Source(name));
    assert Lookup(h, row, Source(name)) == Lookup(h2, row2, Source(name))
      && Get(h, row, "trans._date") == Get(h2, row2, "trans._date")
      && Get(h, row, "trans_date") == Get(h2, row2, "trans_date")
      && Get(h, row, "value_date") == Get(h2, row2, "value_date")
    by {
      DateNamesNotEssential();
      EnsureAllReadsAt(p, Essential, i, Source(name));
      EnsureAllReadsAt(p, Essential, i, "trans._date");
      EnsureAllReadsAt(p, Essential, i, "trans_date");
      EnsureAllReadsAt(p, Essential, i, "value_date");
    }
    FieldAgree(h, row, h2, row2, name, parseDate);
  }

  /** One field of one output record. */
  lemma {:induction false} RecordField(p: Table, parseDate: Cell -> Cell, i: int, n: string)
    requires RawTable(p) && 0 <= i < |p.rows|
    ensures var q := EnsureAll(p, Essential);
      RawTable(q) && Raw(Lookup(p.headers, p.rows[i], Source(n)))
      && Lookup(Derive(q, parseDate).headers, Derive(q, parseDate).rows[i], n) == Field(p.headers, p.rows[i], n, parseDate)
  {
    var q := EnsureAll(p, Essential);
    EnsureAllRaw(p, Essential);
    FieldAfterDefaults(p, parseDate, i, n);
    ReadsDerive(q, parseDate, i, n);
    if n !in Derived {
      EnsureAllReads(p, Essential);
      assert Lookup(q.headers, q.rows[i], n) == Lookup(p.headers, p.rows[i], n);
    }
  }

  /** Every final column but "description" is essential or derived. */
  lemma {:induction false} AlwaysPresent()
    ensures "trans_date" in Derived && "value_date" in Derived && "debit" in Derived && "credit" in Derived
    ensures "balance_" in Derived && "channel" in Derived
    ensures "transaction_reference" in Essential && "counterparty" in Essential
    ensures "description" !in Essential && "description" !in Derived
  {
    assert Derived[0] == "trans_date" && Derived[1] == "value_date" && Derived[2] == "debit";
    assert Derived[3] == "credit" && Derived[4] == "balance_" && Derived[5] == "channel";
    assert Essential[3] == "transaction_reference" && Essential[4] == "counterparty";
  }

  /** After steps 4 to 8 the final columns are all present, except
      "description" when the sheet lacks it. */
  lemma {:induction false} FinalNamesPresent(p: Table, parseDate: Cell -> Cell)
    requires RawTable(p)
    ensures RawTable(EnsureAll(p, Essential))
    ensures var d := Derive(EnsureAll(p, Essential), parseDate);
      "trans_date" in d.headers && "value_date" in d.headers && "debit" in d.headers && "credit" in d.headers
      && "balance_" in d.headers && "channel" in d.headers
      && "transaction_reference" in d.headers && "counterparty" in d.headers
      && ("description" in d.headers <==> "description" in p.headers)
  {
    var q := EnsureAll(p, Essential);
    EnsureAllRaw(p, Essential);
    EnsureAllNames(p, Essential);
    DeriveHeaders(q, parseDate);
    AlwaysPresent();
  }

  /** The output has all of `final_cols` but a missing "description". */
  lemma {:induction false} FinishColumns(p: Table, parseDate: Cell -> Cell)
    requires RawTable(p)
    ensures var q := EnsureAll(p, Essential);
      RawTable(q)
      && Finish(p, parseDate) == Projected(Derive(q, parseDate))
      && Finish(p, parseDate).columns == PresentColumns(p.headers)
  {
    FinalNamesPresent(p, parseDate);
    var d := Derive(EnsureAll(p, Essential), parseDate);
    FinalColumns(n => n in d.headers);
  }

  /** The same for the whole loader. */
  lemma {:induction false} TransformColumns(t: Table, parseDate: Cell -> Cell)
    requires RawTable(t)
    ensures var p := Prepared(t);
      RawTable(p)
      && Transform(t, parseDate) == Finish(p, parseDate)
      && Transform(t, parseDate).columns == PresentColumns(p.headers)
  {
    PreparedShape(t);
    FinishColumns(Prepared(t), parseDate);
  }

  /** One cell of the projected output. */
  lemma {:induction false} ProjectedAt(d: Table, i: int, k: int)
    requires WellFormed(d) && 0 <= i < |d.rows| && 0 <= k < |Projected(d).columns|
    ensures Projected(d).records[i][k] == Lookup(d.headers, d.rows[i], Projected(d).columns[k])
  {
  }

  /** One field of the reference record. */
  lemma {:induction false} CanonicalAt(h: seq<string>, row: seq<Cell>, parseDate: Cell -> Cell, k: int)
    requires |row| == |h| && forall j :: 0 <= j < |row| ==> Raw(row[j])
    requires 0 <= k < |PresentColumns(h)|
    ensures Raw(Lookup(h, row, Source(PresentColumns(h)[k])))
    ensures CanonicalRecord(h, row, parseDate)[k] == Field(h, row, PresentColumns(h)[k], parseDate)
  {
    RawLookup(h, row, Source(PresentColumns(h)[k]));
  }

  /** One field of one output record, against the reference record. */
  lemma {:induction false} RecordCell(p: Table, parseDate: Cell -> Cell, i: int, k: int)
    requires RawTable(p) && 0 <= i < |p.rows| && 0 <= k < |PresentColumns(p.headers)|
    ensures var out := Finish(p, parseDate);
      i < |out.records| && k < |out.records[i]|
      && out.records[i][k] == CanonicalRecord(p.headers, p.rows[i], parseDate)[k]
  {
    FinishColumns(p, parseDate);
    var d := Derive(EnsureAll(p, Essential), parseDate);
    ProjectedAt(d, i, k);
    CanonicalAt(p.headers, p.rows[i], parseDate, k);
    RecordField(p, parseDate, i, PresentColumns(p.headers)[k]);
  }

  /** One output record per row, as long as the reference record. */
  lemma {:induction false} RecordLength(p: Table, parseDate: Cell -> Cell, i: int)
    requires RawTable(p) && 0 <= i < |p.rows|
    ensures var out := Finish(p, parseDate);
      |out.records| == |p.rows| && |out.records[i]| == |CanonicalRecord(p.headers, p.rows[i], parseDate)|
  {
    FinishColumns(p, parseDate);
  }

  /** One output record holds the fields of its row. */
  lemma {:induction false} RecordAt(p: Table, parseDate: Cell -> Cell, i: int)
    requires RawTable(p) && 0 <= i < |p.rows|
    ensures var out := Finish(p, parseDate);
      i < |out.records| && out.records[i] == CanonicalRecord(p.headers, p.rows[i], parseDate)
  {
    RecordLength(p, parseDate, i);
    RecordCells(p, parseDate, i);
  }

  lemma {:induction false} RecordCells(p: Table, parseDate: Cell -> Cell, i: int)
    requires RawTable(p) && 0 <= i < |p.rows|
    ensures var out := Finish(p, parseDate); var c := CanonicalRecord(p.headers, p.rows[i], parseDate);
      i < |out.records| && |c| <= |out.records[i]|
      && forall k :: 0 <= k < |c| ==> out.records[i][k] == c[k]
  {
    RecordLength(p, parseDate, i);
    forall k | 0 <= k < |PresentColumns(p.headers)| {
      RecordCell(p, parseDate, i, k);
    }
  }

  /** The loader's output: the columns are `final_cols` less a missing
      "description", there is one record per row of the prepared table, in
      order, and each record holds the fields of its row. */
  lemma {:induction false} TransformRecords(t: Table, parseDate: Cell -> Cell)
    requires RawTable(t)
    ensures var p := Prepared(t); var out := Transform(t, parseDate);
      RawTable(p)
      && out.columns == PresentColumns(p.headers)
      && |out.records| == |p.rows|
      && forall i :: 0 <= i < |p.rows| ==> out.records[i] == CanonicalRecord(p.headers, p.rows[i], parseDate)
  {
    var p := Prepared(t);
    TransformColumns(t, parseDate);
    forall i | 0 <= i < |p.rows|
      ensures Finish(p, parseDate).records[i] == CanonicalRecord(p.headers, p.rows[i], parseDate)
    {
      RecordAt(p, parseDate, i);
    }
  }

  /** `trans_date` comes from "trans._date" if the sheet has it, else from
      "trans_date", else it is `NaT`; `value_date` is `NaT` when missing. */
  lemma {:induction false} DateFields(h: seq<string>, row: seq<Cell>, parseDate: Cell -> Cell)
    requires |row| == |h|
    ensures Field(h, row, "trans_date", parseDate)
      == if "trans._date" in h then parseDate(Lookup(h, row, "trans._date"))
         else if "trans_date" in h then parseDate(Lookup(h, row, "trans_date"))
         else Null
    ensures Field(h, row, "value_date", parseDate)
      == if "value_date" in h then parseDate(Lookup(h, row, "value_date")) else Null
  {
  }

  /** The debit field is a non-negative amount, and at most one of debit
      and credit is non-zero. */
  lemma {:induction false} AmountFields(h: seq<string>, row: seq<Cell>, parseDate: Cell -> Cell)
    requires |row| == |h| && forall j :: 0 <= j < |row| ==> Raw(row[j])
    ensures Raw(Lookup(h, row, "debit_credit_")) && Raw(Lookup(h, row, "balance_"))
    ensures var d, c := Field(h, row, "debit", parseDate), Field(h, row, "credit", parseDate);
      d.Amount? && d.x >= 0.0 && c.Amount? && (d.x == 0.0 || c.x == 0.0)
    ensures var b := Field(h, row, "balance_", parseDate); b.Amount? || b.Nan?
  {
    RawLookup(h, row, "debit_credit_");
    RawLookup(h, row, "balance_");
    DebitCreditExclusive(Show(Lookup(h, row, "debit_credit_")));
  }

  /** The channel field is upper-case text, never "" and never "NAN". */
  lemma {:induction false} ChannelField(h: seq<string>, row: seq<Cell>, parseDate: Cell -> Cell)
    requires |row| == |h| && forall j :: 0 <= j < |row| ==> Raw(row[j])
    ensures Raw(Lookup(h, row, "channel"))
    ensures var c := Field(h, row, "channel", parseDate);
      c.Str? && c.s != "" && c.s != "NAN" && Upper(c.s) == c.s
  {
    RawLookup(h, row, "channel");
    var c := Lookup(h, row, "channel");
    if !c.Null? {
      CleanChannelSpec(Show(c));
    } else {
      assert Upper("UNKNOWN") == "UNKNOWN";
    }
  }

  /** Columns the loader does not compute are passed through. */
  lemma {:induction false} PlainFields(h: seq<string>, row: seq<Cell>, parseDate: Cell -> Cell, n: string)
    requires |row| == |h| && n !in Derived
    ensures Field(h, row, n, parseDate) == Lookup(h, row, n)
  {
  }

  /** The loader's dataframe, changed step by step. */
  class Frame {
    var headers: seq<string>
    var rows: seq<seq<Cell>>

    function State(): Table
      reads this
    {
      Table(headers, rows)
    }

    /** The sheet as `pd.read_excel` returns it. */
    constructor (t: Table)
      ensures State() == t
    {
      headers := t.headers;
      rows := t.rows;
    }

    /** `df = df.dropna(how="all")` */
    method DropEmptyRows()
      requires WellFormed(State())
      modifies this
      ensures State() == WithoutEmptyRows(old(State()))
    {
      rows := Filter(rows, NonEmptyRow);
    }

    /** `df = df.loc[:, ~df.columns.str.contains("Unnamed")]` */
    method DropUnnamedColumns()
      requires WellFormed(State())
      modifies this
      ensures State() == WithoutUnnamed(old(State()))
    {
      var h, rs := headers, rows;
      rows := seq(|rs|, i requires 0 <= i < |rs| => NamedCells(h, rs[i]));
      headers := Filter(h, Named);
    }

    /** `df.columns = df.columns.str.strip().str.lower().str.replace(...)` */
    method StandardizeHeaders()
      requires WellFormed(State())
      modifies this
      ensures State() == WithNormalizedHeaders(old(State()))
    {
      headers := NormalizedHeaders(headers);
    }

    /** `df[name] = col` */
    method SetColumn(name: string, col: seq<Cell>)
      requires WellFormed(State()) && |col| == |rows|
      modifies this
      ensures State() == Assign(old(State()), name, col)
    {
      var h, rs := headers, rows;
      rows := seq(|rs|, i requires 0 <= i < |rs| => Put(h, rs[i], name, col[i]));
      headers := AddName(h, name);
    }

    /** The loop of step 4. */
    method EnsureEssentials()
      requires WellFormed(State())
      modifies this
      ensures State() == EnsureAll(old(State()), Essential)
    {
      ghost var t := State();
      var ns := Essential;
      for k := 0 to |ns|
        invariant WellFormed(State())
        invariant State() == EnsureAll(t, ns[..k])
      {
        var name := ns[k];
        assert EnsureAll(t, ns[..k + 1]) == EnsureColumn(State(), name) by {
          assert ns[..k + 1][..k] == ns[..k];
        }
        if name !in headers {
          SetColumn(name, Nulls(|rows|));
        }
      }
      assert ns[..|ns|] == ns;
    }

    /** One of the column assignments of steps 5 to 8. */
    method DeriveColumn(name: string, parseDate: Cell -> Cell)
      requires StepReady(State(), name)
      modifies this
      ensures State() == Step(old(State()), name, parseDate)
    {
      var h, rs := headers, rows;
      SetColumn(name, seq(|rs|, i requires 0 <= i < |rs| => Field(h, rs[i], name, parseDate)));
    }

    /** Steps 2 to 4 of `main`. */
    method Prepare()
      requires RawTable(State())
      modifies this
      ensures RawTable(State())
      ensures State() == EnsureAll(Prepared(old(State())), Essential)
    {
      ghost var t := State();
      DropEmptyRows();
      DropUnnamedColumns();
      StandardizeHeaders();
      PreparedShape(t);
      EnsureEssentials();
      EnsureAllRaw(Prepared(t), Essential);
    }

    /** Steps 5 to 8 of `main`. */
    method DeriveColumns(parseDate: Cell -> Cell)
      requires RawTable(State())
      modifies this
      ensures State() == Derive(old(State()), parseDate)
    {
      ghost var q := State();
      RawColumns(q);
      DeriveColumn("trans_date", parseDate);
      assert State() == AfterTransDate(q, parseDate);
      DeriveColumn("value_date", parseDate);
      assert State() == AfterValueDate(q, parseDate);
      DeriveColumn("debit", parseDate);
      assert State() == AfterDebit(q, parseDate);
      DeriveColumn("credit", parseDate);
      assert State() == AfterCredit(q, parseDate);
      DeriveColumn("balance_", parseDate);
      assert State() == AfterBalance(q, parseDate);
      DeriveColumn("channel", parseDate);
    }

    /** Steps 2 to 9 of `main`: the frame ends as the loader leaves `df`,
        and the result is `final_df` with its records. */
    method Load(parseDate: Cell -> Cell) returns (out: Output)
      requires RawTable(State())
      modifies this
      ensures out == Transform(old(State()), parseDate)
      ensures RawTable(EnsureAll(Prepared(old(State())), Essential))
      ensures State() == Derive(EnsureAll(Prepared(old(State())), Essential), parseDate)
    {
      Prepare();
      DeriveColumns(parseDate);
      out := Projected(State());
    }
  }
}
