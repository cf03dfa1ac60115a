/**
 * Ticket unification and document projection (`src/data_processing.py`):
 * read every supported table in the input directory, tag each with its file
 * name, concatenate them, normalise column names, ticket IDs and dates,
 * derive the embedding text, and project each row to one document.
 */
module Tickets {
  import opened Wrappers
  import opened Seqs
  import opened Text
  import opened Calendar
  import opened Tables
  import opened Documents

  /** `REQUIRED_COLUMNS` (src/config.py). */
  const RequiredColumns: seq<string> :=
    ["ticket_id", "issue", "description", "resolution", "category", "resolved"]

  /** The metadata columns `create_documents` copies, back-filling absent ones. */
  const MetadataColumns: seq<string> :=
    ["ticket_id", "category", "resolved", "date", "agent_name", "resolution", "source_file"]

  const TicketPrefix: string := "TCKT-"

  /** Fallback IDs are `TCKT-<FallbackBase + row position>`. */
  const FallbackBase: nat := 100000

  // ----------------------------------------------------------------------
  // Source reader

  datatype SourceFormat = Csv | Excel | Json

  /**
   * A directory entry as `unify_tickets` sees it. `contents` is what the
   * pandas reader for the file's format returns, or `None` where it raises.
   */
  datatype DirEntry = DirEntry(name: string, isFile: bool, contents: Option<Table>)

  datatype ReadError = Unreadable

  datatype UnifyError = NoReadableFiles

  /** Position of the last `c` in `s`, or -1. */
  function LastIndex(s: string, c: char): (i: int)
    ensures -1 <= i < |s|
    ensures i >= 0 ==> s[i] == c && c !in s[i + 1..]
    ensures i == -1 ==> c !in s
  {
    if s == [] then -1
    else if s[|s| - 1] == c then |s| - 1
    else
      var init := s[..|s| - 1];
      var i := LastIndex(init, c);
      assert s == init + [s[|s| - 1]];
      assert i >= 0 ==> s[i + 1..] == init[i + 1..] + [s[|s| - 1]];
      i
  }

  /** `PurePath.suffix`: from the last dot on, unless the dot is first or last. */
  function Suffix(name: string): string {
    var i := LastIndex(name, '.');
    if 0 < i < |name| - 1 then name[i..] else ""
  }

  /** The extension dispatch of `_read_file`, compared case-insensitively. */
  function FormatOf(name: string): Option<SourceFormat> {
    var ext := Lower(Suffix(name));
    if ext == ".csv" then Some(Csv)
    else if ext == ".xlsx" || ext == ".xls" then Some(Excel)
    else if ext == ".json" then Some(Json)
    else None
  }

  /** `_read_file`: no table for an unsupported extension; an error where the reader raises. */
  function ReadFile(e: DirEntry): Result<Option<Table>, ReadError> {
    match FormatOf(e.name)
    case None => Success(None)
    case Some(_) =>
      match e.contents
      case None => Failure(Unreadable)
      case Some(t) => Success(Some(t))
  }

  /** `df["source_file"] = file_path.name`. */
  function Tag(t: Table, name: string): (u: Table)
    requires t.WellFormed()
    ensures u.WellFormed() && |u.rows| == |t.rows|
  {
    t.WithColumn("source_file", Constant(name, |t.rows|))
  }

  /** The tagged table an entry contributes, if any (directories and failures are skipped). */
  function Usable(e: DirEntry): (r: Option<Table>)
    requires e.contents.Some? ==> e.contents.value.WellFormed()
    ensures r.Some? ==> r.value.WellFormed()
  {
    if !e.isFile then None
    else
      match ReadFile(e)
      case Success(Some(t)) => Some(Tag(t, e.name))
      case _ => None
  }

  predicate ReadersWellFormed(entries: seq<DirEntry>) {
    forall k :: 0 <= k < |entries| && entries[k].contents.Some? ==> entries[k].contents.value.WellFormed()
  }

  /** The tables `unify_tickets` collects, in directory order. */
  function UsableTables(entries: seq<DirEntry>): (tables: seq<Table>)
    requires ReadersWellFormed(entries)
    ensures AllWellFormed(tables)
  {
    if entries == [] then []
    else
      var init := entries[..|entries| - 1];
      assert ReadersWellFormed(init) by {
        assert forall k :: 0 <= k < |init| ==> init[k] == entries[k];
      }
      match Usable(entries[|entries| - 1])
      case Some(t) => UsableTables(init) + [t]
      case None => UsableTables(init)
  }

  /** The extension is compared without regard to case: "tickets.CSV" is read as CSV. */
  lemma FormatIgnoresCase()
    ensures FormatOf("t.CSV") == Some(Csv)
  {
    assert LastIndex("t.CSV", '.') == 1;
    assert Lower(".CSV") == ".csv";
  }

  /** Only the last suffix counts: "a.xls.txt" is not a spreadsheet. */
  lemma FormatUsesLastSuffix()
    ensures FormatOf("a.xls.txt") == None
  {
    assert LastIndex("a.xls.txt", '.') == 5;
    assert Lower(".txt") == ".txt";
  }

  /** A name that only starts with a dot has no suffix: ".json" is skipped. */
  lemma FormatNeedsStem()
    ensures FormatOf(".json") == None
  {
    assert LastIndex(".", '.') == 0;
    assert LastIndex(".j", '.') == 0;
    assert LastIndex(".js", '.') == 0;
    assert LastIndex(".jso", '.') == 0;
    assert LastIndex(".json", '.') == 0;
    assert Suffix(".json") == "";
  }

  /** Characters after the last `c` do not move it. */
  lemma {:induction false} LastIndexSkips(s: string, t: string, c: char)
    requires c !in t
    ensures LastIndex(s + t, c) == LastIndex(s, c)
    decreases |t|
  {
    if t == [] {
      assert s + t == s;
    } else {
      assert (s + t)[..|s + t| - 1] == s + t[..|t| - 1];
      LastIndexSkips(s, t[..|t| - 1], c);
    }
  }

  /**
   * For every stem and every extension `.x` with no further dot, the suffix
   * is the extension, and the name is read exactly when that extension,
   * lower-cased, is one of `.csv`, `.xlsx`, `.xls` and `.json`.
   */
  lemma FormatOfName(stem: string, ext: string)
    requires stem != [] && |ext| >= 2 && ext[0] == '.' && '.' !in ext[1..]
    ensures Suffix(stem + ext) == ext
    ensures FormatOf(stem + ext).Some? <==> Lower(ext) in [".csv", ".xlsx", ".xls", ".json"]
    ensures FormatOf(stem + ext) == Some(Csv) <==> Lower(ext) == ".csv"
    ensures FormatOf(stem + ext) == Some(Excel) <==> Lower(ext) == ".xlsx" || Lower(ext) == ".xls"
  {
    var dotted := stem + ['.'];
    assert stem + ext == dotted + ext[1..];
    LastIndexSkips(dotted, ext[1..], '.');
    assert LastIndex(dotted, '.') == |stem|;
    assert (stem + ext)[|stem|..] == ext;
  }

  /** A name with no dot after its first character (no dot, or only a leading one) is never read. */
  lemma FormatNeedsDotAfterStem(name: string)
    requires forall i :: 0 < i < |name| ==> name[i] != '.'
    ensures Suffix(name) == "" && FormatOf(name) == None
  {
    if name != [] {
      assert name == [name[0]] + name[1..];
      LastIndexSkips([name[0]], name[1..], '.');
    }
    assert Lower("") == "";
  }

  /** A file of an unsupported type yields no table, whatever its contents. */
  lemma UnsupportedGivesNoTable(e: DirEntry)
    requires FormatOf(e.name) == None
    ensures ReadFile(e) == Success(None)
    ensures e.contents.Some? ==> e.contents.value.WellFormed() ==> Usable(e) == None
  {
  }

  /** An entry that is not a file, has an unsupported type or cannot be read. */
  predicate Barren(e: DirEntry) {
    !e.isFile || FormatOf(e.name) == None || e.contents == None
  }

  /** `unify_tickets` finds nothing exactly when no entry is a readable file of a supported type. */
  lemma {:induction false} NoUsableTables(entries: seq<DirEntry>)
    requires ReadersWellFormed(entries)
    ensures UsableTables(entries) == [] <==> forall k :: 0 <= k < |entries| ==> Barren(entries[k])
  {
    if entries != [] {
      var n := |entries| - 1;
      var init, e := entries[..n], entries[n];
      assert UsableTables(entries) == [] <==> UsableTables(init) == [] && Usable(e).None? by {
        UsableStep(entries, n);
        assert entries[..n + 1] == entries;
      }
      assert UsableTables(init) == [] <==> forall k :: 0 <= k < n ==> Barren(init[k]) by {
        NoUsableTables(init);
      }
      assert Usable(e).None? <==> Barren(e) by {
        UsableNone(e);
      }
      AllLast(Barren, entries, init);
    }
  }

  /** An entry contributes nothing exactly when it is not a file, has an unsupported type or cannot be read. */
  lemma UsableNone(e: DirEntry)
    requires e.contents.Some? ==> e.contents.value.WellFormed()
    ensures Usable(e).None? <==> Barren(e)
  {
  }

  /** Reading one more entry appends its tagged table, if it contributes one. */
  lemma UsableStep(entries: seq<DirEntry>, k: nat)
    requires ReadersWellFormed(entries) && k < |entries|
    ensures ReadersWellFormed(entries[..k]) && ReadersWellFormed(entries[..k + 1])
    ensures UsableTables(entries[..k + 1]) ==
      UsableTables(entries[..k]) + match Usable(entries[k]) case Some(t) => [t] case None => []
  {
    var p := entries[..k + 1];
    assert forall j :: 0 <= j < |p| ==> p[j] == entries[j];
    assert p[..k] == entries[..k];
  }

  // ----------------------------------------------------------------------
  // Column names

  /** `col.strip().lower().replace(" ", "_")`. */
  function NormalizeName(name: string): string {
    ReplaceChar(Lower(Strip(name)), ' ', '_')
  }

  /** Lower-casing and replacing spaces keeps a trimmed name trimmed, and is then a no-op. */
  lemma LowerUnderscoreTrimmed(t: string)
    requires Trimmed(t)
    ensures var y := ReplaceChar(Lower(t), ' ', '_');
      Trimmed(y) && Lower(y) == y && ReplaceChar(y, ' ', '_') == y
  {
    var y := ReplaceChar(Lower(t), ' ', '_');
    forall i | 0 <= i < |y| ensures y[i] != ' ' && LowerChar(y[i]) == y[i] {
    }
    if |t| > 0 {
      assert !IsSpace(y[0]);
      assert !IsSpace(y[|y| - 1]);
    }
  }

  /** Normalising a column name twice is the same as normalising it once. */
  lemma NormalizeNameIdempotent(name: string)
    ensures NormalizeName(NormalizeName(name)) == NormalizeName(name)
  {
    StripTrimmed(name);
    LowerUnderscoreTrimmed(Strip(name));
    StripOfTrimmed(NormalizeName(name));
  }

  function RenameColumns(t: Table): Table {
    Table(Map(NormalizeName, t.columns), t.rows)
  }

  /** What `_normalize_columns` leaves in the table. */
  function NormalizeColumnsSpec(t: Table): (u: Table)
    requires t.WellFormed()
    ensures u.WellFormed() && |u.rows| == |t.rows|
    ensures forall c :: c in RequiredColumns ==> c in u.columns
    ensures "ticket_id" in u.columns && "issue" in u.columns && "description" in u.columns
  {
    BackFillKeeps(RenameColumns(t), RequiredColumns);
    BackFill(RenameColumns(t), RequiredColumns)
  }

  /** `_normalize_columns`: rename every column, then back-fill the required ones with "". */
  method NormalizeColumns(df: Frame)
    requires df.Valid()
    modifies df
    ensures df.Valid() && df.Value() == NormalizeColumnsSpec(old(df.Value()))
  {
    df.Rename(Map(NormalizeName, df.columns));
    df.BackFillColumns(RequiredColumns);
  }

  /**
   * Column normalisation removes nothing: the renamed columns come first with
   * their cells unchanged, and every added column is a required name that was
   * missing, holding "" in every row.
   */
  lemma NormalizeColumnsKeepsData(t: Table)
    requires t.WellFormed()
    ensures var u := NormalizeColumnsSpec(t);
      && |u.rows| == |t.rows|
      && |t.columns| <= |u.columns|
      && u.columns[..|t.columns|] == Map(NormalizeName, t.columns)
      && (forall i :: 0 <= i < |t.rows| ==> u.rows[i][..|t.columns|] == t.rows[i])
      && (forall j :: |t.columns| <= j < |u.columns| ==>
            u.columns[j] in RequiredColumns && u.columns[j] !in Map(NormalizeName, t.columns))
      && (forall i, j :: 0 <= i < |u.rows| && |t.columns| <= j < |u.columns| ==> u.rows[i][j] == "")
  {
    BackFillKeeps(RenameColumns(t), RequiredColumns);
  }

  /** A required column missing from every source holds "" in every row. */
  lemma MissingRequiredColumnIsBlank(t: Table, c: string, i: nat)
    requires t.WellFormed() && c in RequiredColumns && c !in Map(NormalizeName, t.columns)
    requires i < |t.rows|
    ensures NormalizeColumnsSpec(t).Cell(i, c) == ""
  {
    var u := NormalizeColumnsSpec(t);
    NormalizeColumnsKeepsData(t);
    assert forall j :: 0 <= j < |t.columns| ==> u.columns[..|t.columns|][j] != c;
  }

  // ----------------------------------------------------------------------
  // Ticket IDs

  /** Index of the first digit of `s`, or |s| when there is none. */
  function FirstDigitIndex(s: string): (k: nat)
    ensures k <= |s| && NoDigits(s[..k]) && (k < |s| ==> IsDigit(s[k]))
  {
    if s == [] || IsDigit(s[0]) then 0
    else
      var k := FirstDigitIndex(s[1..]);
      assert s[..1 + k] == [s[0]] + s[1..][..k];
      1 + k
  }

  /** Length of the run of digits that `s` starts with. */
  function DigitRunLength(s: string): (n: nat)
    ensures n <= |s| && AllDigits(s[..n]) && (n < |s| ==> !IsDigit(s[n]))
  {
    if s != [] && IsDigit(s[0]) then
      var n := DigitRunLength(s[1..]);
      assert s[..1 + n] == [s[0]] + s[1..][..n];
      1 + n
    else 0
  }

  /** `re.search(r"(\d+)", s).group(0)`, or `None` when `s` has no digit. */
  function FirstDigitRun(s: string): (r: Option<string>)
    ensures r.None? <==> NoDigits(s)
    ensures r.Some? ==> |r.value| > 0 && AllDigits(r.value)
  {
    var k := FirstDigitIndex(s);
    if k == |s| then
      assert s[..k] == s;
      None
    else
      var n := DigitRunLength(s[k..]);
      assert n > 0;
      assert s[k..k + n] == s[k..][..n];
      Some(s[k..k + n])
  }

  lemma {:induction false} FirstDigitIndexAfter(p: string, x: string)
    requires NoDigits(p)
    ensures FirstDigitIndex(p + x) == |p| + FirstDigitIndex(x)
  {
    if p != [] {
      assert (p + x)[1..] == p[1..] + x;
      FirstDigitIndexAfter(p[1..], x);
    } else {
      assert p + x == x;
    }
  }

  lemma {:induction false} DigitRunLengthOf(run: string, q: string)
    requires AllDigits(run) && (q == [] || !IsDigit(q[0]))
    ensures DigitRunLength(run + q) == |run|
  {
    if run != [] {
      assert (run + q)[1..] == run[1..] + q;
      DigitRunLengthOf(run[1..], q);
    } else {
      assert run + q == q;
    }
  }

  /**
   * The run found is the leftmost maximal one: whenever `s` splits into a
   * digit-free prefix, a non-empty digit run and a rest that does not start
   * with a digit, that run is the result.
   */
  lemma FirstDigitRunIsLeftmostMaximal(s: string, p: string, run: string, q: string)
    requires s == p + run + q && NoDigits(p) && |run| > 0 && AllDigits(run)
    requires q == [] || !IsDigit(q[0])
    ensures FirstDigitRun(s) == Some(run)
  {
    assert s == p + (run + q);
    FirstDigitIndexAfter(p, run + q);
    assert FirstDigitIndex(s) == |p|;
    assert s[|p|..] == run + q;
    DigitRunLengthOf(run, q);
    assert s[|p|..|p| + |run|] == run;
  }

  /** A canonical ID: `TCKT-` followed by one or more digits. */
  predicate IsTicketId(s: string) {
    |s| > |TicketPrefix| && s[..|TicketPrefix|] == TicketPrefix && AllDigits(s[|TicketPrefix|..])
  }

  /** `normalize_id(value, index)` of `_normalize_ticket_ids`. */
  function NormalizeId(value: string, index: nat): (id: string)
    ensures IsTicketId(id)
  {
    match FirstDigitRun(Strip(value))
    case Some(run) =>
      assert (TicketPrefix + run)[|TicketPrefix|..] == run;
      TicketPrefix + run
    case None =>
      var digits := DecimalString(FallbackBase + index);
      DecimalStringDigits(FallbackBase + index);
      assert (TicketPrefix + digits)[|TicketPrefix|..] == digits;
      TicketPrefix + digits
  }

  /**
   * With a digit in the trimmed value the ID is `TCKT-` plus its leftmost
   * maximal digit run (leading zeros kept); with none it is
   * `TCKT-<100000 + index>`.
   */
  lemma NormalizeIdCases(value: string, index: nat, p: string, run: string, q: string)
    ensures NoDigits(Strip(value)) ==> NormalizeId(value, index) == TicketPrefix + DecimalString(FallbackBase + index)
    ensures Strip(value) == p + run + q && NoDigits(p) && |run| > 0 && AllDigits(run) && (q == [] || !IsDigit(q[0]))
            ==> NormalizeId(value, index) == TicketPrefix + run
  {
    if Strip(value) == p + run + q && NoDigits(p) && |run| > 0 && AllDigits(run) && (q == [] || !IsDigit(q[0])) {
      FirstDigitRunIsLeftmostMaximal(Strip(value), p, run, q);
    }
  }

  /** A canonical ID is a fixed point of `normalize_id`, whatever the row position. */
  lemma NormalizeIdFixesTicketIds(id: string, index: nat)
    requires IsTicketId(id)
    ensures NormalizeId(id, index) == id
  {
    assert Trimmed(id);
    StripOfTrimmed(id);
    var run := id[|TicketPrefix|..];
    assert NoDigits(TicketPrefix);
    assert id == TicketPrefix + run + [];
    FirstDigitRunIsLeftmostMaximal(id, TicketPrefix, run, []);
  }

  /** `normalize_id` is idempotent, whatever the row positions of the two calls. */
  lemma NormalizeIdIdempotent(value: string, i: nat, j: nat)
    ensures NormalizeId(NormalizeId(value, i), j) == NormalizeId(value, i)
  {
    NormalizeIdFixesTicketIds(NormalizeId(value, i), j);
  }

  /** A value laid out as digit-free text, a digit run, then text not starting with a digit. */
  lemma NormalizeIdOfLayout(v: string, p: string, run: string, q: string, index: nat)
    requires v == p + run + q && Trimmed(v)
    requires NoDigits(p) && |run| > 0 && AllDigits(run) && (q == [] || !IsDigit(q[0]))
    ensures NormalizeId(v, index) == TicketPrefix + run
  {
    StripOfTrimmed(v);
    NormalizeIdCases(v, index, p, run, q);
  }

  /** The digits are found inside other text: "#4412-b" becomes "TCKT-4412". */
  lemma NormalizeIdEmbeddedNumber(v: string, index: nat)
    requires v == "#4412-b"
    ensures NormalizeId(v, index) == TicketPrefix + "4412"
  {
    NormalizeIdOfLayout(v, "#", "4412", "-b", index);
  }

  /** Leading zeros are kept: "ID 0042" becomes "TCKT-0042". */
  lemma NormalizeIdKeepsLeadingZeros(v: string, index: nat)
    requires v == "ID 0042"
    ensures NormalizeId(v, index) == TicketPrefix + "0042"
  {
    NormalizeIdOfLayout(v, "ID ", "0042", "", index);
  }

  /** A blank or digit-free ID falls back to the row position: row 7 gets "TCKT-100007". */
  lemma NormalizeIdFallback()
    ensures NormalizeId("", 7) == TicketPrefix + "100007"
    ensures NormalizeId("N/A", 7) == TicketPrefix + "100007"
  {
    StripOfTrimmed("N/A");
    assert NoDigits("N/A");
    assert DecimalString(100007) == "100007";
  }

  /** What `_normalize_ticket_ids` leaves in the table. */
  function NormalizeIdsSpec(t: Table): (u: Table)
    requires t.WellFormed() && "ticket_id" in t.columns
    ensures u.WellFormed() && |u.rows| == |t.rows| && u.columns == t.columns
  {
    t.WithColumn("ticket_id", seq(|t.rows|, i requires 0 <= i < |t.rows| => NormalizeId(t.Cell(i, "ticket_id"), i)))
  }

  /** `_normalize_ticket_ids`: replaces each row's ID by `normalize_id(raw, row position)`. */
  method NormalizeTicketIds(df: Frame)
    requires df.Valid() && "ticket_id" in df.columns
    modifies df
    ensures df.Valid() && df.Value() == NormalizeIdsSpec(old(df.Value()))
  {
    var t := df.Value();
    var ids := seq(|t.rows|, i requires 0 <= i < |t.rows| => NormalizeId(t.Cell(i, "ticket_id"), i));
    df.SetColumn("ticket_id", ids);
  }

  // ----------------------------------------------------------------------
  // Dates

  /** `pd.to_datetime(value, errors="coerce")`: an external parser; `None` is NaT. */
  type DateParser = string -> Option<Date>

  /** One cell of `parsed.dt.strftime("%Y-%m-%d").fillna("")`. */
  function DateCell(parse: DateParser, raw: string): string {
    match parse(raw)
    case Some(d) => IsoFormat(d)
    case None => ""
  }

  /** What `_normalize_dates` leaves in the table. */
  function NormalizeDatesSpec(t: Table, parse: DateParser): (u: Table)
    requires t.WellFormed()
    ensures u.WellFormed() && |u.rows| == |t.rows| && "date" in u.columns
    ensures forall c :: c in t.columns ==> c in u.columns
  {
    if "date" in t.columns then
      t.WithColumn("date", seq(|t.rows|, i requires 0 <= i < |t.rows| => DateCell(parse, t.Cell(i, "date"))))
    else
      t.WithColumn("date", Constant("", |t.rows|))
  }

  /** `_normalize_dates`: reformat a present date column, or add one holding "". */
  method NormalizeDates(df: Frame, parse: DateParser)
    requires df.Valid()
    modifies df
    ensures df.Valid() && df.Value() == NormalizeDatesSpec(old(df.Value()), parse)
  {
    var t := df.Value();
    if "date" in df.columns {
      var dates := seq(|t.rows|, i requires 0 <= i < |t.rows| => DateCell(parse, t.Cell(i, "date")));
      df.SetColumn("date", dates);
    } else {
      df.SetColumn("date", Constant("", |df.rows|));
    }
  }

  // ----------------------------------------------------------------------
  // Embedding text

  /** `"Issue: " + issue + " - " + "Description: " + description`. */
  function EmbeddingText(issue: string, description: string): string {
    "Issue: " + issue + " - " + "Description: " + description
  }

  /** What `_create_embedding_text` leaves in the table. */
  function EmbeddingTextSpec(t: Table): (u: Table)
    requires t.WellFormed() && "issue" in t.columns && "description" in t.columns
    ensures u.WellFormed() && |u.rows| == |t.rows| && "embedding_text" in u.columns
    ensures forall c :: c in t.columns ==> c in u.columns
  {
    t.WithColumn("embedding_text",
      seq(|t.rows|, i requires 0 <= i < |t.rows| => EmbeddingText(t.Cell(i, "issue"), t.Cell(i, "description"))))
  }

  /** `_create_embedding_text`. */
  method CreateEmbeddingText(df: Frame)
    requires df.Valid() && "issue" in df.columns && "description" in df.columns
    modifies df
    ensures df.Valid() && df.Value() == EmbeddingTextSpec(old(df.Value()))
  {
    var t := df.Value();
    var texts := seq(|t.rows|, i requires 0 <= i < |t.rows| => EmbeddingText(t.Cell(i, "issue"), t.Cell(i, "description")));
    df.SetColumn("embedding_text", texts);
  }

  /** The embedding text starts with "Issue: " and ends with the description. */
  lemma EmbeddingTextShape(issue: string, description: string)
    ensures var e := EmbeddingText(issue, description);
      && |e| == 23 + |issue| + |description|
      && e[..7] == "Issue: " && e[7..7 + |issue|] == issue
      && e[7 + |issue|..23 + |issue|] == " - Description: "
      && e[23 + |issue|..] == description
  {
  }

  // ----------------------------------------------------------------------
  // The whole normaliser

  function NormalizeSpec(t: Table, parse: DateParser): (u: Table)
    requires t.WellFormed()
    ensures u.WellFormed() && |u.rows| == |t.rows|
    ensures forall c :: c in RequiredColumns ==> c in u.columns
    ensures "ticket_id" in u.columns && "issue" in u.columns && "description" in u.columns
    ensures "date" in u.columns && "embedding_text" in u.columns
  {
    EmbeddingTextSpec(NormalizeDatesSpec(NormalizeIdsSpec(NormalizeColumnsSpec(t)), parse))
  }

  /** The date step keeps every other column and its cells. */
  lemma NormalizeDatesKeeps(t: Table, parse: DateParser)
    requires t.WellFormed()
    ensures var u := NormalizeDatesSpec(t, parse);
      && (forall c :: c in t.columns ==> c in u.columns)
      && (forall i, c :: 0 <= i < |t.rows| && c in t.columns && c != "date" ==> u.Cell(i, c) == t.Cell(i, c))
      && (forall i :: 0 <= i < |t.rows| ==> IsDateCell(u.Cell(i, "date")))
  {
    if "date" in t.columns {
      WithColumnCells(t, "date", seq(|t.rows|, i requires 0 <= i < |t.rows| => DateCell(parse, t.Cell(i, "date"))));
    } else {
      WithColumnCells(t, "date", Constant("", |t.rows|));
    }
  }

  /** A normalised date cell: empty, or a date written as `%Y-%m-%d`. */
  ghost predicate IsDateCell(s: string) {
    s == "" || exists d :: s == IsoFormat(d)
  }

  /** The invariant every row of the unified table satisfies. */
  ghost predicate Normalized(t: Table) {
    && t.WellFormed()
    && (forall c :: c in RequiredColumns ==> c in t.columns)
    && "ticket_id" in t.columns && "issue" in t.columns && "description" in t.columns
    && "date" in t.columns && "embedding_text" in t.columns
    && forall i :: 0 <= i < |t.rows| ==>
         && IsTicketId(t.Cell(i, "ticket_id"))
         && IsDateCell(t.Cell(i, "date"))
         && t.Cell(i, "embedding_text") == EmbeddingText(t.Cell(i, "issue"), t.Cell(i, "description"))
  }

  /** The ID step rewrites the ID cell of row `i` and no other cell. */
  lemma IdsStepCell(a: Table, i: nat, c: string)
    requires a.WellFormed() && "ticket_id" in a.columns && i < |a.rows| && c in a.columns
    ensures NormalizeIdsSpec(a).Cell(i, c) == if c == "ticket_id" then NormalizeId(a.Cell(i, c), i) else a.Cell(i, c)
  {
    WithColumnCells(a, "ticket_id", seq(|a.rows|, i requires 0 <= i < |a.rows| => NormalizeId(a.Cell(i, "ticket_id"), i)));
  }

  /** The date step leaves every other cell of row `i` alone and writes a normalised date. */
  lemma DatesStepCell(b: Table, parse: DateParser, i: nat, c: string)
    requires b.WellFormed() && i < |b.rows| && c in b.columns && c != "date"
    ensures NormalizeDatesSpec(b, parse).Cell(i, c) == b.Cell(i, c)
    ensures IsDateCell(NormalizeDatesSpec(b, parse).Cell(i, "date"))
  {
    NormalizeDatesKeeps(b, parse);
  }

  /** The embedding step leaves every other cell of row `i` alone and writes its text. */
  lemma EmbeddingStepCell(c: Table, i: nat, x: string)
    requires c.WellFormed() && "issue" in c.columns && "description" in c.columns
    requires i < |c.rows| && x in c.columns && x != "embedding_text"
    ensures EmbeddingTextSpec(c).Cell(i, x) == c.Cell(i, x)
    ensures EmbeddingTextSpec(c).Cell(i, "embedding_text") == EmbeddingText(c.Cell(i, "issue"), c.Cell(i, "description"))
  {
    WithColumnCells(c, "embedding_text",
      seq(|c.rows|, i requires 0 <= i < |c.rows| => EmbeddingText(c.Cell(i, "issue"), c.Cell(i, "description"))));
  }

  /** The three facts `Normalized` states about row `i`. */
  lemma NormalizeSpecRow(t: Table, parse: DateParser, i: nat)
    requires t.WellFormed() && i < |t.rows|
    ensures var u := NormalizeSpec(t, parse);
      && "ticket_id" in u.columns && "date" in u.columns && "embedding_text" in u.columns
      && "issue" in u.columns && "description" in u.columns
      && IsTicketId(u.Cell(i, "ticket_id"))
      && IsDateCell(u.Cell(i, "date"))
      && u.Cell(i, "embedding_text") == EmbeddingText(u.Cell(i, "issue"), u.Cell(i, "description"))
  {
    var a := NormalizeColumnsSpec(t);
    var b := NormalizeIdsSpec(a);
    var c := NormalizeDatesSpec(b, parse);
    IdsStepCell(a, i, "ticket_id");
    DatesStepCell(b, parse, i, "ticket_id");
    EmbeddingStepCell(c, i, "ticket_id");
    EmbeddingStepCell(c, i, "date");
    EmbeddingStepCell(c, i, "issue");
    EmbeddingStepCell(c, i, "description");
  }

  /**
   * After the four steps every required column exists, every row has a
   * canonical ID and a normalised date, and its embedding text is built
   * from its own issue and description; no row is added or lost.
   */
  lemma NormalizeSpecNormalized(t: Table, parse: DateParser)
    requires t.WellFormed()
    ensures Normalized(NormalizeSpec(t, parse)) && |NormalizeSpec(t, parse).rows| == |t.rows|
  {
    var u := NormalizeSpec(t, parse);
    forall i | 0 <= i < |u.rows|
      ensures IsTicketId(u.Cell(i, "ticket_id")) && IsDateCell(u.Cell(i, "date"))
      ensures u.Cell(i, "embedding_text") == EmbeddingText(u.Cell(i, "issue"), u.Cell(i, "description"))
    {
      NormalizeSpecRow(t, parse, i);
    }
  }

  // ----------------------------------------------------------------------
  // unify_tickets

  /** The reading loop of `unify_tickets`: every usable file, tagged, in directory order. */
  method CollectTables(entries: seq<DirEntry>) returns (dataframes: seq<Table>)
    requires ReadersWellFormed(entries)
    ensures dataframes == UsableTables(entries)
  {
    dataframes := [];
    for k := 0 to |entries|
      invariant ReadersWellFormed(entries[..k])
      invariant dataframes == UsableTables(entries[..k])
    {
      UsableStep(entries, k);
      var entry := entries[k];
      if !entry.isFile {
        continue;
      }
      match ReadFile(entry)
      case Failure(_) =>
        // the reader raised: warn and go on with the next file
      case Success(None) =>
        // unsupported extension
      case Success(Some(t)) =>
        dataframes := dataframes + [Tag(t, entry.name)];
    }
    assert entries[..|entries|] == entries;
  }

  /** The four normalisation steps, applied in place in the order `unify_tickets` runs them. */
  method Normalize(df: Frame, parse: DateParser)
    requires df.Valid()
    modifies df
    ensures df.Valid() && df.Value() == NormalizeSpec(old(df.Value()), parse)
  {
    ghost var t := df.Value();
    NormalizeColumns(df);
    ghost var a := df.Value();
    assert a == NormalizeColumnsSpec(t);
    assert "ticket_id" in a.columns && "issue" in a.columns && "description" in a.columns;
    NormalizeTicketIds(df);
    ghost var b := df.Value();
    assert b == NormalizeIdsSpec(a);
    NormalizeDates(df, parse);
    ghost var c := df.Value();
    assert c == NormalizeDatesSpec(b, parse);
    assert "issue" in c.columns && "description" in c.columns;
    CreateEmbeddingText(df);
    assert df.Value() == EmbeddingTextSpec(c);
  }

  /** `unify_tickets` (without the CSV snapshot it writes). */
  method UnifyTickets(entries: seq<DirEntry>, parse: DateParser) returns (r: Result<Frame, UnifyError>)
    requires ReadersWellFormed(entries)
    ensures r.Failure? <==> UsableTables(entries) == []
    ensures r.Failure? ==> r.error == NoReadableFiles
    ensures r.Success? ==> fresh(r.value) && r.value.Valid()
    ensures r.Success? ==> r.value.Value() == NormalizeSpec(Concat(UsableTables(entries)), parse)
  {
    var dataframes := CollectTables(entries);
    if dataframes == [] {
      return Failure(NoReadableFiles);
    }
    var df := new Frame(Concat(dataframes));
    Normalize(df, parse);
    r := Success(df);
  }

  // ----------------------------------------------------------------------
  // create_documents

  /** What `create_documents` stores for metadata column `c` of row `i`: the trimmed cell. */
  function Field(t: Table, i: nat, c: string): string
    requires t.WellFormed() && i < |t.rows|
  {
    if c in t.columns then Strip(t.Cell(i, c)) else ""
  }

  /** The document `create_documents` builds from row `i` of the back-filled table. */
  function DocumentOfRow(t: Table, i: nat): (d: Document)
    requires t.WellFormed() && i < |t.rows| && "embedding_text" in t.columns
    ensures d.id.Some? && d.text.Some? && d.metadata.Some?
  {
    var text := Strip(t.Cell(i, "embedding_text"));
    Document(Some(Field(t, i, "ticket_id")), Some(text), Some(RowMetadata(t, i)["problem" := text]))
  }

  /** The metadata columns of row `i`, each mapped to its field. */
  function RowMetadata(t: Table, i: nat): map<string, string>
    requires t.WellFormed() && i < |t.rows|
  {
    map c | c in MetadataColumns :: Field(t, i, c)
  }

  /** One document per row of `t`, in row order. */
  function DocumentsOf(t: Table): (docs: seq<Document>)
    requires t.WellFormed() && "embedding_text" in t.columns
    ensures |docs| == |t.rows|
  {
    seq(|t.rows|, i requires 0 <= i < |t.rows| => DocumentOfRow(t, i))
  }

  /**
   * `create_documents(df)`: back-fill the metadata columns in place, build one
   * document per row, and return them with the JSON-lines file it writes.
   */
  method CreateDocuments(df: Frame) returns (docs: seq<Document>, file: seq<JsonLine<Document>>)
    requires df.Valid() && "embedding_text" in df.columns
    modifies df
    ensures df.Valid() && df.Value() == BackFill(old(df.Value()), MetadataColumns)
    ensures "embedding_text" in df.columns && docs == DocumentsOf(df.Value())
    ensures file == WriteLines(docs)
  {
    ghost var t := df.Value();
    BackFillCells(t, MetadataColumns, "embedding_text");
    df.BackFillColumns(MetadataColumns);
    var u := df.Value();
    docs := [];
    for i := 0 to |u.rows|
      invariant |docs| == i && forall j :: 0 <= j < i ==> docs[j] == DocumentOfRow(u, j)
    {
      docs := docs + [DocumentOfRow(u, i)];
    }
    file := WriteLines(docs);
  }

  /** No metadata column is called "problem": they all differ from it in length. */
  lemma MetadataColumnNotProblem(c: string)
    requires c in MetadataColumns
    ensures c != "problem" && "ticket_id" != "problem"
  {
    assert |c| != 7;
  }

  /**
   * A row's document: id and `metadata.ticket_id` are the trimmed ticket ID,
   * text and `metadata.problem` the trimmed embedding text, and every other
   * metadata entry the trimmed cell of its column.
   */
  lemma DocumentOfRowFields(u: Table, i: nat, c: string)
    requires u.WellFormed() && i < |u.rows| && "embedding_text" in u.columns && c in MetadataColumns
    ensures var d := DocumentOfRow(u, i);
      && "ticket_id" in d.metadata.value && "problem" in d.metadata.value && c in d.metadata.value
      && d.id == Some(Field(u, i, "ticket_id")) && d.metadata.value["ticket_id"] == d.id.value
      && d.text == Some(Strip(u.Cell(i, "embedding_text"))) && d.metadata.value["problem"] == d.text.value
      && d.metadata.value[c] == Field(u, i, c)
  {
    var text := Strip(u.Cell(i, "embedding_text"));
    assert DocumentOfRow(u, i).metadata.value == RowMetadata(u, i)["problem" := text];
    MetadataField(u, i, c, text);
    assert MetadataColumns[0] == "ticket_id";
    MetadataField(u, i, "ticket_id", text);
  }

  /** Setting "problem" leaves each metadata column's field in place. */
  lemma MetadataField(u: Table, i: nat, c: string, text: string)
    requires u.WellFormed() && i < |u.rows| && c in MetadataColumns
    ensures var m := RowMetadata(u, i)["problem" := text];
      c in m && m[c] == Field(u, i, c) && m["problem"] == text
  {
    MetadataColumnNotProblem(c);
  }

  /**
   * Document `i` comes from row `i` of the table as given, and every metadata
   * column the table lacks reads "".
   */
  lemma DocumentFields(t: Table, i: nat, c: string)
    requires t.WellFormed() && i < |t.rows| && "embedding_text" in t.columns && c in MetadataColumns
    ensures var u := BackFill(t, MetadataColumns);
      && "embedding_text" in u.columns
      && var d := DocumentsOf(u)[i];
      && d.id == Some(Field(t, i, "ticket_id"))
      && d.text == Some(Strip(t.Cell(i, "embedding_text")))
      && d.metadata.value[c] == Field(t, i, c)
      && (c !in t.columns ==> d.metadata.value[c] == "")
  {
    var u := BackFill(t, MetadataColumns);
    BackFillCells(t, MetadataColumns, "embedding_text");
    FieldAfterBackFill(t, i, "ticket_id");
    FieldAfterBackFill(t, i, c);
    DocumentOfRowFields(u, i, c);
  }

  /** Back-filling does not change what a metadata field reads. */
  lemma FieldAfterBackFill(t: Table, i: nat, c: string)
    requires t.WellFormed() && i < |t.rows| && c in MetadataColumns
    ensures Field(BackFill(t, MetadataColumns), i, c) == Field(t, i, c)
  {
    if c in t.columns {
      BackFillCells(t, MetadataColumns, c);
    } else {
      BackFillAbsentCell(t, MetadataColumns, c, i);
      assert Strip("") == "";
    }
  }

  /** The written file reads back, through `load_documents`, as exactly the documents, in order. */
  lemma CreatedDocumentsReadBack(t: Table)
    requires t.WellFormed() && "embedding_text" in t.columns
    ensures var u := BackFill(t, MetadataColumns);
      "embedding_text" in u.columns && ReadDocuments(WriteLines(DocumentsOf(u))) == Success(DocumentsOf(u))
  {
    BackFillCells(t, MetadataColumns, "embedding_text");
    WriteReadRoundTrip(DocumentsOf(BackFill(t, MetadataColumns)));
  }
}
