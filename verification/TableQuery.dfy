/** The statements behind Table.Find and Table.Insert, read back as SQL. */
module TableQuery {
  import opened Wrappers
  import opened Names
  import opened Quoting
  import opened Dispatch
  import Resolution

  /** A Go row: values by column; a nil value is Null. */
  type GoRow = map<string, Value>

  // ---------- the SQL that is written ----------

  datatype Predicate = IsNull(column: string) | Equals(column: string, parameter: nat)

  function InternalName(schema: string): string {
    if schema == "public" then "main" else schema
  }

  function QualifiedName(schema: string, table: string): string {
    QuoteIdentifier(InternalName(schema)) + "." + QuoteIdentifier(table)
  }

  function PredicateText(p: Predicate): string {
    match p
    case IsNull(column) => QuoteIdentifier(column) + " IS NULL"
    case Equals(column, parameter) => QuoteIdentifier(column) + (" = $" + Decimal(parameter))
  }

  function PredicateTexts(ps: seq<Predicate>): (r: seq<string>)
    ensures |r| == |ps|
  {
    seq(|ps|, i requires 0 <= i < |ps| => PredicateText(ps[i]))
  }

  function Join(parts: seq<string>, separator: string): string {
    if parts == [] then ""
    else if |parts| == 1 then parts[0]
    else parts[0] + (separator + Join(parts[1..], separator))
  }

  function FindText(schema: string, table: string, ps: seq<Predicate>): string {
    "SELECT * FROM " + QualifiedName(schema, table)
    + if ps == [] then "" else " WHERE " + Join(PredicateTexts(ps), " AND ")
  }

  /** The non-null values of the first columns; they are the arguments. */
  function Arguments(columns: seq<string>, template: GoRow): seq<Value> {
    if columns == [] then []
    else
      var init, last := columns[..|columns| - 1], columns[|columns| - 1];
      if last in template && template[last] != Null then Arguments(init, template) + [template[last]]
      else Arguments(init, template)
  }

  function Predicates(columns: seq<string>, template: GoRow): seq<Predicate> {
    if columns == [] then []
    else
      var init, last := columns[..|columns| - 1], columns[|columns| - 1];
      Predicates(init, template)
      + [if last in template && template[last] != Null then Equals(last, |Arguments(columns, template)|) else IsNull(last)]
  }

  /** One turn of the loop over the template's columns. */
  lemma NextPredicate(columns: seq<string>, i: nat, template: GoRow)
    requires i < |columns| && columns[i] in template
    ensures var arguments, value := Arguments(columns[..i], template), template[columns[i]];
            var texts := PredicateTexts(Predicates(columns[..i], template));
            && Arguments(columns[..i + 1], template) == (if value == Null then arguments else arguments + [value])
            && PredicateTexts(Predicates(columns[..i + 1], template))
               == texts + [if value == Null then QuoteIdentifier(columns[i]) + " IS NULL"
                           else QuoteIdentifier(columns[i]) + (" = $" + Decimal(|arguments| + 1))]
  {
    hide Decimal, QuoteIdentifier;
    assert columns[..i + 1][..i] == columns[..i];
    var ps, next := Predicates(columns[..i], template), Predicates(columns[..i + 1], template);
    assert next == ps + [next[|next| - 1]];
    assert PredicateTexts(next) == PredicateTexts(ps) + [PredicateText(next[|next| - 1])];
  }

  /** Builds the statement and the arguments of a template query. */
  method FindContext(schema: string, table: string, template: GoRow) returns (statement: string, arguments: seq<Value>)
    ensures var columns := Sorted(template.Keys);
            && statement == FindText(schema, table, Predicates(columns, template))
            && arguments == Arguments(columns, template)
  {
    hide *;
    var columns := Sorted(template.Keys);
    statement := "SELECT * FROM " + QualifiedName(schema, table);
    arguments := [];
    NothingWritten(schema, table, template);
    if |columns| > 0 {
      var predicates: seq<string> := [];
      for i := 0 to |columns|
        invariant arguments == Arguments(columns[..i], template)
        invariant predicates == PredicateTexts(Predicates(columns[..i], template))
      {
        assert columns[i] in Elements(columns);
        NextPredicate(columns, i, template);
        if template[columns[i]] == Null {
          predicates := predicates + [QuoteIdentifier(columns[i]) + " IS NULL"];
        } else {
          arguments := arguments + [template[columns[i]]];
          predicates := predicates + [QuoteIdentifier(columns[i]) + (" = $" + Decimal(|arguments|))];
        }
      }
      assert columns[..|columns|] == columns;
      SomethingWritten(schema, table, columns, template);
      statement := statement + (" WHERE " + Join(predicates, " AND "));
    }
  }

  lemma NothingWritten(schema: string, table: string, template: GoRow)
    ensures Arguments([], template) == [] && PredicateTexts(Predicates([], template)) == []
    ensures FindText(schema, table, Predicates([], template)) == "SELECT * FROM " + QualifiedName(schema, table)
  {
    hide QualifiedName;
  }

  lemma SomethingWritten(schema: string, table: string, columns: seq<string>, template: GoRow)
    requires columns != []
    ensures var ps := Predicates(columns, template);
            FindText(schema, table, ps)
            == "SELECT * FROM " + QualifiedName(schema, table) + (" WHERE " + Join(PredicateTexts(ps), " AND "))
  {
    hide QualifiedName, Join, PredicateTexts;
  }

  // ---------- reading it back ----------

  function After(text: string, prefix: string): Option<string> {
    if |prefix| <= |text| && text[..|prefix|] == prefix then Some(text[|prefix|..]) else None
  }

  lemma AfterPrefix(prefix: string, rest: string)
    ensures After(prefix + rest, prefix) == Some(rest)
  {
  }

  function ReadPredicate(text: string): (r: Option<(Predicate, string)>)
    ensures r.Some? ==> |r.value.1| < |text|
  {
    var name := ReadQuoted(text, '"');
    if name.None? then None
    else
      var isNull, equals := After(name.value.1, " IS NULL"), After(name.value.1, " = $");
      if isNull.Some? then Some((IsNull(name.value.0), isNull.value))
      else if equals.None? then None
      else
        var number := ReadNumber(equals.value);
        if number.None? then None else Some((Equals(name.value.0, number.value.0), number.value.1))
  }

  function ReadPredicates(text: string): Option<seq<Predicate>>
    decreases |text|
  {
    var first := ReadPredicate(text);
    if first.None? then None
    else if first.value.1 == "" then Some([first.value.0])
    else
      var more := After(first.value.1, " AND ");
      if more.None? then None
      else
        var others := ReadPredicates(more.value);
        if others.None? then None else Some([first.value.0] + others.value)
  }

  /** A two-part qualified name. */
  function ReadQualifiedName(text: string): Option<(string, string, string)> {
    var schema := ReadQuoted(text, '"');
    if schema.None? then None
    else
      var dot := After(schema.value.1, ".");
      if dot.None? then None
      else
        var table := ReadQuoted(dot.value, '"');
        if table.None? then None else Some((schema.value.0, table.value.0, table.value.1))
  }

  datatype Find = Find(schema: string, table: string, predicates: seq<Predicate>)

  function ReadFind(text: string): Option<Find> {
    var from := After(text, "SELECT * FROM ");
    if from.None? then None
    else
      var name := ReadQualifiedName(from.value);
      if name.None? then None
      else if name.value.2 == "" then Some(Find(name.value.0, name.value.1, []))
      else
        var filter := After(name.value.2, " WHERE ");
        if filter.None? then None
        else
          var ps := ReadPredicates(filter.value);
          if ps.None? then None else Some(Find(name.value.0, name.value.1, ps.value))
  }

  lemma QualifiedNameReadsBack(schema: string, table: string, rest: string)
    requires rest == [] || rest[0] != '"'
    ensures ReadQualifiedName(QualifiedName(schema, table) + rest) == Some((InternalName(schema), table, rest))
  {
    var first, second := QuoteIdentifier(InternalName(schema)), QuoteIdentifier(table);
    assert QualifiedName(schema, table) + rest == first + ("." + (second + rest));
    ReadInvertsQuoted(InternalName(schema), '"', "." + (second + rest));
    AfterPrefix(".", second + rest);
    ReadInvertsQuoted(table, '"', rest);
  }

  lemma PredicateReadsBack(p: Predicate, rest: string)
    requires rest == [] || rest[0] == ' '
    ensures ReadPredicate(PredicateText(p) + rest) == Some((p, rest))
  {
    var name := QuoteIdentifier(p.column);
    match p {
      case IsNull(column) =>
        assert PredicateText(p) + rest == name + (" IS NULL" + rest);
        ReadInvertsQuoted(column, '"', " IS NULL" + rest);
        AfterPrefix(" IS NULL", rest);
      case Equals(column, parameter) =>
        var number := Decimal(parameter) + rest;
        assert PredicateText(p) + rest == name + (" = $" + number);
        ReadInvertsQuoted(column, '"', " = $" + number);
        AfterPrefix(" = $", number);
        assert (" = $" + number)[1] == '=' && " IS NULL"[1] == 'I';
        assert After(" = $" + number, " IS NULL").None?;
        ReadInvertsDecimal(parameter, rest);
    }
  }

  lemma {:induction false} PredicatesReadBack(ps: seq<Predicate>)
    requires ps != []
    ensures ReadPredicates(Join(PredicateTexts(ps), " AND ")) == Some(ps)
  {
    hide PredicateText, ReadPredicate;
    var texts := PredicateTexts(ps);
    if |ps| == 1 {
      assert PredicateText(ps[0]) + "" == PredicateText(ps[0]);
      PredicateReadsBack(ps[0], "");
      assert ps == [ps[0]];
    } else {
      var others := Join(texts[1..], " AND ");
      assert texts[1..] == PredicateTexts(ps[1..]);
      PredicateReadsBack(ps[0], " AND " + others);
      AfterPrefix(" AND ", others);
      PredicatesReadBack(ps[1..]);
      assert ps == [ps[0]] + ps[1..];
    }
  }

  /** The statement reads back as the predicates it was made of, on the relation it was made for. */
  lemma FindReadsBack(schema: string, table: string, ps: seq<Predicate>)
    ensures ReadFind(FindText(schema, table, ps)) == Some(Find(InternalName(schema), table, ps))
  {
    var filter := if ps == [] then "" else " WHERE " + Join(PredicateTexts(ps), " AND ");
    assert FindText(schema, table, ps) == "SELECT * FROM " + (QualifiedName(schema, table) + filter);
    AfterPrefix("SELECT * FROM ", QualifiedName(schema, table) + filter);
    QualifiedNameReadsBack(schema, table, filter);
    if ps != [] {
      AfterPrefix(" WHERE ", Join(PredicateTexts(ps), " AND "));
      PredicatesReadBack(ps);
    }
  }

  // ---------- what it means ----------

  /** A predicate of a stored row; comparing with NULL is not true. */
  predicate Holds(p: Predicate, arguments: seq<Value>, row: GoRow) {
    && p.column in row
    && match p
       case IsNull(column) => row[column] == Null
       case Equals(column, k) => 1 <= k <= |arguments| && row[column] != Null && row[column] == arguments[k - 1]
  }

  /** Every entry of the template equals the row's value; a nil entry asks for NULL. */
  predicate Matches(template: GoRow, row: GoRow) {
    forall c :: c in template ==> c in row && row[c] == template[c]
  }

  predicate Binds(p: Predicate, column: string, template: GoRow, arguments: seq<Value>) {
    && column in template && p.column == column
    && (template[column] == Null <==> p.IsNull?)
    && (p.Equals? ==> 1 <= p.parameter <= |arguments| && arguments[p.parameter - 1] == template[column])
  }

  /** Each predicate is about its own column, and its placeholder binds that column's value. */
  lemma {:induction false} PlaceholdersBindTheirColumns(columns: seq<string>, template: GoRow)
    requires Elements(columns) <= template.Keys
    ensures var ps, arguments := Predicates(columns, template), Arguments(columns, template);
            |ps| == |columns| && forall i :: 0 <= i < |ps| ==> Binds(ps[i], columns[i], template, arguments)
  {
    if columns != [] {
      var init, last := columns[..|columns| - 1], columns[|columns| - 1];
      assert last in Elements(columns) && Elements(init) <= Elements(columns);
      PlaceholdersBindTheirColumns(init, template);
      var ps := Predicates(columns, template);
      assert ps == Predicates(init, template) + [ps[|ps| - 1]];
      assert Binds(ps[|ps| - 1], last, template, Arguments(columns, template));
      forall i | 0 <= i < |init|
        ensures Binds(ps[i], columns[i], template, Arguments(columns, template))
      {
        assert Binds(Predicates(init, template)[i], init[i], template, Arguments(init, template));
      }
    }
  }

  lemma PredicatesMeanTemplate(columns: seq<string>, template: GoRow, row: GoRow)
    requires Elements(columns) == template.Keys <= row.Keys
    ensures (forall p :: p in Predicates(columns, template) ==> Holds(p, Arguments(columns, template), row))
            <==> Matches(template, row)
  {
    var ps, arguments := Predicates(columns, template), Arguments(columns, template);
    PlaceholdersBindTheirColumns(columns, template);
    hide Predicates, Arguments;
    forall i | 0 <= i < |columns|
      ensures Holds(ps[i], arguments, row) <==> row[columns[i]] == template[columns[i]]
    {
      assert columns[i] in template && ps[i].column == columns[i];
    }
    if forall p :: p in ps ==> Holds(p, arguments, row) {
      forall c | c in template
        ensures row[c] == template[c]
      {
        assert c in Elements(columns);
        var i :| 0 <= i < |columns| && columns[i] == c;
        assert ps[i] in ps;
      }
    }
  }

  /** Table.Find means what its template says: the statement it runs, read as SQL with its arguments,
      selects from the table exactly the rows that match the template. */
  lemma FindMeansTemplate(schema: string, table: string, template: GoRow, row: GoRow)
    requires template.Keys <= row.Keys
    ensures var columns := Sorted(template.Keys);
            var query := ReadFind(FindText(schema, table, Predicates(columns, template)));
            && query.Some? && query.value.schema == InternalName(schema) && query.value.table == table
            && ((forall p :: p in query.value.predicates ==> Holds(p, Arguments(columns, template), row))
                <==> Matches(template, row))
  {
    hide *;
    var columns := Sorted(template.Keys);
    FindReadsBack(schema, table, Predicates(columns, template));
    PredicatesMeanTemplate(columns, template, row);
  }

  /** The schema a statement names is, for the engine, the schema the table belongs to. */
  lemma StatementsReachTheirSchema(schema: string, table: string, ps: seq<Predicate>, columns: seq<string>, schemas: set<string>)
    requires Resolution.IsTopology(schemas) && schema in schemas
    ensures var find, insert := ReadFind(FindText(schema, table, ps)), ReadInsert(InsertText(schema, table, columns));
            && find.Some? && Resolution.SqliteSchema(find.value.schema, schemas) == Some(schema) && find.value.table == table
            && insert.Some? && Resolution.SqliteSchema(insert.value.schema, schemas) == Some(schema) && insert.value.table == table
  {
    FindReadsBack(schema, table, ps);
    InsertReadsBack(schema, table, columns);
    hide ReadFind, ReadInsert, FindText, InsertText;
    Resolution.QualifiedSchemaResolves(schema, schema, schemas);
  }

  /** What the statements look like, keyword by keyword. */
  lemma StatementsSpelled(schema: string, table: string, x: string, y: string, k: nat)
    ensures FindText(schema, table, []) == "SELECT * FROM " + QualifiedName(schema, table)
    ensures FindText(schema, table, [IsNull(x), Equals(y, k)])
            == "SELECT * FROM " + QualifiedName(schema, table)
               + (" WHERE " + (QuoteIdentifier(x) + " IS NULL" + (" AND " + (QuoteIdentifier(y) + (" = $" + Decimal(k))))))
    ensures InsertText(schema, table, []) == "INSERT INTO " + QualifiedName(schema, table) + " DEFAULT VALUES" + " RETURNING *"
    ensures InsertText(schema, table, [x, y])
            == "INSERT INTO " + QualifiedName(schema, table)
               + (" (" + (QuoteIdentifier(x) + (", " + QuoteIdentifier(y))) + ") VALUES (" + ("$" + Decimal(1) + (", " + ("$" + Decimal(2)))) + ")")
               + " RETURNING *"
  {
    hide Decimal, QualifiedName, QuoteIdentifier;
    var ps := [IsNull(x), Equals(y, k)];
    assert PredicateTexts(ps) == [PredicateText(ps[0]), PredicateText(ps[1])];
    JoinTwo(PredicateTexts(ps), " AND ");
    assert QuotedColumns([x, y]) == [QuoteIdentifier(x), QuoteIdentifier(y)];
    JoinTwo(QuotedColumns([x, y]), ", ");
    assert Placeholders(0, 2) == ["$" + Decimal(1), "$" + Decimal(2)];
    JoinTwo(Placeholders(0, 2), ", ");
  }

  lemma JoinTwo(parts: seq<string>, separator: string)
    requires |parts| == 2
    ensures Join(parts, separator) == parts[0] + (separator + parts[1])
  {
    assert parts[1..] == [parts[1]];
  }

  // ---------- Table.Insert ----------

  /** The placeholders $(from + 1), $(from + 2) and so on. */
  function Placeholders(from: nat, count: nat): (r: seq<string>)
    ensures |r| == count
  {
    seq(count, i requires 0 <= i < count => "$" + Decimal(from + i + 1))
  }

  function QuotedColumns(columns: seq<string>): (r: seq<string>)
    ensures |r| == |columns|
  {
    seq(|columns|, i requires 0 <= i < |columns| => QuoteIdentifier(columns[i]))
  }

  function InsertText(schema: string, table: string, columns: seq<string>): string {
    "INSERT INTO " + QualifiedName(schema, table)
    + (if columns == [] then " DEFAULT VALUES"
       else " (" + Join(QuotedColumns(columns), ", ") + ") VALUES (" + Join(Placeholders(0, |columns|), ", ") + ")")
    + " RETURNING *"
  }

  /** Builds the statement and the arguments that insert a row. */
  method InsertContext(schema: string, table: string, row: GoRow) returns (statement: string, arguments: seq<Value>)
    ensures var columns := Sorted(row.Keys);
            statement == InsertText(schema, table, columns) && arguments == InsertArguments(columns, row)
  {
    hide Sorted, QualifiedName, Join, Decimal, QuoteIdentifier;
    var columns := Sorted(row.Keys);
    statement := "INSERT INTO " + QualifiedName(schema, table);
    arguments := [];
    if |columns| == 0 {
      statement := statement + " DEFAULT VALUES";
    } else {
      var quotedColumns: seq<string> := [];
      var placeholders: seq<string> := [];
      for index := 0 to |columns|
        invariant |arguments| == |quotedColumns| == |placeholders| == index
        invariant forall i :: 0 <= i < index ==> columns[i] in row && arguments[i] == row[columns[i]]
        invariant forall i :: 0 <= i < index ==> quotedColumns[i] == QuotedColumns(columns)[i]
        invariant forall i :: 0 <= i < index ==> placeholders[i] == Placeholders(0, |columns|)[i]
      {
        assert columns[index] in Elements(columns);
        quotedColumns := quotedColumns + [QuoteIdentifier(columns[index])];
        placeholders := placeholders + ["$" + Decimal(index + 1)];
        arguments := arguments + [row[columns[index]]];
      }
      assert quotedColumns == QuotedColumns(columns);
      assert placeholders == Placeholders(0, |columns|);
      statement := statement + (" (" + Join(quotedColumns, ", ") + ") VALUES (" + Join(placeholders, ", ") + ")");
    }
    assert arguments == InsertArguments(columns, row);
    statement := statement + " RETURNING *";
  }

  datatype Insert = Insert(schema: string, table: string, columns: seq<string>, parameters: seq<nat>)

  function ReadNames(text: string): (r: Option<(seq<string>, string)>)
    decreases |text|
  {
    var first := ReadQuoted(text, '"');
    if first.None? then None
    else
      var more := After(first.value.1, ", ");
      if more.None? then Some(([first.value.0], first.value.1))
      else
        var others := ReadNames(more.value);
        if others.None? then None else Some(([first.value.0] + others.value.0, others.value.1))
  }

  function ReadParameters(text: string): (r: Option<(seq<nat>, string)>)
    decreases |text|
  {
    var dollar := After(text, "$");
    if dollar.None? then None
    else
      var first := ReadNumber(dollar.value);
      if first.None? then None
      else
        var more := After(first.value.1, ", ");
        if more.None? then Some(([first.value.0], first.value.1))
        else
          var others := ReadParameters(more.value);
          if others.None? then None else Some(([first.value.0] + others.value.0, others.value.1))
  }

  /** The columns and placeholders up to the RETURNING clause. */
  function ReadColumns(text: string): Option<(seq<string>, seq<nat>)> {
    if text == " DEFAULT VALUES RETURNING *" then Some(([], []))
    else
      var open := After(text, " (");
      if open.None? then None
      else
        var names := ReadNames(open.value);
        if names.None? then None
        else
          var values := After(names.value.1, ") VALUES (");
          if values.None? then None
          else
            var parameters := ReadParameters(values.value);
            if parameters.None? || parameters.value.1 != ") RETURNING *" then None
            else Some((names.value.0, parameters.value.0))
  }

  function ReadInsert(text: string): Option<Insert> {
    var into := After(text, "INSERT INTO ");
    if into.None? then None
    else
      var name := ReadQualifiedName(into.value);
      if name.None? then None
      else
        var columns := ReadColumns(name.value.2);
        if columns.None? then None
        else Some(Insert(name.value.0, name.value.1, columns.value.0, columns.value.1))
  }

  lemma {:induction false} NamesReadBack(columns: seq<string>, rest: string)
    requires columns != [] && rest != [] && rest[0] == ')'
    ensures ReadNames(Join(QuotedColumns(columns), ", ") + rest) == Some((columns, rest))
  {
    hide Quoted, ReadQuoted;
    var names := QuotedColumns(columns);
    if |columns| == 1 {
      ReadInvertsQuoted(columns[0], '"', rest);
      assert columns == [columns[0]];
    } else {
      var others := Join(names[1..], ", ") + rest;
      assert names[1..] == QuotedColumns(columns[1..]);
      assert Join(names, ", ") + rest == names[0] + (", " + others);
      ReadInvertsQuoted(columns[0], '"', ", " + others);
      AfterPrefix(", ", others);
      NamesReadBack(columns[1..], rest);
      assert columns == [columns[0]] + columns[1..];
    }
  }

  /** The numbers from + 1, from + 2 and so on. */
  function Numbers(from: nat, count: nat): (r: seq<nat>)
    ensures |r| == count
  {
    seq(count, i requires 0 <= i < count => from + i + 1)
  }

  lemma {:induction false} ParametersReadBack(from: nat, count: nat, rest: string)
    requires count > 0 && rest != [] && rest[0] == ')'
    ensures ReadParameters(Join(Placeholders(from, count), ", ") + rest) == Some((Numbers(from, count), rest))
    decreases count
  {
    hide Decimal, ReadNumber;
    var texts := Placeholders(from, count);
    if count == 1 {
      assert Join(texts, ", ") + rest == "$" + (Decimal(from + 1) + rest);
      ParameterReadsBack(from + 1, rest);
      assert Numbers(from, count) == [from + 1];
    } else {
      var others := Join(texts[1..], ", ") + rest;
      FirstPlaceholder(from, count, rest);
      ParameterReadsBack(from + 1, ", " + others);
      AfterPrefix(", ", others);
      ParametersReadBack(from + 1, count - 1, rest);
      assert Numbers(from, count) == [from + 1] + Numbers(from + 1, count - 1);
    }
  }

  lemma FirstPlaceholder(from: nat, count: nat, rest: string)
    requires count > 1
    ensures var texts := Placeholders(from, count);
            && texts[1..] == Placeholders(from + 1, count - 1)
            && Join(texts, ", ") + rest == "$" + (Decimal(from + 1) + (", " + (Join(texts[1..], ", ") + rest)))
  {
    hide Decimal;
    var texts := Placeholders(from, count);
    assert texts[1..] == Placeholders(from + 1, count - 1);
  }

  lemma ParameterReadsBack(n: nat, rest: string)
    requires rest == [] || !IsDigit(rest[0])
    ensures After("$" + (Decimal(n) + rest), "$") == Some(Decimal(n) + rest)
    ensures ReadNumber(Decimal(n) + rest) == Some((n, rest))
  {
    AfterPrefix("$", Decimal(n) + rest);
    ReadInvertsDecimal(n, rest);
  }

  lemma ColumnsReadBack(columns: seq<string>)
    requires columns != []
    ensures ReadColumns(" (" + Join(QuotedColumns(columns), ", ") + ") VALUES (" + Join(Placeholders(0, |columns|), ", ")
                        + ")" + " RETURNING *")
            == Some((columns, Numbers(0, |columns|)))
  {
    hide Join, QuotedColumns, Placeholders, ReadNames, ReadParameters, Numbers;
    var names, texts := Join(QuotedColumns(columns), ", "), Join(Placeholders(0, |columns|), ", ");
    var values := ") VALUES (" + (texts + ") RETURNING *");
    var text := " (" + names + ") VALUES (" + texts + ")" + " RETURNING *";
    assert text == " (" + (names + values);
    assert text[1] == '(' && " DEFAULT VALUES RETURNING *"[1] == 'D';
    AfterPrefix(" (", names + values);
    NamesReadBack(columns, values);
    AfterPrefix(") VALUES (", texts + ") RETURNING *");
    ParametersReadBack(0, |columns|, ") RETURNING *");
  }

  lemma NoColumnsReadBack()
    ensures ReadColumns(" DEFAULT VALUES" + " RETURNING *") == Some(([], []))
    ensures Numbers(0, 0) == []
  {
  }

  /** The statement reads back as its table, its columns, and placeholder k at the k-th column. */
  lemma InsertReadsBack(schema: string, table: string, columns: seq<string>)
    ensures ReadInsert(InsertText(schema, table, columns))
            == Some(Insert(InternalName(schema), table, columns, Numbers(0, |columns|)))
  {
    hide QualifiedName, Join, QuotedColumns, Placeholders, ReadQualifiedName, ReadColumns, InternalName;
    var rest := (if columns == [] then " DEFAULT VALUES"
                 else " (" + Join(QuotedColumns(columns), ", ") + ") VALUES (" + Join(Placeholders(0, |columns|), ", ") + ")")
                + " RETURNING *";
    assert InsertText(schema, table, columns) == "INSERT INTO " + (QualifiedName(schema, table) + rest);
    AfterPrefix("INSERT INTO ", QualifiedName(schema, table) + rest);
    QualifiedNameReadsBack(schema, table, rest);
    if columns == [] {
      NoColumnsReadBack();
    } else {
      ColumnsReadBack(columns);
    }
  }

  /** Running the insertion with these arguments supplies this row: each of its columns once,
      with the argument its placeholder names. */
  predicate Supplies(insert: Insert, arguments: seq<Value>, row: GoRow) {
    && Elements(insert.columns) == row.Keys
    && (forall i, j :: 0 <= i < j < |insert.columns| ==> insert.columns[i] != insert.columns[j])
    && |insert.parameters| == |insert.columns|
    && forall i :: 0 <= i < |insert.columns| ==>
         && insert.columns[i] in row && 1 <= insert.parameters[i] <= |arguments|
         && row[insert.columns[i]] == arguments[insert.parameters[i] - 1]
  }

  function InsertArguments(columns: seq<string>, row: GoRow): (r: seq<Value>)
    requires Elements(columns) <= row.Keys
    ensures |r| == |columns|
  {
    seq(|columns|, i requires 0 <= i < |columns| =>
      assert columns[i] in Elements(columns); row[columns[i]])
  }

  lemma AscendingIsDistinct(columns: seq<string>)
    requires IsAscending(columns)
    ensures forall i, j :: 0 <= i < j < |columns| ==> columns[i] != columns[j]
  {
    forall i, j | 0 <= i < j < |columns|
      ensures columns[i] != columns[j]
    {
      BeforeIsTotal(columns[i], columns[j]);
    }
  }

  lemma EveryColumnIsSupplied(schema: string, table: string, columns: seq<string>, row: GoRow)
    requires Elements(columns) == row.Keys
    requires forall i, j :: 0 <= i < j < |columns| ==> columns[i] != columns[j]
    ensures Supplies(Insert(schema, table, columns, Numbers(0, |columns|)), InsertArguments(columns, row), row)
  {
    forall i | 0 <= i < |columns|
      ensures columns[i] in row
    {
      assert columns[i] in Elements(columns);
    }
  }

  /** Table.Insert inserts the row it was given: the statement it runs, read as SQL with its arguments,
      supplies exactly the row's columns, each with the row's own value. */
  lemma InsertMeansRow(schema: string, table: string, row: GoRow)
    ensures var columns := Sorted(row.Keys);
            var insert := ReadInsert(InsertText(schema, table, columns));
            && insert.Some? && insert.value.schema == InternalName(schema) && insert.value.table == table
            && Supplies(insert.value, InsertArguments(columns, row), row)
  {
    hide *;
    var columns := Sorted(row.Keys);
    InsertReadsBack(schema, table, columns);
    AscendingIsDistinct(columns);
    EveryColumnIsSupplied(InternalName(schema), table, columns, row);
  }
}
