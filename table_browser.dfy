/**
 * The text-processing helpers of the schema browser: the character-level
 * tokenizer for the tuples of an `INSERT ... VALUES` statement, the building
 * of one data row from a tuple, and the selection of column definitions
 * from the body of a `CREATE TABLE` statement.
 */
module TableBrowser {
  import opened Options
  import opened Text
  import opened Records

  /**
   * One value of a tuple. A quoted value is kept as its text. An unquoted
   * value is kept as its trimmed text; converting it to a number when it
   * parses as one is not modelled.
   */
  datatype Cell = Null | Quoted(text: string) | Unquoted(text: string)

  /** Outside a string, or inside one opened by `quote`. */
  datatype Mode = Plain | InString(quote: char)

  predicate IsQuote(c: char) {
    c == '\'' || c == '"'
  }

  /** The value, if any, of an unquoted token that ends at a comma or at the end of the tuple. */
  function TokenValue(current: string): seq<Cell> {
    var trimmed := Trim(current);
    if trimmed == "NULL" then [Null]
    else if trimmed == [] then []
    else [Unquoted(trimmed)]
  }

  /** What is left after the first comma of `s`; nothing when `s` has no comma. */
  function SkipPastComma(s: string): (r: string)
    ensures |r| <= |s|
    ensures s != [] ==> |r| < |s|
  {
    if s == [] then []
    else if s[0] == ',' then s[1..]
    else SkipPastComma(s[1..])
  }

  /**
   * The values produced from the unread input `rest`, in `mode`, with the
   * text `current` accumulated so far: the reference definition of the
   * tokenizer, one character at a time.
   */
  function ParseFrom(rest: string, mode: Mode, current: string): seq<Cell>
    decreases |rest|
  {
    if rest == [] then TokenValue(current)
    else
      var c := rest[0];
      if mode.Plain? && IsQuote(c) then ParseFrom(rest[1..], InString(c), current)
      else if mode.InString? && c == mode.quote then [Quoted(current)] + ParseFrom(SkipPastComma(rest[1..]), Plain, "")
      else if mode.Plain? && c == ',' then TokenValue(current) + ParseFrom(rest[1..], Plain, "")
      // a space outside a string is kept only once the token has begun
      else if mode.InString? || c != ' ' || current != [] then ParseFrom(rest[1..], mode, current + [c])
      else ParseFrom(rest[1..], mode, current)
  }

  /** The input from index `i` on; the index passes the end by one after a skip that reaches it. */
  function Remaining(tuple: string, i: nat): string {
    if i <= |tuple| then tuple[i..] else []
  }

  /** `parseValueTuple`: one pass over the characters, then the value left at the end. */
  method ParseValueTuple(tuple: string) returns (values: seq<Cell>)
    ensures values == ParseFrom(tuple, Plain, "")
  {
    values := [];
    var current := "";
    var mode := Plain;
    var i := 0;
    while i < |tuple|
      invariant i <= |tuple| + 1
      invariant mode.InString? ==> IsQuote(mode.quote)
      invariant values + ParseFrom(Remaining(tuple, i), mode, current) == ParseFrom(tuple, Plain, "")
      decreases |tuple| + 1 - i
    {
      var emitted;
      ghost var before := i;
      i, mode, current, emitted := Step(tuple, i, mode, current);
      assert Remaining(tuple, before) == tuple[before..];
      values := values + emitted;
    }
    values := values + TokenValue(current);
  }

  /**
   * One iteration of the character loop at index `i`: the values it pushes,
   * and the index, mode and accumulated text after it.
   */
  method Step(tuple: string, i: nat, mode: Mode, current: string)
    returns (next: nat, mode': Mode, current': string, emitted: seq<Cell>)
    requires i < |tuple|
    requires mode.InString? ==> IsQuote(mode.quote)
    ensures i < next <= |tuple| + 1
    ensures mode'.InString? ==> IsQuote(mode'.quote)
    ensures emitted + ParseFrom(Remaining(tuple, next), mode', current') == ParseFrom(tuple[i..], mode, current)
  {
    var c := tuple[i];
    assert tuple[i..][0] == c && tuple[i..][1..] == tuple[i + 1..];
    next, mode', current', emitted := i, mode, current, [];
    if mode.Plain? && IsQuote(c) {
      mode' := InString(c);
    } else if mode.InString? && c == mode.quote {
      mode' := Plain;
      emitted := [Quoted(current)];
      current' := "";
      next := SkipToComma(tuple, i);
    } else if mode.Plain? && c == ',' {
      emitted := TokenValue(current);
      current' := "";
    } else if mode.InString? || c != ' ' {
      current' := current + [c];
    } else if current != [] {
      current' := current + [c];
    }
    next := next + 1;
  }

  /**
   * The skip after a closing quote at index `close`: the index of the next
   * comma, or the end of the input.
   */
  method SkipToComma(tuple: string, close: nat) returns (i: nat)
    requires close < |tuple| && tuple[close] != ','
    ensures close < i + 1 <= |tuple| + 1
    ensures Remaining(tuple, i + 1) == SkipPastComma(tuple[close + 1..])
  {
    i := close;
    assert tuple[i..][1..] == tuple[i + 1..];
    while i < |tuple| && tuple[i] != ','
      invariant close <= i <= |tuple|
      invariant SkipPastComma(tuple[i..]) == SkipPastComma(tuple[close + 1..])
    {
      assert tuple[i..][1..] == tuple[i + 1..];
      i := i + 1;
    }
    if i < |tuple| {
      assert tuple[i..][0] == ',' && tuple[i..][1..] == tuple[i + 1..];
      assert SkipPastComma(tuple[i..]) == tuple[i + 1..];
    } else {
      assert tuple[i..] == [];
    }
  }

  /** The skip after a closing quote drops everything up to and including the next comma. */
  lemma {:induction false} SkipPastCommaSkips(junk: string, rest: string)
    requires ',' !in junk
    ensures SkipPastComma(junk + [','] + rest) == rest
  {
    if junk == [] {
      assert junk + [','] + rest == [','] + rest;
    } else {
      assert (junk + [','] + rest)[1..] == junk[1..] + [','] + rest;
      SkipPastCommaSkips(junk[1..], rest);
    }
  }

  /** Inside a string every character other than the closing quote is kept. */
  lemma {:induction false} InStringAccumulates(text: string, quote: char, current: string, rest: string)
    requires quote !in text
    ensures ParseFrom(text + rest, InString(quote), current) == ParseFrom(rest, InString(quote), current + text)
  {
    if text == [] {
      assert text + rest == rest;
      assert current + text == current;
    } else {
      assert (text + rest)[0] == text[0];
      assert (text + rest)[1..] == text[1..] + rest;
      InStringAccumulates(text[1..], quote, current + [text[0]], rest);
      assert current + [text[0]] + text[1..] == current + text;
    }
  }

  /**
   * A quoted value is exactly the text between its quotes, appended to
   * whatever preceded the opening quote; the input after the closing quote
   * is then skipped up to and including the next comma.
   */
  lemma ReadQuoted(quote: char, text: string, current: string, tail: string)
    requires IsQuote(quote) && quote !in text
    ensures ParseFrom([quote] + text + [quote] + tail, Plain, current) ==
      [Quoted(current + text)] + ParseFrom(SkipPastComma(tail), Plain, "")
  {
    var closing := [quote] + tail;
    assert [quote] + text + [quote] + tail == [quote] + (text + closing);
    assert ([quote] + (text + closing))[1..] == text + closing;
    InStringAccumulates(text, quote, current, closing);
    assert closing[1..] == tail;
  }

  /** A quoted value followed by a comma: what lies between the closing quote and the comma is dropped. */
  lemma QuotedValueAtComma(quote: char, text: string, current: string, junk: string, rest: string)
    requires IsQuote(quote) && quote !in text && ',' !in junk
    ensures ParseFrom([quote] + text + [quote] + junk + [','] + rest, Plain, current) ==
      [Quoted(current + text)] + ParseFrom(rest, Plain, "")
  {
    ReadQuoted(quote, text, current, junk + [','] + rest);
    assert [quote] + text + [quote] + junk + [','] + rest == [quote] + text + [quote] + (junk + [','] + rest);
    SkipPastCommaSkips(junk, rest);
  }

  /** A quoted value at the end of the tuple: what follows the closing quote is dropped. */
  lemma QuotedValueAtEnd(quote: char, text: string, current: string, junk: string)
    requires IsQuote(quote) && quote !in text && ',' !in junk
    ensures ParseFrom([quote] + text + [quote] + junk, Plain, current) == [Quoted(current + text)]
  {
    ReadQuoted(quote, text, current, junk);
    SkipPastCommaToEnd(junk);
  }

  lemma {:induction false} SkipPastCommaToEnd(s: string)
    requires ',' !in s
    ensures SkipPastComma(s) == []
  {
    if s != [] {
      assert s[0] != ',';
      SkipPastCommaToEnd(s[1..]);
    }
  }

  predicate AllSpaces(w: string) {
    forall i :: 0 <= i < |w| ==> w[i] == ' '
  }

  /** Outside a string, spaces before the first character of a token are dropped. */
  lemma {:induction false} LeadingSpacesDropped(w: string, rest: string)
    requires AllSpaces(w)
    ensures ParseFrom(w + rest, Plain, "") == ParseFrom(rest, Plain, "")
  {
    if w == [] {
      assert w + rest == rest;
    } else {
      assert (w + rest)[0] == ' ';
      assert (w + rest)[1..] == w[1..] + rest;
      LeadingSpacesDropped(w[1..], rest);
    }
  }

  /** An empty token, such as the one between two adjacent commas, produces no value. */
  lemma EmptyTokenDropped(w: string, rest: string)
    requires AllSpaces(w)
    ensures ParseFrom(w + [','] + rest, Plain, "") == ParseFrom(rest, Plain, "")
  {
    LeadingSpacesDropped(w, [','] + rest);
    assert w + [','] + rest == w + ([','] + rest);
    assert ([','] + rest)[1..] == rest;
  }

  /** A character that continues an unquoted token. */
  predicate IsTokenChar(c: char) {
    !IsQuote(c) && c != ',' && !IsWhitespace(c)
  }

  /** Once a token has begun, characters other than quotes and commas are kept. */
  lemma {:induction false} PlainAccumulates(text: string, current: string, rest: string)
    requires current != []
    requires forall i :: 0 <= i < |text| ==> !IsQuote(text[i]) && text[i] != ','
    ensures ParseFrom(text + rest, Plain, current) == ParseFrom(rest, Plain, current + text)
  {
    if text == [] {
      assert text + rest == rest;
      assert current + text == current;
    } else {
      var c := text[0];
      assert (text + rest)[0] == c && (text + rest)[1..] == text[1..] + rest;
      assert ParseFrom(text + rest, Plain, current) == ParseFrom(text[1..] + rest, Plain, current + [c]);
      PlainAccumulates(text[1..], current + [c], rest);
      assert current + [c] + text[1..] == current + text;
    }
  }

  lemma {:induction false} TrimEndDropsSpaces(token: string, w: string)
    requires AllSpaces(w)
    requires token != [] && !IsWhitespace(token[|token| - 1])
    ensures TrimEnd(token + w) == token
  {
    if w == [] {
      assert token + w == token;
    } else {
      var shorter := w[..|w| - 1];
      assert (token + w)[..|token + w| - 1] == token + shorter;
      TrimEndDropsSpaces(token, shorter);
    }
  }

  /** Trailing spaces after a token are trimmed away. */
  lemma TrimToken(token: string, w': string)
    requires AllSpaces(w')
    requires token != [] && forall i :: 0 <= i < |token| ==> IsTokenChar(token[i])
    ensures Trim(token + w') == token
  {
    var text := token + w';
    assert TrimStart(text) == text by {
      assert text[0] == token[0];
    }
    TrimEndDropsSpaces(token, w');
  }

  /** Outside a string, a token character starts a token. */
  lemma StartToken(c: char, rest: string)
    requires IsTokenChar(c)
    ensures ParseFrom([c] + rest, Plain, "") == ParseFrom(rest, Plain, [c])
  {
    assert ([c] + rest)[0] == c && ([c] + rest)[1..] == rest;
    assert [] + [c] == [c];
  }

  /** After its first character, a token followed by spaces holds no quote and no comma. */
  lemma TokenTailChars(token: string, w': string)
    requires AllSpaces(w')
    requires token != [] && forall i :: 0 <= i < |token| ==> IsTokenChar(token[i])
    ensures var more := (token + w')[1..];
      forall i :: 0 <= i < |more| ==> !IsQuote(more[i]) && more[i] != ','
  {
    var more := (token + w')[1..];
    forall i | 0 <= i < |more|
      ensures !IsQuote(more[i]) && more[i] != ','
    {
      if i + 1 < |token| {
        assert more[i] == token[i + 1];
      } else {
        assert more[i] == w'[i + 1 - |token|];
      }
    }
  }

  /** Spaces, a token and spaces again accumulate as the token followed by those spaces. */
  lemma ReadToken(w: string, token: string, w': string, tail: string)
    requires AllSpaces(w) && AllSpaces(w')
    requires token != [] && forall i :: 0 <= i < |token| ==> IsTokenChar(token[i])
    ensures ParseFrom(w + token + w' + tail, Plain, "") == ParseFrom(tail, Plain, token + w')
  {
    var text := token + w';
    var more := text[1..];
    assert text == [token[0]] + more;
    assert w + token + w' + tail == w + ([token[0]] + (more + tail));
    LeadingSpacesDropped(w, [token[0]] + (more + tail));
    StartToken(token[0], more + tail);
    TokenTailChars(token, w');
    PlainAccumulates(more, [token[0]], tail);
  }

  /** An unquoted token surrounded by spaces and ended by a comma yields its text, or null for `NULL`. */
  lemma UnquotedTokenAtComma(w: string, token: string, w': string, rest: string)
    requires AllSpaces(w) && AllSpaces(w')
    requires token != [] && forall i :: 0 <= i < |token| ==> IsTokenChar(token[i])
    ensures ParseFrom(w + token + w' + [','] + rest, Plain, "") ==
      (if token == "NULL" then [Null] else [Unquoted(token)]) + ParseFrom(rest, Plain, "")
  {
    ReadToken(w, token, w', [','] + rest);
    assert w + token + w' + [','] + rest == w + token + w' + ([','] + rest);
    assert ([','] + rest)[1..] == rest;
    TrimToken(token, w');
  }

  /** An unquoted token surrounded by spaces at the end of the tuple yields its text, or null for `NULL`. */
  lemma UnquotedTokenAtEnd(w: string, token: string, w': string)
    requires AllSpaces(w) && AllSpaces(w')
    requires token != [] && forall i :: 0 <= i < |token| ==> IsTokenChar(token[i])
    ensures ParseFrom(w + token + w', Plain, "") == if token == "NULL" then [Null] else [Unquoted(token)]
  {
    ReadToken(w, token, w', []);
    assert w + token + w' + [] == w + token + w';
    TrimToken(token, w');
  }

  /** The value a column gets from the tuple: the value at its position, or null past the end. */
  function CellAt(values: seq<Cell>, index: nat): Cell {
    if index < |values| then values[index] else Null
  }

  /** The row `parseSchema` builds from the column names of an `INSERT` and one tuple. */
  function Row(columnNames: seq<string>, values: seq<Cell>): Record<Cell> {
    if columnNames == [] then []
    else
      var init := columnNames[..|columnNames| - 1];
      Put(Row(init, values), columnNames[|columnNames| - 1], CellAt(values, |init|))
  }

  /** The `forEach` that fills one row. */
  method BuildRow(columnNames: seq<string>, values: seq<Cell>) returns (row: Record<Cell>)
    ensures row == Row(columnNames, values)
  {
    row := [];
    for idx := 0 to |columnNames|
      invariant row == Row(columnNames[..idx], values)
    {
      assert columnNames[..idx + 1][..idx] == columnNames[..idx];
      row := Put(row, columnNames[idx], CellAt(values, idx));
    }
    assert columnNames[..|columnNames|] == columnNames;
  }

  /**
   * A column gets the value at the position of its last occurrence among
   * the column names, or null when the tuple is shorter than that.
   */
  lemma {:induction false} RowGet(columnNames: seq<string>, values: seq<Cell>, k: nat)
    requires k < |columnNames|
    requires forall j :: k < j < |columnNames| ==> columnNames[j] != columnNames[k]
    ensures Get(Row(columnNames, values), columnNames[k]) == Some(CellAt(values, k))
  {
    var last := |columnNames| - 1;
    var init := columnNames[..last];
    PutGet(Row(init, values), columnNames[last], CellAt(values, last), columnNames[k]);
    if k < last {
      assert init[k] == columnNames[k];
      RowGet(init, values, k);
    }
  }

  /** A name that is not among the column names is not in the row. */
  lemma {:induction false} RowMissing(columnNames: seq<string>, values: seq<Cell>, column: string)
    requires column !in columnNames
    ensures Get(Row(columnNames, values), column).None?
  {
    if columnNames != [] {
      var last := |columnNames| - 1;
      var init := columnNames[..last];
      assert column !in init;
      RowMissing(init, values, column);
      PutGet(Row(init, values), columnNames[last], CellAt(values, last), column);
    }
  }

  /** With distinct column names, every column gets the value at its own position, null past the end of the tuple. */
  lemma RowPadsWithNull(columnNames: seq<string>, values: seq<Cell>, k: nat)
    requires forall i, j :: 0 <= i < j < |columnNames| ==> columnNames[i] != columnNames[j]
    requires k < |columnNames|
    ensures Get(Row(columnNames, values), columnNames[k]) == Some(if k < |values| then values[k] else Null)
  {
    RowGet(columnNames, values, k);
  }

  /** A column definition: its name and its type. */
  datatype Column = Column(name: string, sqlType: string)

  /** The column-definition regular expression applied to a trimmed line. */
  type ColumnMatcher = string -> Option<Column>

  /** An empty line or a table constraint, which defines no column. */
  predicate IsSkippedLine(trimmed: string) {
    trimmed == [] || StartsWith(trimmed, "FOREIGN") || StartsWith(trimmed, "PRIMARY") || StartsWith(trimmed, "UNIQUE")
  }

  /** The column one comma-separated piece of a `CREATE TABLE` body defines, if any. */
  function LineColumn(line: string, matchColumn: ColumnMatcher): Option<Column> {
    var trimmed := Trim(line);
    if IsSkippedLine(trimmed) then None else matchColumn(trimmed)
  }

  /** The columns defined by the comma-separated pieces of a `CREATE TABLE` body. */
  function Columns(lines: seq<string>, matchColumn: ColumnMatcher): seq<Column> {
    if lines == [] then []
    else
      var found := LineColumn(lines[|lines| - 1], matchColumn);
      Columns(lines[..|lines| - 1], matchColumn) + if found.Some? then [found.value] else []
  }

  /** The piece `line` defines `column`. */
  predicate Defines(line: string, matchColumn: ColumnMatcher, column: Column) {
    var found := LineColumn(line, matchColumn);
    found.Some? && found.value == column
  }

  /** The column loop of `parseSchema`. */
  method ParseColumns(lines: seq<string>, matchColumn: ColumnMatcher) returns (columns: seq<Column>)
    ensures columns == Columns(lines, matchColumn)
  {
    columns := [];
    for k := 0 to |lines|
      invariant columns == Columns(lines[..k], matchColumn)
    {
      assert lines[..k + 1][..k] == lines[..k];
      var trimmed := Trim(lines[k]);
      if IsSkippedLine(trimmed) {
        continue;
      }
      var found := matchColumn(trimmed);
      assert found == LineColumn(lines[k], matchColumn);
      assert found.Some? ==> Defines(lines[k], matchColumn, found.value);
      if found.Some? {
        columns := columns + [found.value];
      }
    }
    assert lines[..|lines|] == lines;
  }

  /**
   * The columns are exactly those matched on lines that are neither empty
   * nor constraints, in the order of the lines.
   */
  lemma {:induction false} ColumnsFromDefinitionLines(lines: seq<string>, matchColumn: ColumnMatcher, column: Column)
    ensures column in Columns(lines, matchColumn) <==>
      exists k :: 0 <= k < |lines| && Defines(lines[k], matchColumn, column)
  {
    if lines != [] {
      var last := |lines| - 1;
      var init := lines[..last];
      ColumnsFromDefinitionLines(init, matchColumn, column);
      assert column in Columns(lines, matchColumn) <==>
        column in Columns(init, matchColumn) || Defines(lines[last], matchColumn, column);
      if exists k :: 0 <= k < |lines| && Defines(lines[k], matchColumn, column) {
        var k :| 0 <= k < |lines| && Defines(lines[k], matchColumn, column);
        if k < last {
          assert init[k] == lines[k];
        }
      }
      if column in Columns(init, matchColumn) {
        var k :| 0 <= k < |init| && Defines(init[k], matchColumn, column);
        assert lines[k] == init[k];
      }
    }
  }

  /** An empty line or a table constraint defines no column. */
  lemma SkippedLineDefinesNothing(lines: seq<string>, matchColumn: ColumnMatcher, k: nat)
    requires k < |lines| && IsSkippedLine(Trim(lines[k]))
    ensures forall column :: column in Columns(lines, matchColumn) ==>
      exists j :: 0 <= j < |lines| && j != k && Defines(lines[j], matchColumn, column)
  {
    forall column | column in Columns(lines, matchColumn)
      ensures exists j :: 0 <= j < |lines| && j != k && Defines(lines[j], matchColumn, column)
    {
      ColumnsFromDefinitionLines(lines, matchColumn, column);
    }
  }
}
