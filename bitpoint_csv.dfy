/**
 * The BITPOINT statement reader (src/services/providers/bitpointCsv.ts): reads
 * the exported spot-trade statement, whose last line holds the current
 * balances, and reports one exchange holding, zero included, for every
 * configured symbol that has a currency column.
 *
 * The file system is an input: the file is missing, unreadable (reading
 * throws), or holds a text.
 */
module Bitpoint {
  import opened Common
  import opened Types

  const DefaultSourceName: string := "BITPOINT"

  datatype CsvFile = Missing | Unreadable(message: string) | Contents(text: string)

  // ---------------------------------------------------------------------------
  // Lines
  // ---------------------------------------------------------------------------

  /** Removes the `\r` of a `\r\n` line break. */
  function DropCr(s: string): string {
    if |s| > 0 && s[|s| - 1] == '\r' then s[..|s| - 1] else s
  }

  /** `raw.split(/\r?\n/)`: every `\n` cuts, taking a `\r` just before it along. */
  function SplitLines(raw: string): (lines: seq<string>)
    ensures |lines| == |Split(raw, '\n')|
  {
    var parts := Split(raw, '\n');
    seq(|parts|, i requires 0 <= i < |parts| => if i < |parts| - 1 then DropCr(parts[i]) else parts[i])
  }

  function TrimAll(ls: seq<string>): (r: seq<string>)
    ensures |r| == |ls| && forall i :: 0 <= i < |ls| ==> r[i] == Trim(ls[i])
  {
    seq(|ls|, i requires 0 <= i < |ls| => Trim(ls[i]))
  }

  predicate IsNonEmpty(l: string) { |l| > 0 }

  /** `.map(l => l.trim()).filter(l => l.length > 0)`: non-empty lines without surrounding blanks. */
  function NonEmptyLines(raw: string): (lines: seq<string>)
    ensures forall i :: 0 <= i < |lines| ==>
              |lines[i]| > 0 && !IsWhitespace(lines[i][0]) && !IsWhitespace(lines[i][|lines[i]| - 1])
  {
    TrimmedLines(SplitLines(raw));
    Filter(TrimAll(SplitLines(raw)), IsNonEmpty)
  }

  /** Trimmed lines that are kept neither start nor end with whitespace. */
  lemma TrimmedLines(ls: seq<string>)
    ensures var lines := Filter(TrimAll(ls), IsNonEmpty);
      forall i :: 0 <= i < |lines| ==>
        |lines[i]| > 0 && !IsWhitespace(lines[i][0]) && !IsWhitespace(lines[i][|lines[i]| - 1])
  {
    BareKept(TrimAll(ls));
  }

  /** Filtering out empty lines keeps only lines whose ends are not whitespace, when every line's ends are not. */
  lemma BareKept(trimmed: seq<string>)
    requires forall i :: 0 <= i < |trimmed| ==> trimmed[i] == [] || (!IsWhitespace(trimmed[i][0]) && !IsWhitespace(trimmed[i][|trimmed[i]| - 1]))
    ensures var lines := Filter(trimmed, IsNonEmpty);
      forall i :: 0 <= i < |lines| ==>
        |lines[i]| > 0 && !IsWhitespace(lines[i][0]) && !IsWhitespace(lines[i][|lines[i]| - 1])
  {
    var lines := Filter(trimmed, IsNonEmpty);
    forall i | 0 <= i < |lines|
      ensures |lines[i]| > 0 && !IsWhitespace(lines[i][0]) && !IsWhitespace(lines[i][|lines[i]| - 1])
    {
      assert lines[i] in trimmed && IsNonEmpty(lines[i]);
    }
  }

  /** `lines.findIndex(l => l.startsWith('No,'))` */
  function HeaderIndex(lines: seq<string>): (r: Option<nat>)
    ensures r.Some? ==> r.value < |lines| && StartsWith(lines[r.value], "No,")
                        && forall j :: 0 <= j < r.value ==> !StartsWith(lines[j], "No,")
    ensures r.None? ==> forall j :: 0 <= j < |lines| ==> !StartsWith(lines[j], "No,")
  {
    if lines == [] then None
    else if StartsWith(lines[0], "No,") then Some(0)
    else match HeaderIndex(lines[1..])
      case None => None
      case Some(i) => Some(i + 1)
  }

  // ---------------------------------------------------------------------------
  // Currency columns
  // ---------------------------------------------------------------------------

  predicate IsUpperOrDigit(c: char) {
    'A' <= c <= 'Z' || '0' <= c <= '9'
  }

  /** `/^[A-Z0-9][A-Z0-9()]*$/.test(name)` */
  predicate IsSymbolColumn(name: string) {
    |name| > 0 && IsUpperOrDigit(name[0])
    && forall i :: 1 <= i < |name| ==> IsUpperOrDigit(name[i]) || name[i] == '(' || name[i] == ')'
  }

  /** A header column that gets an index. */
  predicate Indexed(name: string) {
    IsSymbolColumn(name) && name != "No"
  }

  /** `symbolToIndex` over the trimmed header names: each indexed name to its position, a later one winning. */
  function ColumnIndex(names: seq<string>): map<string, nat> {
    if names == [] then map[]
    else
      var i := |names| - 1;
      var m := ColumnIndex(names[..i]);
      if Indexed(names[i]) then m[names[i] := i] else m
  }

  lemma ColumnIndexStep(names: seq<string>, i: nat)
    requires i < |names|
    ensures ColumnIndex(names[..i + 1])
         == if Indexed(names[i]) then ColumnIndex(names[..i])[names[i] := i] else ColumnIndex(names[..i])
  {
    assert names[..i + 1][..i] == names[..i];
  }

  /** The loop that fills `symbolToIndex` from the header cells. */
  method IndexColumns(headerCols: seq<string>) returns (symbolToIndex: map<string, nat>)
    ensures symbolToIndex == ColumnIndex(TrimAll(headerCols))
  {
    ghost var names := TrimAll(headerCols);
    symbolToIndex := map[];
    for i := 0 to |headerCols|
      invariant symbolToIndex == ColumnIndex(names[..i])
    {
      ColumnIndexStep(names, i);
      var colName := Trim(headerCols[i]);
      assert colName == names[i];
      if !IsSymbolColumn(colName) {
        continue;
      }
      if colName == "No" {
        continue;
      }
      symbolToIndex := symbolToIndex[colName := i];
    }
    assert names[..|headerCols|] == names;
  }

  /** A name is indexed iff it passes the pattern, is not `No`, and is the name of some column. */
  lemma {:induction false} ColumnIndexKeys(names: seq<string>, name: string)
    ensures name in ColumnIndex(names) <==> Indexed(name) && name in names
  {
    if names != [] {
      var n := |names| - 1;
      ColumnIndexKeys(names[..n], name);
      assert names == names[..n] + [names[n]];
    }
  }

  /** The index of a name is the last column that carries it. */
  lemma {:induction false} ColumnIndexLast(names: seq<string>, name: string)
    requires name in ColumnIndex(names)
    ensures ColumnIndex(names)[name] < |names| && names[ColumnIndex(names)[name]] == name
    ensures forall j :: ColumnIndex(names)[name] < j < |names| ==> names[j] != name
  {
    var n := |names| - 1;
    ColumnIndexKeys(names, name);
    if !(Indexed(names[n]) && names[n] == name) {
      ColumnIndexLast(names[..n], name);
    }
  }

  /** The pattern already rejects `No` (its `o` is lower case), so the explicit `No` test never fires. */
  lemma NoIsNotASymbolColumn()
    ensures !IsSymbolColumn("No")
  {
    assert "No"[1] == 'o';
  }

  // ---------------------------------------------------------------------------
  // Number.parseFloat
  // ---------------------------------------------------------------------------

  /** What `Number.parseFloat` gives, reduced to whether it is finite. */
  datatype Parsed = Finite(value: real) | NotFinite

  predicate IsDigit(c: char) { '0' <= c <= '9' }

  predicate AllDigits(s: string) {
    forall i :: 0 <= i < |s| ==> IsDigit(s[i])
  }

  /** The length of the run of decimal digits `s` starts with. */
  function DigitRun(s: string): (n: nat)
    ensures n <= |s| && AllDigits(s[..n]) && (n < |s| ==> !IsDigit(s[n]))
  {
    if |s| > 0 && IsDigit(s[0]) then 1 + DigitRun(s[1..]) else 0
  }

  function DigitValue(c: char): nat
    requires IsDigit(c)
  {
    c as int - '0' as int
  }

  function DigitsValue(ds: string): nat
    requires AllDigits(ds)
  {
    if ds == [] then 0 else 10 * DigitsValue(ds[..|ds| - 1]) + DigitValue(ds[|ds| - 1])
  }

  /** The value of `.ds`. */
  function FractionValue(ds: string): real
    requires AllDigits(ds)
  {
    DigitsValue(ds) as real / Pow10(|ds|) as real
  }

  /** `m × 10^e` */
  function Scale(m: real, e: int): real {
    if e >= 0 then m * Pow10(e) as real else m / Pow10(-e) as real
  }

  /** The exponent part `s` starts with (`e` or `E`, optional sign, digits), 0 when there is none. */
  function ExponentOf(s: string): int {
    if |s| >= 2 && (s[0] == 'e' || s[0] == 'E') then
      var start := if s[1] == '-' || s[1] == '+' then 2 else 1;
      var k := DigitRun(s[start..]);
      var digits := s[start..][..k];
      if k == 0 then 0
      else if s[1] == '-' then -(DigitsValue(digits) as int)
      else DigitsValue(digits)
    else 0
  }

  /** An unsigned decimal numeral cut into its integer digits, its fraction digits and what follows. */
  datatype Numeral = Numeral(whole: string, fraction: string, rest: string)

  /** The digits, optional `.` and digits a text starts with; `None` when neither part has a digit. */
  function ScanNumeral(body: string): (r: Option<Numeral>)
    ensures r.Some? ==> AllDigits(r.value.whole) && AllDigits(r.value.fraction)
  {
    var n := DigitRun(body);
    var rest := body[n..];
    if |rest| > 0 && rest[0] == '.' then
      var afterDot := rest[1..];
      var f := DigitRun(afterDot);
      if n == 0 && f == 0 then None
      else Some(Numeral(body[..n], afterDot[..f], afterDot[f..]))
    else if n == 0 then None
    else Some(Numeral(body[..n], "", rest))
  }

  /** The value of a scanned numeral, its exponent applied. */
  function NumeralValue(m: Numeral): real
    requires AllDigits(m.whole) && AllDigits(m.fraction)
  {
    Scale(DigitsValue(m.whole) as real + FractionValue(m.fraction), ExponentOf(m.rest))
  }

  /** The magnitude an unsigned text reads as. */
  function ParseUnsigned(body: string): Parsed {
    match ScanNumeral(body)
    case None => NotFinite
    case Some(m) => Finite(NumeralValue(m))
  }

  /**
   * `Number.parseFloat` of a trimmed text: the longest prefix that reads as a
   * signed decimal number with an optional exponent; no such prefix (`abc`,
   * `Infinity`, `-`, `.`) is not finite.
   */
  function ParseFloat(s: string): Parsed {
    if |s| > 0 && (s[0] == '-' || s[0] == '+') then
      match ParseUnsigned(s[1..])
      case NotFinite => NotFinite
      case Finite(v) => Finite(if s[0] == '-' then -v else v)
    else ParseUnsigned(s)
  }

  /** The decimal numeral of `n`. */
  function NatToString(n: nat): (s: string)
    ensures |s| > 0 && forall i :: 0 <= i < |s| ==> IsDigit(s[i])
  {
    var d := ['0' + (n % 10) as char];
    if n < 10 then d else NatToString(n / 10) + d
  }

  lemma {:induction false} DigitsValueOfNat(n: nat)
    ensures DigitsValue(NatToString(n)) == n
  {
    var s := NatToString(n);
    assert s[..|s| - 1] == (if n < 10 then [] else NatToString(n / 10));
    if n >= 10 {
      DigitsValueOfNat(n / 10);
    }
  }

  lemma {:induction false} NatToStringDigits(n: nat)
    ensures |NatToString(n)| > 0 && AllDigits(NatToString(n))
  {
    if n >= 10 {
      NatToStringDigits(n / 10);
    }
  }

  lemma {:induction false} DigitRunAll(s: string)
    requires AllDigits(s)
    ensures DigitRun(s) == |s|
  {
    if s != [] {
      DigitRunAll(s[1..]);
    }
  }

  /** A plain run of digits reads as its decimal value. */
  lemma ParseFloatDigits(s: string)
    requires |s| > 0 && AllDigits(s)
    ensures ParseFloat(s) == Finite(DigitsValue(s) as real)
  {
    DigitRunAll(s);
    assert IsDigit(s[0]);
    assert s[..|s|] == s && s[|s|..] == "";
    assert ScanNumeral(s) == Some(Numeral(s, "", ""));
    assert ExponentOf("") == 0;
    assert ParseFloat(s) == ParseUnsigned(s);
  }

  /** A whole number written in decimal reads back as itself. */
  lemma ParseFloatNat(n: nat)
    ensures ParseFloat(NatToString(n)) == Finite(n as real)
  {
    DigitsValueOfNat(n);
    NatToStringDigits(n);
    ParseFloatDigits(NatToString(n));
  }

  /** A text with no leading digits, such as `Infinity` or `abc`, is not finite. */
  lemma ParseFloatNoDigits(s: string)
    requires |s| > 0 && !IsDigit(s[0]) && s[0] != '.' && s[0] != '-' && s[0] != '+'
    ensures ParseFloat(s) == NotFinite
  {
  }

  lemma {:induction false} DigitRunPrefix(w: string, t: string)
    requires AllDigits(w)
    requires t == [] || !IsDigit(t[0])
    ensures DigitRun(w + t) == |w|
  {
    if w == [] {
      assert w + t == t;
    } else {
      DigitRunPrefix(w[1..], t);
      assert (w + t)[1..] == w[1..] + t;
    }
  }

  lemma ScanDotted(whole: string, fraction: string, tail: string)
    requires AllDigits(whole) && AllDigits(fraction)
    requires tail == [] || !IsDigit(tail[0])
    requires |whole| > 0
    ensures var body := whole + (['.'] + (fraction + tail));
      |body| > 0 && IsDigit(body[0]) && ScanNumeral(body) == Some(Numeral(whole, fraction, tail))
  {
    var rest := ['.'] + (fraction + tail);
    var body := whole + rest;
    DigitRunPrefix(whole, rest);
    assert body[..|whole|] == whole && body[|whole|..] == rest;
    assert rest[1..] == fraction + tail;
    DigitRunPrefix(fraction, tail);
    assert (fraction + tail)[..|fraction|] == fraction && (fraction + tail)[|fraction|..] == tail;
    assert body[0] == whole[0];
  }

  /** An unsigned numeral reads as its integer and fraction digits, scaled by its exponent. */
  lemma ParseUnsignedOf(body: string, m: Numeral)
    requires ScanNumeral(body) == Some(m)
    ensures AllDigits(m.whole) && AllDigits(m.fraction)
    ensures ParseUnsigned(body) == Finite(NumeralValue(m))
  {
  }

  /** A text starting with a digit has no sign. */
  lemma ParseFloatUnsigned(body: string)
    requires |body| > 0 && IsDigit(body[0])
    ensures ParseFloat(body) == ParseUnsigned(body)
  {
  }

  lemma ScaleZero(m: real)
    ensures Scale(m, 0) == m
  {
    assert Pow10(0) == 1;
  }

  /** A numeral starting with a digit and without exponent reads as its digits. */
  lemma ParseFloatNoExponent(body: string, whole: string, fraction: string, tail: string)
    requires |body| > 0 && IsDigit(body[0])
    requires ScanNumeral(body) == Some(Numeral(whole, fraction, tail))
    requires ExponentOf(tail) == 0
    ensures AllDigits(whole) && AllDigits(fraction)
    ensures ParseFloat(body) == Finite(DigitsValue(whole) as real + FractionValue(fraction))
  {
    ParseFloatUnsigned(body);
    ParseUnsignedOf(body, Numeral(whole, fraction, tail));
    ScaleZero(DigitsValue(whole) as real + FractionValue(fraction));
  }

  /**
   * What follows the digits is ignored unless it starts an exponent:
   * `12.5abc` reads as 12.5.
   */
  lemma ParseFloatIgnoresTail(whole: string, fraction: string, tail: string)
    requires |whole| > 0 && AllDigits(whole) && AllDigits(fraction)
    requires tail == [] || (!IsDigit(tail[0]) && tail[0] != 'e' && tail[0] != 'E')
    ensures ParseFloat(whole + (['.'] + (fraction + tail)))
         == Finite(DigitsValue(whole) as real + FractionValue(fraction))
  {
    ScanDotted(whole, fraction, tail);
    assert ExponentOf(tail) == 0;
    ParseFloatNoExponent(whole + (['.'] + (fraction + tail)), whole, fraction, tail);
  }

  // ---------------------------------------------------------------------------
  // Records
  // ---------------------------------------------------------------------------

  /** The amount of cell `idx` of the data row: empty or missing, and unparsable, give 0. */
  function CellAmount(dataCols: seq<string>, idx: nat): real {
    var rawValue := Trim(if idx < |dataCols| then dataCols[idx] else "");
    if |rawValue| == 0 then 0.0
    else match ParseFloat(rawValue)
      case NotFinite => 0.0
      case Finite(v) => v
  }

  function Record(symbol: string, amount: real, sourceName: string): Balance {
    Balance(symbol, amount, Cex, sourceName, Some("cex"))
  }

  /** The loop over the target symbols: one record per symbol with a column. */
  function RecordsFor(symbols: seq<string>, index: map<string, nat>, dataCols: seq<string>, sourceName: string): seq<Balance> {
    if symbols == [] then []
    else
      var symbol := symbols[|symbols| - 1];
      RecordsFor(symbols[..|symbols| - 1], index, dataCols, sourceName)
      + (if symbol in index then [Record(symbol, CellAmount(dataCols, index[symbol]), sourceName)] else [])
  }

  /** The header cells and the last line's cells of a statement; `None` when it has no `No,` line. */
  function Statement(text: string): Option<(seq<string>, seq<string>)> {
    var lines := NonEmptyLines(text);
    if lines == [] then None
    else match HeaderIndex(lines)
      case None => None
      case Some(headerIndex) => Some((Split(lines[headerIndex], ','), Split(lines[|lines| - 1], ',')))
  }

  /** The result of `fetchBalances`, or what it throws. */
  function BitpointBalances(csvPath: string, file: CsvFile, tokens: seq<TokenDef>, sourceName: string): Outcome<seq<Balance>> {
    if csvPath == "" || file.Missing? then Succeeded([])
    else if file.Unreadable? then Threw(file.message)
    else match Statement(file.text)
      case None => Succeeded([])
      case Some((headerCols, dataCols)) =>
        Succeeded(RecordsFor(Distinct(Symbols(tokens)), ColumnIndex(TrimAll(headerCols)), dataCols, sourceName))
  }

  /**
   * Whatever the file holds, every record read from a statement is an
   * exchange holding on the `cex` chain, under the reader's source name.
   */
  lemma BitpointRecordsNamed(csvPath: string, file: CsvFile, tokens: seq<TokenDef>, sourceName: string)
    ensures BitpointBalances(csvPath, file, tokens, sourceName).Succeeded? ==>
              forall b :: b in BitpointBalances(csvPath, file, tokens, sourceName).value ==>
                b.sourceName == sourceName && b.sourceType == Cex && b.chain == Some("cex")
  {
    if csvPath != "" && file.Contents? {
      match Statement(file.text)
      case None =>
      case Some((headerCols, dataCols)) =>
        BitpointRecordsSpec(csvPath, file.text, tokens, sourceName, headerCols, dataCols);
    }
  }

  /** `fetchBalances` */
  method FetchBalances(csvPath: string, file: CsvFile, tokens: seq<TokenDef>, sourceName: string)
    returns (r: Outcome<seq<Balance>>)
    ensures r == BitpointBalances(csvPath, file, tokens, sourceName)
  {
    if csvPath == "" {
      return Succeeded([]);
    }
    if file.Missing? {
      return Succeeded([]);
    }
    if file.Unreadable? {
      return Threw(file.message);
    }
    var lines := NonEmptyLines(file.text);
    if |lines| == 0 {
      return Succeeded([]);
    }
    assert Statement(file.text) == match HeaderIndex(lines)
      case None => None
      case Some(h) => Some((Split(lines[h], ','), Split(lines[|lines| - 1], ',')));
    var headerIndex := HeaderIndex(lines);
    if headerIndex.None? {
      return Succeeded([]);
    }
    var lastLine := lines[|lines| - 1];
    var headerCols := Split(lines[headerIndex.value], ',');
    var dataCols := Split(lastLine, ',');
    var targetSymbols := Distinct(Symbols(tokens));
    var symbolToIndex := IndexColumns(headerCols);
    var balances := EmitRecords(targetSymbols, symbolToIndex, dataCols, sourceName);
    return Succeeded(balances);
  }

  /** The loop that pushes one record per target symbol with a column. */
  method EmitRecords(targetSymbols: seq<string>, symbolToIndex: map<string, nat>, dataCols: seq<string>, sourceName: string)
    returns (balances: seq<Balance>)
    ensures balances == RecordsFor(targetSymbols, symbolToIndex, dataCols, sourceName)
  {
    balances := [];
    for i := 0 to |targetSymbols|
      invariant balances == RecordsFor(targetSymbols[..i], symbolToIndex, dataCols, sourceName)
    {
      var symbol := targetSymbols[i];
      assert targetSymbols[..i + 1][..i] == targetSymbols[..i];
      if symbol !in symbolToIndex {
        continue;
      }
      var safeAmount := CellAmount(dataCols, symbolToIndex[symbol]);
      balances := balances + [Record(symbol, safeAmount, sourceName)];
    }
    assert targetSymbols[..|targetSymbols|] == targetSymbols;
  }

  // ---------------------------------------------------------------------------
  // Properties
  // ---------------------------------------------------------------------------

  /** A `\r` before a line break never survives the trim: `\r\n` and `\n` files give the same lines. */
  lemma LinesIgnoreCr(raw: string)
    ensures NonEmptyLines(raw) == Filter(TrimAll(Split(raw, '\n')), IsNonEmpty)
  {
    TrimAllIgnoresCr(raw);
  }

  /** Line by line, trimming a `\r?\n` split gives the lines of a plain `\n` split, trimmed. */
  lemma TrimAllIgnoresCr(raw: string)
    ensures TrimAll(SplitLines(raw)) == TrimAll(Split(raw, '\n'))
  {
    var parts := Split(raw, '\n');
    var lines := SplitLines(raw);
    assert forall i :: 0 <= i < |parts| ==> lines[i] == DropCr(parts[i]) || lines[i] == parts[i];
    TrimAllDropCr(lines, parts);
  }

  /** Dropping a trailing `\r` from any of the lines leaves the trimmed lines as they were. */
  lemma TrimAllDropCr(lines: seq<string>, parts: seq<string>)
    requires |lines| == |parts|
    requires forall i :: 0 <= i < |parts| ==> lines[i] == DropCr(parts[i]) || lines[i] == parts[i]
    ensures TrimAll(lines) == TrimAll(parts)
  {
    forall i | 0 <= i < |parts| ensures Trim(lines[i]) == Trim(parts[i]) {
      TrimMaybeDropCr(lines[i], parts[i]);
    }
  }

  lemma TrimMaybeDropCr(line: string, part: string)
    requires line == DropCr(part) || line == part
    ensures Trim(line) == Trim(part)
  {
    TrimDropCr(part);
  }

  lemma TrimDropCr(s: string)
    ensures Trim(DropCr(s)) == Trim(s)
  {
    if |s| > 0 && s[|s| - 1] == '\r' {
      var t := s[..|s| - 1];
      assert s == t + ['\r'];
      assert DropCr(s) == t;
      TrimStartSnoc(t, '\r');
      if TrimStart(t) != [] {
        TrimEndSnocWhitespace(TrimStart(t), '\r');
      }
    }
  }

  lemma TrimEndSnocWhitespace(u: string, c: char)
    requires IsWhitespace(c)
    ensures TrimEnd(u + [c]) == TrimEnd(u)
  {
    assert (u + [c])[..|u|] == u;
  }

  lemma {:induction false} TrimStartSnoc(s: string, c: char)
    ensures TrimStart(s + [c]) == if TrimStart(s) == [] && IsWhitespace(c) then [] else TrimStart(s) + [c]
    decreases |s|
  {
    if |s| == 0 {
      assert s + [c] == [c];
      assert [c][1..] == [];
    } else {
      assert (s + [c])[0] == s[0];
      if IsWhitespace(s[0]) {
        var t := s[1..];
        assert (s + [c])[1..] == t + [c];
        TrimStartSnoc(t, c);
        assert TrimStart(s + [c]) == TrimStart(t + [c]);
        assert TrimStart(s) == TrimStart(t);
      }
    }
  }

  /** A statement is found iff some non-blank line starts with `No,`: its cells are those of the first such line and of the last line. */
  lemma StatementSpec(text: string)
    ensures var lines := NonEmptyLines(text);
      && (Statement(text).Some? <==> exists j :: 0 <= j < |lines| && StartsWith(lines[j], "No,"))
      && (Statement(text).Some? ==>
            var h := HeaderIndex(lines).value;
            && StartsWith(lines[h], "No,") && (forall j :: 0 <= j < h ==> !StartsWith(lines[j], "No,"))
            && Statement(text).value == (Split(lines[h], ','), Split(lines[|lines| - 1], ',')))
  {
    var lines := NonEmptyLines(text);
    if lines == [] {
      assert Statement(text).None?;
    } else if HeaderIndex(lines).Some? {
      var h := HeaderIndex(lines).value;
      assert Statement(text) == Some((Split(lines[h], ','), Split(lines[|lines| - 1], ',')));
    }
  }

  /** An empty path, a missing file, or a file without a `No,` line gives no record. */
  lemma BitpointEmptyCases(csvPath: string, file: CsvFile, tokens: seq<TokenDef>, sourceName: string)
    requires csvPath == "" || file.Missing? || (file.Contents? && Statement(file.text).None?)
    ensures BitpointBalances(csvPath, file, tokens, sourceName) == Succeeded([])
  {
  }

  /** Only an unreadable file makes `fetchBalances` throw, with the reader's message. */
  lemma BitpointThrowsOnlyOnRead(csvPath: string, file: CsvFile, tokens: seq<TokenDef>, sourceName: string)
    ensures BitpointBalances(csvPath, file, tokens, sourceName).Threw? <==> csvPath != "" && file.Unreadable?
    ensures BitpointBalances(csvPath, file, tokens, sourceName).Threw? ==>
              BitpointBalances(csvPath, file, tokens, sourceName).message == file.message
  {
  }

  function HasColumn(index: map<string, nat>): string -> bool {
    s => s in index
  }

  lemma {:induction false} RecordsForSpec(symbols: seq<string>, index: map<string, nat>, dataCols: seq<string>, sourceName: string)
    ensures var r := RecordsFor(symbols, index, dataCols, sourceName);
      var emitted := Filter(symbols, HasColumn(index));
      && |r| == |emitted|
      && forall i :: 0 <= i < |r| ==> r[i] == Record(emitted[i], CellAmount(dataCols, index[emitted[i]]), sourceName)
  {
    if symbols != [] {
      RecordsForSpec(symbols[..|symbols| - 1], index, dataCols, sourceName);
    }
  }

  /**
   * A readable statement gives exactly one record per distinct configured
   * symbol that has a currency column, in configuration order, zero amounts
   * included: the amount of the symbol's cell in the last line, as an
   * exchange holding of the given source name.
   */
  lemma BitpointRecordsSpec(csvPath: string, text: string, tokens: seq<TokenDef>, sourceName: string,
                            headerCols: seq<string>, dataCols: seq<string>)
    requires csvPath != ""
    requires Statement(text) == Some((headerCols, dataCols))
    ensures var index := ColumnIndex(TrimAll(headerCols));
      var emitted := Filter(Distinct(Symbols(tokens)), HasColumn(index));
      && BitpointBalances(csvPath, Contents(text), tokens, sourceName).Succeeded?
      && var r := BitpointBalances(csvPath, Contents(text), tokens, sourceName).value;
      && |r| == |emitted|
      && forall i :: 0 <= i < |r| ==>
           && r[i].symbol == emitted[i] && r[i].amount == CellAmount(dataCols, index[emitted[i]])
           && r[i].sourceType == Cex && r[i].sourceName == sourceName && r[i].chain == Some("cex")
  {
    BitpointBalancesOf(csvPath, text, tokens, sourceName, headerCols, dataCols);
    RecordsForSpec(Distinct(Symbols(tokens)), ColumnIndex(TrimAll(headerCols)), dataCols, sourceName);
  }

  lemma BitpointBalancesOf(csvPath: string, text: string, tokens: seq<TokenDef>, sourceName: string,
                           headerCols: seq<string>, dataCols: seq<string>)
    requires csvPath != ""
    requires Statement(text) == Some((headerCols, dataCols))
    ensures BitpointBalances(csvPath, Contents(text), tokens, sourceName)
         == Succeeded(RecordsFor(Distinct(Symbols(tokens)), ColumnIndex(TrimAll(headerCols)), dataCols, sourceName))
  {
  }

  /** A configured symbol is reported iff it has a currency column; no symbol is reported twice. */
  lemma BitpointSymbolsSpec(symbols: seq<string>, index: map<string, nat>, dataCols: seq<string>, sourceName: string, s: string)
    requires NoDuplicates(symbols)
    ensures var emitted := Filter(symbols, HasColumn(index));
      && NoDuplicates(emitted)
      && (s in emitted <==> s in symbols && s in index)
  {
    FilterNoDuplicates(symbols, HasColumn(index));
    FilterMembership(symbols, HasColumn(index), s);
  }

  /** An empty or unparsable cell counts as 0, and a missing cell as an empty one. */
  lemma CellAmountFallback(dataCols: seq<string>, idx: nat)
    requires idx >= |dataCols| || Trim(dataCols[idx]) == "" || ParseFloat(Trim(dataCols[idx])) == NotFinite
    ensures CellAmount(dataCols, idx) == 0.0
  {
  }
}
