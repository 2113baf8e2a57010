/** The text of the "Download all data in .csv" button (`downloadCsv` in
    src/containers/PeggedContainer/index.tsx), without the browser download
    itself.

    The first row is "Timestamp", "Date" and the chain names in input order;
    then one row per day record, in ascending order of the record's date,
    holding the raw date, the formatted date and each chain's value, or an
    empty field where the record's value is null or missing. Fields are joined
    with ',' and rows with '\n'; nothing is quoted or escaped. */
module CsvExport {
  import opened Sorting
  import opened Text

  /** What reading a property of a day record can give: `undefined` (also
      what a chain missing from the record reads as), `null`, or a number. */
  datatype Value = Undefined | Null | Amount(n: int)

  /** A day record of the stacked series: its date and the properties it
      holds for the chains. */
  datatype Day = Day(date: int, chains: map<string, Value>)

  /** A CSV field before it is turned into text: a string or a number. */
  datatype Field = Str(s: string) | Int(n: int)

  /** `day[chain]` for the record's own properties: a chain called "date"
      reads the record's date, any other chain reads its entry, and a chain
      the record does not hold reads as `undefined`. Names the record
      inherits from `Object.prototype` ("constructor", "toString", ...) are
      not modelled. */
  function Lookup(day: Day, chain: string): (v: Value)
    ensures chain != "date" && chain !in day.chains ==> v == Undefined
    ensures chain != "date" && chain in day.chains ==> v == day.chains[chain]
    ensures chain == "date" ==> v == Amount(day.date)
  {
    if chain == "date" then Amount(day.date)
    else if chain in day.chains then day.chains[chain]
    else Undefined
  }

  /** `day[chain] ?? ''`: the number when there is one, otherwise the empty
      string. Only `null` and `undefined` are replaced, so a 0 is kept. */
  function ChainField(day: Day, chain: string): (f: Field)
    ensures f.Int? <==> Lookup(day, chain).Amount?
    ensures f.Int? ==> f.n == Lookup(day, chain).n
    ensures f.Str? ==> f.s == ""
    ensures chain == "date" ==> f == Int(day.date)
    ensures chain != "date" && chain !in day.chains ==> f == Str("")
    ensures chain != "date" && chain in day.chains ==>
              f == (if day.chains[chain].Amount? then Int(day.chains[chain].n) else Str(""))
  {
    match Lookup(day, chain)
    case Amount(n) => Int(n)
    case _ => Str("")
  }

  /** The header row. */
  function HeaderRow(chains: seq<string>): (row: seq<Field>)
    ensures |row| == |chains| + 2
    ensures row[0] == Str("Timestamp") && row[1] == Str("Date")
    ensures forall i :: 0 <= i < |chains| ==> row[i + 2] == Str(chains[i])
  {
    [Str("Timestamp"), Str("Date")] + seq(|chains|, i requires 0 <= i < |chains| => Str(chains[i]))
  }

  /** The row of one day; `niceDate` is the date formatter, which this model
      does not look into. */
  function DataRow(day: Day, chains: seq<string>, niceDate: int -> string): (row: seq<Field>)
    ensures |row| == |chains| + 2
    ensures row[0] == Int(day.date) && row[1] == Str(niceDate(day.date))
    ensures forall i :: 0 <= i < |chains| ==> row[i + 2] == ChainField(day, chains[i])
  {
    [Int(day.date), Str(niceDate(day.date))]
      + seq(|chains|, i requires 0 <= i < |chains| => ChainField(day, chains[i]))
  }

  function DayDate(day: Day): int {
    day.date
  }

  /** The day records in the order the export writes them: ascending by
      date, records with equal dates in their input order. */
  function ByDate(days: seq<Day>): (r: seq<Day>)
    ensures |r| == |days| && multiset(r) == multiset(days)
    ensures forall i, j :: 0 <= i < j < |r| ==> r[i].date <= r[j].date
    ensures SameKeyOrder(r, days, DayDate)
  {
    var r := SortBy(days, DayDate);
    SortIsStable(days, DayDate);
    assert forall i, j :: 0 <= i < j < |r| ==> DayDate(r[i]) <= DayDate(r[j]);
    r
  }

  /** The rows of the export: the header, then one row per day record in
      ascending order of date. */
  function CsvRows(chains: seq<string>, days: seq<Day>, niceDate: int -> string): (rows: seq<seq<Field>>)
    ensures |rows| == |days| + 1
    ensures rows[0] == HeaderRow(chains)
    ensures forall r :: 0 <= r < |rows| ==> |rows[r]| == |chains| + 2
    ensures forall r :: 1 <= r < |rows| ==> rows[r] == DataRow(ByDate(days)[r - 1], chains, niceDate)
    ensures forall r :: 1 <= r < |rows| ==> rows[r][0].Int?
    ensures forall r, s :: 1 <= r < s < |rows| ==> rows[r][0].Int? && rows[s][0].Int? && rows[r][0].n <= rows[s][0].n
  {
    var sorted := ByDate(days);
    [HeaderRow(chains)]
      + seq(|sorted|, i requires 0 <= i < |sorted| => DataRow(sorted[i], chains, niceDate))
  }

  /** Input order does not matter: two inputs that list the records of
      every date in the same relative order give the same rows
      (`CsvRowsIgnorePermutation` is the case of records with pairwise
      distinct dates). */
  lemma CsvRowsIgnoreInputOrder(chains: seq<string>, days: seq<Day>, other: seq<Day>, niceDate: int -> string)
    requires SameKeyOrder(days, other, DayDate)
    ensures CsvRows(chains, days, niceDate) == CsvRows(chains, other, niceDate)
  {
    SortIsStable(days, DayDate);
    SortIsStable(other, DayDate);
    var a, b := SortBy(days, DayDate), SortBy(other, DayDate);
    forall k ensures WithKey(a, DayDate, k) == WithKey(b, DayDate, k) {
      assert WithKey(a, DayDate, k) == WithKey(days, DayDate, k);
      assert WithKey(days, DayDate, k) == WithKey(other, DayDate, k);
      assert WithKey(b, DayDate, k) == WithKey(other, DayDate, k);
    }
    StableSortIsUnique(a, b, DayDate);
  }

  /** Any two orderings of the same records give the same rows, when no two
      records share a date. */
  lemma CsvRowsIgnorePermutation(chains: seq<string>, days: seq<Day>, other: seq<Day>, niceDate: int -> string)
    requires multiset(days) == multiset(other)
    requires forall i, j :: 0 <= i < j < |days| ==> days[i].date != days[j].date
    requires forall i, j :: 0 <= i < j < |other| ==> other[i].date != other[j].date
    ensures CsvRows(chains, days, niceDate) == CsvRows(chains, other, niceDate)
  {
    forall k ensures WithKey(days, DayDate, k) == WithKey(other, DayDate, k) {
      WithKeyOfDistinct(days, DayDate, k);
      WithKeyOfDistinct(other, DayDate, k);
      if x :| x in days && x.date == k {
        assert x in multiset(other);
      } else if y :| y in other && y.date == k {
        assert y in multiset(days);
      }
    }
    CsvRowsIgnoreInputOrder(chains, days, other, niceDate);
  }

  /** The text of a field: strings as they are, numbers in decimal. */
  function Render(f: Field): string {
    match f
    case Str(s) => s
    case Int(n) => IntText(n)
  }

  /** `row.join(',')`. */
  function RowText(row: seq<Field>): string {
    Join(seq(|row|, j requires 0 <= j < |row| => Render(row[j])), ',')
  }

  /** The whole file: rows joined with '\n', fields with ','. */
  function CsvText(chains: seq<string>, days: seq<Day>, niceDate: int -> string): string {
    var rows := CsvRows(chains, days, niceDate);
    Join(seq(|rows|, i requires 0 <= i < |rows| => RowText(rows[i])), '\n')
  }

  /** A string that can stand in a field without changing the file's shape. */
  predicate Plain(s: string) {
    ',' !in s && '\n' !in s
  }

  lemma IntTextIsPlain(n: int)
    ensures Plain(IntText(n))
  {
  }

  /** Reading the file back: when neither a chain name nor a formatted date
      contains ',' or '\n', splitting the text on '\n' and each line on ','
      gives back exactly the rendered fields of every row, so the file has
      one line per day record plus the header, each with 2 + |chains|
      fields. */
  lemma CsvTextReadsBack(chains: seq<string>, days: seq<Day>, niceDate: int -> string)
    requires forall i :: 0 <= i < |chains| ==> Plain(chains[i])
    requires forall d :: Plain(niceDate(d))
    ensures var rows := CsvRows(chains, days, niceDate);
      var lines := Split(CsvText(chains, days, niceDate), '\n');
      |lines| == |days| + 1 &&
      forall r :: 0 <= r < |lines| ==>
        Split(lines[r], ',') == seq(|rows[r]|, j requires 0 <= j < |rows[r]| => Render(rows[r][j]))
  {
    var rows := CsvRows(chains, days, niceDate);
    var texts := seq(|rows|, i requires 0 <= i < |rows| => RowText(rows[i]));
    forall r | 0 <= r < |rows|
      ensures Split(texts[r], ',') == seq(|rows[r]|, j requires 0 <= j < |rows[r]| => Render(rows[r][j]))
      ensures '\n' !in texts[r]
    {
      var parts := seq(|rows[r]|, j requires 0 <= j < |rows[r]| => Render(rows[r][j]));
      forall j | 0 <= j < |parts| ensures Plain(parts[j]) {
        match rows[r][j]
        case Int(n) => IntTextIsPlain(n);
        case Str(s) =>
          if r > 0 && j == 1 {
            assert s == niceDate(ByDate(days)[r - 1].date);
          }
      }
      SplitJoin(parts, ',');
      JoinAvoids(parts, ',', '\n');
    }
    SplitJoin(texts, '\n');
  }

  lemma ExampleDates(d1: Day, d2: Day)
    requires d1.date == 1 && d2.date == 2
    ensures ByDate([d2, d1]) == [d1, d2]
  {
    assert SortBy([d1], DayDate) == [d1] by {
      assert [d1][1..] == [];
    }
    assert [d2, d1][1..] == [d1];
    assert Insert(d2, [d1], DayDate) == [d1, d2] by {
      assert [d1][1..] == [];
    }
  }

  lemma ExampleRows(niceDate: int -> string, d1: Day, d2: Day)
    requires d1 == Day(1, map["A" := Amount(5), "B" := Amount(3)])
    requires d2 == Day(2, map["A" := Amount(7), "B" := Null])
    ensures CsvRows(["A", "B"], [d2, d1], niceDate)
         == [[Str("Timestamp"), Str("Date"), Str("A"), Str("B")],
             [Int(1), Str(niceDate(1)), Int(5), Int(3)],
             [Int(2), Str(niceDate(2)), Int(7), Str("")]]
  {
    var chains := ["A", "B"];
    ExampleDates(d1, d2);
    var rows := CsvRows(chains, [d2, d1], niceDate);
    assert rows[1] == DataRow(d1, chains, niceDate);
    assert rows[2] == DataRow(d2, chains, niceDate);
    assert ChainField(d1, "A") == Int(5) && ChainField(d1, "B") == Int(3);
    assert ChainField(d2, "A") == Int(7) && ChainField(d2, "B") == Str("");
    assert |rows| == 3;
    assert rows[0] == [Str("Timestamp"), Str("Date"), Str("A"), Str("B")];
    assert rows[1] == [Int(1), Str(niceDate(1)), Int(5), Int(3)];
    assert rows[2] == [Int(2), Str(niceDate(2)), Int(7), Str("")];
  }

  lemma DigitText(n: nat)
    requires n < 10
    ensures IntText(n) == ["0123456789"[n]]
  {
  }

  lemma ExampleRowText(x: Field, y: Field, z: Field, w: Field)
    ensures RowText([x, y, z, w]) == Render(x) + "," + Render(y) + "," + Render(z) + "," + Render(w)
  {
    var row := [x, y, z, w];
    assert seq(4, j requires 0 <= j < 4 => Render(row[j])) == [Render(x), Render(y), Render(z), Render(w)];
    JoinOfFour(Render(x), Render(y), Render(z), Render(w));
  }

  lemma ExampleLines(niceDate: int -> string)
    ensures RowText([Str("Timestamp"), Str("Date"), Str("A"), Str("B")]) == "Timestamp,Date,A,B"
    ensures RowText([Int(1), Str(niceDate(1)), Int(5), Int(3)]) == "1," + niceDate(1) + ",5,3"
    ensures RowText([Int(2), Str(niceDate(2)), Int(7), Str("")]) == "2," + niceDate(2) + ",7,"
  {
    ExampleRowText(Str("Timestamp"), Str("Date"), Str("A"), Str("B"));
    ExampleLine(1, niceDate(1), Int(5), Int(3));
    ExampleLine(2, niceDate(2), Int(7), Str(""));
    DigitText(5);
    DigitText(3);
    DigitText(7);
  }

  lemma ExampleLine(date: nat, nice: string, a: Field, b: Field)
    requires date < 10
    ensures RowText([Int(date), Str(nice), a, b]) == ["0123456789"[date]] + "," + nice + "," + Render(a) + "," + Render(b)
  {
    DigitText(date);
    ExampleRowText(Int(date), Str(nice), a, b);
  }

  /** A worked example, with the day records given newest first: chains A
      and B, day 1 with A = 5 and B = 3, day 2 with A = 7 and B = null. */
  lemma CsvExample(niceDate: int -> string)
    ensures CsvText(["A", "B"],
                    [Day(2, map["A" := Amount(7), "B" := Null]), Day(1, map["A" := Amount(5), "B" := Amount(3)])],
                    niceDate)
         == "Timestamp,Date,A,B\n1," + niceDate(1) + ",5,3\n2," + niceDate(2) + ",7,"
  {
    var d1 := Day(1, map["A" := Amount(5), "B" := Amount(3)]);
    var d2 := Day(2, map["A" := Amount(7), "B" := Null]);
    ExampleRows(niceDate, d1, d2);
    ExampleText(niceDate, CsvRows(["A", "B"], [d2, d1], niceDate));
  }

  lemma ExampleText(niceDate: int -> string, rows: seq<seq<Field>>)
    requires rows == [[Str("Timestamp"), Str("Date"), Str("A"), Str("B")],
                      [Int(1), Str(niceDate(1)), Int(5), Int(3)],
                      [Int(2), Str(niceDate(2)), Int(7), Str("")]]
    ensures Join(seq(|rows|, i requires 0 <= i < |rows| => RowText(rows[i])), '\n')
         == "Timestamp,Date,A,B\n1," + niceDate(1) + ",5,3\n2," + niceDate(2) + ",7,"
  {
    var texts := seq(|rows|, i requires 0 <= i < |rows| => RowText(rows[i]));
    ExampleLines(niceDate);
    var t0 := "Timestamp,Date,A,B";
    var t1 := "1," + niceDate(1) + ",5,3";
    var t2 := "2," + niceDate(2) + ",7,";
    assert texts == [t0, t1, t2];
    JoinOfThree(t0, t1, t2, '\n');
  }

  lemma JoinOfThree(a: string, b: string, c: string, sep: char)
    ensures Join([a, b, c], sep) == a + [sep] + b + [sep] + c
  {
    assert [a, b, c][1..] == [b, c];
    assert [b, c][1..] == [c];
  }

  lemma JoinOfFour(a: string, b: string, c: string, d: string)
    ensures Join([a, b, c, d], ',') == a + "," + b + "," + c + "," + d
  {
    assert [a, b, c, d][1..] == [b, c, d];
    assert [b, c, d][1..] == [c, d];
    assert [c, d][1..] == [d];
    assert Join([c, d], ',') == c + "," + d;
    assert Join([b, c, d], ',') == b + "," + (c + "," + d);
    assert Join([a, b, c, d], ',') == a + "," + (b + "," + (c + "," + d));
  }

  /** Nothing is escaped: a chain named "a,b" turns into two header fields,
      so the header has one field more than the rows are meant to have. */
  lemma CommaInChainNameSplitsColumn()
    ensures |Split(RowText(HeaderRow(["a,b"])), ',')| == 4
  {
    var row := HeaderRow(["a,b"]);
    assert row == [Str("Timestamp"), Str("Date"), Str("a,b")];
    assert seq(3, j requires 0 <= j < 3 => Render(row[j])) == ["Timestamp", "Date", "a,b"];
    JoinOfFour("Timestamp", "Date", "a", "b");
    assert Join(["Timestamp", "Date", "a,b"], ',') == "Timestamp,Date,a,b" by {
      assert ["Timestamp", "Date", "a,b"][1..] == ["Date", "a,b"];
      assert ["Date", "a,b"][1..] == ["a,b"];
    }
    assert "Timestamp,Date,a,b" == "Timestamp" + "," + "Date" + "," + "a" + "," + "b";
    SplitJoin(["Timestamp", "Date", "a", "b"], ',');
  }
}
