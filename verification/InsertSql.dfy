/** The multi-row INSERT a flush builds, and a reader of such statements: reading the
    statement back, with its arguments, gives the batch. */
module InsertSql {
  import opened Model

  datatype Arg = Device(d: int) | Sensor(s: string) | Value(v: real) | Time(t: int)

  const INSERT_COLS := 4
  const HEAD := "INSERT INTO sensor_data (" + ("device_id, sensor_name, " + "sensor_value, received_at) VALUES ")

  // ---- Decimal numbers ----

  predicate IsDigit(c: char) { '0' <= c <= '9' }

  function Digit(n: nat): char
    requires n < 10
  {
    "0123456789"[n]
  }

  function DigitValue(c: char): nat
    requires IsDigit(c)
  {
    c as nat - '0' as nat
  }

  function Decimal(n: nat): string {
    if n < 10 then [Digit(n)] else Decimal(n / 10) + [Digit(n % 10)]
  }

  function ReadDecimal(s: string): nat
    requires forall c <- s :: IsDigit(c)
  {
    if s == "" then 0
    else
      assert s[|s| - 1] in s;
      ReadDecimal(s[..|s| - 1]) * 10 + DigitValue(s[|s| - 1])
  }

  lemma {:induction false} DecimalReadsBack(n: nat)
    ensures Decimal(n) != "" && (forall c <- Decimal(n) :: IsDigit(c)) && ReadDecimal(Decimal(n)) == n
  {
    if n >= 10 {
      DecimalReadsBack(n / 10);
      assert Decimal(n)[..|Decimal(n)| - 1] == Decimal(n / 10);
    } else {
      assert Decimal(n)[..0] == "";
    }
  }

  // ---- Writing ----

  function Group(i: nat): string {
    var n := i * INSERT_COLS;
    "($" + Decimal(n + 1) + ",$" + Decimal(n + 2) + ",$" + Decimal(n + 3) + ",$" + Decimal(n + 4) + ")"
  }

  /** Groups i to n - 1, a comma before each but group 0. */
  function Groups(i: nat, n: nat): string
    requires i <= n
    decreases n - i
  {
    if i == n then "" else (if i > 0 then "," else "") + Group(i) + Groups(i + 1, n)
  }

  function Args(batch: seq<Reading>): (args: seq<Arg>)
    ensures |args| == 4 * |batch|
  {
    if batch == [] then []
    else
      var r := batch[|batch| - 1];
      Args(batch[..|batch| - 1]) + [Device(r.device), Sensor(r.sensor), Value(r.value), Time(r.observedAt)]
  }

  lemma {:induction false} GroupsAppend(i: nat, n: nat)
    requires i <= n
    ensures Groups(i, n + 1) == Groups(i, n) + (if n > 0 then "," else "") + Group(n)
    decreases n - i
  {
    hide Group;
    if i == n {
      assert Groups(n + 1, n + 1) == "";
    } else {
      GroupsAppend(i + 1, n);
      var front, comma := (if i > 0 then "," else "") + Group(i), if n > 0 then "," else "";
      assert front + (Groups(i + 1, n) + comma + Group(n)) == front + Groups(i + 1, n) + comma + Group(n);
    }
  }

  // ---- Reading ----

  function Expect(s: string, c: char): Option<string> {
    if s != "" && s[0] == c then Some(s[1..]) else None
  }

  function LeadingDigits(s: string): (k: nat)
    ensures k <= |s| && (forall c <- s[..k] :: IsDigit(c)) && (k < |s| ==> !IsDigit(s[k]))
  {
    if s == "" || !IsDigit(s[0]) then 0
    else
      var k := LeadingDigits(s[1..]);
      assert s[..k + 1] == [s[0]] + s[1..][..k];
      k + 1
  }

  /** A placeholder $number, and what follows it. */
  function ReadPlaceholder(s: string): Option<(nat, string)> {
    match Expect(s, '$')
    case None => None
    case Some(t) =>
      var k := LeadingDigits(t);
      if k == 0 then None else Some((ReadDecimal(t[..k]), t[k..]))
  }

  /** After the character c, a placeholder. */
  function ReadAfter(s: string, c: char): Option<(nat, string)> {
    match Expect(s, c) case None => None case Some(t) => ReadPlaceholder(t)
  }

  /** A row ($a,$b,$c,$d), and what follows it. */
  function ReadRow(s: string): Option<(seq<nat>, string)> {
    match ReadAfter(s, '(') case None => None case Some(a) =>
      match ReadAfter(a.1, ',') case None => None case Some(b) =>
        match ReadAfter(b.1, ',') case None => None case Some(c) =>
          match ReadAfter(c.1, ',') case None => None case Some(d) =>
            match Expect(d.1, ')') case None => None case Some(rest) => Some(([a.0, b.0, c.0, d.0], rest))
  }

  lemma ReadShrinks(s: string, c: char)
    ensures Expect(s, c).Some? ==> |Expect(s, c).value| < |s|
    ensures ReadAfter(s, c).Some? ==> |ReadAfter(s, c).value.1| < |s|
  {
  }

  lemma ReadRowShrinks(s: string)
    ensures ReadRow(s).Some? ==> |ReadRow(s).value.1| < |s|
  {
    if ReadRow(s).Some? {
      var a := ReadAfter(s, '(').value;
      var b := ReadAfter(a.1, ',').value;
      var c := ReadAfter(b.1, ',').value;
      var d := ReadAfter(c.1, ',').value;
      ReadShrinks(s, '(');
      ReadShrinks(a.1, ',');
      ReadShrinks(b.1, ',');
      ReadShrinks(c.1, ',');
      ReadShrinks(d.1, ')');
    }
  }

  /** The rows that follow a first row: each after a comma, up to the end of the text. */
  function ReadMore(s: string): Option<seq<seq<nat>>>
    decreases |s|
  {
    if s == "" then Some([])
    else
      match Expect(s, ',') case None => None case Some(t) =>
        match ReadRow(t) case None => None case Some(row) =>
          ReadRowShrinks(t);
          match ReadMore(row.1) case None => None case Some(more) => Some([row.0] + more)
  }

  function ReadRows(s: string): Option<seq<seq<nat>>> {
    match ReadRow(s) case None => None case Some(row) =>
      match ReadMore(row.1) case None => None case Some(more) => Some([row.0] + more)
  }

  // ---- Which columns the rows are for ----

  predicate IsLetter(c: char) { 'a' <= c <= 'z' || c == '_' }

  function ExpectText(s: string, t: string): Option<string> {
    if t <= s then Some(s[|t|..]) else None
  }

  function LeadingLetters(s: string): (k: nat)
    ensures k <= |s|
  {
    if s == "" || !IsLetter(s[0]) then 0 else 1 + LeadingLetters(s[1..])
  }

  /** A name, and what follows it. */
  function ReadName(s: string): Option<(string, string)> {
    var k := LeadingLetters(s);
    if k == 0 then None else Some((s[..k], s[k..]))
  }

  /** Names separated by a comma and a space, up to a closing parenthesis. */
  function ReadNames(s: string): Option<(seq<string>, string)>
    decreases |s|
  {
    match ReadName(s) case None => None case Some(name) =>
      match ExpectText(name.1, ", ")
      case Some(t) =>
        (match ReadNames(t) case None => None case Some(more) => Some(([name.0] + more.0, more.1)))
      case None =>
        (match Expect(name.1, ')') case None => None case Some(t) => Some(([name.0], t)))
  }

  /** The table and the columns an INSERT names, and the text of its rows. */
  datatype Target = Target(table: string, columns: seq<string>, rows: string)

  function ReadTarget(sql: string): Option<Target> {
    match ExpectText(sql, "INSERT INTO ") case None => None case Some(a) =>
      match ReadName(a) case None => None case Some(table) =>
        match ExpectText(table.1, " (") case None => None case Some(b) =>
          match ReadNames(b) case None => None case Some(columns) =>
            match ExpectText(columns.1, " VALUES ") case None => None case Some(rows) =>
              Some(Target(table.0, columns.0, rows))
  }

  /** Where a name is listed first. */
  function Place(columns: seq<string>, name: string): (j: Option<nat>)
    ensures j.Some? ==> j.value < |columns| && columns[j.value] == name
  {
    if columns == [] then None
    else if columns[0] == name then Some(0)
    else match Place(columns[1..], name) case None => None case Some(j) => Some(j + 1)
  }

  /** The argument that a row's placeholder for the named column stands for. */
  function Column(columns: seq<string>, row: seq<nat>, args: seq<Arg>, name: string): Option<Arg> {
    match Place(columns, name)
    case None => None
    case Some(j) => if j < |row| && 1 <= row[j] <= |args| then Some(args[row[j] - 1]) else None
  }

  /** The reading a row stands for, each field taken from the column of its name. */
  function BindRow(columns: seq<string>, row: seq<nat>, args: seq<Arg>): Option<Reading> {
    var device, sensor := Column(columns, row, args, "device_id"), Column(columns, row, args, "sensor_name");
    var value, time := Column(columns, row, args, "sensor_value"), Column(columns, row, args, "received_at");
    if |row| == |columns| == 4 && device.Some? && sensor.Some? && value.Some? && time.Some?
       && device.value.Device? && sensor.value.Sensor? && value.value.Value? && time.value.Time?
    then Some(Reading(device.value.d, sensor.value.s, value.value.v, time.value.t))
    else None
  }

  function Bind(columns: seq<string>, rows: seq<seq<nat>>, args: seq<Arg>): Option<seq<Reading>> {
    if rows == [] then Some([])
    else
      match Bind(columns, rows[..|rows| - 1], args) case None => None case Some(front) =>
        match BindRow(columns, rows[|rows| - 1], args) case None => None case Some(r) => Some(front + [r])
  }

  /** The readings the statement inserts into sensor_data. */
  function Inserted(sql: string, args: seq<Arg>): Option<seq<Reading>> {
    match ReadTarget(sql) case None => None case Some(target) =>
      if target.table != "sensor_data" then None
      else match ReadRows(target.rows) case None => None case Some(rows) => Bind(target.columns, rows, args)
  }

  // ---- Reading what was written ----

  lemma {:induction false} DigitsThenStop(d: string, rest: string)
    requires forall c <- d :: IsDigit(c)
    requires rest != "" && !IsDigit(rest[0])
    ensures LeadingDigits(d + rest) == |d|
  {
    if d == "" {
      assert d + rest == rest;
    } else {
      DigitsThenStop(d[1..], rest);
      assert (d + rest)[1..] == d[1..] + rest;
      assert (d + rest)[0] == d[0];
    }
  }

  lemma PlaceholderReadsBack(c: char, n: nat, rest: string)
    requires rest != "" && !IsDigit(rest[0])
    ensures ReadAfter([c] + "$" + Decimal(n) + rest, c) == Some((n, rest))
  {
    DecimalReadsBack(n);
    var d := Decimal(n);
    hide Decimal; hide ReadDecimal; hide LeadingDigits;
    DigitsThenStop(d, rest);
    var t := d + rest;
    var s := [c] + "$" + d + rest;
    assert s == [c] + ("$" + t) && s[1..] == "$" + t && ("$" + t)[1..] == t;
    assert t[..|d|] == d && t[|d|..] == rest;
  }

  lemma GroupReadsBack(i: nat, rest: string)
    ensures ReadRow(Group(i) + rest) == Some(([4 * i + 1, 4 * i + 2, 4 * i + 3, 4 * i + 4], rest))
  {
    var n := 4 * i;
    hide Decimal; hide ReadAfter;
    GroupText(n, Decimal(n + 1), Decimal(n + 2), Decimal(n + 3), Decimal(n + 4), rest);
    var s4 := ")" + rest;
    var s3 := [','] + "$" + Decimal(n + 4) + s4;
    var s2 := [','] + "$" + Decimal(n + 3) + s3;
    var s1 := [','] + "$" + Decimal(n + 2) + s2;
    PlaceholderReadsBack('(', n + 1, s1);
    PlaceholderReadsBack(',', n + 2, s2);
    PlaceholderReadsBack(',', n + 3, s3);
    PlaceholderReadsBack(',', n + 4, s4);
    assert s4[1..] == rest;
  }

  lemma Concat(a: string, b: string, c: string)
    ensures (a + b) + c == a + (b + c)
  {
  }

  lemma Marked(c: char, mark: string, d: string, rest: string)
    requires mark == [c] + "$"
    ensures mark + (d + rest) == [c] + "$" + d + rest
  {
    Concat(mark, d, rest);
  }

  lemma GroupText(n: nat, a: string, b: string, c: string, d: string, rest: string)
    ensures "($" + a + ",$" + b + ",$" + c + ",$" + d + ")" + rest ==
            ['('] + "$" + a + ([','] + "$" + b + ([','] + "$" + c + ([','] + "$" + d + (")" + rest))))
  {
    var s4 := ")" + rest;
    var s3 := ",$" + (d + s4);
    var s2 := ",$" + (c + s3);
    var s1 := ",$" + (b + s2);
    Marked('(', "($", a, s1);
    Marked(',', ",$", b, s2);
    Marked(',', ",$", c, s3);
    Marked(',', ",$", d, s4);
    Concat("($" + a + ",$" + b + ",$" + c + ",$" + d, ")", rest);
    Concat("($" + a + ",$" + b + ",$" + c + ",$", d, s4);
    Concat("($" + a + ",$" + b + ",$" + c, ",$", d + s4);
    Concat("($" + a + ",$" + b + ",$", c, s3);
    Concat("($" + a + ",$" + b, ",$", c + s3);
    Concat("($" + a + ",$", b, s2);
    Concat("($" + a, ",$", b + s2);
    Concat("($", a, s1);
  }

  /** Placeholders 4 i + 1 to 4 n, in order, four to a row. */
  function Numbering(i: nat, n: nat): (rows: seq<seq<nat>>)
    requires i <= n
    ensures |rows| == n - i
    ensures forall j :: 0 <= j < n - i ==> rows[j] == [4 * (i + j) + 1, 4 * (i + j) + 2, 4 * (i + j) + 3, 4 * (i + j) + 4]
    decreases n - i
  {
    if i == n then [] else [[4 * i + 1, 4 * i + 2, 4 * i + 3, 4 * i + 4]] + Numbering(i + 1, n)
  }

  lemma {:induction false} GroupsReadBack(i: nat, n: nat)
    requires 0 < i <= n
    ensures ReadMore(Groups(i, n)) == Some(Numbering(i, n))
    decreases n - i
  {
    hide Group; hide ReadRow;
    if i < n {
      var rest := Group(i) + Groups(i + 1, n);
      assert Groups(i, n) == "," + rest;
      assert Groups(i, n)[1..] == rest;
      GroupReadsBack(i, Groups(i + 1, n));
      GroupsReadBack(i + 1, n);
    }
  }

  lemma FirstRow()
    ensures Groups(0, 1) == "($1,$2,$3,$4)"
  {
    assert Group(0) == "($1,$2,$3,$4)" by {
      assert Decimal(1) == "1" && Decimal(2) == "2" && Decimal(3) == "3" && Decimal(4) == "4";
      hide Decimal;
    }
    hide Group;
    assert Groups(1, 1) == "";
    assert Groups(0, 1) == "" + Group(0) + Groups(1, 1);
  }

  /** The generated placeholders are exactly $1 to $4n, in order. */
  lemma PlaceholdersInOrder(n: nat)
    requires n > 0
    ensures ReadRows(Groups(0, n)) == Some(Numbering(0, n))
    ensures Groups(0, 1) == "($1,$2,$3,$4)"
  {
    FirstRow();
    hide Group; hide ReadRow;
    assert Groups(0, n) == Group(0) + Groups(1, n);
    GroupReadsBack(0, Groups(1, n));
    GroupsReadBack(1, n);
  }

  lemma {:induction false} ArgAt(batch: seq<Reading>, i: nat)
    requires i < |batch|
    ensures var a := Args(batch);
            && a[4 * i] == Device(batch[i].device) && a[4 * i + 1] == Sensor(batch[i].sensor)
            && a[4 * i + 2] == Value(batch[i].value) && a[4 * i + 3] == Time(batch[i].observedAt)
  {
    if i < |batch| - 1 { ArgAt(batch[..|batch| - 1], i); }
  }

  /** The columns a flush names, in the order of its arguments. */
  function Columns(): seq<string> { ["device_id", "sensor_name", "sensor_value", "received_at"] }

  lemma Places()
    ensures Place(Columns(), "device_id") == Some(0) && Place(Columns(), "sensor_name") == Some(1)
    ensures Place(Columns(), "sensor_value") == Some(2) && Place(Columns(), "received_at") == Some(3)
  {
    var value, time := "sensor_value", "received_at";
    assert "device_id"[0] != "sensor_name"[0] && "device_id"[0] != value[0] && "device_id"[0] != time[0];
    assert "sensor_name"[7] != value[7] && "sensor_name"[0] != time[0] && value[0] != time[0];
    var c1, c2, c3 := Columns()[1..], Columns()[2..], Columns()[3..];
    assert c1[1..] == c2 && c2[1..] == c3;
    assert Place(c3, time) == Some(0);
    assert Place(c2, value) == Some(0) && Place(c2, time) == Some(1);
    assert Place(c1, "sensor_name") == Some(0) && Place(c1, value) == Some(1) && Place(c1, time) == Some(2);
  }

  lemma BindRowIs(a: nat, args: seq<Arg>, r: Reading)
    requires a + 4 <= |args|
    requires args[a] == Device(r.device) && args[a + 1] == Sensor(r.sensor)
    requires args[a + 2] == Value(r.value) && args[a + 3] == Time(r.observedAt)
    ensures BindRow(Columns(), [a + 1, a + 2, a + 3, a + 4], args) == Some(r)
  {
    Places();
    hide Place;
  }

  lemma RowBinds(batch: seq<Reading>, i: nat, row: seq<nat>)
    requires i < |batch| && row == [4 * i + 1, 4 * i + 2, 4 * i + 3, 4 * i + 4]
    ensures BindRow(Columns(), row, Args(batch)) == Some(batch[i])
  {
    hide Args; hide BindRow; hide Columns;
    ArgAt(batch, i);
    BindRowIs(4 * i, Args(batch), batch[i]);
  }

  lemma {:induction false} BindReadsBack(batch: seq<Reading>, m: nat)
    requires m <= |batch|
    ensures Bind(Columns(), Numbering(0, |batch|)[..m], Args(batch)) == Some(batch[..m])
  {
    hide Args; hide Numbering; hide BindRow; hide Columns;
    if m > 0 {
      var rows := Numbering(0, |batch|);
      BindReadsBack(batch, m - 1);
      assert rows[..m][..m - 1] == rows[..m - 1];
      assert rows[m - 1] == [4 * (0 + (m - 1)) + 1, 4 * (0 + (m - 1)) + 2, 4 * (0 + (m - 1)) + 3, 4 * (0 + (m - 1)) + 4];
      RowBinds(batch, m - 1, rows[m - 1]);
      assert batch[..m] == batch[..m - 1] + [batch[m - 1]];
    }
  }

  lemma {:induction false} LettersThenStop(w: string, rest: string)
    requires forall i :: 0 <= i < |w| ==> IsLetter(w[i])
    requires rest != "" && !IsLetter(rest[0])
    ensures LeadingLetters(w + rest) == |w|
  {
    if w == "" {
      assert w + rest == rest;
    } else {
      LettersThenStop(w[1..], rest);
      assert (w + rest)[1..] == w[1..] + rest;
    }
  }

  lemma NameReadsBack(w: string, rest: string)
    requires w != "" && forall i :: 0 <= i < |w| ==> IsLetter(w[i])
    requires rest != "" && !IsLetter(rest[0])
    ensures ReadName(w + rest) == Some((w, rest))
  {
    LettersThenStop(w, rest);
    hide LeadingLetters;
    assert (w + rest)[..|w|] == w && (w + rest)[|w|..] == rest;
  }

  lemma TextReadsBack(t: string, rest: string)
    ensures ExpectText(t + rest, t) == Some(rest)
  {
    assert (t + rest)[|t|..] == rest;
  }

  lemma OneMoreName(w: string, rest: string, names: seq<string>, rows: string)
    requires w != "" && forall i :: 0 <= i < |w| ==> IsLetter(w[i])
    requires ReadNames(rest) == Some((names, rows))
    ensures ReadNames(w + (", " + rest)) == Some(([w] + names, rows))
  {
    NameReadsBack(w, ", " + rest);
    TextReadsBack(", ", rest);
    hide ReadName; hide ExpectText;
  }

  lemma LastName(w: string, rows: string)
    requires w != "" && forall i :: 0 <= i < |w| ==> IsLetter(w[i])
    ensures ReadNames(w + (")" + rows)) == Some(([w], rows))
  {
    NameReadsBack(w, ")" + rows);
    assert (")" + rows)[1..] == rows && (")" + rows)[0] == ')';
    hide ReadName;
  }

  lemma ColumnsReadBack(rows: string)
    ensures ReadNames("device_id, sensor_name, " + ("sensor_value, received_at)" + rows)) == Some((Columns(), rows))
  {
    var s4 := "received_at" + (")" + rows);
    var s3 := "sensor_value" + (", " + s4);
    var s2 := "sensor_name" + (", " + s3);
    hide ReadNames;
    LastName("received_at", rows);
    OneMoreName("sensor_value", s4, ["received_at"], rows);
    OneMoreName("sensor_name", s3, ["sensor_value"] + ["received_at"], rows);
    OneMoreName("device_id", s2, ["sensor_name"] + (["sensor_value"] + ["received_at"]), rows);
    assert ["device_id"] + (["sensor_name"] + (["sensor_value"] + ["received_at"])) == Columns();
    TwoNames("sensor_value, received_at)", "sensor_value", "received_at", ")", rows);
    TwoNames("device_id, sensor_name, ", "device_id", "sensor_name", ", ", s3);
  }

  lemma TwoNames(text: string, first: string, second: string, end: string, rest: string)
    requires text == first + ", " + second + end
    ensures text + rest == first + (", " + (second + (end + rest)))
  {
    Concat(first + ", " + second, end, rest);
    Concat(first + ", ", second, end + rest);
    Concat(first, ", ", second + (end + rest));
  }

  lemma HeadText(rows: string)
    ensures HEAD + rows ==
            "INSERT INTO " + ("sensor_data" + (" (" + ("device_id, sensor_name, " + ("sensor_value, received_at)" + (" VALUES " + rows)))))
  {
    var front, back := "device_id, sensor_name, ", "sensor_value, received_at)";
    assert "sensor_value, received_at) VALUES " == back + " VALUES ";
    assert "INSERT INTO sensor_data (" == "INSERT INTO " + ("sensor_data" + " (");
    var tail := front + (back + (" VALUES " + rows));
    Concat("INSERT INTO sensor_data (", front + (back + " VALUES "), rows);
    Concat(front, back + " VALUES ", rows);
    Concat(back, " VALUES ", rows);
    Concat("INSERT INTO ", "sensor_data" + " (", tail);
    Concat("sensor_data", " (", tail);
  }

  /** The head names the table and its four columns, in the order of the arguments. */
  lemma HeadReadsBack(rows: string)
    ensures ReadTarget(HEAD + rows) == Some(Target("sensor_data", Columns(), rows))
  {
    var s4 := " VALUES " + rows;
    var s3 := "device_id, sensor_name, " + ("sensor_value, received_at)" + s4);
    var s2 := " (" + s3;
    var s1 := "sensor_data" + s2;
    hide ReadNames; hide ReadName; hide ExpectText; hide Columns;
    TextReadsBack(" VALUES ", rows);
    ColumnsReadBack(s4);
    TextReadsBack(" (", s3);
    NameReadsBack("sensor_data", s2);
    TextReadsBack("INSERT INTO ", s1);
    HeadText(rows);
  }

  lemma NoRows()
    ensures ReadRows(Groups(0, 0)) == None
  {
  }

  lemma RowsInsert(batch: seq<Reading>)
    requires batch != []
    ensures ReadRows(Groups(0, |batch|)).Some?
    ensures Bind(Columns(), ReadRows(Groups(0, |batch|)).value, Args(batch)) == Some(batch)
  {
    hide Groups; hide Args; hide Bind; hide ReadRows; hide Numbering; hide Columns;
    var rows := Numbering(0, |batch|);
    PlaceholdersInOrder(|batch|);
    BindReadsBack(batch, |batch|);
    assert rows[..|batch|] == rows && batch[..|batch|] == batch;
  }

  /** Round trip: the statement built for a non-empty batch inserts exactly that batch, each
      field into the column of its name. */
  lemma InsertRoundTrip(batch: seq<Reading>)
    ensures Inserted(HEAD + Groups(0, |batch|), Args(batch)) == if batch == [] then None else Some(batch)
  {
    hide Groups; hide Args; hide Bind; hide ReadRows; hide ReadTarget; hide Columns;
    HeadReadsBack(Groups(0, |batch|));
    if batch == [] { NoRows(); } else { RowsInsert(batch); }
  }

  lemma EmptyGroups()
    ensures HEAD + Groups(0, 0) == HEAD
  {
  }

  /** The statement and arguments of one flush. */
  method BuildInsert(batch: seq<Reading>) returns (sql: string, args: seq<Arg>)
    ensures batch != [] ==> Inserted(sql, args) == Some(batch)
    ensures |args| == INSERT_COLS * |batch|
  {
    hide Groups; hide Decimal; hide Inserted;
    EmptyGroups();
    sql := HEAD;
    args := [];
    for i := 0 to |batch|
      invariant sql == HEAD + Groups(0, i)
      invariant args == Args(batch[..i])
    {
      GroupsAppend(0, i);
      ghost var before := sql;
      if i > 0 { sql := sql + ","; }
      var n := i * INSERT_COLS;
      sql := sql + ("($" + Decimal(n + 1) + ",$" + Decimal(n + 2) + ",$" + Decimal(n + 3) + ",$" + Decimal(n + 4) + ")");
      assert sql == before + (if i > 0 then "," else "") + Group(i);
      assert HEAD + (Groups(0, i) + (if i > 0 then "," else "") + Group(i)) == HEAD + Groups(0, i) + (if i > 0 then "," else "") + Group(i);
      args := args + [Device(batch[i].device), Sensor(batch[i].sensor), Value(batch[i].value), Time(batch[i].observedAt)];
      assert batch[..i + 1][..i] == batch[..i];
    }
    assert batch[..|batch|] == batch;
    InsertRoundTrip(batch);
  }
}
