/** `print_parametros.py`: the AMPL data file, written one `escrever_arquivo` call at a time.
    The file is the sequence of the strings written so far, each followed by a newline in
    the file's text. Every section is specified by the strings it writes; the methods of
    `AmplFile` write them with the loops of the source. */
module AmplWriter {
  import opened Wrappers
  import opened Seqs
  import opened Dicts
  import opened Text
  import opened Sorting
  import opened ProcessingTime
  import opened Eligibility
  import opened Areas
  import opened SetupTime
  import opened BlockingTime

  /** The text of a file written with the strings ws in turn. */
  function FileText(ws: seq<string>): string
  {
    if |ws| == 0 then "" else FileText(ws[..|ws| - 1]) + ws[|ws| - 1] + "\n"
  }

  /** Writing a then b leaves the text of a followed by the text of b. */
  lemma {:induction false} FileTextConcat(a: seq<string>, b: seq<string>)
    ensures FileText(a + b) == FileText(a) + FileText(b)
    decreases |b|
  {
    if |b| == 0 {
      assert a + b == a;
    } else {
      var n := |b| - 1;
      assert (a + b)[..|a| + n] == a + b[..n];
      FileTextConcat(a, b[..n]);
    }
  }

  /** One more write adds its content and a newline to the text. */
  lemma WriteText(ws: seq<string>, content: string)
    ensures FileText(ws + [content]) == FileText(ws) + content + "\n"
  {
    assert (ws + [content])[..|ws|] == ws;
  }

  // ----- Emitting lines that may raise --------------------------------------------------

  /** What a run of writes leaves: the strings written, and the exception that stopped it. */
  datatype Emission = Emission(writes: seq<string>, error: Option<Error>)

  /** Writing the lines in turn; the first line that raises stops the run. */
  function Emit(cells: seq<Result<string>>): Emission
  {
    if |cells| == 0 then Emission([], None)
    else
      var front := Emit(cells[..|cells| - 1]);
      var c := cells[|cells| - 1];
      if front.error.Some? then front
      else if c.Failure? then Emission(front.writes, Some(c.error))
      else Emission(front.writes + [c.value], None)
  }

  /** A run raises exactly when some line raises, and then with the exception of one of
      them. */
  lemma {:induction false} EmitShape(cells: seq<Result<string>>)
    ensures var e := Emit(cells);
      && (e.error.None? <==> forall i :: 0 <= i < |cells| ==> cells[i].Success?)
      && (e.error.Some? ==> exists k :: 0 <= k < |cells| && cells[k].Failure? && e.error == Some(cells[k].error))
  {
    if |cells| > 0 {
      var n := |cells| - 1;
      var front := cells[..n];
      EmitShape(front);
      assert forall i :: 0 <= i < n ==> front[i] == cells[i];
    }
  }

  lemma EmitSnoc(s: seq<Result<string>>, c: Result<string>)
    ensures Emit(s + [c]) ==
      if Emit(s).error.Some? then Emit(s)
      else if c.Failure? then Emission(Emit(s).writes, Some(c.error))
      else Emission(Emit(s).writes + [c.value], None)
  {
    assert (s + [c])[..|s|] == s;
  }

  /** Once a run has raised, later lines change nothing. */
  lemma {:induction false} EmitStops(p: seq<Result<string>>, q: seq<Result<string>>)
    requires Emit(p).error.Some?
    ensures Emit(p + q) == Emit(p)
    decreases |q|
  {
    if |q| == 0 {
      assert p + q == p;
    } else {
      var n := |q| - 1;
      assert p + q == (p + q[..n]) + [q[n]];
      EmitStops(p, q[..n]);
      EmitSnoc(p + q[..n], q[n]);
    }
  }


  /** A line that does not raise extends a run that has not raised. */
  lemma EmitStep(cells: seq<Result<string>>, k: nat)
    requires k < |cells| && Emit(cells[..k]).error.None? && cells[k].Success?
    ensures Emit(cells[..k + 1]) == Emission(Emit(cells[..k]).writes + [cells[k].value], None)
  {
    assert cells[..k + 1] == cells[..k] + [cells[k]];
    EmitSnoc(cells[..k], cells[k]);
  }

  /** The first line that raises decides the whole run. */
  lemma EmitFailsAt(cells: seq<Result<string>>, k: nat)
    requires k < |cells| && Emit(cells[..k]).error.None? && cells[k].Failure?
    ensures Emit(cells) == Emission(Emit(cells[..k]).writes, Some(cells[k].error))
  {
    var front, x, back := cells[..k], cells[k], cells[k + 1..];
    CutAt(cells, k);
    EmitSnoc(front, x);
    EmitStops(front + [x], back);
  }

  /** After a run that has not raised, the next run continues it. */
  lemma {:induction false} EmitConcat(p: seq<Result<string>>, q: seq<Result<string>>)
    requires Emit(p).error.None?
    ensures Emit(p + q) == Emission(Emit(p).writes + Emit(q).writes, Emit(q).error)
    decreases |q|
  {
    if |q| == 0 {
      assert p + q == p;
    } else {
      var n := |q| - 1;
      assert p + q == (p + q[..n]) + [q[n]];
      EmitConcat(p, q[..n]);
      EmitSnoc(p + q[..n], q[n]);
      assert q == q[..n] + [q[n]];
      EmitSnoc(q[..n], q[n]);
    }
  }

  /** A part of the lines that raises decides the run of all the parts. */
  lemma EmitPartStops(rows: seq<seq<Result<string>>>, a: nat)
    requires a < |rows| && Emit(Flatten(rows[..a + 1])).error.Some?
    ensures Emit(Flatten(rows)) == Emit(Flatten(rows[..a + 1]))
  {
    assert rows == rows[..a + 1] + rows[a + 1..];
    FlattenConcat(rows[..a + 1], rows[a + 1..]);
    EmitStops(Flatten(rows[..a + 1]), Flatten(rows[a + 1..]));
  }

  /** The values of lines none of which raises. */
  function Values(cells: seq<Result<string>>): (ls: seq<string>)
    requires forall i :: 0 <= i < |cells| ==> cells[i].Success?
    ensures |ls| == |cells|
  {
    seq(|cells|, i requires 0 <= i < |cells| => cells[i].value)
  }

  /** When no line raises, the run writes every line in order. */
  lemma {:induction false} EmitAll(cells: seq<Result<string>>, lines: seq<string>)
    requires |cells| == |lines| && forall i :: 0 <= i < |cells| ==> cells[i] == Success(lines[i])
    ensures Emit(cells) == Emission(lines, None)
  {
    if |cells| > 0 {
      var n := |cells| - 1;
      EmitAll(cells[..n], lines[..n]);
      assert lines == lines[..n] + [lines[n]];
    }
  }

  /** A run stopped at its first raising line k has written the k lines before it. */
  lemma EmitFirstFailure(cells: seq<Result<string>>, k: nat)
    requires k < |cells| && cells[k].Failure?
    requires forall i :: 0 <= i < k ==> cells[i].Success?
    ensures Emit(cells) == Emission(Values(cells[..k]), Some(cells[k].error))
  {
    EmitAll(cells[..k], Values(cells[..k]));
    EmitFailsAt(cells, k);
  }

  /** The run of the first a + 1 parts continues the run of the first a with part a. */
  lemma EmitRowStep(rows: seq<seq<Result<string>>>, a: nat)
    requires a < |rows| && Emit(Flatten(rows[..a])).error.None?
    ensures Emit(Flatten(rows[..a + 1]))
         == Emission(Emit(Flatten(rows[..a])).writes + Emit(rows[a]).writes, Emit(rows[a]).error)
  {
    EmitConcat(Flatten(rows[..a]), rows[a]);
    FlattenStep(rows, a);
  }

  /** A section: its header, its lines, and the terminator when no line raised. */
  function Section(header: seq<string>, cells: seq<Result<string>>, terminator: seq<string>): Emission
  {
    var e := Emit(cells);
    Emission(header + e.writes + (if e.error.None? then terminator else []), e.error)
  }

  /** A section whose lines all succeed writes its header, its lines and its terminator. */
  lemma SectionAll(header: seq<string>, cells: seq<Result<string>>, lines: seq<string>, terminator: seq<string>)
    requires |cells| == |lines| && forall i :: 0 <= i < |cells| ==> cells[i] == Success(lines[i])
    ensures Section(header, cells, terminator) == Emission(header + lines + terminator, None)
  {
    EmitAll(cells, lines);
  }

  /** A section whose line k is the first to raise stops there, with that line's exception,
      after its header and the k lines before it. */
  lemma SectionStops(header: seq<string>, cells: seq<Result<string>>, terminator: seq<string>, k: nat)
    requires k < |cells| && cells[k].Failure?
    requires forall i :: 0 <= i < k ==> cells[i].Success?
    ensures var e := Section(header, cells, terminator);
      && e.error == Some(cells[k].error)
      && e.writes == header + Values(cells[..k])
  {
    EmitFirstFailure(cells, k);
  }

  /** Line j of block number a, in a run of count blocks of width lines each that starts at
      line offset. */
  function Slot(offset: nat, a: nat, width: nat, j: nat, count: nat): (k: nat)
    requires a < count && j < width
    ensures offset <= k < offset + count * width
  {
    SlotBound(a, width, j, count);
    offset + a * width + j
  }

  lemma SlotBound(a: nat, width: nat, j: nat, count: nat)
    requires a < count && j < width
    ensures a * width + j < count * width
  {
    var d: nat := count - a - 1;
    assert count * width == a * width + width + d * width by {
      assert count == a + 1 + d;
    }
  }

  /** In parts that all have width lines, line j of part a is line Slot(0, a, width, j) of
      the flattening. */
  lemma FlattenSlot<T>(ss: seq<seq<T>>, width: nat, a: nat, j: nat)
    requires forall b :: 0 <= b < |ss| ==> |ss[b]| == width
    requires a < |ss| && j < width
    ensures |Flatten(ss)| == |ss| * width
    ensures Flatten(ss)[Slot(0, a, width, j, |ss|)] == ss[a][j]
  {
    FlattenUniformLength(ss, width);
    FlattenUniformAt(ss, width, a, j);
  }

  /** A section over rows of n lines each, none of which raises: after the header, line j of
      row a sits at Slot(|header|, a, n, j), and the terminator follows the last row. */
  lemma GridWritten(header: seq<string>, rows: seq<seq<Result<string>>>, n: nat, terminator: seq<string>)
    requires forall a :: 0 <= a < |rows| ==> |rows[a]| == n
    requires forall a, j :: 0 <= a < |rows| && 0 <= j < n ==> rows[a][j].Success?
    ensures var e := Section(header, Flatten(rows), terminator);
      && e.error.None?
      && |e.writes| == |header| + |rows| * n + |terminator|
      && e.writes[..|header|] == header
      && e.writes[|header| + |rows| * n..] == terminator
      && forall a, j :: 0 <= a < |rows| && 0 <= j < n ==> e.writes[Slot(|header|, a, n, j, |rows|)] == rows[a][j].value
  {
    var cells := Flatten(rows);
    FlattenUniformLength(rows, n);
    var P := (c: Result<string>) => c.Success?;
    FlattenEvery(rows, P);
    var lines := Values(cells);
    SectionAll(header, cells, lines, terminator);
    Joined(header, lines, terminator);
    forall a, j | 0 <= a < |rows| && 0 <= j < n
      ensures (header + lines + terminator)[Slot(|header|, a, n, j, |rows|)] == rows[a][j].value
    {
      FlattenSlot(rows, n, a, j);
      JoinedAt(header, lines, terminator, Slot(0, a, n, j, |rows|));
    }
  }

  /** Header, lines and terminator written one after the other. */
  lemma Joined<T>(h: seq<T>, m: seq<T>, t: seq<T>)
    ensures |h + m + t| == |h| + |m| + |t|
    ensures (h + m + t)[..|h|] == h
    ensures (h + m + t)[|h| + |m|..] == t
  {
  }

  lemma JoinedAt<T>(h: seq<T>, m: seq<T>, t: seq<T>, k: nat)
    requires k < |m|
    ensures (h + m + t)[|h| + k] == m[k]
  {
  }

  /** The line of a row of integers: `' '.join(map(str, xs))`. */
  function IntWords(xs: seq<int>): (ws: seq<string>)
    ensures |ws| == |xs|
  {
    seq(|xs|, i requires 0 <= i < |xs| => IntString(xs[i]))
  }

  /** What reading a line back gives: one word per integer, each the integer written. */
  predicate ReadsAs(line: string, xs: seq<int>)
  {
    var ts := Split(line);
    |ts| == |xs| && forall i :: 0 <= i < |xs| ==> ParseInt(ts[i]) == Success(xs[i])
  }

  /** A line of integers reads back, word by word, as the integers written. */
  lemma ReadBack(xs: seq<int>)
    ensures ReadsAs(Join(IntWords(xs)), xs)
  {
    SplitJoin(IntWords(xs));
    forall i | 0 <= i < |xs|
      ensures ParseInt(IntWords(xs)[i]) == Success(xs[i])
    {
      ParseIntString(xs[i]);
    }
  }

  // ----- print_datas_saida --------------------------------------------------------------

  /** `'Caminhão {n}'`, the key of truck n. */
  function TruckKey(n: int): string
  {
    "Caminhão " + IntString(n)
  }

  /** `int(caminhao.split()[1])`. */
  function TruckNumber(key: string): Result<int>
  {
    var ts := Split(key);
    if |ts| < 2 then Failure(IndexOutOfRange) else ParseInt(ts[1])
  }

  /** The number read back from the key of truck n is n. */
  lemma TruckNumberOfKey(n: int)
    ensures TruckNumber(TruckKey(n)) == Success(n)
  {
    var ws := ["Caminhão", IntString(n)];
    assert IsToken("Caminhão");
    assert Join(ws) == TruckKey(n);
    SplitJoin(ws);
    ParseIntString(n);
  }

  /** The line of one truck: its number and its date, or what the number's parse raises. */
  function DateLine(key: string, date: int): Result<string>
  {
    var n := TruckNumber(key);
    if n.Failure? then Failure(n.error) else Success(Join(IntWords([n.value, date])))
  }

  function DateCells(dates: Dict<string, int>): (cells: seq<Result<string>>)
    ensures |cells| == |dates|
  {
    seq(|dates|, i requires 0 <= i < |dates| => DateLine(dates[i].0, dates[i].1))
  }

  const DatesHeader: seq<string> := ["# Parametro data de saida dos caminhoes", "param d :="]

  /** What `print_datas_saida` writes. */
  function DatesSection(dates: Dict<string, int>): Emission
  {
    Section(DatesHeader, DateCells(dates), [";\n"])
  }

  /** The keys the pipeline gives the dates of trucks 1..n. */
  function KeyedDates(dates: seq<int>): (d: Dict<string, int>)
    ensures |d| == |dates|
  {
    seq(|dates|, t requires 0 <= t < |dates| => (TruckKey(t + 1), dates[t]))
  }

  /** The line of truck t under the pipeline's key reads back as t and its date. */
  lemma DateLineOfTruck(t: int, date: int)
    ensures DateLine(TruckKey(t), date) == Success(Join(IntWords([t, date])))
    ensures ReadsAs(Join(IntWords([t, date])), [t, date])
  {
    TruckNumberOfKey(t);
    ReadBack([t, date]);
  }

  /** The lines of trucks 1..n: each truck's number and its date. */
  function DateRows(dates: seq<int>): (ls: seq<string>)
    ensures |ls| == |dates|
  {
    seq(|dates|, t requires 0 <= t < |dates| => Join(IntWords([t + 1, dates[t]])))
  }

  /** With the pipeline's keys every date is written, one line per truck in order between
      the header and `;`, and nothing raises. */
  lemma DatesWritten(dates: seq<int>)
    ensures DatesSection(KeyedDates(dates)) == Emission(DatesHeader + DateRows(dates) + [";\n"], None)
  {
    var cells := DateCells(KeyedDates(dates));
    var rows := DateRows(dates);
    forall t | 0 <= t < |cells|
      ensures cells[t] == Success(rows[t])
    {
      DateLineOfTruck(t + 1, dates[t]);
    }
    EmitAll(cells, rows);
  }

  /** Line t + 2 of the section reads back as truck t + 1 and its date. */
  lemma DatesRead(dates: seq<int>)
    ensures var w := DatesSection(KeyedDates(dates)).writes;
      && |w| == |dates| + 3
      && forall t :: 0 <= t < |dates| ==> ReadsAs(w[t + 2], [t + 1, dates[t]])
  {
    DatesWritten(dates);
    var w := DatesSection(KeyedDates(dates)).writes;
    forall t | 0 <= t < |dates|
      ensures ReadsAs(w[t + 2], [t + 1, dates[t]])
    {
      var xs := [t + 1, dates[t]];
      assert DateRows(dates)[t] == Join(IntWords(xs));
      assert w[t + 2] == DateRows(dates)[t];
      ReadBack(xs);
    }
  }

  /** A key without a second word, or whose second word is not an integer, stops the section
      at that truck with what its parse raised, after the header and the lines of the trucks
      before it, and without the terminator. */
  lemma DatesStopAtBadKey(dates: Dict<string, int>, k: nat)
    requires k < |dates| && TruckNumber(dates[k].0).Failure?
    requires forall i :: 0 <= i < k ==> TruckNumber(dates[i].0).Success?
    ensures var e := DatesSection(dates);
      && e.error == Some(TruckNumber(dates[k].0).error)
      && |e.writes| == k + 2 && e.writes[..2] == DatesHeader
  {
    var cells := DateCells(dates);
    forall i | 0 <= i < k
      ensures cells[i].Success?
    {
      assert cells[i] == DateLine(dates[i].0, dates[i].1);
    }
    SectionStops(DatesHeader, cells, [";\n"], k);
  }

  // ----- print_tempo_processamento ------------------------------------------------------

  /** The entries of the eligibility map in increasing order of operation:
      `sorted(elegibilidade.keys())` with each key's entry. */
  function ByOperation(elig: Dict<int, Eligible>): seq<(int, Eligible)>
  {
    SortBy(elig, OperationOf)
  }

  /** The sort key: the operation of an entry. */
  function OperationOf(e: (int, Eligible)): int
  {
    e.0
  }

  /** Sorting keeps the entries: each entry of the sorted run is an entry of the map. */
  lemma ByOperationEntries(elig: Dict<int, Eligible>)
    requires DistinctKeys(elig)
    ensures var es := ByOperation(elig);
      && |es| == |elig|
      && forall a :: 0 <= a < |es| ==> Lookup(elig, es[a].0) == Some(es[a].1)
  {
    var es := ByOperation(elig);
    assert |es| == |multiset(es)| == |multiset(elig)| == |elig|;
    forall a | 0 <= a < |es|
      ensures Lookup(elig, es[a].0) == Some(es[a].1)
    {
      assert es[a] in multiset(elig);
      var i :| 0 <= i < |elig| && elig[i] == es[a];
      LookupAt(elig, i);
    }
  }

  /** Over distinct keys the sorted run has strictly increasing operations. */
  lemma ByOperationIncreasing(elig: Dict<int, Eligible>)
    requires DistinctKeys(elig)
    ensures StrictlyIncreasing(Keys(ByOperation(elig)))
  {
    var es := ByOperation(elig);
    assert Distinct(elig);
    SortByDistinct(elig, OperationOf);
    ByOperationEntries(elig);
    forall a, b | 0 <= a < b < |es|
      ensures Keys(es)[a] < Keys(es)[b]
    {
      assert OperationOf(es[a]) <= OperationOf(es[b]);
      assert es[a] != es[b];
      assert Lookup(elig, es[a].0) == Some(es[a].1) && Lookup(elig, es[b].0) == Some(es[b].1);
    }
  }

  /** Every operation of the map comes in the sorted run, and no other. */
  lemma ByOperationKeys(elig: Dict<int, Eligible>)
    ensures forall op :: op in Keys(ByOperation(elig)) <==> HasKey(elig, op)
  {
    var es := ByOperation(elig);
    forall op
      ensures op in Keys(es) <==> HasKey(elig, op)
    {
      if HasKey(elig, op) {
        var i := IndexOf(elig, op);
        assert elig[i] in multiset(es);
        var a :| 0 <= a < |es| && es[a] == elig[i];
        assert Keys(es)[a] == op;
      }
      if op in Keys(es) {
        var a :| 0 <= a < |es| && Keys(es)[a] == op;
        assert es[a] in multiset(elig);
        var i :| 0 <= i < |elig| && elig[i] == es[a];
        assert elig[i].0 == op;
      }
    }
  }

  /** Over a map with distinct keys the entries come in strictly increasing order of
      operation, each operation once, with its own entry. */
  lemma ByOperationShape(elig: Dict<int, Eligible>)
    requires DistinctKeys(elig)
    ensures var es := ByOperation(elig);
      && |es| == |elig|
      && StrictlyIncreasing(Keys(es))
      && (forall op :: op in Keys(es) <==> HasKey(elig, op))
      && forall a :: 0 <= a < |es| ==> Lookup(elig, es[a].0) == Some(es[a].1)
  {
    ByOperationEntries(elig);
    ByOperationIncreasing(elig);
    ByOperationKeys(elig);
  }

  /** The timing of an operation on machine m, when the tables have the machine and the
      machine's table has the operation. */
  function TimingOfMachine(tables: seq<Dict<int, Timing>>, m: int, op: int): Option<Timing>
  {
    if 1 <= m <= |tables| then Lookup(tables[m - 1], op) else None
  }

  /** The line of operation op on machine m: its rounded time when m is eligible, `.` when it
      is not; an eligible machine whose table lacks the operation raises. */
  function ProcessingCell(op: int, e: Eligible, tables: seq<Dict<int, Timing>>, m: int): Result<string>
  {
    if m in e.machines then
      var t := TimingOfMachine(tables, m, op);
      if t.None? then Failure(MissingKey) else Success(Join([IntString(op), IntString(m), IntString(t.value.time)]))
    else Success(Join([IntString(op), IntString(m), "."]))
  }

  /** A line reads back as operation, machine and a third word that is `.` exactly when the
      machine is not eligible, and is otherwise the machine's time. */
  lemma ProcessingCellShape(op: int, e: Eligible, tables: seq<Dict<int, Timing>>, m: int)
    requires ProcessingCell(op, e, tables, m).Success?
    ensures var ts := Split(ProcessingCell(op, e, tables, m).value);
      && |ts| == 3 && ParseInt(ts[0]) == Success(op) && ParseInt(ts[1]) == Success(m)
      && (ts[2] == "." <==> m !in e.machines)
      && (m in e.machines ==> ParseInt(ts[2]) == Success(TimingOfMachine(tables, m, op).value.time))
  {
    var third := if m in e.machines then IntString(TimingOfMachine(tables, m, op).value.time) else ".";
    var ws := [IntString(op), IntString(m), third];
    assert IsToken(".");
    SplitJoin(ws);
    ParseIntString(op);
    ParseIntString(m);
    if m in e.machines {
      var time := TimingOfMachine(tables, m, op).value.time;
      ParseIntString(time);
      assert ParseInt(".") == Failure(NotAnInteger);
    }
  }

  function ProcessingRow(entry: (int, Eligible), tables: seq<Dict<int, Timing>>, n: nat): (row: seq<Result<string>>)
    ensures |row| == n
  {
    seq(n, j requires 0 <= j < n => ProcessingCell(entry.0, entry.1, tables, j + 1))
  }

  function ProcessingRows(elig: Dict<int, Eligible>, tables: seq<Dict<int, Timing>>, n: nat): (rows: seq<seq<Result<string>>>)
    ensures |rows| == |ByOperation(elig)|
  {
    var es := ByOperation(elig);
    seq(|es|, a requires 0 <= a < |es| => ProcessingRow(es[a], tables, n))
  }

  const ProcessingHeader: seq<string> := ["# Parametro do tempo de processamento de cada operacao", "param p :="]

  /** What `print_tempo_processamento` writes. */
  function ProcessingSection(elig: Dict<int, Eligible>, tables: seq<Dict<int, Timing>>, n: nat): Emission
  {
    Section(ProcessingHeader, Flatten(ProcessingRows(elig, tables, n)), [";\n"])
  }

  /** Every cell of the section, at its slot in the flattened rows. */
  lemma ProcessingSlots(elig: Dict<int, Eligible>, tables: seq<Dict<int, Timing>>, n: nat)
    ensures var es := ByOperation(elig);
      var cells := Flatten(ProcessingRows(elig, tables, n));
      && |cells| == |es| * n
      && forall a, j :: 0 <= a < |es| && 0 <= j < n ==>
           cells[Slot(0, a, n, j, |es|)] == ProcessingCell(es[a].0, es[a].1, tables, j + 1)
  {
    var es := ByOperation(elig);
    var rows := ProcessingRows(elig, tables, n);
    FlattenUniformLength(rows, n);
    forall a, j | 0 <= a < |es| && 0 <= j < n
      ensures Flatten(rows)[Slot(0, a, n, j, |es|)] == ProcessingCell(es[a].0, es[a].1, tables, j + 1)
    {
      FlattenSlot(rows, n, a, j);
    }
  }

  /** Every eligible machine of every operation has a time for the operation. */
  predicate AllTimed(es: seq<(int, Eligible)>, tables: seq<Dict<int, Timing>>, n: nat)
  {
    forall a, m :: 0 <= a < |es| && 1 <= m <= n && m in es[a].1.machines ==> TimingOfMachine(tables, m, es[a].0).Some?
  }

  lemma RowCell(entry: (int, Eligible), tables: seq<Dict<int, Timing>>, n: nat, m: int)
    requires 1 <= m <= n
    ensures ProcessingRow(entry, tables, n)[m - 1] == ProcessingCell(entry.0, entry.1, tables, m)
  {
  }

  /** No line raises exactly when every eligible machine has a time. */
  lemma ProcessingCellsSucceed(elig: Dict<int, Eligible>, tables: seq<Dict<int, Timing>>, n: nat)
    ensures var cells := Flatten(ProcessingRows(elig, tables, n));
      AllTimed(ByOperation(elig), tables, n) <==> forall k :: 0 <= k < |cells| ==> cells[k].Success?
  {
    var es := ByOperation(elig);
    var rows := ProcessingRows(elig, tables, n);
    var cells := Flatten(rows);
    if AllTimed(es, tables, n) {
      TimedRowsSucceed(es, tables, n, rows);
    } else {
      var a, m :| 0 <= a < |es| && 1 <= m <= n && m in es[a].1.machines && TimingOfMachine(tables, m, es[a].0).None?;
      FlattenSlot(rows, n, a, m - 1);
      MissingCell(es[a], tables, n, rows[a], m);
    }
  }

  lemma TimedRowsSucceed(es: seq<(int, Eligible)>, tables: seq<Dict<int, Timing>>, n: nat, rows: seq<seq<Result<string>>>)
    requires AllTimed(es, tables, n)
    requires |rows| == |es| && forall a :: 0 <= a < |es| ==> rows[a] == ProcessingRow(es[a], tables, n)
    ensures forall k :: 0 <= k < |Flatten(rows)| ==> Flatten(rows)[k].Success?
  {
    var P := (c: Result<string>) => c.Success?;
    forall a, j | 0 <= a < |rows| && 0 <= j < |rows[a]|
      ensures P(rows[a][j])
    {
      assert rows[a][j] == ProcessingCell(es[a].0, es[a].1, tables, j + 1);
    }
    FlattenEvery(rows, P);
  }

  lemma MissingCell(entry: (int, Eligible), tables: seq<Dict<int, Timing>>, n: nat, row: seq<Result<string>>, m: int)
    requires row == ProcessingRow(entry, tables, n)
    requires 1 <= m <= n && m in entry.1.machines && TimingOfMachine(tables, m, entry.0).None?
    ensures row[m - 1].Failure?
  {
    assert row[m - 1] == ProcessingCell(entry.0, entry.1, tables, m);
  }

  /** Only a missing time raises. */
  lemma ProcessingCellsRaise(elig: Dict<int, Eligible>, tables: seq<Dict<int, Timing>>, n: nat)
    ensures var cells := Flatten(ProcessingRows(elig, tables, n));
      forall k :: 0 <= k < |cells| && cells[k].Failure? ==> cells[k].error == MissingKey
  {
    var rows := ProcessingRows(elig, tables, n);
    var F := (c: Result<string>) => c.Failure? ==> c.error == MissingKey;
    FlattenEvery(rows, F);
  }

  /** The section raises exactly when some eligible machine has no time for the operation,
      and then with the `KeyError` of the missing key. */
  lemma ProcessingRaises(elig: Dict<int, Eligible>, tables: seq<Dict<int, Timing>>, n: nat)
    ensures var e := ProcessingSection(elig, tables, n);
      && (e.error.None? <==> AllTimed(ByOperation(elig), tables, n))
      && (e.error.Some? ==> e.error == Some(MissingKey))
  {
    var cells := Flatten(ProcessingRows(elig, tables, n));
    ProcessingCellsSucceed(elig, tables, n);
    ProcessingCellsRaise(elig, tables, n);
    EmitShape(cells);
  }

  /** When every eligible machine has a time, the section holds one line per operation, in
      increasing order, and machine, the one for operation number a and machine j + 1 at
      Slot(2, a, n, j), then `;`. */
  lemma ProcessingWritten(elig: Dict<int, Eligible>, tables: seq<Dict<int, Timing>>, n: nat)
    requires AllTimed(ByOperation(elig), tables, n)
    ensures ProcessingSection(elig, tables, n).error.None?
    ensures var es := ByOperation(elig);
      var w := ProcessingSection(elig, tables, n).writes;
      |w| == |es| * n + 3 && w[..2] == ProcessingHeader && w[|es| * n + 2] == ";\n"
    ensures var es := ByOperation(elig);
      forall a, m :: 0 <= a < |es| && 1 <= m <= n ==> ProcessingCell(es[a].0, es[a].1, tables, m).Success?
    ensures var es := ByOperation(elig);
      var w := ProcessingSection(elig, tables, n).writes;
      forall a, j :: 0 <= a < |es| && 0 <= j < n ==>
        w[Slot(2, a, n, j, |es|)] == ProcessingCell(es[a].0, es[a].1, tables, j + 1).value
  {
    var es := ByOperation(elig);
    var rows := ProcessingRows(elig, tables, n);
    forall a, j | 0 <= a < |rows| && 0 <= j < n
      ensures rows[a][j] == ProcessingCell(es[a].0, es[a].1, tables, j + 1)
      ensures rows[a][j].Success?
    {
    }
    GridWritten(ProcessingHeader, rows, n, [";\n"]);
    var w := ProcessingSection(elig, tables, n).writes;
    assert |ProcessingHeader| == 2;
    assert w[|es| * n + 2] == w[|es| * n + 2..][0];
    forall a, j | 0 <= a < |es| && 0 <= j < n
      ensures w[Slot(2, a, n, j, |es|)] == ProcessingCell(es[a].0, es[a].1, tables, j + 1).value
    {
      assert w[Slot(|ProcessingHeader|, a, n, j, |rows|)] == rows[a][j].value;
    }
  }

  // ----- print_elegibilidade ------------------------------------------------------------

  /** `"{op} {c} {m} 1"` when c is the operation's truck and m one of its machines, and
      `"{op} {c} {m} 0"` otherwise. */
  function EligibilityLine(op: int, e: Eligible, c: int, m: int): string
  {
    Join([IntString(op), IntString(c), IntString(m), if e.truck == Some(c) && m in e.machines then "1" else "0"])
  }

  /** The line reads back as operation, truck, machine and the 0/1 flag that says whether
      the truck is the operation's and the machine one of its machines. */
  lemma EligibilityLineReads(op: int, e: Eligible, c: int, m: int)
    ensures ReadsAs(EligibilityLine(op, e, c, m), [op, c, m, if e.truck == Some(c) && m in e.machines then 1 else 0])
  {
    var flag := if e.truck == Some(c) && m in e.machines then 1 else 0;
    assert IntWords([op, c, m, flag]) == [IntString(op), IntString(c), IntString(m), if flag == 1 then "1" else "0"];
    ReadBack([op, c, m, flag]);
  }

  /** The lines of truck c of one operation, machine by machine. */
  function EligibilityRow(entry: (int, Eligible), c: int, machines: nat): (ls: seq<string>)
    ensures |ls| == machines
  {
    seq(machines, m requires 0 <= m < machines => EligibilityLine(entry.0, entry.1, c, m + 1))
  }

  /** The lines of one operation, truck by truck. */
  function EligibilityLines(entry: (int, Eligible), trucks: nat, machines: nat): (ls: seq<seq<string>>)
    ensures |ls| == trucks
  {
    seq(trucks, c requires 0 <= c < trucks => EligibilityRow(entry, c + 1, machines))
  }

  function Separator(last: bool): string
  {
    if last then ";\n" else ""
  }

  /** One operation's block: its lines, then `;` after the last operation and a blank line
      after the others. */
  function EligibilityBlock(entry: (int, Eligible), last: bool, trucks: nat, machines: nat): seq<string>
  {
    Flatten(EligibilityLines(entry, trucks, machines)) + [Separator(last)]
  }

  function EligibilityBlocks(elig: Dict<int, Eligible>, trucks: nat, machines: nat): (bs: seq<seq<string>>)
    ensures |bs| == |ByOperation(elig)|
  {
    BlocksOf(ByOperation(elig), trucks, machines)
  }

  /** The blocks of a run of entries, the last one closed by `;`. */
  function BlocksOf(es: seq<(int, Eligible)>, trucks: nat, machines: nat): (bs: seq<seq<string>>)
    ensures |bs| == |es|
  {
    seq(|es|, a requires 0 <= a < |es| => EligibilityBlock(es[a], a == |es| - 1, trucks, machines))
  }

  const EligibilityHeader: seq<string> := ["# Parametro de elegibilidade das operacoes para cada maquina", "param Ri :="]

  /** What `print_elegibilidade` writes. */
  function EligibilitySection(elig: Dict<int, Eligible>, trucks: nat, machines: nat): seq<string>
  {
    EligibilityHeader + Flatten(EligibilityBlocks(elig, trucks, machines))
  }

  /** The lines of one operation's block, before its separator. */
  function LineCount(trucks: nat, machines: nat): nat
  {
    trucks * machines
  }

  /** The lines of one operation's block, with its separator. */
  function BlockWidth(trucks: nat, machines: nat): nat
  {
    LineCount(trucks, machines) + 1
  }

  /** A block holds trucks * machines lines, the one of truck c + 1 and machine m + 1 at
      Slot(0, c, machines, m), and then its separator. */
  lemma EligibilityBlockShape(entry: (int, Eligible), last: bool, trucks: nat, machines: nat)
    ensures var b := EligibilityBlock(entry, last, trucks, machines);
      && |b| == BlockWidth(trucks, machines)
      && b[LineCount(trucks, machines)] == Separator(last)
      && forall c, m :: 0 <= c < trucks && 0 <= m < machines ==>
           b[Slot(0, c, machines, m, trucks)] == EligibilityLine(entry.0, entry.1, c + 1, m + 1)
  {
    var ls := EligibilityLines(entry, trucks, machines);
    FlattenUniformLength(ls, machines);
    forall c, m | 0 <= c < trucks && 0 <= m < machines
      ensures Flatten(ls)[Slot(0, c, machines, m, trucks)] == EligibilityLine(entry.0, entry.1, c + 1, m + 1)
    {
      FlattenSlot(ls, machines, c, m);
    }
  }

  /** Every block has the same number of lines. */
  lemma EligibilityBlocksUniform(elig: Dict<int, Eligible>, trucks: nat, machines: nat)
    ensures var bs := EligibilityBlocks(elig, trucks, machines);
      && (forall a :: 0 <= a < |bs| ==> |bs[a]| == BlockWidth(trucks, machines))
      && |Flatten(bs)| == |bs| * BlockWidth(trucks, machines)
  {
    var es := ByOperation(elig);
    var bs := EligibilityBlocks(elig, trucks, machines);
    forall a | 0 <= a < |bs|
      ensures |bs[a]| == BlockWidth(trucks, machines)
    {
      EligibilityBlockShape(es[a], a == |es| - 1, trucks, machines);
    }
    FlattenUniformLength(bs, BlockWidth(trucks, machines));
  }

  /** The section holds its header and then one block per operation, in increasing order of
      operation; without operations only the header is written, and no terminator. */
  lemma EligibilitySectionLength(elig: Dict<int, Eligible>, trucks: nat, machines: nat)
    ensures var w := EligibilitySection(elig, trucks, machines);
      && |w| == 2 + |ByOperation(elig)| * BlockWidth(trucks, machines)
      && w[..2] == EligibilityHeader
  {
    EligibilityBlocksUniform(elig, trucks, machines);
  }

  /** Line Slot(0, c, machines, m) of the block of operation number a, at
      Slot(2, a, BlockWidth(trucks, machines), ...) in the section, says whether truck c + 1
      and machine m + 1 are the operation's. */
  lemma EligibilitySectionLines(elig: Dict<int, Eligible>, trucks: nat, machines: nat)
    ensures var es := ByOperation(elig);
      var w := EligibilitySection(elig, trucks, machines);
      |w| == 2 + |es| * BlockWidth(trucks, machines) &&
      forall a, c, m :: 0 <= a < |es| && 0 <= c < trucks && 0 <= m < machines ==>
        w[Slot(2, a, BlockWidth(trucks, machines), Slot(0, c, machines, m, trucks), |es|)]
          == EligibilityLine(es[a].0, es[a].1, c + 1, m + 1)
  {
    var es := ByOperation(elig);
    var bs := EligibilityBlocks(elig, trucks, machines);
    var W := BlockWidth(trucks, machines);
    var w := EligibilitySection(elig, trucks, machines);
    EligibilityBlocksUniform(elig, trucks, machines);
    forall a, c, m | 0 <= a < |es| && 0 <= c < trucks && 0 <= m < machines
      ensures w[Slot(2, a, W, Slot(0, c, machines, m, trucks), |es|)] == EligibilityLine(es[a].0, es[a].1, c + 1, m + 1)
    {
      var k := Slot(0, c, machines, m, trucks);
      FlattenSlot(bs, W, a, k);
      EligibilityBlockShape(es[a], a == |es| - 1, trucks, machines);
      assert w[Slot(2, a, W, k, |es|)] == Flatten(bs)[Slot(0, a, W, k, |es|)];
    }
  }

  /** The last line of the block of operation number a is `;` for the last operation and
      blank for the others. */
  lemma EligibilitySeparators(elig: Dict<int, Eligible>, trucks: nat, machines: nat)
    ensures var es := ByOperation(elig);
      var w := EligibilitySection(elig, trucks, machines);
      |w| == 2 + |es| * BlockWidth(trucks, machines) &&
      forall a :: 0 <= a < |es| ==>
        w[Slot(2, a, BlockWidth(trucks, machines), LineCount(trucks, machines), |es|)] == Separator(a == |es| - 1)
  {
    var es := ByOperation(elig);
    var bs := EligibilityBlocks(elig, trucks, machines);
    var W := BlockWidth(trucks, machines);
    var w := EligibilitySection(elig, trucks, machines);
    EligibilityBlocksUniform(elig, trucks, machines);
    forall a | 0 <= a < |es|
      ensures w[Slot(2, a, W, LineCount(trucks, machines), |es|)] == Separator(a == |es| - 1)
    {
      var k := LineCount(trucks, machines);
      FlattenSlot(bs, W, a, k);
      EligibilityBlockShape(es[a], a == |es| - 1, trucks, machines);
      assert w[Slot(2, a, W, k, |es|)] == Flatten(bs)[Slot(0, a, W, k, |es|)];
    }
  }

  // ----- print_predecessores, print_n_operations and the counts ---------------------------

  const PredecessorsHeader: seq<string> := ["# Parametro dos predecessores de cada operacao", "param pr :="]

  function PredecessorLines(preds: Dict<int, int>): (ls: seq<string>)
    ensures |ls| == |preds|
  {
    seq(|preds|, i requires 0 <= i < |preds| => Join(IntWords([preds[i].0, preds[i].1])))
  }

  /** What `print_predecessores` writes: a line `op pred` per entry, in map order. */
  function PredecessorsSection(preds: Dict<int, int>): seq<string>
  {
    PredecessorsHeader + PredecessorLines(preds) + [";\n"]
  }

  /** Every entry of the map gets one line, which reads back as the operation and its
      predecessor. */
  lemma PredecessorsRead(preds: Dict<int, int>)
    ensures var w := PredecessorsSection(preds);
      && |w| == |preds| + 3 && w[|preds| + 2] == ";\n"
      && forall i :: 0 <= i < |preds| ==> ReadsAs(w[i + 2], [preds[i].0, preds[i].1])
  {
    var w := PredecessorsSection(preds);
    var ls := PredecessorLines(preds);
    assert |w| == |preds| + 3;
    forall i | 0 <= i < |preds|
      ensures ReadsAs(w[i + 2], [preds[i].0, preds[i].1])
    {
      var xs := [preds[i].0, preds[i].1];
      assert ls[i] == Join(IntWords(xs));
      assert w[i + 2] == ls[i];
      ReadBack(xs);
    }
  }

  function OperationLines(tasks: int, perTask: int): (ls: seq<string>)
    ensures |ls| == if tasks > 0 then tasks else 0
  {
    var n := if tasks > 0 then tasks else 0;
    seq(n, t requires 0 <= t < n => Join(IntWords([t + 1, perTask])))
  }

  /** What `print_n_operations` writes: a line `t k` for each task t from 1 to the total. */
  function OperationsSection(tasks: int, perTask: int): seq<string>
  {
    ["param n_operations :="] + OperationLines(tasks, perTask) + [";\n"]
  }

  /** Exactly max(tasks, 0) data lines, the one of task t reading back as t and the
      operations per task. */
  lemma OperationsRead(tasks: int, perTask: int)
    ensures var w := OperationsSection(tasks, perTask);
      var n := if tasks > 0 then tasks else 0;
      && |w| == n + 2 && w[0] == "param n_operations :=" && w[n + 1] == ";\n"
      && forall t :: 1 <= t <= n ==> ReadsAs(w[t], [t, perTask])
  {
    var n := if tasks > 0 then tasks else 0;
    var w := OperationsSection(tasks, perTask);
    var ls := OperationLines(tasks, perTask);
    assert |w| == n + 2;
    forall t | 1 <= t <= n
      ensures ReadsAs(w[t], [t, perTask])
    {
      var xs := [t, perTask];
      assert ls[t - 1] == Join(IntWords(xs));
      assert w[t] == ls[t - 1];
      ReadBack(xs);
    }
  }

  // ----- print_tempo_setup and print_tempo_bloqueio -------------------------------------

  /** The table of machine m, when the map has an entry `Empilhadeira m`. */
  function PairTableOf(tables: seq<PairTable>, m: int): Option<PairTable>
  {
    if 1 <= m <= |tables| then Some(tables[m - 1]) else None
  }

  /** `get("i,j", get("j,i", 0))`, and 0 for a machine without a table. */
  function PairValue(t: Option<PairTable>, i: int, j: int): int
  {
    if t.None? then 0
    else
      var first := Lookup(t.value, (i, j));
      var second := Lookup(t.value, (j, i));
      if first.Some? then first.value else if second.Some? then second.value else 0
  }

  /** `.` on the diagonal, the looked-up value elsewhere. */
  function PairCell(t: Option<PairTable>, i: int, j: int): string
  {
    if i == j then "." else IntString(PairValue(t, i, j))
  }

  /** The triples `i j value` of row i, for j from 1 to n. */
  function RowTriples(t: Option<PairTable>, i: int, n: nat): (ts: seq<seq<string>>)
    ensures |ts| == n
  {
    seq(n, j requires 0 <= j < n => [IntString(i), IntString(j + 1), PairCell(t, i, j + 1)])
  }

  function RowWords(t: Option<PairTable>, i: int, n: nat): seq<string>
  {
    Flatten(RowTriples(t, i, n))
  }

  /** A table that holds only pairs i < j prints a symmetric matrix: both orders of a pair
      show the value stored under its increasing order, or 0. */
  lemma PairValueSymmetric(t: PairTable, i: int, j: int)
    requires forall p :: HasKey(t, p) ==> p.0 < p.1
    ensures PairValue(Some(t), i, j) == PairValue(Some(t), j, i)
    ensures i < j ==> PairValue(Some(t), i, j) == (if HasKey(t, (i, j)) then Lookup(t, (i, j)).value else 0)
  {
  }

  /** Setup and blocking tables hold only increasing pairs, so their matrices are symmetric
      and show each pair's own time. */
  lemma PairMatricesSymmetric(points: AreaPoints, deterministic: bool, tMin: real, tMax: real,
                              factors: PairFactors, m: int, i: int, j: int)
    ensures PairValue(Some(SetupTable(points, deterministic, tMin, tMax, factors, m)), i, j)
         == PairValue(Some(SetupTable(points, deterministic, tMin, tMax, factors, m)), j, i)
    ensures PairValue(Some(BlockingTable(points, deterministic, tMin, tMax, factors, m)), i, j)
         == PairValue(Some(BlockingTable(points, deterministic, tMin, tMax, factors, m)), j, i)
  {
    SetupKeys(points, deterministic, tMin, tMax, factors, m);
    BlockingKeys(points, deterministic, tMin, tMax, factors, m);
    PairValueSymmetric(SetupTable(points, deterministic, tMin, tMax, factors, m), i, j);
    PairValueSymmetric(BlockingTable(points, deterministic, tMin, tMax, factors, m), i, j);
  }

  /** Word k of triple j of a row. */
  lemma RowWordAt(t: Option<PairTable>, i: int, n: nat, j: nat, k: nat)
    requires j < n && k < 3
    ensures |RowWords(t, i, n)| == n * 3
    ensures RowWords(t, i, n)[Slot(0, j, 3, k, n)] == [IntString(i), IntString(j + 1), PairCell(t, i, j + 1)][k]
  {
    FlattenSlot(RowTriples(t, i, n), 3, j, k);
  }

  /** Every word of a row is a word `split` gives back. */
  lemma RowWordsTokens(t: Option<PairTable>, i: int, n: nat)
    ensures forall k :: 0 <= k < |RowWords(t, i, n)| ==> IsToken(RowWords(t, i, n)[k])
  {
    var P := (w: string) => IsToken(w);
    forall j, k | 0 <= j < n && 0 <= k < 3
      ensures P(RowTriples(t, i, n)[j][k])
    {
      assert IsToken(".");
    }
    FlattenEvery(RowTriples(t, i, n), P);
  }

  /** The words of a pair cell: `.` exactly on the diagonal, the value read back elsewhere;
      a machine without a table shows 0. */
  lemma PairCellReads(t: Option<PairTable>, i: int, j: int)
    ensures PairCell(t, i, j) == "." <==> i == j
    ensures i != j ==> ParseInt(PairCell(t, i, j)) == Success(PairValue(t, i, j))
    ensures t.None? && i != j ==> PairCell(t, i, j) == "0"
  {
    if i != j {
      ParseIntString(PairValue(t, i, j));
      assert ParseInt(".") == Failure(NotAnInteger);
    }
  }

  /** A row line holds 3n words that read back as the triples: i, then j + 1, then `.`
      exactly on the diagonal and the pair's value elsewhere. */
  lemma RowWordsShape(t: Option<PairTable>, i: int, n: nat)
    ensures var ws := RowWords(t, i, n);
      && Split(Join(ws)) == ws
      && |ws| == n * 3
      && forall j :: 0 <= j < n ==>
           && ParseInt(ws[Slot(0, j, 3, 0, n)]) == Success(i)
           && ParseInt(ws[Slot(0, j, 3, 1, n)]) == Success(j + 1)
           && ws[Slot(0, j, 3, 2, n)] == PairCell(t, i, j + 1)
  {
    var ws := RowWords(t, i, n);
    FlattenUniformLength(RowTriples(t, i, n), 3);
    RowWordsTokens(t, i, n);
    SplitJoin(ws);
    forall j | 0 <= j < n
      ensures ParseInt(ws[Slot(0, j, 3, 0, n)]) == Success(i)
      ensures ParseInt(ws[Slot(0, j, 3, 1, n)]) == Success(j + 1)
      ensures ws[Slot(0, j, 3, 2, n)] == PairCell(t, i, j + 1)
    {
      RowWordAt(t, i, n, j, 0);
      RowWordAt(t, i, n, j, 1);
      RowWordAt(t, i, n, j, 2);
      ParseIntString(i);
      ParseIntString(j + 1);
    }
  }

  /** `[*,*,m]` for a machine the map lacks, preceded by a blank line for one it has. */
  function BlockHeader(present: bool, m: int): string
  {
    if present then "\n[*,*," + IntString(m) + "]" else "[*,*," + IntString(m) + "]"
  }

  /** The row lines of a machine's matrix, row i + 1 at position i. */
  function RowLines(t: Option<PairTable>, n: nat): (ls: seq<string>)
    ensures |ls| == n
  {
    seq(n, i requires 0 <= i < n => Join(RowWords(t, i + 1, n)))
  }

  /** One machine's block: its header, then one row line per operation. */
  function MachineBlock(tables: seq<PairTable>, m: int, n: nat): (b: seq<string>)
    ensures |b| == n + 1
  {
    var t := PairTableOf(tables, m);
    [BlockHeader(t.Some?, m)] + RowLines(t, n)
  }

  function MachineBlocks(tables: seq<PairTable>, n: nat, machines: nat): (bs: seq<seq<string>>)
    ensures |bs| == machines
  {
    seq(machines, m requires 0 <= m < machines => MachineBlock(tables, m + 1, n))
  }

  /** What `print_tempo_setup` (parameter `s`) and `print_tempo_bloqueio` (parameter `bk`)
      write. */
  function PairSection(comment: string, param: string, tables: seq<PairTable>, n: nat, machines: nat): seq<string>
  {
    [comment, "param " + param + " :="] + Flatten(MachineBlocks(tables, n, machines)) + [";\n"]
  }

  const SetupComment := "# Parametro tempo de setup entre operacoes"
  const BlockingComment := "# Parametro tempo de bloqueio entre operacoes"

  /** The lines of one machine's block: its header and its n rows. */
  function RowsWidth(n: nat): nat
  {
    n + 1
  }

  /** One block of n + 1 lines per machine between the comment and parameter lines and
      `;`. */
  lemma PairSectionLength(comment: string, param: string, tables: seq<PairTable>, n: nat, machines: nat)
    ensures var w := PairSection(comment, param, tables, n, machines);
      && |w| == 3 + machines * RowsWidth(n)
      && w[..2] == [comment, "param " + param + " :="]
      && w[|w| - 1] == ";\n"
  {
    FlattenUniformLength(MachineBlocks(tables, n, machines), RowsWidth(n));
  }

  /** Line i of the block of machine m + 1 sits at Slot(2, m, RowsWidth(n), i). */
  lemma PairSectionBlocks(comment: string, param: string, tables: seq<PairTable>, n: nat, machines: nat)
    ensures var w := PairSection(comment, param, tables, n, machines);
      && |w| == 3 + machines * RowsWidth(n)
      && forall m, i :: 0 <= m < machines && 0 <= i < RowsWidth(n) ==>
           w[Slot(2, m, RowsWidth(n), i, machines)] == MachineBlock(tables, m + 1, n)[i]
  {
    var bs := MachineBlocks(tables, n, machines);
    var W := RowsWidth(n);
    var h := [comment, "param " + param + " :="];
    FlattenUniformLength(bs, W);
    Joined(h, Flatten(bs), [";\n"]);
    forall m, i | 0 <= m < machines && 0 <= i < W
      ensures (h + Flatten(bs) + [";\n"])[Slot(2, m, W, i, machines)] == MachineBlock(tables, m + 1, n)[i]
    {
      FlattenSlot(bs, W, m, i);
      JoinedAt(h, Flatten(bs), [";\n"], Slot(0, m, W, i, machines));
    }
  }

  /** The block of machine m + 1 starts at Slot(2, m, RowsWidth(n), 0) with its header, which
      has a blank line before it exactly when the map has the machine. */
  lemma PairSectionHeaders(comment: string, param: string, tables: seq<PairTable>, n: nat, machines: nat)
    ensures var w := PairSection(comment, param, tables, n, machines);
      && |w| == 3 + machines * RowsWidth(n)
      && forall m :: 0 <= m < machines ==>
           w[Slot(2, m, RowsWidth(n), 0, machines)] == BlockHeader(m < |tables|, m + 1)
  {
    PairSectionBlocks(comment, param, tables, n, machines);
  }

  /** The line of row i of machine m + 1 follows its header i lines later. */
  lemma PairSectionRows(comment: string, param: string, tables: seq<PairTable>, n: nat, machines: nat)
    ensures var w := PairSection(comment, param, tables, n, machines);
      && |w| == 3 + machines * RowsWidth(n)
      && forall m, i :: 0 <= m < machines && 1 <= i <= n ==>
           w[Slot(2, m, RowsWidth(n), i, machines)] == Join(RowWords(PairTableOf(tables, m + 1), i, n))
  {
    PairSectionBlocks(comment, param, tables, n, machines);
    var w := PairSection(comment, param, tables, n, machines);
    forall m, i | 0 <= m < machines && 1 <= i <= n
      ensures w[Slot(2, m, RowsWidth(n), i, machines)] == Join(RowWords(PairTableOf(tables, m + 1), i, n))
    {
      BlockRow(tables, m + 1, n, i);
    }
  }

  lemma BlockRow(tables: seq<PairTable>, m: int, n: nat, i: nat)
    requires 1 <= i <= n
    ensures MachineBlock(tables, m, n)[i] == Join(RowWords(PairTableOf(tables, m), i, n))
  {
    assert MachineBlock(tables, m, n)[i] == RowLines(PairTableOf(tables, m), n)[i - 1];
  }

  // ----- The writer -----------------------------------------------------------------------

  /** `line.extend([i, j, setup_time])` for j from 1 to n: the words of row i. */
  method RowLine(t: Option<PairTable>, i: int, n: nat) returns (line: seq<string>)
    ensures line == RowWords(t, i, n)
  {
    ghost var triples := RowTriples(t, i, n);
    line := [];
    var j := 1;
    while j <= n
      invariant 1 <= j <= n + 1
      invariant line == Flatten(triples[..j - 1])
    {
      var cell: string;
      if i == j {
        cell := ".";
      } else {
        var v := 0;
        if t.Some? {
          var first := Lookup(t.value, (i, j));
          if first.Some? {
            v := first.value;
          } else {
            var second := Lookup(t.value, (j, i));
            if second.Some? {
              v := second.value;
            }
          }
        }
        cell := IntString(v);
      }
      FlattenStep(triples, j - 1);
      line := line + [IntString(i), IntString(j), cell];
      j := j + 1;
    }
    assert triples[..n] == triples;
  }

  class AmplFile {
    /** The strings written so far, in order. */
    var writes: seq<string>

    constructor ()
      ensures writes == []
    {
      writes := [];
    }

    /** The text of the file. */
    function Contents(): string
      reads this
    {
      FileText(writes)
    }

    /** `escrever_arquivo(f, content)`: appends content; the file's text grows by content
        and a newline (`WriteText`). */
    method Write(content: string)
      modifies this
      ensures writes == old(writes) + [content]
    {
      writes := writes + [content];
    }

    /** The loop of `print_datas_saida`: a line per truck, until a key does not parse. */
    method WriteDateLines(dates: Dict<string, int>) returns (error: Option<Error>)
      modifies this
      ensures writes == old(writes) + Emit(DateCells(dates)).writes
      ensures error == Emit(DateCells(dates)).error
    {
      ghost var start := writes;
      ghost var cells := DateCells(dates);
      var k := 0;
      while k < |dates|
        invariant k <= |dates|
        invariant writes == start + Emit(cells[..k]).writes
        invariant Emit(cells[..k]).error.None?
      {
        var n := TruckNumber(dates[k].0);
        if n.Failure? {
          EmitFailsAt(cells, k);
          return Some(n.error);
        }
        var line := Join(IntWords([n.value, dates[k].1]));
        assert cells[k] == Success(line);
        EmitStep(cells, k);
        AppendAssoc(start, Emit(cells[..k]).writes, [line]);
        Write(line);
        k := k + 1;
      }
      assert cells[..k] == cells;
      return None;
    }

    method PrintDueDates(dates: Dict<string, int>) returns (error: Option<Error>)
      modifies this
      ensures writes == old(writes) + DatesSection(dates).writes
      ensures error == DatesSection(dates).error
    {
      ghost var w := writes;
      Write(DatesHeader[0]);
      Write(DatesHeader[1]);
      error := WriteDateLines(dates);
      ghost var body := writes[|w| + 2..];
      if error.None? {
        Write(";\n");
      }
      ghost var tail: seq<string> := if error.None? then [";\n"] else [];
      AppendPieces(w, DatesHeader, body, tail);
    }

    /** The machines of one operation in `print_tempo_processamento`: the line of each
        eligible machine with its time and of each other machine with `.`, until an eligible
        machine has no time. */
    method WriteProcessingRow(entry: (int, Eligible), tables: seq<Dict<int, Timing>>, n: nat)
        returns (error: Option<Error>)
      modifies this
      ensures writes == old(writes) + Emit(ProcessingRow(entry, tables, n)).writes
      ensures error == Emit(ProcessingRow(entry, tables, n)).error
    {
      ghost var start := writes;
      ghost var row := ProcessingRow(entry, tables, n);
      var op := entry.0;
      var m := 1;
      while m <= n
        invariant 1 <= m <= n + 1
        invariant writes == start + Emit(row[..m - 1]).writes
        invariant Emit(row[..m - 1]).error.None?
      {
        RowCell(entry, tables, n, m);
        var line: string;
        if m in entry.1.machines {
          var t := if m <= |tables| then Lookup(tables[m - 1], op) else None;
          if t.None? {
            EmitFailsAt(row, m - 1);
            return Some(MissingKey);
          }
          line := Join([IntString(op), IntString(m), IntString(t.value.time)]);
        } else {
          line := Join([IntString(op), IntString(m), "."]);
        }
        EmitStep(row, m - 1);
        AppendAssoc(start, Emit(row[..m - 1]).writes, [line]);
        Write(line);
        m := m + 1;
      }
      assert row[..n] == row;
      return None;
    }

    /** The loop of `print_tempo_processamento` over the operations in increasing order,
        until an eligible machine has no time. */
    method WriteProcessingRows(elig: Dict<int, Eligible>, tables: seq<Dict<int, Timing>>, n: nat)
        returns (error: Option<Error>)
      modifies this
      ensures writes == old(writes) + Emit(Flatten(ProcessingRows(elig, tables, n))).writes
      ensures error == Emit(Flatten(ProcessingRows(elig, tables, n))).error
    {
      var es := ByOperation(elig);
      ghost var rows := ProcessingRows(elig, tables, n);
      ghost var start := writes;
      var a := 0;
      while a < |es|
        invariant a <= |es|
        invariant writes == start + Emit(Flatten(rows[..a])).writes
        invariant Emit(Flatten(rows[..a])).error.None?
      {
        error := WriteProcessingRow(es[a], tables, n);
        assert rows[a] == ProcessingRow(es[a], tables, n);
        EmitRowStep(rows, a);
        AppendAssoc(start, Emit(Flatten(rows[..a])).writes, Emit(rows[a]).writes);
        if error.Some? {
          EmitPartStops(rows, a);
          return;
        }
        a := a + 1;
      }
      assert rows[..a] == rows;
      return None;
    }

    method PrintProcessingTimes(elig: Dict<int, Eligible>, tables: seq<Dict<int, Timing>>, n: nat)
        returns (error: Option<Error>)
      modifies this
      ensures writes == old(writes) + ProcessingSection(elig, tables, n).writes
      ensures error == ProcessingSection(elig, tables, n).error
    {
      ghost var w := writes;
      Write(ProcessingHeader[0]);
      Write(ProcessingHeader[1]);
      error := WriteProcessingRows(elig, tables, n);
      ghost var body := writes[|w| + 2..];
      if error.None? {
        Write(";\n");
      }
      ghost var tail: seq<string> := if error.None? then [";\n"] else [];
      AppendPieces(w, ProcessingHeader, body, tail);
    }

    /** The trucks and machines of one operation in `print_elegibilidade`: its lines, then
        `;` after the last operation and a blank line after the others. */
    method WriteEligibilityBlock(entry: (int, Eligible), last: bool, trucks: nat, machines: nat)
      modifies this
      ensures writes == old(writes) + EligibilityBlock(entry, last, trucks, machines)
    {
      ghost var start := writes;
      ghost var lines := EligibilityLines(entry, trucks, machines);
      var c := 1;
      while c <= trucks
        invariant 1 <= c <= trucks + 1
        invariant writes == start + Flatten(lines[..c - 1])
      {
        ghost var before := writes;
        WriteEligibilityRow(entry, c, machines);
        FlattenExtend(before, start, lines, c - 1, writes);
        c := c + 1;
      }
      assert lines[..trucks] == lines;
      if last {
        Write(";\n");
      } else {
        Write("");
      }
    }

    /** The machines of one truck of one operation. */
    method WriteEligibilityRow(entry: (int, Eligible), c: int, machines: nat)
      modifies this
      ensures writes == old(writes) + EligibilityRow(entry, c, machines)
    {
      ghost var start := writes;
      ghost var row := EligibilityRow(entry, c, machines);
      var m := 1;
      while m <= machines
        invariant 1 <= m <= machines + 1
        invariant writes == start + row[..m - 1]
      {
        Extend(writes, start, row, m - 1);
        if entry.1.truck == Some(c) && m in entry.1.machines {
          Write(Join([IntString(entry.0), IntString(c), IntString(m), "1"]));
        } else {
          Write(Join([IntString(entry.0), IntString(c), IntString(m), "0"]));
        }
        m := m + 1;
      }
      assert row[..machines] == row;
    }

    method PrintEligibility(elig: Dict<int, Eligible>, trucks: nat, machines: nat)
      modifies this
      ensures writes == old(writes) + EligibilitySection(elig, trucks, machines)
    {
      ghost var w := writes;
      Write(EligibilityHeader[0]);
      Write(EligibilityHeader[1]);
      var es := ByOperation(elig);
      WriteEligibilityBlocks(es, trucks, machines);
      AppendHeader(w, EligibilityHeader, Flatten(EligibilityBlocks(elig, trucks, machines)));
    }

    /** The loop over the operations in increasing order. */
    method WriteEligibilityBlocks(es: seq<(int, Eligible)>, trucks: nat, machines: nat)
      modifies this
      ensures writes == old(writes) + Flatten(BlocksOf(es, trucks, machines))
    {
      ghost var blocks := BlocksOf(es, trucks, machines);
      ghost var start := writes;
      var a := 0;
      while a < |es|
        invariant a <= |es|
        invariant writes == start + Flatten(blocks[..a])
      {
        ghost var before := writes;
        WriteEligibilityBlock(es[a], a == |es| - 1, trucks, machines);
        FlattenExtend(before, start, blocks, a, writes);
        a := a + 1;
      }
      assert blocks[..a] == blocks;
    }

    method PrintPredecessors(preds: Dict<int, int>)
      modifies this
      ensures writes == old(writes) + PredecessorsSection(preds)
    {
      ghost var w := writes;
      Write(PredecessorsHeader[0]);
      Write(PredecessorsHeader[1]);
      ghost var start := writes;
      ghost var lines := PredecessorLines(preds);
      var k := 0;
      while k < |preds|
        invariant k <= |preds|
        invariant writes == start + lines[..k]
      {
        Extend(writes, start, lines, k);
        Write(Join(IntWords([preds[k].0, preds[k].1])));
        k := k + 1;
      }
      assert lines[..k] == lines;
      Write(";\n");
      AppendPieces(w, PredecessorsHeader, lines, [";\n"]);
    }

    method PrintMachines(n: int)
      modifies this
      ensures writes == old(writes) + ["# Quantidade de máquinas", "param n_machines := " + IntString(n) + ";\n"]
    {
      Write("# Quantidade de máquinas");
      Write("param n_machines := " + IntString(n) + ";\n");
    }

    method PrintTrucks(n: int)
      modifies this
      ensures writes == old(writes) + ["# Quantidade de caminhões", "param n_caminhoes := " + IntString(n) + ";\n"]
    {
      Write("# Quantidade de caminhões");
      Write("param n_caminhoes := " + IntString(n) + ";\n");
    }

    /** `print_tarefas`, given `resultados["n_total_tarefas"]`. */
    method PrintJobs(jobs: int)
      modifies this
      ensures writes == old(writes) + ["# Quantidade de jobs", "param n_jobs := " + IntString(jobs) + ";\n"]
    {
      Write("# Quantidade de jobs");
      Write("param n_jobs := " + IntString(jobs) + ";\n");
    }

    method PrintOperations(tasks: int, perTask: int)
      modifies this
      ensures writes == old(writes) + OperationsSection(tasks, perTask)
    {
      ghost var w := writes;
      Write("param n_operations :=");
      ghost var start := writes;
      ghost var lines := OperationLines(tasks, perTask);
      var t := 1;
      while t <= tasks
        invariant 1 <= t <= |lines| + 1
        invariant writes == start + lines[..t - 1]
      {
        Extend(writes, start, lines, t - 1);
        Write(Join(IntWords([t, perTask])));
        t := t + 1;
      }
      assert lines[..t - 1] == lines;
      Write(";\n");
      AppendAround(w, "param n_operations :=", lines, ";\n");
    }

    /** The loop shared by `print_tempo_setup` and `print_tempo_bloqueio`. A machine the map
        lacks prints `.` on the diagonal and 0 elsewhere, as the source's separate branch
        does; it differs from a present machine only in its header. */
    method PrintPairs(comment: string, param: string, tables: seq<PairTable>, n: nat, machines: nat)
      modifies this
      ensures writes == old(writes) + PairSection(comment, param, tables, n, machines)
    {
      ghost var w := writes;
      Write(comment);
      Write("param " + param + " :=");
      ghost var blocks := MachineBlocks(tables, n, machines);
      ghost var start := writes;
      var machine := 1;
      while machine <= machines
        invariant 1 <= machine <= machines + 1
        invariant writes == start + Flatten(blocks[..machine - 1])
      {
        ghost var before := writes;
        PrintMachineBlock(tables, machine, n);
        FlattenExtend(before, start, blocks, machine - 1, writes);
        machine := machine + 1;
      }
      assert blocks[..machines] == blocks;
      Write(";\n");
      AppendPieces(w, [comment, "param " + param + " :="], Flatten(blocks), [";\n"]);
    }

    /** The block of one machine of `print_tempo_setup` and `print_tempo_bloqueio`. */
    method PrintMachineBlock(tables: seq<PairTable>, machine: int, n: nat)
      modifies this
      ensures writes == old(writes) + MachineBlock(tables, machine, n)
    {
      ghost var w := writes;
      var t: Option<PairTable> := None;
      if 1 <= machine <= |tables| {
        t := Some(tables[machine - 1]);
        Write("\n[*,*," + IntString(machine) + "]");
      } else {
        Write("[*,*," + IntString(machine) + "]");
      }
      ghost var start := writes;
      ghost var rows := RowLines(t, n);
      var i := 1;
      while i <= n
        invariant 1 <= i <= n + 1
        invariant writes == start + rows[..i - 1]
      {
        var line := RowLine(t, i, n);
        assert rows[i - 1] == Join(line);
        Extend(writes, start, rows, i - 1);
        Write(Join(line));
        i := i + 1;
      }
      assert rows[..n] == rows;
      assert t == PairTableOf(tables, machine);
      AppendAfter(w, BlockHeader(t.Some?, machine), rows);
    }

    method PrintSetupTimes(tables: seq<PairTable>, n: nat, machines: nat)
      modifies this
      ensures writes == old(writes) + PairSection(SetupComment, "s", tables, n, machines)
    {
      PrintPairs(SetupComment, "s", tables, n, machines);
    }

    method PrintBlockingTimes(tables: seq<PairTable>, n: nat, machines: nat)
      modifies this
      ensures writes == old(writes) + PairSection(BlockingComment, "bk", tables, n, machines)
    {
      PrintPairs(BlockingComment, "bk", tables, n, machines);
    }
  }
}
