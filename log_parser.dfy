/** Reading a solver's result log back into the instance's parameters: the makespan line
    `MAC = …`, the assignment matrices `alpha`, the completion and arrival times `t` and
    `A`, the processing-time table `p` and the due dates `d`. The log is given as its lines.
    Each parser is a loop over the lines, proved equal to a specification function that
    walks the lines recursively; the properties are proved about those functions. */
module LogParser {
  import opened Wrappers
  import opened Dicts
  import opened Text

  // ---------------------------------------------------------------- the makespan line

  /** `int(line.split('=')[1].strip())` for a line that starts with `MAC =`. */
  function MacValue(line: string): Result<int>
    requires StartsWith(line, "MAC =")
  {
    assert line[4] == "MAC ="[4];
    var k := Find(line, '=');
    var rest := line[k + 1..];
    ParseInt(Strip(rest[..Find(rest, '=')]))
  }

  /** The value of the first line that starts with `MAC =`, or None when there is none. */
  function MacOf(lines: seq<string>): Result<Option<int>>
  {
    if |lines| == 0 then Success(None)
    else if StartsWith(lines[0], "MAC =") then
      match MacValue(lines[0])
      case Failure(e) => Failure(e)
      case Success(v) => Success(Some(v))
    else MacOf(lines[1..])
  }

  method ParseMac(lines: seq<string>) returns (r: Result<Option<int>>)
    ensures r == MacOf(lines)
  {
    for i := 0 to |lines|
      invariant MacOf(lines[i..]) == MacOf(lines)
    {
      assert lines[i..][1..] == lines[i + 1..];
      if StartsWith(lines[i], "MAC =") {
        var v := MacValue(lines[i]);
        if v.Failure? {
          return Failure(v.error);
        }
        return Success(Some(v.value));
      }
    }
    assert lines[|lines|..] == [];
    return Success(None);
  }

  /** No value is read exactly when no line starts with `MAC =`. */
  lemma {:induction false} MacAbsent(lines: seq<string>)
    ensures MacOf(lines) == Success(None) <==> forall i :: 0 <= i < |lines| ==> !StartsWith(lines[i], "MAC =")
  {
    if |lines| > 0 && !StartsWith(lines[0], "MAC =") {
      MacAbsent(lines[1..]);
      assert forall i :: 1 <= i < |lines| ==> lines[i] == lines[1..][i - 1];
    }
  }

  /** The value read is the one on the first `MAC =` line; later ones are ignored. */
  lemma {:induction false} MacFirst(lines: seq<string>, i: nat)
    requires i < |lines| && StartsWith(lines[i], "MAC =")
    requires forall j :: 0 <= j < i ==> !StartsWith(lines[j], "MAC =")
    ensures MacValue(lines[i]).Success? ==> MacOf(lines) == Success(Some(MacValue(lines[i]).value))
    ensures MacValue(lines[i]).Failure? ==> MacOf(lines) == Failure(MacValue(lines[i]).error)
  {
    if i > 0 {
      MacFirst(lines[1..], i - 1);
    }
  }

  /** The line `MAC = <v>` reads back as v. */
  lemma MacLine(v: int)
    ensures StartsWith("MAC = " + IntString(v), "MAC =")
    ensures MacValue("MAC = " + IntString(v)) == Success(v)
  {
    var s := IntString(v);
    IntStringChars(v);
    MacText(s);
    IntStringToken(v);
    StripToken(s);
    ParseIntString(v);
  }

  /** `MAC = ` followed by a numeral reads the stripped numeral. */
  lemma MacText(s: string)
    requires forall k :: 0 <= k < |s| ==> s[k] == '-' || IsDigit(s[k])
    ensures StartsWith("MAC = " + s, "MAC =")
    ensures MacValue("MAC = " + s) == ParseInt(Strip(" " + s))
  {
    var line := "MAC = " + s;
    assert line[..5] == "MAC =";
    assert line[0] == 'M' && line[1] == 'A' && line[2] == 'C' && line[3] == ' ' && line[4] == '=';
    FindAt(line, '=', 4);
    var rest := line[5..];
    assert rest == " " + s;
    assert forall k :: 1 <= k < |rest| ==> rest[k] == s[k - 1];
    FindNone(rest, '=');
    assert rest[..|rest|] == rest;
  }

  // ---------------------------------------------------------------- the alpha blocks

  /** The two block layouts: `[*,N,*]` holds the matrix of truck N (machines by forklift),
      `[*,*,N]` the matrix of forklift N, stored transposed. */
  datatype Variant = TruckBlocks | ForkliftBlocks

  /** The length of the run of digits at the start of s. */
  function DigitRun(s: string): (k: nat)
    ensures k <= |s| && AllDigits(s[..k])
    ensures k < |s| ==> !IsDigit(s[k])
  {
    if |s| == 0 || !IsDigit(s[0]) then 0
    else
      var k := 1 + DigitRun(s[1..]);
      assert forall i :: 1 <= i < k ==> s[..k][i] == s[1..][..k - 1][i - 1];
      k
  }

  /** `re.match(r'\[\*,\d+,\*\]', s)` or `re.match(r'\[\*,\*,\d+\]', s)`: s starts with the
      block pattern of the variant. */
  predicate PatternAt(s: string, v: Variant)
  {
    match v
    case TruckBlocks =>
      StartsWith(s, "[*,") && 0 < DigitRun(s[3..]) && StartsWith(s[3 + DigitRun(s[3..])..], ",*]")
    case ForkliftBlocks =>
      StartsWith(s, "[*,*,") && 0 < DigitRun(s[5..]) && StartsWith(s[5 + DigitRun(s[5..])..], "]")
  }

  /** A header line: the pattern, alone or after `alpha `. */
  predicate IsHeader(line: string, v: Variant)
  {
    PatternAt(line, v) || (StartsWith(line, "alpha ") && PatternAt(line[6..], v))
  }

  /** The position of the first digit of s, or |s|. */
  function FirstDigit(s: string): (k: nat)
    ensures k <= |s| && (k < |s| ==> IsDigit(s[k]))
    ensures forall i :: 0 <= i < k ==> !IsDigit(s[i])
  {
    if |s| == 0 || IsDigit(s[0]) then 0 else 1 + FirstDigit(s[1..])
  }

  /** `int(re.search(r'\d+', line).group())`: the value of the first run of digits. */
  function HeaderNumber(line: string): nat
  {
    var rest := line[FirstDigit(line)..];
    DigitsValue(rest[..DigitRun(rest)])
  }

  /** The header the solver writes for block n. */
  function HeaderText(n: nat, v: Variant): string
  {
    match v
    case TruckBlocks => "[*," + NatString(n) + ",*]"
    case ForkliftBlocks => "[*,*," + NatString(n) + "]"
  }

  lemma DigitRunOf(ds: string, rest: string)
    requires AllDigits(ds)
    requires |rest| > 0 && !IsDigit(rest[0])
    ensures DigitRun(ds + rest) == |ds|
  {
    if |ds| > 0 {
      assert (ds + rest)[1..] == ds[1..] + rest;
      DigitRunOf(ds[1..], rest);
    } else {
      assert ds + rest == rest;
    }
  }

  /** The digits of n between a text without digits and one that does not start with a
      digit: the first digits found are those of n. */
  lemma NumberBetween(open: string, n: nat, close: string)
    requires forall k :: 0 <= k < |open| ==> !IsDigit(open[k])
    requires |close| > 0 && !IsDigit(close[0])
    ensures var h := open + NatString(n) + close;
      && FirstDigit(h) == |open|
      && DigitRun(h[|open|..]) == |NatString(n)|
      && h[|open|..][DigitRun(h[|open|..])..] == close
      && HeaderNumber(h) == n
  {
    var ds := NatString(n);
    var h := open + ds + close;
    var rest := h[|open|..];
    assert rest == ds + close;
    DigitRunOf(ds, close);
    assert rest[|ds|..] == close;
    assert forall k :: 0 <= k < |open| ==> h[k] == open[k];
    assert IsDigit(h[|open|]);
    assert rest[..|ds|] == ds;
    NatStringValue(n);
  }

  /** The pattern with n written in, and its number read back. */
  lemma PatternRoundTrip(n: nat, v: Variant)
    ensures var h := HeaderText(n, v);
      && PatternAt(h, v)
      && !PatternAt(h, if v.TruckBlocks? then ForkliftBlocks else TruckBlocks)
      && FirstDigit(h) == (if v.TruckBlocks? then 3 else 5)
      && HeaderNumber(h) == n
      && h[0] == '['
  {
    var h := HeaderText(n, v);
    var ds := NatString(n);
    if v.TruckBlocks? {
      NumberBetween("[*,", n, ",*]");
      assert h[..3] == "[*,";
      assert h[3..][|ds|..] == h[3 + |ds|..];
      assert h[3] == ds[0];
    } else {
      NumberBetween("[*,*,", n, "]");
      assert h[..5] == "[*,*,";
      assert h[5..][|ds|..] == h[5 + |ds|..];
      assert h[3..][0] == '*';
    }
  }

  /** `alpha ` before a pattern keeps it a header of the same variants, with the same
      number. */
  lemma Prefixed(h: string, v: Variant)
    ensures IsHeader("alpha " + h, v) == PatternAt(h, v)
    ensures HeaderNumber("alpha " + h) == HeaderNumber(h)
  {
    PrefixedHeader(h, v);
    PrefixedNumber(h);
  }

  lemma PrefixedHeader(h: string, v: Variant)
    ensures IsHeader("alpha " + h, v) == PatternAt(h, v)
  {
    var line := "alpha " + h;
    assert line[6..] == h;
    assert line[..6] == "alpha ";
    assert line[0] == 'a';
  }

  lemma PrefixedNumber(h: string)
    ensures HeaderNumber("alpha " + h) == HeaderNumber(h)
  {
    var p := "alpha ";
    assert forall i :: 0 <= i < |p| ==> p[i] in "alph ";
    NumberAfter(p, h);
  }

  /** Text without digits before the header leaves its number alone. */
  lemma {:induction false} NumberAfter(p: string, h: string)
    requires forall i :: 0 <= i < |p| ==> !IsDigit(p[i])
    ensures HeaderNumber(p + h) == HeaderNumber(h)
  {
    if |p| > 0 {
      assert (p + h)[1..] == p[1..] + h;
      assert (p + h)[0] == p[0];
      NumberTail(p + h);
      NumberAfter(p[1..], h);
    } else {
      assert p + h == h;
    }
  }

  /** A leading non-digit does not change the number. */
  lemma NumberTail(s: string)
    requires |s| > 0 && !IsDigit(s[0])
    ensures HeaderNumber(s) == HeaderNumber(s[1..])
  {
    var k := FirstDigit(s[1..]);
    assert FirstDigit(s) == 1 + k;
    assert s[1 + k..] == s[1..][k..];
  }

  /** The header of block n, alone or after `alpha `, is recognised for its own variant
      only, and carries the number n. */
  lemma HeaderRoundTrip(n: nat, v: Variant, prefixed: bool)
    ensures var line := if prefixed then "alpha " + HeaderText(n, v) else HeaderText(n, v);
      && IsHeader(line, v)
      && !IsHeader(line, if v.TruckBlocks? then ForkliftBlocks else TruckBlocks)
      && HeaderNumber(line) == n
  {
    var h := HeaderText(n, v);
    PatternRoundTrip(n, v);
    if prefixed {
      Prefixed(h, TruckBlocks);
      Prefixed(h, ForkliftBlocks);
    } else {
      Unprefixed(h);
    }
  }

  /** A line that starts with `[` is a header exactly when it starts with the pattern. */
  lemma Unprefixed(h: string)
    requires |h| > 0 && h[0] == '['
    ensures IsHeader(h, TruckBlocks) == PatternAt(h, TruckBlocks)
    ensures IsHeader(h, ForkliftBlocks) == PatternAt(h, ForkliftBlocks)
  {
    assert !StartsWith(h, "alpha ");
  }

  /** The state of the block collector between lines. */
  datatype Collector = Collector(collecting: bool, number: int, current: seq<seq<int>>, extra: seq<seq<int>>)

  const Init := Collector(false, 0, [], [])

  /** `[row + add_row for row, add_row in zip(rows, more)]`. */
  function ZipConcat(rows: seq<seq<int>>, more: seq<seq<int>>): seq<seq<int>>
  {
    var n := if |rows| < |more| then |rows| else |more|;
    seq(n, i requires 0 <= i < n => rows[i] + more[i])
  }

  /** The rows of a block when it is stored: the columns held over from a page break are
      appended to the rows they continue. */
  function Finish(c: Collector): seq<seq<int>>
  {
    if |c.extra| > 0 then ZipConcat(c.current, c.extra) else c.current
  }

  /** A data row: more than one token, every token made of digits. */
  predicate AcceptedRow(parts: seq<string>)
  {
    |parts| > 1 && forall k :: 0 <= k < |parts| ==> IsDigits(parts[k])
  }

  /** `[int(x) for x in parts[1:]]`. */
  function RowValues(parts: seq<string>): seq<int>
    requires AcceptedRow(parts)
  {
    seq(|parts| - 1, k requires 0 <= k < |parts| - 1 => DigitsValue(parts[k + 1]) as int)
  }

  /** A line inside a block that is neither a header nor the terminator. */
  function Collect(c: Collector, parts: seq<string>): Collector
  {
    if !AcceptedRow(parts) then c
    else
      var row := RowValues(parts);
      if |c.current| < |row| then c.(current := c.current + [row]) else c.(extra := c.extra + [row])
  }

  /** One line: the new collector, the block it completes, and how many lines it takes. */
  function Step(c: Collector, line: string, v: Variant): (Collector, Option<(int, seq<seq<int>>)>, nat)
  {
    if IsHeader(line, v) then
      var done := c.collecting && |c.current| > 0;
      var next := Collector(true, HeaderNumber(line), if done then [] else c.current, if done then [] else c.extra);
      (next, if done then Some((c.number, Finish(c))) else None, 2)
    else if !c.collecting then (c, None, 1)
    else if StartsWith(line, ";") then (Collector(false, c.number, [], []), Some((c.number, Finish(c))), 1)
    else (Collect(c, Split(line)), None, 1)
  }

  /** The blocks completed from line i on, in order, each with its number. */
  function BlocksFrom(lines: seq<string>, i: nat, c: Collector, v: Variant): seq<(int, seq<seq<int>>)>
    decreases |lines| - i
  {
    if i >= |lines| then
      if c.collecting && |c.current| > 0 then [(c.number, Finish(c))] else []
    else
      var s := Step(c, Strip(lines[i]), v);
      (if s.1.Some? then [s.1.value] else []) + BlocksFrom(lines, i + s.2, s.0, v)
  }

  predicate Rectangular(rows: seq<seq<int>>)
  {
    forall r :: 0 <= r < |rows| ==> |rows[r]| == |rows[0]|
  }

  /** The transpose of a rectangular matrix; a matrix without rows is its own transpose. */
  function Transpose(rows: seq<seq<int>>): seq<seq<int>>
    requires Rectangular(rows)
  {
    if |rows| == 0 then []
    else seq(|rows[0]|, c requires 0 <= c < |rows[0]| => seq(|rows|, r requires 0 <= r < |rows| => rows[r][c]))
  }

  /** `np.array(rows)`, transposed for the forklift variant; rows of different lengths
      make `np.array` raise. */
  function Shape(rows: seq<seq<int>>, v: Variant): Result<seq<seq<int>>>
  {
    if !Rectangular(rows) then Failure(RaggedRows)
    else if v.TruckBlocks? then Success(rows)
    else Success(Transpose(rows))
  }

  /** Storing the blocks in order, `alpha[number] = np.array(rows)`. */
  function StoreInto(d: Dict<int, seq<seq<int>>>, blocks: seq<(int, seq<seq<int>>)>, v: Variant): Result<Dict<int, seq<seq<int>>>>
    decreases |blocks|
  {
    if |blocks| == 0 then Success(d)
    else
      match Shape(blocks[0].1, v)
      case Failure(e) => Failure(e)
      case Success(m) => StoreInto(Put(d, blocks[0].0, m), blocks[1..], v)
  }

  function AlphaOf(lines: seq<string>, v: Variant): Result<Dict<int, seq<seq<int>>>>
  {
    StoreInto([], BlocksFrom(lines, 0, Init, v), v)
  }

  /** Reading one line: the block it completes, if any, is stored before the rest. */
  lemma AlphaAdvance(lines: seq<string>, i: nat, c: Collector, v: Variant, d: Dict<int, seq<seq<int>>>)
    requires i < |lines|
    ensures var s := Step(c, Strip(lines[i]), v);
      var rest := BlocksFrom(lines, i + s.2, s.0, v);
      StoreInto(d, BlocksFrom(lines, i, c, v), v) ==
        if s.1.None? then StoreInto(d, rest, v)
        else
          match Shape(s.1.value.1, v)
          case Failure(e) => Failure(e)
          case Success(m) => StoreInto(Put(d, s.1.value.0, m), rest, v)
  {
    var s := Step(c, Strip(lines[i]), v);
    var rest := BlocksFrom(lines, i + s.2, s.0, v);
    if s.1.Some? {
      assert ([s.1.value] + rest)[1..] == rest;
    } else {
      assert [] + rest == rest;
    }
  }

  /** At the end of the log, a block that has rows is stored. */
  lemma AlphaEnd(lines: seq<string>, i: nat, c: Collector, v: Variant, d: Dict<int, seq<seq<int>>>)
    requires i >= |lines|
    ensures StoreInto(d, BlocksFrom(lines, i, c, v), v) ==
      if c.collecting && |c.current| > 0 then
        match Shape(Finish(c), v)
        case Failure(e) => Failure(e)
        case Success(m) => Success(Put(d, c.number, m))
      else Success(d)
  {
    if c.collecting && |c.current| > 0 {
      assert [(c.number, Finish(c))][1..] == [];
    }
  }

  /** The block parser of either variant. */
  method ParseAlpha(lines: seq<string>, v: Variant) returns (r: Result<Dict<int, seq<seq<int>>>>)
    ensures r == AlphaOf(lines, v)
  {
    var alpha: Dict<int, seq<seq<int>>> := [];
    var collecting := false;
    var number := 0;
    var current: seq<seq<int>> := [];
    var extra: seq<seq<int>> := [];
    var i := 0;
    while i < |lines|
      invariant StoreInto(alpha, BlocksFrom(lines, i, Collector(collecting, number, current, extra), v), v) == AlphaOf(lines, v)
      decreases |lines| - i
    {
      ghost var c := Collector(collecting, number, current, extra);
      AlphaAdvance(lines, i, c, v, alpha);
      var line := Strip(lines[i]);
      if IsHeader(line, v) {
        if collecting && |current| > 0 {
          assert Step(c, line, v) == (Collector(true, HeaderNumber(line), [], []), Some((number, Finish(c))), 2);
          if |extra| > 0 {
            current := ZipConcat(current, extra);
            extra := [];
          }
          assert current == Finish(c) && extra == [];
          var m := Shape(current, v);
          if m.Failure? {
            return Failure(m.error);
          }
          alpha := Put(alpha, number, m.value);
          current := [];
        } else {
          assert Step(c, line, v) == (Collector(true, HeaderNumber(line), current, extra), None, 2);
        }
        number := HeaderNumber(line);
        collecting := true;
        i := i + 2;
        continue;
      }
      if collecting {
        if StartsWith(line, ";") {
          assert Step(c, line, v) == (Collector(false, number, [], []), Some((number, Finish(c))), 1);
          if |extra| > 0 {
            current := ZipConcat(current, extra);
            extra := [];
          }
          assert current == Finish(c) && extra == [];
          var m := Shape(current, v);
          if m.Failure? {
            return Failure(m.error);
          }
          alpha := Put(alpha, number, m.value);
          collecting := false;
          current := [];
        } else {
          var parts := Split(line);
          assert Step(c, line, v) == (Collect(c, parts), None, 1);
          if |parts| > 1 && AcceptedRow(parts) {
            var row := RowValues(parts);
            if |current| < |row| {
              current := current + [row];
            } else {
              extra := extra + [row];
            }
          }
          assert Collect(c, parts) == Collector(collecting, number, current, extra);
        }
        i := i + 1;
      } else {
        assert Step(c, line, v) == (c, None, 1);
        i := i + 1;
      }
    }
    ghost var c := Collector(collecting, number, current, extra);
    AlphaEnd(lines, i, c, v, alpha);
    if collecting && |current| > 0 {
      if |extra| > 0 {
        current := ZipConcat(current, extra);
      }
      assert current == Finish(c);
      var m := Shape(current, v);
      if m.Failure? {
        return Failure(m.error);
      }
      alpha := Put(alpha, number, m.value);
    }
    return Success(alpha);
  }

  /** `parse_alpha_caminhao`. */
  method ParseAlphaTrucks(lines: seq<string>) returns (r: Result<Dict<int, seq<seq<int>>>>)
    ensures r == AlphaOf(lines, TruckBlocks)
  {
    r := ParseAlpha(lines, TruckBlocks);
  }

  /** `parse_alpha_empilhadeira`. */
  method ParseAlphaForklifts(lines: seq<string>) returns (r: Result<Dict<int, seq<seq<int>>>>)
    ensures r == AlphaOf(lines, ForkliftBlocks)
  {
    r := ParseAlpha(lines, ForkliftBlocks);
  }

  /** Inside a block, a line is kept exactly when it is a data row; a kept row goes to the
      block while the block has fewer rows than the row has values, and is held over as
      continuation columns otherwise. */
  lemma CollectRow(c: Collector, line: string, v: Variant)
    requires c.collecting && !IsHeader(line, v) && !StartsWith(line, ";")
    ensures var n := Step(c, line, v).0;
      && n.collecting && n.number == c.number
      && (n == c <==> !AcceptedRow(Split(line)))
      && (AcceptedRow(Split(line)) ==>
            var row := RowValues(Split(line));
            if |c.current| < |row| then n.current == c.current + [row] && n.extra == c.extra
            else n.current == c.current && n.extra == c.extra + [row])
  {
    var parts := Split(line);
    if AcceptedRow(parts) {
      var n := Step(c, line, v).0;
      assert |n.current| + |n.extra| == |c.current| + |c.extra| + 1;
    }
  }

  /** A line completes a block exactly when it is a header met while rows are being
      collected, or the terminator `;` met inside a block; the block is the current number
      with the rows finished so far. */
  lemma BlockBoundary(c: Collector, line: string, v: Variant)
    ensures Step(c, line, v).1.Some? <==>
      c.collecting && ((IsHeader(line, v) && |c.current| > 0) || (!IsHeader(line, v) && StartsWith(line, ";")))
    ensures Step(c, line, v).1.Some? ==> Step(c, line, v).1.value == (c.number, Finish(c))
    ensures IsHeader(line, v) ==> Step(c, line, v).0.collecting && Step(c, line, v).0.number == HeaderNumber(line) && Step(c, line, v).2 == 2
  {
  }

  /** Reassembling a page break: the held-over rows extend the first rows, as many as both
      have, each by its own values. */
  lemma ZipConcatRows(rows: seq<seq<int>>, more: seq<seq<int>>)
    requires Rectangular(rows) && Rectangular(more) && |rows| > 0 && |more| > 0
    ensures var z := ZipConcat(rows, more);
      && |z| == (if |rows| < |more| then |rows| else |more|)
      && Rectangular(z) && |z[0]| == |rows[0]| + |more[0]|
      && forall i :: 0 <= i < |z| ==> z[i][..|rows[0]|] == rows[i] && z[i][|rows[0]|..] == more[i]
  {
    var z := ZipConcat(rows, more);
    forall i | 0 <= i < |z|
      ensures z[i][..|rows[0]|] == rows[i] && z[i][|rows[0]|..] == more[i]
    {
      assert z[i] == rows[i] + more[i];
    }
  }

  /** Transposing twice gives the matrix back. */
  lemma TransposeTwice(rows: seq<seq<int>>)
    requires Rectangular(rows) && |rows| > 0 && |rows[0]| > 0
    ensures Rectangular(Transpose(rows)) && Transpose(Transpose(rows)) == rows
  {
    var t := Transpose(rows);
    var tt := Transpose(t);
    assert |tt| == |rows|;
    forall r | 0 <= r < |rows|
      ensures tt[r] == rows[r]
    {
      assert |tt[r]| == |rows[r]|;
      forall c | 0 <= c < |rows[r]|
        ensures tt[r][c] == rows[r][c]
      {
        assert tt[r][c] == t[c][r];
      }
    }
  }

  /** Every stored matrix is rectangular. */
  predicate AllRectangular(d: Dict<int, seq<seq<int>>>)
  {
    forall i :: 0 <= i < |d| ==> Rectangular(d[i].1)
  }

  lemma TransposeRectangular(rows: seq<seq<int>>)
    requires Rectangular(rows)
    ensures Rectangular(Transpose(rows))
  {
  }

  /** The dictionary with each matrix transposed, keys in the same order. */
  function TransposeAll(d: Dict<int, seq<seq<int>>>): Dict<int, seq<seq<int>>>
    requires AllRectangular(d)
  {
    seq(|d|, i requires 0 <= i < |d| => (d[i].0, Transpose(d[i].1)))
  }

  lemma TransposePut(d: Dict<int, seq<seq<int>>>, k: int, m: seq<seq<int>>)
    requires AllRectangular(d) && Rectangular(m)
    ensures AllRectangular(Put(d, k, m))
    ensures TransposeAll(Put(d, k, m)) == Put(TransposeAll(d), k, Transpose(m))
  {
    var t := TransposeAll(d);
    assert Keys(t) == Keys(d);
    assert HasKey(t, k) <==> HasKey(d, k);
    if HasKey(d, k) {
      assert IndexOf(t, k) == IndexOf(d, k);
    }
  }

  /** Storing blocks the forklift way stores, under the same keys in the same order, the
      transposes of the matrices the truck way stores, and fails on the same blocks. */
  lemma {:induction false} ForkliftStoresTranspose(d: Dict<int, seq<seq<int>>>, blocks: seq<(int, seq<seq<int>>)>)
    requires AllRectangular(d)
    ensures StoreInto(TransposeAll(d), blocks, ForkliftBlocks).Success? == StoreInto(d, blocks, TruckBlocks).Success?
    ensures StoreInto(d, blocks, TruckBlocks).Success? ==>
      AllRectangular(StoreInto(d, blocks, TruckBlocks).value) &&
      StoreInto(TransposeAll(d), blocks, ForkliftBlocks).value == TransposeAll(StoreInto(d, blocks, TruckBlocks).value)
    decreases |blocks|
  {
    if |blocks| > 0 && Rectangular(blocks[0].1) {
      var m := blocks[0].1;
      TransposePut(d, blocks[0].0, m);
      ForkliftStoresTranspose(Put(d, blocks[0].0, m), blocks[1..]);
    }
  }

  /** Storing blocks, of either variant, into rectangular matrices leaves rectangular matrices. */
  lemma {:induction false} StoreRectangular(d: Dict<int, seq<seq<int>>>, blocks: seq<(int, seq<seq<int>>)>, v: Variant)
    requires AllRectangular(d)
    ensures StoreInto(d, blocks, v).Success? ==> AllRectangular(StoreInto(d, blocks, v).value)
    decreases |blocks|
  {
    if |blocks| > 0 && Rectangular(blocks[0].1) {
      var rows := blocks[0].1;
      var m := Shape(rows, v).value;
      TransposeRectangular(rows);
      TransposePut(d, blocks[0].0, m);
      StoreRectangular(Put(d, blocks[0].0, m), blocks[1..], v);
    }
  }

  /** Both block parsers return only rectangular matrices. */
  lemma AlphaAllRectangular(lines: seq<string>, v: Variant)
    requires AlphaOf(lines, v).Success?
    ensures AllRectangular(AlphaOf(lines, v).value)
  {
    StoreRectangular([], BlocksFrom(lines, 0, Init, v), v);
  }

  /** Block n begins at some header line of the log that carries n. */
  ghost predicate HeaderFor(lines: seq<string>, v: Variant, n: int)
  {
    exists j :: 0 <= j < |lines| && IsHeader(Strip(lines[j]), v) && HeaderNumber(Strip(lines[j])) == n
  }

  /** Where the numbers of a step come from: a header, or the block being collected. */
  lemma StepNumber(c: Collector, line: string, v: Variant)
    ensures var s := Step(c, line, v);
      && (s.0.collecting ==> (IsHeader(line, v) && s.0.number == HeaderNumber(line)) || (c.collecting && s.0.number == c.number))
      && (s.1.Some? ==> c.collecting && s.1.value.0 == c.number)
  {
  }

  /** Every block number is a header number, for any property `ok` all header numbers have. */
  lemma {:induction false} BlockNumbers(lines: seq<string>, i: nat, c: Collector, v: Variant, ok: int -> bool)
    requires forall j :: 0 <= j < |lines| && IsHeader(Strip(lines[j]), v) ==> ok(HeaderNumber(Strip(lines[j])))
    requires c.collecting ==> ok(c.number)
    ensures forall b :: b in BlocksFrom(lines, i, c, v) ==> ok(b.0)
    decreases |lines| - i
  {
    if i < |lines| {
      var s := Step(c, Strip(lines[i]), v);
      NextNumber(lines, i, c, v, ok);
      BlockNumbers(lines, i + s.2, s.0, v, ok);
      var out := if s.1.Some? then [s.1.value] else [];
      BlocksFromStep(lines, i, c, v, s, out);
      HeadersJoin(ok, s.1, out, BlocksFrom(lines, i + s.2, s.0, v), BlocksFrom(lines, i, c, v));
    }
  }

  /** After one step the collector's number, and the number of a block it completes, are
      header numbers. */
  lemma NextNumber(lines: seq<string>, i: nat, c: Collector, v: Variant, ok: int -> bool)
    requires i < |lines|
    requires IsHeader(Strip(lines[i]), v) ==> ok(HeaderNumber(Strip(lines[i])))
    requires c.collecting ==> ok(c.number)
    ensures var s := Step(c, Strip(lines[i]), v);
      && (s.0.collecting ==> ok(s.0.number))
      && (s.1.Some? ==> ok(s.1.value.0))
  {
    StepNumber(c, Strip(lines[i]), v);
  }

  lemma HeadersJoin(ok: int -> bool, x: Option<(int, seq<seq<int>>)>, out: seq<(int, seq<seq<int>>)>,
                    rest: seq<(int, seq<seq<int>>)>, all: seq<(int, seq<seq<int>>)>)
    requires out == if x.Some? then [x.value] else []
    requires x.Some? ==> ok(x.value.0)
    requires all == out + rest
    requires forall b :: b in rest ==> ok(b.0)
    ensures forall b :: b in all ==> ok(b.0)
  {
  }

  lemma BlocksFromStep(lines: seq<string>, i: nat, c: Collector, v: Variant,
                       s: (Collector, Option<(int, seq<seq<int>>)>, nat), out: seq<(int, seq<seq<int>>)>)
    requires i < |lines| && s == Step(c, Strip(lines[i]), v)
    requires out == if s.1.Some? then [s.1.value] else []
    ensures BlocksFrom(lines, i, c, v) == out + BlocksFrom(lines, i + s.2, s.0, v)
  {
  }

  lemma {:induction false} StoredKeys(d: Dict<int, seq<seq<int>>>, blocks: seq<(int, seq<seq<int>>)>, v: Variant)
    requires StoreInto(d, blocks, v).Success?
    ensures forall k :: k in KeySet(StoreInto(d, blocks, v).value) ==> k in KeySet(d) || exists b :: b in blocks && b.0 == k
    decreases |blocks|
  {
    if |blocks| > 0 {
      var m := Shape(blocks[0].1, v).value;
      PutKeySet(d, blocks[0].0, m);
      StoredKeys(Put(d, blocks[0].0, m), blocks[1..], v);
      assert forall b :: b in blocks[1..] ==> b in blocks;
    }
  }

  /** Every key of the parsed dictionary is the number on some header line. */
  lemma AlphaKeys(lines: seq<string>, v: Variant)
    requires AlphaOf(lines, v).Success?
    ensures forall k :: k in KeySet(AlphaOf(lines, v).value) ==> HeaderFor(lines, v, k)
  {
    var ok := n => HeaderFor(lines, v, n);
    var blocks := BlocksFrom(lines, 0, Init, v);
    HeadersFound(lines, v);
    BlockNumbers(lines, 0, Init, v, ok);
    StoredKeys([], blocks, v);
    KeysFromBlocks([], AlphaOf(lines, v).value, blocks, ok);
  }

  /** Each header line carries a header number. */
  lemma HeadersFound(lines: seq<string>, v: Variant)
    ensures forall j :: 0 <= j < |lines| && IsHeader(Strip(lines[j]), v) ==>
      HeaderFor(lines, v, HeaderNumber(Strip(lines[j])))
  {
  }

  /** Keys that came from blocks all of whose numbers pass `ok` pass it too. */
  lemma KeysFromBlocks(d0: Dict<int, seq<seq<int>>>, d: Dict<int, seq<seq<int>>>,
                       blocks: seq<(int, seq<seq<int>>)>, ok: int -> bool)
    requires |d0| == 0
    requires forall b :: b in blocks ==> ok(b.0)
    requires forall k :: k in KeySet(d) ==> k in KeySet(d0) || exists b :: b in blocks && b.0 == k
    ensures forall k :: k in KeySet(d) ==> ok(k)
  {
    assert KeySet(d0) == {};
  }

  // ---------------------------------------------------------------- sections of rows

  /** A section reader: outside a section, a line that passes `header` opens one; inside,
      a line that passes `stop` closes it and every other line goes through `row`, whose
      failure ends the reading. Every line is stripped first. */
  function ScanFrom<A>(lines: seq<string>, i: nat, inside: bool, acc: A,
                       header: string -> bool, stop: string -> bool, row: (A, string) -> Result<A>): Result<A>
    decreases |lines| - i
  {
    if i >= |lines| then Success(acc)
    else
      var line := Strip(lines[i]);
      if !inside then ScanFrom(lines, i + 1, header(line), acc, header, stop, row)
      else if stop(line) then ScanFrom(lines, i + 1, false, acc, header, stop, row)
      else
        match row(acc, line)
        case Failure(e) => Failure(e)
        case Success(a) => ScanFrom(lines, i + 1, true, a, header, stop, row)
  }

  lemma ScanOpen<A>(lines: seq<string>, i: nat, acc: A, header: string -> bool, stop: string -> bool,
                    row: (A, string) -> Result<A>)
    requires i < |lines|
    ensures ScanFrom(lines, i, false, acc, header, stop, row) ==
      ScanFrom(lines, i + 1, header(Strip(lines[i])), acc, header, stop, row)
  {
  }

  /** The end of the log, or a terminator, closes a section. */
  lemma ScanClose<A>(lines: seq<string>, i: nat, acc: A, header: string -> bool, stop: string -> bool,
                     row: (A, string) -> Result<A>)
    requires i < |lines| ==> stop(Strip(lines[i]))
    ensures ScanFrom(lines, i, true, acc, header, stop, row) == ScanFrom(lines, i + 1, false, acc, header, stop, row)
  {
  }

  lemma ScanRow<A>(lines: seq<string>, i: nat, acc: A, header: string -> bool, stop: string -> bool,
                   row: (A, string) -> Result<A>)
    requires i < |lines| && !stop(Strip(lines[i]))
    ensures row(acc, Strip(lines[i])).Failure? ==>
      ScanFrom(lines, i, true, acc, header, stop, row) == Failure(row(acc, Strip(lines[i])).error)
    ensures row(acc, Strip(lines[i])).Success? ==>
      ScanFrom(lines, i, true, acc, header, stop, row) ==
      ScanFrom(lines, i + 1, true, row(acc, Strip(lines[i])).value, header, stop, row)
  {
  }

  /** A property every row keeps holds of the result. */
  lemma {:induction false} ScanPreserves<A>(lines: seq<string>, i: nat, inside: bool, acc: A,
                                             header: string -> bool, stop: string -> bool,
                                             row: (A, string) -> Result<A>, keep: A -> bool)
    requires keep(acc)
    requires forall a, line :: keep(a) && row(a, line).Success? ==> keep(row(a, line).value)
    ensures ScanFrom(lines, i, inside, acc, header, stop, row).Success? ==>
      keep(ScanFrom(lines, i, inside, acc, header, stop, row).value)
    decreases |lines| - i
  {
    if i < |lines| {
      var line := Strip(lines[i]);
      if !inside {
        ScanPreserves(lines, i + 1, header(line), acc, header, stop, row, keep);
      } else if stop(line) {
        ScanPreserves(lines, i + 1, false, acc, header, stop, row, keep);
      } else if row(acc, line).Success? {
        ScanPreserves(lines, i + 1, true, row(acc, line).value, header, stop, row, keep);
      }
    }
  }

  /** Lines outside a section are read only for a header: a log without one reads as the
      starting value. */
  lemma {:induction false} ScanWithoutHeader<A>(lines: seq<string>, i: nat, acc: A,
                                                 header: string -> bool, stop: string -> bool,
                                                 row: (A, string) -> Result<A>)
    requires forall j :: i <= j < |lines| ==> !header(Strip(lines[j]))
    ensures ScanFrom(lines, i, false, acc, header, stop, row) == Success(acc)
    decreases |lines| - i
  {
    if i < |lines| {
      ScanWithoutHeader(lines, i + 1, acc, header, stop, row);
    }
  }

  // t and A

  type Times = (Dict<int, real>, Dict<int, real>)

  /** The header of the `t`/`A` table: a line starting with `:` that mentions both. */
  predicate TimesHeader(line: string)
  {
    StartsWith(line, ":") && Find(line, 't') < |line| && Find(line, 'A') < |line|
  }

  predicate TimesStop(line: string)
  {
    line == ";" || line == ""
  }

  /** A row `op t A` sets `t[op]`, and `A[op]` unless A is `.`; shorter rows are ignored. */
  function TimesRow(acc: Times, line: string): Result<Times>
  {
    var parts := Split(line);
    if |parts| < 3 then Success(acc)
    else
      match ParseInt(parts[0])
      case Failure(e) => Failure(e)
      case Success(op) =>
        match ParseReal(parts[1])
        case Failure(e) => Failure(e)
        case Success(tv) =>
          if parts[2] == "." then Success((Put(acc.0, op, tv), acc.1))
          else
            match ParseReal(parts[2])
            case Failure(e) => Failure(e)
            case Success(av) => Success((Put(acc.0, op, tv), Put(acc.1, op, av)))
  }

  function TimesOf(lines: seq<string>): Result<Times>
  {
    ScanFrom(lines, 0, false, ([], []), TimesHeader, TimesStop, TimesRow)
  }

  /** The handling of one line of the `t`/`A` table. */
  method ReadTimesRow(t: Dict<int, real>, a: Dict<int, real>, line: string) returns (r: Result<Times>)
    ensures r == TimesRow((t, a), line)
  {
    var parts := Split(line);
    if |parts| >= 3 {
      var op := ParseInt(parts[0]);
      if op.Failure? {
        return Failure(op.error);
      }
      var tv := ParseReal(parts[1]);
      if tv.Failure? {
        return Failure(tv.error);
      }
      var t' := Put(t, op.value, tv.value);
      if parts[2] != "." {
        var av := ParseReal(parts[2]);
        if av.Failure? {
          return Failure(av.error);
        }
        return Success((t', Put(a, op.value, av.value)));
      }
      return Success((t', a));
    }
    return Success((t, a));
  }

  /** The inner loop of `parse_t_and_A`: the rows of a `t`/`A` section from line i up to its
      terminator j, or to the end of the log. */
  method ReadTimesSection(lines: seq<string>, i: nat, acc: Times) returns (r: Result<Times>, j: nat)
    requires i <= |lines|
    ensures i <= j <= |lines|
    ensures r.Success? && j < |lines| ==> TimesStop(Strip(lines[j]))
    ensures r.Failure? ==> ScanFrom(lines, i, true, acc, TimesHeader, TimesStop, TimesRow) == Failure(r.error)
    ensures r.Success? ==>
      ScanFrom(lines, i, true, acc, TimesHeader, TimesStop, TimesRow) ==
      ScanFrom(lines, j, true, r.value, TimesHeader, TimesStop, TimesRow)
  {
    var ct, ca := acc.0, acc.1;
    j := i;
    while j < |lines|
      invariant i <= j <= |lines|
      invariant ScanFrom(lines, i, true, acc, TimesHeader, TimesStop, TimesRow) ==
        ScanFrom(lines, j, true, (ct, ca), TimesHeader, TimesStop, TimesRow)
    {
      var line := Strip(lines[j]);
      if line == ";" || line == "" {
        break;
      }
      ScanRow(lines, j, (ct, ca), TimesHeader, TimesStop, TimesRow);
      var next := ReadTimesRow(ct, ca, line);
      if next.Failure? {
        return Failure(next.error), j;
      }
      ct, ca := next.value.0, next.value.1;
      j := j + 1;
    }
    return Success((ct, ca)), j;
  }

  /** The terminator a `t`/`A` section stopped at, or the end of the log, closes it; the
      outer loop then goes on after it. */
  lemma TimesClose(lines: seq<string>, j: nat, acc: Times)
    requires j < |lines| ==> TimesStop(Strip(lines[j]))
    ensures ScanFrom(lines, j, true, acc, TimesHeader, TimesStop, TimesRow) ==
      ScanFrom(lines, j + 1, false, acc, TimesHeader, TimesStop, TimesRow)
  {
    ScanClose(lines, j, acc, TimesHeader, TimesStop, TimesRow);
  }

  /** A section between lines i + 1 and j, closed at j, carries the outer loop from line i
      to line j + 1. */
  lemma TimesSkip(lines: seq<string>, i: nat, acc: Times, j: nat, v: Times, next: nat, r: Result<Times>)
    requires ScanFrom(lines, i, false, acc, TimesHeader, TimesStop, TimesRow) ==
      ScanFrom(lines, i + 1, true, acc, TimesHeader, TimesStop, TimesRow)
    requires ScanFrom(lines, i + 1, true, acc, TimesHeader, TimesStop, TimesRow) ==
      ScanFrom(lines, j, true, v, TimesHeader, TimesStop, TimesRow)
    requires ScanFrom(lines, j, true, v, TimesHeader, TimesStop, TimesRow) ==
      ScanFrom(lines, j + 1, false, v, TimesHeader, TimesStop, TimesRow)
    requires next == j + 1 && r == Success(v)
    ensures ScanFrom(lines, i, false, acc, TimesHeader, TimesStop, TimesRow) ==
      ScanFrom(lines, next, false, r.value, TimesHeader, TimesStop, TimesRow)
  {
  }

  /** One turn of the outer loop of `parse_t_and_A` at line i: a header line reads its
      section and steps past the terminator the section stopped at; any other line is
      skipped. */
  method TimesTurn(lines: seq<string>, i: nat, acc: Times) returns (r: Result<Times>, next: nat)
    requires i < |lines|
    ensures i < next
    ensures r.Failure? ==> ScanFrom(lines, i, false, acc, TimesHeader, TimesStop, TimesRow) == Failure(r.error)
    ensures r.Success? ==>
      ScanFrom(lines, i, false, acc, TimesHeader, TimesStop, TimesRow) ==
      ScanFrom(lines, next, false, r.value, TimesHeader, TimesStop, TimesRow)
  {
    var line := Strip(lines[i]);
    ScanOpen(lines, i, acc, TimesHeader, TimesStop, TimesRow);
    if TimesHeader(line) {
      assert ScanFrom(lines, i, false, acc, TimesHeader, TimesStop, TimesRow) ==
        ScanFrom(lines, i + 1, true, acc, TimesHeader, TimesStop, TimesRow);
      var section, j := ReadTimesSection(lines, i + 1, acc);
      if section.Failure? {
        return Failure(section.error), i + 1;
      }
      TimesClose(lines, j, section.value);
      r, next := section, j + 1;
      TimesSkip(lines, i, acc, j, section.value, next, r);
      return;
    }
    assert ScanFrom(lines, i, false, acc, TimesHeader, TimesStop, TimesRow) ==
      ScanFrom(lines, i + 1, false, acc, TimesHeader, TimesStop, TimesRow);
    r, next := Success(acc), i + 1;
    assert ScanFrom(lines, i, false, acc, TimesHeader, TimesStop, TimesRow) ==
      ScanFrom(lines, next, false, r.value, TimesHeader, TimesStop, TimesRow);
  }

  /** `parse_t_and_A`. */
  method ParseTimes(lines: seq<string>) returns (r: Result<Times>)
    ensures r == TimesOf(lines)
  {
    var acc: Times := ([], []);
    var i := 0;
    while i < |lines|
      invariant ScanFrom(lines, i, false, acc, TimesHeader, TimesStop, TimesRow) == TimesOf(lines)
      decreases |lines| - i
    {
      var turn, next := TimesTurn(lines, i, acc);
      if turn.Failure? {
        return turn;
      }
      acc, i := turn.value, next;
    }
    return Success(acc);
  }

  /** A row with at least three tokens sets `t` for its operation, sets `A` when the third
      token is not `.`, and leaves every other operation as it was. */
  lemma TimesRowEffect(acc: Times, line: string, k: int)
    requires TimesRow(acc, line).Success?
    ensures var parts := Split(line);
      var r := TimesRow(acc, line).value;
      if |parts| < 3 then r == acc
      else
        var op := ParseInt(parts[0]).value;
        && Lookup(r.0, op) == Some(ParseReal(parts[1]).value)
        && (parts[2] == "." ==> Lookup(r.1, op) == Lookup(acc.1, op))
        && (parts[2] != "." ==> Lookup(r.1, op) == Some(ParseReal(parts[2]).value))
        && (k != op ==> Lookup(r.0, k) == Lookup(acc.0, k) && Lookup(r.1, k) == Lookup(acc.1, k))
  {
    var parts := Split(line);
    if |parts| >= 3 {
      var op := ParseInt(parts[0]).value;
      var tv := ParseReal(parts[1]).value;
      PutLookup(acc.0, op, tv, op);
      PutLookup(acc.0, op, tv, k);
      if parts[2] != "." {
        var av := ParseReal(parts[2]).value;
        PutLookup(acc.1, op, av, op);
        PutLookup(acc.1, op, av, k);
      }
    }
  }

  /** An arrival time is only read for an operation whose completion time is read too. */
  ghost predicate ArrivalsTimed(acc: Times)
  {
    KeySet(acc.1) <= KeySet(acc.0)
  }

  lemma TimesRowKeeps(acc: Times, line: string)
    requires ArrivalsTimed(acc) && TimesRow(acc, line).Success?
    ensures ArrivalsTimed(TimesRow(acc, line).value)
  {
    var parts := Split(line);
    if |parts| >= 3 {
      var op := ParseInt(parts[0]).value;
      PutKeySet(acc.0, op, ParseReal(parts[1]).value);
      if parts[2] != "." {
        PutKeySet(acc.1, op, ParseReal(parts[2]).value);
      }
    }
  }

  /** Every operation with an arrival time has a completion time. */
  lemma TimesArrivalsTimed(lines: seq<string>)
    ensures TimesOf(lines).Success? ==> KeySet(TimesOf(lines).value.1) <= KeySet(TimesOf(lines).value.0)
  {
    forall acc: Times, line | ArrivalsTimed(acc) && TimesRow(acc, line).Success?
      ensures ArrivalsTimed(TimesRow(acc, line).value)
    {
      TimesRowKeeps(acc, line);
    }
    ScanPreserves(lines, 0, false, ([], []), TimesHeader, TimesStop, TimesRow, ArrivalsTimed);
  }

  // p

  type Triple = (int, int, real)

  predicate ProcessingHeader(line: string)
  {
    StartsWith(line, "p [*,*]")
  }

  /** The triples of columns 1 to n - 1 of a row of operation op, after acc: one for each
      column whose token is not `.`, its value read by `number` (`float`). */
  function ColumnsInto(acc: seq<Triple>, op: int, parts: seq<string>, n: nat, number: string -> Result<real>): Result<seq<Triple>>
    requires n <= |parts|
  {
    if n <= 1 then Success(acc)
    else
      match ColumnsInto(acc, op, parts, n - 1, number)
      case Failure(e) => Failure(e)
      case Success(prev) =>
        if parts[n - 1] == "." then Success(prev)
        else
          match number(parts[n - 1])
          case Failure(e) => Failure(e)
          case Success(x) => Success(prev + [(op, n - 1, x)])
  }

  /** A token that is not a number ends the reading of the row. */
  lemma {:induction false} ColumnsFailure(acc: seq<Triple>, op: int, parts: seq<string>, m: nat, n: nat, number: string -> Result<real>)
    requires m <= n <= |parts| && ColumnsInto(acc, op, parts, m, number).Failure?
    ensures ColumnsInto(acc, op, parts, n, number) == ColumnsInto(acc, op, parts, m, number)
    decreases n
  {
    if n > m {
      ColumnsFailure(acc, op, parts, m, n - 1, number);
    }
  }

  /** A row of the `p` table; lines starting with `:` and rows whose first token is not an
      integer are skipped. */
  function ProcessingRow(acc: seq<Triple>, line: string): Result<seq<Triple>>
  {
    var parts := Split(line);
    if StartsWith(line, ":") || |parts| <= 1 then Success(acc)
    else
      match ParseInt(parts[0])
      case Failure(_) => Success(acc)
      case Success(op) => ColumnsInto(acc, op, parts, |parts|, ParseReal)
  }

  function ProcessingOf(lines: seq<string>): Result<seq<Triple>>
  {
    ScanFrom(lines, 0, false, [], ProcessingHeader, TimesStop, ProcessingRow)
  }

  /** `for j, time_value in enumerate(parts[1:], start=1)`: the triples of a row of
      operation op appended to p. */
  method ReadColumns(p: seq<Triple>, op: int, parts: seq<string>) returns (r: Result<seq<Triple>>)
    ensures r == ColumnsInto(p, op, parts, |parts|, ParseReal)
  {
    var out := p;
    var j := 1;
    if |parts| == 0 {
      return Success(p);
    }
    while j < |parts|
      invariant 1 <= j <= |parts|
      invariant ColumnsInto(p, op, parts, j, ParseReal) == Success(out)
    {
      if parts[j] != "." {
        var x := ParseReal(parts[j]);
        ColumnsStep(p, op, parts, j, ParseReal, out, x);
        if x.Failure? {
          ColumnsFailure(p, op, parts, j + 1, |parts|, ParseReal);
          return Failure(x.error);
        }
        out := out + [(op, j, x.value)];
      } else {
        ColumnsStep(p, op, parts, j, ParseReal, out, Success(0.0));
      }
      j := j + 1;
    }
    return Success(out);
  }

  /** One more column: a `.` adds nothing, a number adds its triple, anything else fails. */
  lemma ColumnsStep(acc: seq<Triple>, op: int, parts: seq<string>, j: nat, number: string -> Result<real>,
                    out: seq<Triple>, x: Result<real>)
    requires 1 <= j < |parts| && ColumnsInto(acc, op, parts, j, number) == Success(out)
    requires parts[j] != "." ==> x == number(parts[j])
    ensures ColumnsInto(acc, op, parts, j + 1, number)
      == if parts[j] == "." then Success(out)
         else if x.Failure? then Failure(x.error)
         else Success(out + [(op, j, x.value)])
  {
  }

  /** The handling of one line of the `p` table, appending its triples to p. */
  method ReadProcessingRow(p: seq<Triple>, line: string) returns (r: Result<seq<Triple>>)
    ensures r == ProcessingRow(p, line)
  {
    if StartsWith(line, ":") {
      return Success(p);
    }
    var parts := Split(line);
    if |parts| > 1 {
      var op := ParseInt(parts[0]);
      if op.Failure? {
        return Success(p);
      }
      r := ReadColumns(p, op.value, parts);
      return;
    }
    return Success(p);
  }

  /** A terminator is not a header, so reading it again outside the section skips it, just
      as closing the section on it does. */
  lemma ProcessingResume(lines: seq<string>, i: nat, p: seq<Triple>)
    requires i < |lines| ==> TimesStop(Strip(lines[i]))
    ensures ScanFrom(lines, i, true, p, ProcessingHeader, TimesStop, ProcessingRow) ==
      ScanFrom(lines, i, false, p, ProcessingHeader, TimesStop, ProcessingRow)
  {
    ScanClose(lines, i, p, ProcessingHeader, TimesStop, ProcessingRow);
    if i < |lines| {
      ScanOpen(lines, i, p, ProcessingHeader, TimesStop, ProcessingRow);
      assert !ProcessingHeader(Strip(lines[i]));
    }
  }

  /** The inner loop of `parse_processing_time`: the rows of a `p` section from line i up to
      its terminator j, or to the end of the log. */
  method ReadProcessingSection(lines: seq<string>, i: nat, p: seq<Triple>) returns (r: Result<seq<Triple>>, j: nat)
    requires i <= |lines|
    ensures i <= j <= |lines|
    ensures r.Success? && j < |lines| ==> TimesStop(Strip(lines[j]))
    ensures r.Failure? ==> ScanFrom(lines, i, true, p, ProcessingHeader, TimesStop, ProcessingRow) == Failure(r.error)
    ensures r.Success? ==>
      ScanFrom(lines, i, true, p, ProcessingHeader, TimesStop, ProcessingRow) ==
      ScanFrom(lines, j, true, r.value, ProcessingHeader, TimesStop, ProcessingRow)
  {
    var out := p;
    j := i;
    while j < |lines|
      invariant i <= j <= |lines|
      invariant ScanFrom(lines, i, true, p, ProcessingHeader, TimesStop, ProcessingRow) ==
        ScanFrom(lines, j, true, out, ProcessingHeader, TimesStop, ProcessingRow)
    {
      var line := Strip(lines[j]);
      if line == ";" || line == "" {
        break;
      }
      ScanRow(lines, j, out, ProcessingHeader, TimesStop, ProcessingRow);
      var next := ReadProcessingRow(out, line);
      if next.Failure? {
        return Failure(next.error), j;
      }
      out := next.value;
      j := j + 1;
    }
    return Success(out), j;
  }

  /** `parse_processing_time`. The terminator is left for the outer loop, which skips it. */
  method ParseProcessing(lines: seq<string>) returns (r: Result<seq<Triple>>)
    ensures r == ProcessingOf(lines)
  {
    var p: seq<Triple> := [];
    var i := 0;
    while i < |lines|
      invariant ScanFrom(lines, i, false, p, ProcessingHeader, TimesStop, ProcessingRow) == ProcessingOf(lines)
      decreases |lines| - i
    {
      ScanOpen(lines, i, p, ProcessingHeader, TimesStop, ProcessingRow);
      var line := Strip(lines[i]);
      if ProcessingHeader(line) {
        var section, j := ReadProcessingSection(lines, i + 1, p);
        if section.Failure? {
          return Failure(section.error);
        }
        p, i := section.value, j;
        ProcessingResume(lines, i, p);
      } else {
        i := i + 1;
      }
    }
    return Success(p);
  }

  /** Reading a row fails exactly when one of its tokens from column 1 on is neither `.`
      nor a number. */
  lemma {:induction false} ColumnsSucceed(acc: seq<Triple>, op: int, parts: seq<string>, n: nat,
                                          number: string -> Result<real>)
    requires n <= |parts|
    ensures ColumnsInto(acc, op, parts, n, number).Success? <==>
      forall j :: 1 <= j < n && parts[j] != "." ==> number(parts[j]).Success?
  {
    if n > 1 {
      ColumnsSucceed(acc, op, parts, n - 1, number);
    }
  }

  /** x is the triple of a column j from 1 below n whose token is not `.`. */
  ghost predicate ColumnTriple(op: int, parts: seq<string>, n: nat, number: string -> Result<real>, x: Triple)
    requires n <= |parts|
  {
    exists j :: 1 <= j < n && parts[j] != "." && number(parts[j]) == Success(x.2) && x == (op, j, x.2)
  }

  /** The triples a row adds after acc are exactly (op, j, value) for the columns j from 1
      whose token is not `.`. */
  lemma {:induction false} ColumnsExact(acc: seq<Triple>, op: int, parts: seq<string>, n: nat,
                                        number: string -> Result<real>)
    requires n <= |parts|
    requires ColumnsInto(acc, op, parts, n, number).Success?
    ensures var r := ColumnsInto(acc, op, parts, n, number).value;
      && |acc| <= |r| && r[..|acc|] == acc
      && forall x :: x in r[|acc|..] <==> ColumnTriple(op, parts, n, number, x)
  {
    if n > 1 {
      var prev := ColumnsInto(acc, op, parts, n - 1, number);
      ColumnsExact(acc, op, parts, n - 1, number);
      var p := prev.value;
      var r := ColumnsInto(acc, op, parts, n, number).value;
      if parts[n - 1] == "." {
        assert r == p;
        forall x
          ensures ColumnTriple(op, parts, n, number, x) <==> ColumnTriple(op, parts, n - 1, number, x)
        {
          if ColumnTriple(op, parts, n, number, x) {
            var j :| 1 <= j < n && parts[j] != "." && number(parts[j]) == Success(x.2) && x == (op, j, x.2);
            assert j < n - 1;
          }
        }
      } else {
        var t := (op, n - 1, number(parts[n - 1]).value);
        assert r == p + [t];
        assert r[..|acc|] == p[..|acc|];
        assert r[|acc|..] == p[|acc|..] + [t];
        forall x
          ensures ColumnTriple(op, parts, n, number, x) <==> ColumnTriple(op, parts, n - 1, number, x) || x == t
        {
          if ColumnTriple(op, parts, n, number, x) {
            var j :| 1 <= j < n && parts[j] != "." && number(parts[j]) == Success(x.2) && x == (op, j, x.2);
            if j < n - 1 {
              assert ColumnTriple(op, parts, n - 1, number, x);
            }
          }
        }
      }
    } else {
      assert ColumnsInto(acc, op, parts, n, number).value[|acc|..] == [];
    }
  }

  /** Every triple read names a machine column from 1. */
  ghost predicate ColumnsFromOne(p: seq<Triple>)
  {
    forall x :: x in p ==> x.1 >= 1
  }

  lemma ProcessingColumns(lines: seq<string>)
    ensures ProcessingOf(lines).Success? ==> ColumnsFromOne(ProcessingOf(lines).value)
  {
    forall acc: seq<Triple>, line | ColumnsFromOne(acc) && ProcessingRow(acc, line).Success?
      ensures ColumnsFromOne(ProcessingRow(acc, line).value)
    {
      var parts := Split(line);
      if !StartsWith(line, ":") && |parts| > 1 && ParseInt(parts[0]).Success? {
        ColumnsExact(acc, ParseInt(parts[0]).value, parts, |parts|, ParseReal);
        var r := ProcessingRow(acc, line).value;
        forall x | x in r
          ensures x.1 >= 1
        {
          var k :| 0 <= k < |r| && r[k] == x;
          if k >= |acc| {
            assert x in r[|acc|..];
          } else {
            assert x == acc[k];
          }
        }
      }
    }
    ScanPreserves(lines, 0, false, [], ProcessingHeader, TimesStop, ProcessingRow, ColumnsFromOne);
  }

  // d

  predicate DatesHeader(line: string)
  {
    StartsWith(line, "d [*] :=")
  }

  predicate DatesStop(line: string)
  {
    StartsWith(line, ";") || line == ""
  }

  /** A row of exactly two tokens `truck date` sets `d[truck]`; other rows are ignored. */
  function DatesRow(acc: Dict<int, real>, line: string): Result<Dict<int, real>>
  {
    var parts := Split(line);
    if |parts| != 2 then Success(acc)
    else
      match ParseInt(parts[0])
      case Failure(e) => Failure(e)
      case Success(truck) =>
        match ParseReal(parts[1])
        case Failure(e) => Failure(e)
        case Success(x) => Success(Put(acc, truck, x))
  }

  function DatesOf(lines: seq<string>): Result<Dict<int, real>>
  {
    ScanFrom(lines, 0, false, [], DatesHeader, DatesStop, DatesRow)
  }

  /** The handling of one line of the `d` table. */
  method ReadDatesRow(d: Dict<int, real>, line: string) returns (r: Result<Dict<int, real>>)
    ensures r == DatesRow(d, line)
  {
    var parts := Split(line);
    if |parts| == 2 {
      var truck := ParseInt(parts[0]);
      if truck.Failure? {
        return Failure(truck.error);
      }
      var x := ParseReal(parts[1]);
      if x.Failure? {
        return Failure(x.error);
      }
      return Success(Put(d, truck.value, x.value));
    }
    return Success(d);
  }

  /** The inner loop of `parse_d`: the rows of the `d` section from line i up to its
      terminator j, or to the end of the log. */
  method ReadDatesSection(lines: seq<string>, i: nat, acc: Dict<int, real>) returns (r: Result<Dict<int, real>>, j: nat)
    requires i <= |lines|
    ensures i <= j <= |lines|
    ensures r.Success? && j < |lines| ==> DatesStop(Strip(lines[j]))
    ensures r.Failure? ==> ScanFrom(lines, i, true, acc, DatesHeader, DatesStop, DatesRow) == Failure(r.error)
    ensures r.Success? ==>
      ScanFrom(lines, i, true, acc, DatesHeader, DatesStop, DatesRow) ==
      ScanFrom(lines, j, true, r.value, DatesHeader, DatesStop, DatesRow)
  {
    var d := acc;
    j := i;
    while j < |lines|
      invariant i <= j <= |lines|
      invariant ScanFrom(lines, i, true, acc, DatesHeader, DatesStop, DatesRow) ==
        ScanFrom(lines, j, true, d, DatesHeader, DatesStop, DatesRow)
    {
      var line := Strip(lines[j]);
      if StartsWith(line, ";") || line == "" {
        break;
      }
      var next := ReadDatesRow(d, line);
      DatesRowStep(lines, i, acc, j, d, next);
      if next.Failure? {
        return Failure(next.error), j;
      }
      d := next.value;
      j := j + 1;
    }
    return Success(d), j;
  }

  /** One row of a `d` section read at line j. */
  lemma DatesRowStep(lines: seq<string>, i: nat, acc: Dict<int, real>, j: nat, d: Dict<int, real>,
                     next: Result<Dict<int, real>>)
    requires j < |lines| && !DatesStop(Strip(lines[j]))
    requires ScanFrom(lines, i, true, acc, DatesHeader, DatesStop, DatesRow) ==
      ScanFrom(lines, j, true, d, DatesHeader, DatesStop, DatesRow)
    requires next == DatesRow(d, Strip(lines[j]))
    ensures next.Failure? ==> ScanFrom(lines, i, true, acc, DatesHeader, DatesStop, DatesRow) == Failure(next.error)
    ensures next.Success? ==>
      ScanFrom(lines, i, true, acc, DatesHeader, DatesStop, DatesRow) ==
      ScanFrom(lines, j + 1, true, next.value, DatesHeader, DatesStop, DatesRow)
  {
    ScanRow(lines, j, d, DatesHeader, DatesStop, DatesRow);
  }

  /** A `d` section between lines i + 1 and j, closed at j, carries the outer loop from
      line i to line j + 1. */
  lemma DatesSkip(lines: seq<string>, i: nat, acc: Dict<int, real>, j: nat, v: Dict<int, real>, next: nat,
                  r: Result<Dict<int, real>>)
    requires ScanFrom(lines, i, false, acc, DatesHeader, DatesStop, DatesRow) ==
      ScanFrom(lines, i + 1, true, acc, DatesHeader, DatesStop, DatesRow)
    requires ScanFrom(lines, i + 1, true, acc, DatesHeader, DatesStop, DatesRow) ==
      ScanFrom(lines, j, true, v, DatesHeader, DatesStop, DatesRow)
    requires ScanFrom(lines, j, true, v, DatesHeader, DatesStop, DatesRow) ==
      ScanFrom(lines, j + 1, false, v, DatesHeader, DatesStop, DatesRow)
    requires next == j + 1 && r == Success(v)
    ensures ScanFrom(lines, i, false, acc, DatesHeader, DatesStop, DatesRow) ==
      ScanFrom(lines, next, false, r.value, DatesHeader, DatesStop, DatesRow)
  {
  }

  /** One turn of the outer loop of `parse_d` at line i: a header line reads its section
      and steps past the terminator the section stopped at; any other line is skipped. */
  method DatesTurn(lines: seq<string>, i: nat, acc: Dict<int, real>) returns (r: Result<Dict<int, real>>, next: nat)
    requires i < |lines|
    ensures i < next
    ensures r.Failure? ==> ScanFrom(lines, i, false, acc, DatesHeader, DatesStop, DatesRow) == Failure(r.error)
    ensures r.Success? ==>
      ScanFrom(lines, i, false, acc, DatesHeader, DatesStop, DatesRow) ==
      ScanFrom(lines, next, false, r.value, DatesHeader, DatesStop, DatesRow)
  {
    var line := Strip(lines[i]);
    ScanOpen(lines, i, acc, DatesHeader, DatesStop, DatesRow);
    if DatesHeader(line) {
      assert ScanFrom(lines, i, false, acc, DatesHeader, DatesStop, DatesRow) ==
        ScanFrom(lines, i + 1, true, acc, DatesHeader, DatesStop, DatesRow);
      var section, j := ReadDatesSection(lines, i + 1, acc);
      if section.Failure? {
        return Failure(section.error), i + 1;
      }
      ScanClose(lines, j, section.value, DatesHeader, DatesStop, DatesRow);
      r, next := section, j + 1;
      DatesSkip(lines, i, acc, j, section.value, next, r);
      return;
    }
    assert ScanFrom(lines, i, false, acc, DatesHeader, DatesStop, DatesRow) ==
      ScanFrom(lines, i + 1, false, acc, DatesHeader, DatesStop, DatesRow);
    r, next := Success(acc), i + 1;
    assert ScanFrom(lines, i, false, acc, DatesHeader, DatesStop, DatesRow) ==
      ScanFrom(lines, next, false, r.value, DatesHeader, DatesStop, DatesRow);
  }

  /** `parse_d`. */
  method ParseDates(lines: seq<string>) returns (r: Result<Dict<int, real>>)
    ensures r == DatesOf(lines)
  {
    var d: Dict<int, real> := [];
    var i := 0;
    while i < |lines|
      invariant ScanFrom(lines, i, false, d, DatesHeader, DatesStop, DatesRow) == DatesOf(lines)
      decreases |lines| - i
    {
      var turn, next := DatesTurn(lines, i, d);
      if turn.Failure? {
        return turn;
      }
      d, i := turn.value, next;
    }
    return Success(d);
  }

  /** The line `<truck> <date>` of the due-date table reads back as that date for that
      truck, and changes no other truck's date. */
  lemma DatesLine(acc: Dict<int, real>, truck: int, date: int, k: int)
    ensures DatesRow(acc, Join([IntString(truck), IntString(date)])).Success?
    ensures var r := DatesRow(acc, Join([IntString(truck), IntString(date)])).value;
      && Lookup(r, truck) == Some(date as real)
      && (k != truck ==> Lookup(r, k) == Lookup(acc, k))
  {
    var ws := [IntString(truck), IntString(date)];
    IntStringToken(truck);
    IntStringToken(date);
    SplitJoin(ws);
    ParseIntString(truck);
    ParseIntString(date);
    ParseRealOfInt(IntString(date));
    PutLookup(acc, truck, date as real, truck);
    PutLookup(acc, truck, date as real, k);
  }
}
