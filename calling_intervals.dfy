/** The ExAC calling regions: an `.interval_list` file loaded into an `intervals` table with a
    unique (chrom, start, end) index, and the point query that finds the one region around a
    variant. */
module CallingIntervals {
  import opened Wrappers
  import opened Text

  /** A value stored in a column of INTEGER affinity: text that reads as an integer is stored as
      that integer; any other text is kept as text. */
  datatype Cell = IntCell(n: int) | TextCell(t: string)

  function Stored(s: string, asInteger: string -> Option<int>): Cell
  {
    match asInteger(s)
    case Some(n) => IntCell(n)
    case None => TextCell(s)
  }

  /** A row of the `intervals(chrom, start, end, strand, name)` table. */
  datatype Interval = Interval(chrom: string, start: Cell, end: Cell, strand: string, name: string)

  /** The columns of the unique index. */
  datatype IntervalKey = IntervalKey(chrom: string, start: Cell, end: Cell)

  function KeyOf(iv: Interval): IntervalKey
  {
    IntervalKey(iv.chrom, iv.start, iv.end)
  }

  datatype LoadError =
    | WrongFieldCount(line: string, count: nat)  // the INSERT does not get exactly five values
    | DuplicateInterval(key: IntervalKey)        // the unique index rejects the row

  /** Header lines start with `@`. */
  predicate IsHeader(line: string)
  {
    StartsWith(line, "@")
  }

  /** The tab-separated fields of a line without its newlines. */
  function LineFields(line: string): seq<string>
  {
    Split(StripNewlines(line), '\t')
  }

  /** The row one data line becomes. */
  function DecodeLine(line: string, asInteger: string -> Option<int>): Result<Interval, LoadError>
  {
    var f := LineFields(line);
    if |f| != 5 then Err(WrongFieldCount(line, |f|))
    else Ok(Interval(f[0], Stored(f[1], asInteger), Stored(f[2], asInteger), f[3], f[4]))
  }

  /** The fields of a tab-joined line read back from the file are the joined fields. */
  lemma LineFieldsOfJoin(fields: seq<string>)
    requires |fields| >= 1 && forall i :: 0 <= i < |fields| ==> '\t' !in fields[i]
    requires fields[0] != [] && fields[0][0] != '\n'
    requires fields[|fields| - 1] != [] && fields[|fields| - 1][|fields[|fields| - 1]| - 1] != '\n'
    ensures LineFields(Join(fields, '\t') + "\n") == fields
  {
    JoinFirst(fields, '\t');
    JoinLast(fields, '\t');
    StripTerminator(Join(fields, '\t'));
    SplitJoin(fields, '\t');
  }

  /** A tab-separated line of five fields, as the intervals file holds it, decodes to the row of
      those fields: chromosome, strand and name as written, start and end as stored under
      INTEGER affinity. */
  lemma DecodeLineRoundTrip(chrom: string, start: string, end: string, strand: string, name: string,
                            asInteger: string -> Option<int>)
    requires '\t' !in chrom && '\t' !in start && '\t' !in end && '\t' !in strand && '\t' !in name
    requires chrom != [] && chrom[0] != '\n' && name != [] && name[|name| - 1] != '\n'
    ensures DecodeLine(Join([chrom, start, end, strand, name], '\t') + "\n", asInteger)
         == Ok(Interval(chrom, Stored(start, asInteger), Stored(end, asInteger), strand, name))
  {
    var fields := [chrom, start, end, strand, name];
    forall i | 0 <= i < |fields| ensures '\t' !in fields[i] {
      assert i == 0 || i == 1 || i == 2 || i == 3 || i == 4;
    }
    LineFieldsOfJoin(fields);
  }

  /** `DecodeLine` for a fixed integer reading. */
  function LineDecoder(asInteger: string -> Option<int>): string -> Result<Interval, LoadError>
  {
    line => DecodeLine(line, asInteger)
  }

  predicate HasKey(t: seq<Interval>, k: IntervalKey)
  {
    exists i :: 0 <= i < |t| && KeyOf(t[i]) == k
  }

  /** No two rows share (chrom, start, end). */
  predicate KeysUnique(t: seq<Interval>)
  {
    forall i, j :: 0 <= i < j < |t| ==> KeyOf(t[i]) != KeyOf(t[j])
  }

  /** The table after the first `n` lines, each data line turned into a row by `decode`, or the
      error the first bad line raises. */
  function LoadFrom(decode: string -> Result<Interval, LoadError>, lines: seq<string>, n: nat): Result<seq<Interval>, LoadError>
    requires n <= |lines|
  {
    if n == 0 then Ok([])
    else match LoadFrom(decode, lines, n - 1)
      case Err(e) => Err(e)
      case Ok(t) =>
        if IsHeader(lines[n - 1]) then Ok(t)
        else match decode(lines[n - 1])
          case Err(e) => Err(e)
          case Ok(iv) => if HasKey(t, KeyOf(iv)) then Err(DuplicateInterval(KeyOf(iv))) else Ok(t + [iv])
  }

  /** The lines that are not headers, in file order. */
  function DataLines(lines: seq<string>): seq<string>
  {
    if lines == [] then []
    else DataLines(lines[..|lines| - 1]) + (if IsHeader(lines[|lines| - 1]) then [] else [lines[|lines| - 1]])
  }

  lemma ErrorPersists(decode: string -> Result<Interval, LoadError>, lines: seq<string>, m: nat, n: nat)
    requires m <= n <= |lines| && LoadFrom(decode, lines, m).Err?
    ensures LoadFrom(decode, lines, n) == LoadFrom(decode, lines, m)
    decreases n - m
  {
    if m < n {
      ErrorPersists(decode, lines, m + 1, n);
    }
  }

  /** The line loop of `parse_exac_calling_intervals`: skip the `@` header lines and insert every
      other line as a row, failing on the first line the insert rejects. */
  method InsertLines(decode: string -> Result<Interval, LoadError>, lines: seq<string>) returns (r: Result<seq<Interval>, LoadError>)
    ensures r == LoadFrom(decode, lines, |lines|)
  {
    var intervals: seq<Interval> := [];
    for i := 0 to |lines|
      invariant LoadFrom(decode, lines, i) == Ok(intervals)
    {
      var line := lines[i];
      if IsHeader(line) {
        continue;
      }
      var row := decode(line);
      if row.Err? {
        ErrorPersists(decode, lines, i + 1, |lines|);
        return Err(row.error);
      }
      if HasKey(intervals, KeyOf(row.value)) {
        ErrorPersists(decode, lines, i + 1, |lines|);
        return Err(DuplicateInterval(KeyOf(row.value)));
      }
      intervals := intervals + [row.value];
    }
    r := Ok(intervals);
  }

  /** `parse_exac_calling_intervals`: every line that is not an `@` header must have exactly five
      tab-separated fields, and no two may share (chrom, start, end). */
  method LoadIntervals(lines: seq<string>, asInteger: string -> Option<int>) returns (r: Result<seq<Interval>, LoadError>)
    ensures r == LoadFrom(LineDecoder(asInteger), lines, |lines|)
  {
    r := InsertLines(LineDecoder(asInteger), lines);
  }

  /** A loaded table holds one row per data line, in file order, each decoded from its line, and
      no two rows share (chrom, start, end). */
  lemma {:induction false} LoadSound(decode: string -> Result<Interval, LoadError>, lines: seq<string>, n: nat)
    requires n <= |lines| && LoadFrom(decode, lines, n).Ok?
    ensures var t := LoadFrom(decode, lines, n).value;
      var data := DataLines(lines[..n]);
      && |t| == |data|
      && (forall k :: 0 <= k < |t| ==> decode(data[k]) == Ok(t[k]))
      && KeysUnique(t)
  {
    if n > 0 {
      LoadSound(decode, lines, n - 1);
      assert lines[..n][..n - 1] == lines[..n - 1];
      var t := LoadFrom(decode, lines, n - 1).value;
      if !IsHeader(lines[n - 1]) {
        var iv := decode(lines[n - 1]).value;
        assert !HasKey(t, KeyOf(iv));
        assert KeysUnique(t + [iv]) by {
          forall i, j | 0 <= i < j < |t| + 1 ensures KeyOf((t + [iv])[i]) != KeyOf((t + [iv])[j]) {
            if j == |t| {
              assert (t + [iv])[i] == t[i];
            }
          }
        }
      }
    }
  }

  /** Every data line among the first `n` of a loaded table is one of its rows, and every row
      comes from such a line. */
  lemma {:induction false} LoadRowsFromLines(decode: string -> Result<Interval, LoadError>, lines: seq<string>, n: nat)
    requires n <= |lines| && LoadFrom(decode, lines, n).Ok?
    ensures forall i :: 0 <= i < n && !IsHeader(lines[i]) ==>
      decode(lines[i]).Ok? && decode(lines[i]).value in LoadFrom(decode, lines, n).value
    ensures forall iv :: iv in LoadFrom(decode, lines, n).value ==>
      exists i :: 0 <= i < n && !IsHeader(lines[i]) && decode(lines[i]) == Ok(iv)
  {
    if n > 0 {
      LoadRowsFromLines(decode, lines, n - 1);
    }
  }

  /** The line a row came from. */
  lemma RowOrigin(decode: string -> Result<Interval, LoadError>, lines: seq<string>, n: nat, a: nat) returns (i: nat)
    requires n <= |lines| && LoadFrom(decode, lines, n).Ok? && a < |LoadFrom(decode, lines, n).value|
    ensures i < n && !IsHeader(lines[i]) && decode(lines[i]) == Ok(LoadFrom(decode, lines, n).value[a])
  {
    LoadRowsFromLines(decode, lines, n);
    var t := LoadFrom(decode, lines, n).value;
    assert t[a] in t;
    i :| 0 <= i < n && !IsHeader(lines[i]) && decode(lines[i]) == Ok(t[a]);
  }

  /** The row a data line became. */
  lemma RowOf(decode: string -> Result<Interval, LoadError>, lines: seq<string>, n: nat, i: nat) returns (a: nat)
    requires n <= |lines| && LoadFrom(decode, lines, n).Ok? && i < n && !IsHeader(lines[i])
    ensures decode(lines[i]).Ok?
    ensures a < |LoadFrom(decode, lines, n).value| && LoadFrom(decode, lines, n).value[a] == decode(lines[i]).value
  {
    LoadRowsFromLines(decode, lines, n);
    var t := LoadFrom(decode, lines, n).value;
    a :| 0 <= a < |t| && t[a] == decode(lines[i]).value;
  }

  /** Two data lines among the first `n` that decode to rows with the same key. */
  predicate ClashBefore(decode: string -> Result<Interval, LoadError>, lines: seq<string>, n: nat, k: IntervalKey)
    requires n <= |lines|
  {
    exists i, j :: 0 <= i < j < n && !IsHeader(lines[i]) && !IsHeader(lines[j])
      && decode(lines[i]).Ok? && decode(lines[j]).Ok?
      && KeyOf(decode(lines[i]).value) == k && KeyOf(decode(lines[j]).value) == k
  }

  /** Some two data lines among the first `n` clash. */
  ghost predicate AnyClash(decode: string -> Result<Interval, LoadError>, lines: seq<string>, n: nat)
    requires n <= |lines|
  {
    exists k :: ClashBefore(decode, lines, n, k)
  }

  /** Some data line among the first `n` is rejected by `decode`. */
  predicate BadLineBefore(decode: string -> Result<Interval, LoadError>, lines: seq<string>, n: nat)
    requires n <= |lines|
  {
    exists i :: 0 <= i < n && !IsHeader(lines[i]) && decode(lines[i]).Err?
  }

  lemma BadLineStep(decode: string -> Result<Interval, LoadError>, lines: seq<string>, m: nat, n: nat)
    requires n == m + 1 <= |lines|
    ensures BadLineBefore(decode, lines, n) <==>
      BadLineBefore(decode, lines, m) || (!IsHeader(lines[m]) && decode(lines[m]).Err?)
  {
  }

  lemma ClashStep(decode: string -> Result<Interval, LoadError>, lines: seq<string>, m: nat, n: nat)
    requires n == m + 1 <= |lines|
    ensures AnyClash(decode, lines, m) ==> AnyClash(decode, lines, n)
    ensures IsHeader(lines[m]) ==> (AnyClash(decode, lines, n) <==> AnyClash(decode, lines, m))
  {
    if AnyClash(decode, lines, m) {
      var k :| ClashBefore(decode, lines, m, k);
      assert ClashBefore(decode, lines, n, k);
    }
    if IsHeader(lines[m]) && AnyClash(decode, lines, n) {
      var k :| ClashBefore(decode, lines, n, k);
      assert ClashBefore(decode, lines, m, k);
    }
  }

  /** A data line whose key no earlier row has cannot be the second line of a clash. */
  lemma NoNewClash(decode: string -> Result<Interval, LoadError>, lines: seq<string>, m: nat, n: nat)
    requires n == m + 1 <= |lines| && LoadFrom(decode, lines, m).Ok?
    requires !IsHeader(lines[m]) && decode(lines[m]).Ok?
    requires !HasKey(LoadFrom(decode, lines, m).value, KeyOf(decode(lines[m]).value))
    requires !AnyClash(decode, lines, m)
    ensures !AnyClash(decode, lines, n)
  {
    var t := LoadFrom(decode, lines, m).value;
    forall k ensures !ClashBefore(decode, lines, n, k) {
      assert !ClashBefore(decode, lines, m, k);
      forall i, j | 0 <= i < j < n && !IsHeader(lines[i]) && !IsHeader(lines[j])
          && decode(lines[i]).Ok? && decode(lines[j]).Ok? && KeyOf(decode(lines[i]).value) == k
        ensures KeyOf(decode(lines[j]).value) != k
      {
        if j == m {
          var a := RowOf(decode, lines, m, i);
          assert KeyOf(t[a]) == k;
        }
      }
    }
  }

  /** A data line whose key an earlier row has completes a clash. */
  lemma NewClash(decode: string -> Result<Interval, LoadError>, lines: seq<string>, m: nat, n: nat)
    requires n == m + 1 <= |lines| && LoadFrom(decode, lines, m).Ok?
    requires !IsHeader(lines[m]) && decode(lines[m]).Ok?
    requires HasKey(LoadFrom(decode, lines, m).value, KeyOf(decode(lines[m]).value))
    ensures ClashBefore(decode, lines, n, KeyOf(decode(lines[m]).value))
  {
    var t := LoadFrom(decode, lines, m).value;
    var k := KeyOf(decode(lines[m]).value);
    var a :| 0 <= a < |t| && KeyOf(t[a]) == k;
    var i := RowOrigin(decode, lines, m, a);
    assert i < m;
  }

  /** Loading fails exactly when some data line is rejected by `decode` or two data lines share
      (chrom, start, end). */
  lemma {:induction false} LoadFails(decode: string -> Result<Interval, LoadError>, lines: seq<string>, n: nat)
    requires n <= |lines|
    ensures LoadFrom(decode, lines, n).Err? <==>
      BadLineBefore(decode, lines, n) || AnyClash(decode, lines, n)
  {
    if n > 0 {
      var m := n - 1;
      LoadFails(decode, lines, m);
      BadLineStep(decode, lines, m, n);
      ClashStep(decode, lines, m, n);
      var prev := LoadFrom(decode, lines, m);
      if prev.Ok? {
        var line := lines[m];
        if !IsHeader(line) && decode(line).Ok? {
          if HasKey(prev.value, KeyOf(decode(line).value)) {
            NewClash(decode, lines, m, n);
          } else {
            NoNewClash(decode, lines, m, n);
          }
        }
      }
    }
  }

  /** The error of a failed load is a data line's own error or names a key two data lines share. */
  lemma {:induction false} LoadErrorCause(decode: string -> Result<Interval, LoadError>, lines: seq<string>, n: nat)
    requires n <= |lines| && LoadFrom(decode, lines, n).Err?
    ensures var e := LoadFrom(decode, lines, n).error;
      || (exists i :: 0 <= i < n && !IsHeader(lines[i]) && decode(lines[i]) == Err(e))
      || (e.DuplicateInterval? && ClashBefore(decode, lines, n, e.key))
  {
    var m := n - 1;
    var prev := LoadFrom(decode, lines, m);
    if prev.Err? {
      LoadErrorCause(decode, lines, m);
      var e := prev.error;
      if e.DuplicateInterval? && ClashBefore(decode, lines, m, e.key) {
        var i, j :| 0 <= i < j < m && !IsHeader(lines[i]) && !IsHeader(lines[j])
          && decode(lines[i]).Ok? && decode(lines[j]).Ok?
          && KeyOf(decode(lines[i]).value) == e.key && KeyOf(decode(lines[j]).value) == e.key;
        assert ClashBefore(decode, lines, n, e.key);
      }
    } else if decode(lines[m]).Ok? {
      NewClash(decode, lines, m, n);
    }
  }

  /** SQLite orders every INTEGER before every TEXT value, so a start stored as text is never
      `<= pos` and an end stored as text is always `>= pos`. */
  predicate StartAtMost(start: Cell, pos: int)
  {
    start.IntCell? && start.n <= pos
  }

  predicate EndAtLeast(end: Cell, pos: int)
  {
    end.TextCell? || end.n >= pos
  }

  /** `chrom=? AND start<=? AND end>=?`. */
  predicate Covers(iv: Interval, chrom: string, pos: int)
  {
    iv.chrom == chrom && StartAtMost(iv.start, pos) && EndAtLeast(iv.end, pos)
  }

  /** The rows the query returns. Without `ORDER BY` SQLite promises no order; the model lists
      them in table order, and the driver only uses how many there are and, when there is one,
      that row. */
  function Matches(t: seq<Interval>, chrom: string, pos: int): seq<Interval>
  {
    if t == [] then []
    else Matches(t[..|t| - 1], chrom, pos) + (if Covers(t[|t| - 1], chrom, pos) then [t[|t| - 1]] else [])
  }

  datatype Region = Region(chrom: string, start: Cell, end: Cell)

  datatype LookupError =
    | NoOverlap(chrom: string, pos: int)
    | MultipleOverlaps(chrom: string, pos: int, count: nat)

  /** The region query of the driver and its two asserts: exactly one row may overlap. */
  function Lookup(t: seq<Interval>, chrom: string, pos: int): Result<Region, LookupError>
  {
    var m := Matches(t, chrom, pos);
    if |m| == 0 then Err(NoOverlap(chrom, pos))
    else if |m| >= 2 then Err(MultipleOverlaps(chrom, pos, |m|))
    else Ok(Region(m[0].chrom, m[0].start, m[0].end))
  }

  /** The query returns only covering rows of the table: none when no row covers, exactly that
      row when exactly one row covers, and at least two otherwise. */
  lemma {:induction false} MatchesCount(t: seq<Interval>, chrom: string, pos: int)
    ensures var m := Matches(t, chrom, pos);
      && (forall iv :: iv in m ==> iv in t && Covers(iv, chrom, pos))
      && (|m| == 0 <==> forall i :: 0 <= i < |t| ==> !Covers(t[i], chrom, pos))
      && (forall i :: (0 <= i < |t| && Covers(t[i], chrom, pos) &&
            (forall j :: 0 <= j < |t| && Covers(t[j], chrom, pos) ==> j == i)) ==> m == [t[i]])
      && (forall i, j :: 0 <= i < j < |t| && Covers(t[i], chrom, pos) && Covers(t[j], chrom, pos) ==> |m| >= 2)
  {
    if t != [] {
      var init := t[..|t| - 1];
      var last := t[|t| - 1];
      MatchesCount(init, chrom, pos);
      assert forall i :: 0 <= i < |init| ==> init[i] == t[i];
      var m := Matches(t, chrom, pos);
      forall i | 0 <= i < |t| && Covers(t[i], chrom, pos) &&
          (forall j :: 0 <= j < |t| && Covers(t[j], chrom, pos) ==> j == i)
        ensures m == [t[i]]
      {
        if i == |t| - 1 {
          assert forall j :: 0 <= j < |init| ==> !Covers(init[j], chrom, pos);
        } else {
          assert forall j :: 0 <= j < |init| && Covers(init[j], chrom, pos) ==> j == i;
        }
      }
      forall i, j | 0 <= i < j < |t| && Covers(t[i], chrom, pos) && Covers(t[j], chrom, pos)
        ensures |m| >= 2
      {
        if j == |t| - 1 {
          assert Covers(init[i], chrom, pos);
        }
      }
    }
  }

  /** The lookup succeeds exactly when one row of the table covers the position, and then returns
      that row's region; it reports no overlap exactly when no row covers it. */
  lemma LookupExact(t: seq<Interval>, chrom: string, pos: int)
    ensures Lookup(t, chrom, pos).Ok? <==>
      exists i :: 0 <= i < |t| && Covers(t[i], chrom, pos) &&
        forall j :: 0 <= j < |t| && Covers(t[j], chrom, pos) ==> j == i
    ensures Lookup(t, chrom, pos).Ok? ==>
      exists i :: 0 <= i < |t| && Covers(t[i], chrom, pos) &&
        Lookup(t, chrom, pos).value == Region(t[i].chrom, t[i].start, t[i].end)
    ensures Lookup(t, chrom, pos) == Err(NoOverlap(chrom, pos)) <==>
      forall i :: 0 <= i < |t| ==> !Covers(t[i], chrom, pos)
  {
    MatchesCount(t, chrom, pos);
    var m := Matches(t, chrom, pos);
    if |m| == 1 {
      assert m[0] in m;
      var i :| 0 <= i < |t| && t[i] == m[0];
      forall j | 0 <= j < |t| && Covers(t[j], chrom, pos) ensures j == i {
      }
    }
  }

  /** A returned region is on the variant's chromosome, and its bounds, where stored as integers,
      enclose the position. */
  lemma LookupEncloses(t: seq<Interval>, chrom: string, pos: int)
    requires Lookup(t, chrom, pos).Ok?
    ensures var r := Lookup(t, chrom, pos).value;
      r.chrom == chrom && r.start.IntCell? && r.start.n <= pos && (r.end.IntCell? ==> pos <= r.end.n)
  {
    LookupExact(t, chrom, pos);
  }
}
