/** load_trc: the numeric sample matrix and the ordered marker names of a TRC file. */
module TrcLoad {
  import opened Common
  import opened PyStr

  /** The separator between two marker names on the TRC name header line. */
  const NameSeparator: string := "\t\t\t"

  /** The name header line with its fixed 12-character label ("Frame#\tTime\t")
      and its last 3 characters removed: Python's `line[12:-3]`. */
  function TrimHeader(line: string): (r: string)
    ensures |r| == if |line| >= 15 then |line| - 15 else 0
    ensures |line| >= 15 ==> line == line[..12] + r + line[|line| - 3..]
  {
    Slice(line, 12, -3)
  }

  /** The ordered marker names: the trimmed header split on three tabs, cut at the
      leftmost occurrences of the separator.  The names join back to the trimmed header
      and none of them holds the separator. */
  function MarkerNames(line: string): (names: seq<string>)
    ensures |names| >= 1
    ensures Join(names, NameSeparator) == TrimHeader(line)
    ensures forall n :: n in names ==> !Contains(n, NameSeparator)
    ensures names == Split(TrimHeader(line), NameSeparator)
    ensures SplitsAtFirstOccurrence(TrimHeader(line), NameSeparator)
  {
    var body := TrimHeader(line);
    JoinSplit(body, NameSeparator);
    SplitPiecesFree(body, NameSeparator);
    SplitFirstPiece(body, NameSeparator);
    Split(body, NameSeparator)
  }

  /** All rows of `m` are as wide as the first one. */
  predicate Rectangular(m: seq<seq<real>>)
  {
    forall n :: 0 <= n < |m| ==> |m[n]| == |m[0]|
  }

  /** `np.loadtxt(trc_path, skiprows=5)[:,1:]`, given the numeric rows that follow the
      5 preamble lines.  Rows of unequal width make loadtxt fail; fewer than two rows or
      fewer than two columns leave a squeezed array that `[:,1:]` cannot index.
      Otherwise every row loses its first (frame number) column, so column 0 is time. */
  function LoadData(rows: seq<seq<real>>): (r: Result<seq<seq<real>>>)
    ensures !Rectangular(rows) ==> r == Err(RaggedRows)
    ensures Rectangular(rows) && (|rows| < 2 || |rows[0]| < 2) ==> r == Err(SqueezedArray)
    ensures r.Ok? <==> Rectangular(rows) && |rows| >= 2 && |rows[0]| >= 2
    ensures r.Ok? ==>
      |r.value| == |rows| && Rectangular(r.value) && |r.value[0]| == |rows[0]| - 1 &&
      forall n, c :: 0 <= n < |rows| && 0 <= c < |r.value[n]| ==> r.value[n][c] == rows[n][c + 1]
  {
    if !Rectangular(rows) then Err(RaggedRows)
    else if |rows| < 2 || |rows[0]| < 2 then Err(SqueezedArray)
    else Ok(seq(|rows|, n requires 0 <= n < |rows| => rows[n][1..]))
  }

  /** The line `f.readline()` returns when called inside `for i, line in enumerate(f)`
      at i == 2: the line after index 2, that is line 3, or "" at end of file; with fewer
      than 3 lines the call never happens. */
  function HeaderLine(lines: seq<string>): Option<string>
  {
    if |lines| < 3 then None
    else if |lines| == 3 then Some("")
    else Some(lines[3])
  }

  /** The enumerate/readline scan of the file (`lines` keep their line terminators). */
  method ReadHeaderLine(lines: seq<string>) returns (header: Option<string>)
    ensures header == HeaderLine(lines)
  {
    var pos := 0;  // the file cursor: index of the next line to be read
    var i := 0;    // the enumerate counter
    header := None;
    while pos < |lines|
      invariant 0 <= i <= 3 && pos <= |lines|
      invariant i <= 2 ==> pos == i && header == None
      invariant i == 3 ==> header == HeaderLine(lines)
      decreases |lines| - pos
    {
      pos := pos + 1;  // enumerate yields lines[pos - 1] as index i
      if i == 2 {
        if pos < |lines| {
          header := Some(lines[pos]);
          pos := pos + 1;
        } else {
          header := Some("");
        }
      } else if i > 2 {
        break;
      }
      i := i + 1;
    }
  }

  /** What load_trc returns. */
  datatype Trc = Trc(data: seq<seq<real>>, names: seq<string>)

  /** load_trc as a function: the data are read first, then the name header. */
  function Loaded(lines: seq<string>, rows: seq<seq<real>>): (r: Result<Trc>)
    ensures r.Ok? ==>
      |lines| >= 3 && |r.value.data| == |rows| >= 2 && Rectangular(r.value.data) &&
      |r.value.data[0]| == |rows[0]| - 1 >= 1 && |r.value.names| >= 1
    ensures r.Ok? ==> r.value.names == MarkerNames(if |lines| == 3 then "" else lines[3])
    ensures |lines| < 3 && LoadData(rows).Ok? ==> r == Err(MissingHeaderLine)
    ensures LoadData(rows).Err? ==> r == Err(LoadData(rows).error)
    ensures LoadData(rows).Ok? && |lines| >= 3 ==>
      r == Ok(Trc(LoadData(rows).value, MarkerNames(if |lines| == 3 then "" else lines[3])))
  {
    match LoadData(rows)
    case Err(e) => Err(e)
    case Ok(data) =>
      match HeaderLine(lines)
      case None => Err(MissingHeaderLine)
      case Some(h) => Ok(Trc(data, MarkerNames(h)))
  }

  method LoadTrc(lines: seq<string>, rows: seq<seq<real>>) returns (r: Result<Trc>)
    ensures r == Loaded(lines, rows)
  {
    var data := LoadData(rows);
    if data.Err? {
      return Err(data.error);
    }
    var header := ReadHeaderLine(lines);
    if header.None? {
      return Err(MissingHeaderLine);
    }
    r := Ok(Trc(data.value, MarkerNames(header.value)));
  }

  /** The header body between a 12-character label and 3 trailing characters. */
  lemma TrimHeaderOf(prefix: string, body: string, tail: string)
    requires |prefix| == 12 && |tail| == 3
    ensures TrimHeader(prefix + body + tail) == body
  {
    var line := prefix + body + tail;
    assert line[12..12 + |body|] == body;
  }

  /** Six tabs between two names are two separators with an empty name between them. */
  lemma AdjacentSeparators()
    ensures MarkerNames("Frame#\tTime\tA\t\t\t\t\t\tB\t\t\n") == ["A", "", "B"]
  {
    var line := "Frame#\tTime\tA\t\t\t\t\t\tB\t\t\n";
    var six := "\t\t\t\t\t\tB";
    assert line == "Frame#\tTime\t" + ("A" + six) + "\t\t\n";
    TrimHeaderOf("Frame#\tTime\t", "A" + six, "\t\t\n");
    var body := TrimHeader(line);
    assert body[0] == 'A' && body[1..] == six && !StartsWith(body, NameSeparator);
    var rest := Split(six, NameSeparator);
    SixTabsThenB();
    assert Split(body, NameSeparator) == [[body[0]] + rest[0]] + rest[1..];
  }

  lemma SixTabsThenB()
    ensures Split("\t\t\t\t\t\tB", NameSeparator) == ["", "", "B"]
  {
    var six, three := "\t\t\t\t\t\tB", "\t\t\tB";
    assert StartsWith(three, NameSeparator) && three[3..] == "B";
    assert Split(three, NameSeparator) == [""] + Split("B", NameSeparator);
    assert StartsWith(six, NameSeparator) && six[3..] == three;
    assert Split(six, NameSeparator) == [""] + Split(three, NameSeparator);
  }

  /** A header line "Frame#\tTime\tA\t\t\tB\t\t\n" names the markers A and B. */
  lemma TwoMarkerHeader()
    ensures MarkerNames("Frame#\tTime\tA\t\t\tB\t\t\n") == ["A", "B"]
  {
    var body := TrimHeader("Frame#\tTime\tA\t\t\tB\t\t\n");
    assert body == "A\t\t\tB";
    assert Split("B", NameSeparator) == ["B"];
    assert Split("\t\t\tB", NameSeparator) == ["", "B"];
    assert body[1..] == "\t\t\tB";
    assert !StartsWith(body, NameSeparator);
    assert Split(body, NameSeparator) == [[body[0]] + ""] + ["B"];
    assert [body[0]] + "" == "A";
  }
}
