/** The log-scanning pipeline of Reader.java. The Gaussian relaxed-scan log is
    held in memory as its sequence of lines; where the Java code reads the file
    through a Scanner, each method here moves an index over that sequence, one
    `nextLine` or `next` per step. Exceptions become `None`, or 0 where the
    Java code catches them and keeps a default. */
module Reader {
  import opened JavaText

  /** One row of a Standard orientation table: the atomic number and the
      coordinate tokens, kept as their text. */
  datatype Atom = Atom(number: int, coords: seq<string>)

  const ATOMS_KEY := "NAtoms"
  const SEARCH_HEADER := "Search for a local minimum"
  const ORIENTATION_HEADER := "Standard orientation"
  /** The width of the field that holds the step count in a progress marker. */
  const MARKER_WIDTH := 6
  /** Lines between a Standard orientation header and the first atom row. */
  const TABLE_PREAMBLE := 4

  // ===========================================================================
  // Searching forwards
  // ===========================================================================

  /** Index of the first token at or after `from` that contains `pat`. */
  function FirstContaining(toks: seq<string>, from: nat, pat: string): Option<nat>
    requires from <= |toks|
    decreases |toks| - from
  {
    if from == |toks| then None
    else if Contains(toks[from], pat) then Some(from)
    else FirstContaining(toks, from + 1, pat)
  }

  lemma {:induction false} FirstContainingCases(toks: seq<string>, from: nat, pat: string)
    requires from <= |toks|
    ensures match FirstContaining(toks, from, pat)
      case Some(p) =>
        from <= p < |toks| && Contains(toks[p], pat)
        && forall q :: from <= q < p ==> !Contains(toks[q], pat)
      case None => forall q :: from <= q < |toks| ==> !Contains(toks[q], pat)
    decreases |toks| - from
  {
    if from < |toks| && !Contains(toks[from], pat) {
      FirstContainingCases(toks, from + 1, pat);
    }
  }

  /** How a cursor search that tests every other line ends. */
  datatype Search =
    | Found(at: nat)   // the tested line at this index holds the pattern
    | Exhausted        // the cursor reached the end of the log (hasNext is false)
    | RanOut           // the untested line after the last tested one does not exist

  /** Line `j` is one of the lines tested by a search that starts at `from`. */
  predicate Tested(from: int, j: int)
  {
    from <= j && (j - from) % 2 == 0
  }

  /** The loop at Reader.java lines 71-78 and 180-193: read the line at the
      cursor and test it; on a miss read one more line without testing it.
      Only lines from, from + 2, from + 4, ... are ever tested. */
  function StrideSearch(lines: seq<string>, from: nat, pat: string): (r: Search)
    requires from <= |lines|
    ensures r.Found? ==> Tested(from, r.at) && r.at < |lines| && Contains(lines[r.at], pat)
    ensures r.Exhausted? ==> (|lines| - from) % 2 == 0
    ensures r.RanOut? ==> (|lines| - from) % 2 == 1
    decreases |lines| - from
  {
    if from == |lines| then Exhausted
    else if Contains(lines[from], pat) then Found(from)
    else if from + 1 == |lines| then RanOut
    else StrideSearch(lines, from + 2, pat)
  }

  /** A stride search finds the first tested line holding the pattern; when no
      tested line holds it, the parity of the remaining line count decides
      whether the cursor stops at the end or the skipped read fails. */
  lemma {:induction false} StrideSearchCases(lines: seq<string>, from: nat, pat: string)
    requires from <= |lines|
    ensures match StrideSearch(lines, from, pat)
      case Found(h) =>
        Tested(from, h) && h < |lines| && Contains(lines[h], pat)
        && forall j :: Tested(from, j) && j < h ==> !Contains(lines[j], pat)
      case Exhausted =>
        (|lines| - from) % 2 == 0
        && forall j :: Tested(from, j) && j < |lines| ==> !Contains(lines[j], pat)
      case RanOut =>
        (|lines| - from) % 2 == 1
        && forall j :: Tested(from, j) && j < |lines| ==> !Contains(lines[j], pat)
    decreases |lines| - from
  {
    if from < |lines| && !Contains(lines[from], pat) && from + 1 < |lines| {
      StrideSearchCases(lines, from + 2, pat);
      assert forall j :: Tested(from, j) ==> j == from || Tested(from + 2, j);
    }
  }

  /** The first tested line holding the pattern is what the search returns. */
  lemma StrideSearchFinds(lines: seq<string>, from: nat, pat: string, h: nat)
    requires from <= h < |lines| && Tested(from, h) && Contains(lines[h], pat)
    requires forall j :: Tested(from, j) && j < h ==> !Contains(lines[j], pat)
    ensures StrideSearch(lines, from, pat) == Found(h)
  {
    StrideSearchCases(lines, from, pat);
  }

  // ===========================================================================
  // findAtoms (Reader.java lines 36-55)
  // ===========================================================================

  /** The atom count: the integer token right after the first token that
      contains "NAtoms"; 0 when there is no such token, nothing follows it, or
      what follows is not a 32-bit integer. */
  function AtomCount(lines: seq<string>): int
  {
    var toks := LogTokens(lines);
    match FirstContaining(toks, 0, ATOMS_KEY)
    case None => 0
    case Some(p) =>
      if p + 1 < |toks| then
        match ParseInt(toks[p + 1])
        case Some(v) => v
        case None => 0
      else 0
  }

  method FindAtoms(lines: seq<string>) returns (n: int)
    ensures n == AtomCount(lines)
  {
    var toks := LogTokens(lines);
    n := 0;
    var dat := "";
    var t := 0;
    while t < |toks|
      invariant 0 <= t <= |toks|
      invariant FirstContaining(toks, t, ATOMS_KEY) == FirstContaining(toks, 0, ATOMS_KEY)
    {
      var token := toks[t];
      t := t + 1;
      if Contains(token, ATOMS_KEY) {
        if t == |toks| {
          // next() throws NoSuchElementException; the catch keeps n = 0
          return;
        }
        dat := toks[t];
        break;
      }
    }
    match ParseInt(dat)
    case Some(v) => n := v;
    case None => // NumberFormatException, caught: n stays 0
  }

  /** The atom count is the value after the first "NAtoms" token, or 0. */
  lemma AtomCountAfterKey(lines: seq<string>, p: nat)
    requires p < |LogTokens(lines)| && Contains(LogTokens(lines)[p], ATOMS_KEY)
    requires forall q :: 0 <= q < p ==> !Contains(LogTokens(lines)[q], ATOMS_KEY)
    ensures var toks := LogTokens(lines);
      AtomCount(lines)
      == if p + 1 < |toks| && ParseInt(toks[p + 1]).Some? then ParseInt(toks[p + 1]).value else 0
  {
    FirstContainingCases(LogTokens(lines), 0, ATOMS_KEY);
  }

  lemma AtomCountWithoutKey(lines: seq<string>)
    requires forall q :: 0 <= q < |LogTokens(lines)| ==> !Contains(LogTokens(lines)[q], ATOMS_KEY)
    ensures AtomCount(lines) == 0
  {
    FirstContainingCases(LogTokens(lines), 0, ATOMS_KEY);
  }

  /** A log whose first "NAtoms" token is followed by the printed count m
      reads back as m. */
  lemma AtomCountReadsPrintedCount(lines: seq<string>, p: nat, m: int)
    requires INT_MIN <= m <= INT_MAX
    requires p + 1 < |LogTokens(lines)| && Contains(LogTokens(lines)[p], ATOMS_KEY)
    requires forall q :: 0 <= q < p ==> !Contains(LogTokens(lines)[q], ATOMS_KEY)
    requires LogTokens(lines)[p + 1] == DecimalString(m)
    ensures AtomCount(lines) == m
  {
    AtomCountAfterKey(lines, p);
    ParseIntRoundTrip(m);
  }

  // ===========================================================================
  // findReps (Reader.java lines 65-89)
  // ===========================================================================

  /** The integer held by the last three characters of a line, trimmed; None
      when the line is shorter than three characters or the field is not an
      integer (both throw outside the try). */
  function CountField(line: string): (r: Option<int>)
    ensures r.Some? ==> |line| >= 3 && -99 <= r.value <= 999
  {
    if |line| < 3 then None
    else
      var field := Trim(line[|line| - 3..]);
      ShortFieldBound(field);
      ParseInt(field)
  }

  /** A whole number of at most three characters lies in -99..999. */
  lemma ShortFieldBound(field: string)
    requires |field| <= 3
    ensures ParseWhole(field).Some? ==> -99 <= ParseWhole(field).value <= 999
  {
    if ParseWhole(field).Some? {
      Pow10Monotone(|field|, 3);
      Pow10Monotone(|field| - 1, 2);
      assert Pow10(3) == 1000 && Pow10(2) == 100;
    }
  }

  /** The value `line` holds when findReps leaves its try block: the line after
      the first tested line that holds "Search for a local minimum", or "" when
      there is none (every failure inside the try leaves it at ""). */
  function RepsLine(lines: seq<string>): string
  {
    match StrideSearch(lines, 0, SEARCH_HEADER)
    case Found(h) => if h + 1 < |lines| then lines[h + 1] else ""
    case Exhausted => ""
    case RanOut => ""
  }

  /** The step count findReps returns; None when it throws. */
  function Reps(lines: seq<string>): Option<int>
  {
    CountField(RepsLine(lines))
  }

  method FindReps(lines: seq<string>) returns (r: Option<int>)
    ensures r == Reps(lines)
  {
    var line := "";
    var cur := 0;
    while cur < |lines|
      invariant 0 <= cur <= |lines|
      invariant StrideSearch(lines, cur, SEARCH_HEADER) == StrideSearch(lines, 0, SEARCH_HEADER)
      invariant line == ""
    {
      var tested := lines[cur];
      cur := cur + 1;
      if Contains(tested, SEARCH_HEADER) {
        if cur < |lines| {
          line := lines[cur];
        }
        // otherwise nextLine throws inside the try and line stays ""
        break;
      }
      if cur == |lines| {
        // the skipping nextLine throws inside the try; line stays ""
        break;
      }
      cur := cur + 1;
    }
    assert line == RepsLine(lines);
    // outside the try: charAt and parseInt failures escape
    if |line| < 3 {
      return None;
    }
    var field := line[|line| - 3..];
    r := ParseInt(Trim(field));
  }

  /** Spaces in front of `s` up to `width` characters. */
  function PadLeft(s: string, width: nat): string
  {
    Spaces(width - |s|) + s
  }

  /** A line ending in a right-justified three-character count n has count
      field n. */
  lemma CountFieldOfPadded(prefix: string, n: nat)
    requires n <= 999
    ensures CountField(prefix + PadLeft(DecimalString(n), 3)) == Some(n)
  {
    var d := DecimalString(n);
    DigitsLength(n, 3);
    var field := PadLeft(d, 3);
    var line := prefix + field;
    assert line[|line| - 3..] == field;
    assert d[0] > ' ' && d[|d| - 1] > ' ' by {
      assert IsDigit(d[0]) && IsDigit(d[|d| - 1]);
    }
    TrimPadded(3 - |d|, d);
    ParseIntRoundTrip(n);
  }

  /** With the header on a tested line and the next line ending in a
      right-justified three-character count n, the step count is n. */
  lemma RepsReadsRightJustifiedCount(lines: seq<string>, h: nat, n: nat, prefix: string)
    requires h + 1 < |lines| && Tested(0, h) && Contains(lines[h], SEARCH_HEADER)
    requires forall j :: Tested(0, j) && j < h ==> !Contains(lines[j], SEARCH_HEADER)
    requires n <= 999
    requires lines[h + 1] == prefix + PadLeft(DecimalString(n), 3)
    ensures Reps(lines) == Some(n)
  {
    StrideSearchFinds(lines, 0, SEARCH_HEADER, h);
    assert RepsLine(lines) == lines[h + 1];
    CountFieldOfPadded(prefix, n);
  }

  /** Without the header on a tested line, findReps has no result. */
  lemma RepsUndefinedWithoutHeader(lines: seq<string>)
    requires forall j :: Tested(0, j) && j < |lines| ==> !Contains(lines[j], SEARCH_HEADER)
    ensures Reps(lines) == None
  {
    StrideSearchCases(lines, 0, SEARCH_HEADER);
  }

  /** The header on an untested (even-numbered) line is never seen. */
  lemma RepsIgnoresUntestedLines(lines: seq<string>, k: nat)
    requires k < |lines| && k % 2 == 1
    requires forall j :: 0 <= j < |lines| && j != k ==> !Contains(lines[j], SEARCH_HEADER)
    ensures Reps(lines) == None
  {
    RepsUndefinedWithoutHeader(lines);
  }

  // ===========================================================================
  // scanFile (Reader.java lines 101-132)
  // ===========================================================================

  /** The text after the step number in a progress marker: " out of", then
      the step count right-justified in a field of MARKER_WIDTH characters
      (a wider count gets no padding). */
  function MarkerSuffix(N: int): (r: string)
    ensures |r| >= 7 + MARKER_WIDTH && r[..7] == " out of"
  {
    var digits := DecimalString(N);
    " out of" + Spaces(MARKER_WIDTH - |digits|) + digits
  }

  /** The text whose presence marks a line as belonging to step i of N. */
  function Needle(i: int, N: int): (r: string)
    ensures |r| >= 2 + |MarkerSuffix(N)|
    ensures r[0] == ' ' && (IsDigit(r[1]) || r[1] == '-')
    ensures r[|r| - |MarkerSuffix(N)|..] == MarkerSuffix(N)
  {
    " " + DecimalString(i) + MarkerSuffix(N)
  }

  lemma MarkerSuffixShape(N: int)
    ensures var d := DecimalString(N);
      var s := MarkerSuffix(N);
      && |s| == 7 + (if |d| < MARKER_WIDTH then MARKER_WIDTH else |d|)
      && s[..7] == " out of"
      && s[|s| - |d|..] == d
      && forall k :: 7 <= k < |s| - |d| ==> s[k] == ' '
    ensures 0 <= N < 1000000 ==> |MarkerSuffix(N)| == 13
  {
    if 0 <= N < 1000000 {
      DigitsLength(N, 6);
    }
  }

  /** The needle of step 2 of 6: the count 6 is padded to six characters. */
  lemma NeedleOfStepTwoOfSix()
    ensures Needle(2, 6) == " 2 out of     6"
  {
  }

  /** A space, a digit string and a suffix that starts with a space never
      occur at offset k inside a space, another digit string and the same
      suffix. */
  lemma PaddedDigitsNoOccurrence(x: string, y: string, suffix: string, k: int)
    requires |x| > 0 && AllDigits(x) && AllDigits(y) && x != y
    requires |suffix| > 0 && suffix[0] == ' '
    ensures !OccursAt(" " + y + suffix, " " + x + suffix, k)
  {
    var a, b := " " + x + suffix, " " + y + suffix;
    if 0 < k && k + |a| <= |b| {
      assert b[k] == y[k - 1];
      assert b[k..k + |a|][0] != a[0];
    } else if k == 0 && |x| < |y| {
      assert b[1 + |x|] == y[|x|];
      assert b[..|a|][1 + |x|] != a[1 + |x|];
    } else if k == 0 && |x| == |y| {
      var m :| 0 <= m < |x| && x[m] != y[m];
      assert b[..|a|][1 + m] != a[1 + m];
    }
  }

  /** The needle of one step never occurs in the needle of another: the
      leading space keeps " 1 out of" from matching inside " 11 out of". */
  lemma NeedlesDistinct(i: nat, j: nat, N: int)
    requires 1 <= i && 1 <= j && i != j
    ensures !Contains(Needle(j, N), Needle(i, N))
  {
    DigitsRoundTrip(i);
    DigitsRoundTrip(j);
    var suffix := MarkerSuffix(N);
    assert suffix[0] == ' ';
    forall k | 0 <= k <= |Needle(j, N)| - |Needle(i, N)|
      ensures !OccursAt(Needle(j, N), Needle(i, N), k)
    {
      PaddedDigitsNoOccurrence(Digits(i), Digits(j), suffix, k);
    }
  }

  /** The loop at Reader.java lines 103-108 that builds the suffix. */
  method BuildLook(N: int) returns (look: string)
    ensures look == MarkerSuffix(N)
  {
    var num := MARKER_WIDTH - |DecimalString(N)|;
    look := " out of";
    var i := 0;
    while i < num
      invariant 0 <= i && (i <= num || i == 0)
      invariant look == " out of" + Spaces(i)
    {
      look := look + " ";
      i := i + 1;
    }
    look := look + DecimalString(N);
  }

  predicate Ascending(list: seq<int>)
  {
    forall a, b :: 0 <= a < b < |list| ==> list[a] < list[b]
  }

  /** `list` is exactly the 1-based numbers of the lines that contain
      `needle`, in ascending order. */
  predicate IsMarkerList(lines: seq<string>, needle: string, list: seq<int>)
  {
    && Ascending(list)
    && (forall a :: 0 <= a < |list| ==> 1 <= list[a] <= |lines|)
    && (forall j :: 0 <= j < |lines| ==> (Contains(lines[j], needle) <==> j + 1 in list))
  }

  /** The inner loop of scanFile (lines 114-125) for one needle. */
  method MarkerLines(lines: seq<string>, needle: string) returns (list: seq<int>)
    ensures IsMarkerList(lines, needle, list)
  {
    list := [];
    var counter := 0;
    while counter < |lines|
      invariant 0 <= counter <= |lines|
      invariant Ascending(list)
      invariant forall a :: 0 <= a < |list| ==> 1 <= list[a] <= counter
      invariant forall j :: 0 <= j < counter ==> (Contains(lines[j], needle) <==> j + 1 in list)
    {
      counter := counter + 1;
      var line := lines[counter - 1];
      if Contains(line, needle) {
        list := list + [counter];
      }
    }
  }

  /** The marker index: for each step 1..N, the ascending list of line numbers
      holding that step's needle. */
  method ScanFile(lines: seq<string>, N: int) returns (index: map<int, seq<int>>)
    ensures forall i :: i in index <==> 1 <= i <= N
    ensures forall i :: 1 <= i <= N ==> IsMarkerList(lines, Needle(i, N), index[i])
  {
    var look := BuildLook(N);
    index := map[];
    var i := 1;
    while i <= N
      invariant 1 <= i && (i <= N + 1 || i == 1)
      invariant forall k :: k in index <==> 1 <= k < i
      invariant forall k :: 1 <= k < i ==> IsMarkerList(lines, Needle(k, N), index[k])
    {
      var list := MarkerLines(lines, " " + DecimalString(i) + look);
      index := index[i := list];
      i := i + 1;
    }
  }

  /** Two ascending lists with the same elements are equal. */
  lemma {:induction false} AscendingSameElements(a: seq<int>, b: seq<int>)
    requires Ascending(a) && Ascending(b)
    requires forall k :: k in a <==> k in b
    ensures a == b
  {
    assert a != [] ==> a[0] in a;
    assert b != [] ==> b[0] in b;
    if a != [] && b != [] {
      assert a[0] == b[0];
      forall k
        ensures k in a[1..] <==> k in b[1..]
      {
        if k in a[1..] {
          assert k in a && k > a[0];
        }
        if k in b[1..] {
          assert k in b && k > b[0];
        }
      }
      AscendingSameElements(a[1..], b[1..]);
      assert a == [a[0]] + a[1..];
      assert b == [b[0]] + b[1..];
    }
  }

  /** The marker list of a needle is unique: scanFile's lists are determined
      by the log. */
  lemma MarkerListUnique(lines: seq<string>, needle: string, a: seq<int>, b: seq<int>)
    requires IsMarkerList(lines, needle, a) && IsMarkerList(lines, needle, b)
    ensures a == b
  {
    forall k
      ensures k in a <==> k in b
    {
      if k in a {
        assert Contains(lines[k - 1], needle);
      }
      if k in b {
        assert Contains(lines[k - 1], needle);
      }
    }
    AscendingSameElements(a, b);
  }

  /** The last entry of a marker list is the last line holding the needle. */
  lemma LastMarkerIsFinalOccurrence(lines: seq<string>, needle: string, list: seq<int>)
    requires IsMarkerList(lines, needle, list) && list != []
    ensures var last := list[|list| - 1];
      1 <= last <= |lines| && Contains(lines[last - 1], needle)
      && forall j :: last <= j < |lines| ==> !Contains(lines[j], needle)
  {
    var last := list[|list| - 1];
    assert last in list;
    assert forall m :: 0 <= m < |list| ==> list[m] <= last;
  }

  // ===========================================================================
  // processLines (Reader.java lines 141-155)
  // ===========================================================================

  /** One coordinate-table row: the first and third tokens are read and
      dropped, the second is the atomic number, the rest are coordinates.
      None when any token is not a number or there are fewer than three. */
  function ParseRow(row: string): (r: Option<Atom>)
    ensures r.Some? ==>
      var t := Tokens(row);
      && |t| == 3 + |r.value.coords|
      && ParseWhole(t[1]) == Some(r.value.number)
      && (forall m :: 0 <= m < |r.value.coords| ==> r.value.coords[m] == t[3 + m] && IsDecimal(t[3 + m]))
  {
    var t := Tokens(row);
    if && |t| >= 3
       && IsDecimal(t[0])
       && ParseWhole(t[1]).Some?
       && IsDecimal(t[2])
       && forall m :: 3 <= m < |t| ==> IsDecimal(t[m])
    then Some(Atom(ParseWhole(t[1]).value, t[3..]))
    else None
  }

  /** The values of a sequence of options, in order, when every one is
      present; None as soon as one is missing. */
  function Collect<T>(xs: seq<Option<T>>): (r: Option<seq<T>>)
    ensures r.Some? <==> forall j :: 0 <= j < |xs| ==> xs[j].Some?
    ensures r.Some? ==> |r.value| == |xs| && forall j :: 0 <= j < |xs| ==> xs[j] == Some(r.value[j])
  {
    if xs == [] then Some([])
    else
      var init := xs[..|xs| - 1];
      var prefix := Collect(init);
      assert forall j :: 0 <= j < |init| ==> init[j] == xs[j];
      if prefix.None? || xs[|xs| - 1].None? then None
      else Some(prefix.value + [xs[|xs| - 1].value])
  }

  /** Present values collect to exactly themselves. */
  lemma CollectPresent<T>(xs: seq<Option<T>>, ys: seq<T>)
    requires |xs| == |ys| && forall j :: 0 <= j < |xs| ==> xs[j] == Some(ys[j])
    ensures Collect(xs) == Some(ys)
  {
    var r := Collect(xs);
    assert r.Some?;
    assert forall j :: 0 <= j < |ys| ==> r.value[j] == ys[j];
    assert r.value == ys;
  }

  /** Each row parsed on its own. */
  function ParsedRows(rows: seq<string>): (ps: seq<Option<Atom>>)
    ensures |ps| == |rows| && forall j :: 0 <= j < |rows| ==> ps[j] == ParseRow(rows[j])
  {
    seq(|rows|, j requires 0 <= j < |rows| => ParseRow(rows[j]))
  }

  /** Rows parsed in order; one bad row makes the whole call fail. */
  function ParseRows(rows: seq<string>): (r: Option<seq<Atom>>)
    ensures r.Some? <==> forall j :: 0 <= j < |rows| ==> ParseRow(rows[j]).Some?
    ensures r.Some? ==> |r.value| == |rows|
    ensures r.Some? ==> forall j :: 0 <= j < |rows| ==> ParseRow(rows[j]) == Some(r.value[j])
  {
    Collect(ParsedRows(rows))
  }

  /** Rows that each parse to the matching atom parse, all together, to
      exactly those atoms. */
  lemma RowsParse(rows: seq<string>, atoms: seq<Atom>)
    requires |rows| == |atoms|
    requires forall j :: 0 <= j < |rows| ==> ParseRow(rows[j]) == Some(atoms[j])
    ensures ParseRows(rows) == Some(atoms)
  {
    CollectPresent(ParsedRows(rows), atoms);
  }

  method ProcessLines(list: seq<string>) returns (atoms: Option<seq<Atom>>)
    ensures atoms == ParseRows(list)
  {
    var done: seq<Atom> := [];
    var i := 0;
    while i < |list|
      invariant 0 <= i <= |list| && |done| == i
      invariant forall j :: 0 <= j < i ==> ParseRow(list[j]) == Some(done[j])
    {
      var finder := Tokens(list[i]);
      if |finder| < 3 || !IsDecimal(finder[0]) {
        assert ParseRow(list[i]).None?;
        return None;
      }
      var number := ParseWhole(finder[1]);
      if number.None? || !IsDecimal(finder[2]) {
        assert ParseRow(list[i]).None?;
        return None;
      }
      var carts: seq<string> := [];
      var k := 3;
      while k < |finder|
        invariant 3 <= k <= |finder|
        invariant carts == finder[3..k]
        invariant forall m :: 3 <= m < k ==> IsDecimal(finder[m])
      {
        if !IsDecimal(finder[k]) {
          assert ParseRow(list[i]).None?;
          return None;
        }
        carts := carts + [finder[k]];
        k := k + 1;
      }
      assert carts == finder[3..];
      assert ParseRow(list[i]) == Some(Atom(number.value, carts));
      done := done + [Atom(number.value, carts)];
      i := i + 1;
    }
    RowsParse(list, done);
    atoms := Some(done);
  }

  /** The tokens of a row that prints atom `a` as Gaussian lays out a
      Standard orientation table: centre number, atomic number, atomic type,
      then the coordinates, separated by any run of blanks. */
  predicate PrintedRow(row: string, center: int, a: Atom, atomicType: int)
  {
    && Tokens(row) == [DecimalString(center), DecimalString(a.number), DecimalString(atomicType)] + a.coords
    && forall m :: 0 <= m < |a.coords| ==> IsDecimal(a.coords[m])
  }

  /** Parsing a printed row, with the newline saveGeoms appends, gives the
      atom back, whatever the centre, the type and the spacing. */
  lemma ParsePrintedRow(row: string, center: int, a: Atom, atomicType: int)
    requires PrintedRow(row, center, a, atomicType)
    ensures ParseRow(row + "\n") == Some(a)
  {
    DecimalStringIsNumberToken(center);
    DecimalStringIsNumberToken(a.number);
    DecimalStringIsNumberToken(atomicType);
    TokensAppendSpace(row, '\n');
    ParseWholeRoundTrip(a.number);
    assert Tokens(row)[3..] == a.coords;
  }

  /** A table row set in columns of the given widths. */
  function FormatRow(center: int, a: Atom, atomicType: int, widths: seq<int>): string
    requires |widths| == 3 + |a.coords|
  {
    AlignWords([DecimalString(center), DecimalString(a.number), DecimalString(atomicType)] + a.coords, widths)
  }

  /** A column-aligned row is a printed row of its atom for any column widths. */
  lemma FormatRowIsPrinted(center: int, a: Atom, atomicType: int, widths: seq<int>)
    requires |widths| == 3 + |a.coords|
    requires forall m :: 0 <= m < |a.coords| ==> IsDecimal(a.coords[m])
    ensures PrintedRow(FormatRow(center, a, atomicType, widths), center, a, atomicType)
  {
    var ws := [DecimalString(center), DecimalString(a.number), DecimalString(atomicType)] + a.coords;
    DecimalStringIsNumberToken(center);
    DecimalStringIsNumberToken(a.number);
    DecimalStringIsNumberToken(atomicType);
    forall j | 0 <= j < |ws| ensures IsWord(ws[j]) {
      if j >= 3 {
        assert ws[j] == a.coords[j - 3];
        DecimalIsWord(a.coords[j - 3]);
      }
    }
    TokensOfAlignWords(ws, widths);
  }

  // ===========================================================================
  // saveGeoms (Reader.java lines 167-204)
  // ===========================================================================

  /** The number of rows the loop at line 184 reads. */
  function RowCount(M: int): nat
  {
    if M < 0 then 0 else M
  }

  /** Each line with the "\n" line 185 appends. */
  function Terminated(rows: seq<string>): seq<string>
  {
    seq(|rows|, j requires 0 <= j < |rows| => rows[j] + "\n")
  }

  /** One step of saveGeoms: the geometry after the last marker line of the
      step; None when the step throws (empty list, a skip past the end). */
  function StepGeometry(lines: seq<string>, list: seq<int>, M: int): (r: Option<seq<Atom>>)
    ensures list == [] ==> r.None?
    ensures r.Some? ==> r.value == [] || |r.value| == RowCount(M)
  {
    if list == [] then None
    else
      var last := list[|list| - 1];
      var start := if last < 0 then 0 else last;
      if start > |lines| then None else GeometryFrom(lines, start, M)
  }

  /** The geometry the search from line `start` reads: the empty geometry when
      the cursor reaches the end of the log without a header, None when the
      skipped read or the table read fails. */
  function GeometryFrom(lines: seq<string>, start: nat, M: int): (r: Option<seq<Atom>>)
    requires start <= |lines|
    ensures r.Some? ==> r.value == [] || |r.value| == RowCount(M)
  {
    match StrideSearch(lines, start, ORIENTATION_HEADER)
    case Exhausted => Some([])
    case RanOut => None
    case Found(h) => TableGeometry(lines, h, M)
  }

  /** The atoms of the table whose header is line h: skip the preamble, parse
      the next M lines; None when the log ends first or a row does not parse. */
  function TableGeometry(lines: seq<string>, h: nat, M: int): (r: Option<seq<Atom>>)
    ensures r.Some? ==> |r.value| == RowCount(M)
  {
    var first := h + 1 + TABLE_PREAMBLE;
    if first + RowCount(M) > |lines| then None
    else ParseRows(Terminated(lines[first..first + RowCount(M)]))
  }

  /** The body of saveGeoms' loop for one step. */
  method ExtractStep(lines: seq<string>, list: seq<int>, M: int) returns (atoms: Option<seq<Atom>>)
    ensures atoms == StepGeometry(lines, list, M)
  {
    if |list| == 0 {
      // list.get(-1) throws
      return None;
    }
    var line := list[|list| - 1];
    var start := SkipLines(lines, line);
    if start.None? {
      return None;
    }
    atoms := ReadGeometry(lines, start.value, M);
  }

  /** Lines 180-193 for one step: search for the header from `start`, then
      read the table after it. */
  method ReadGeometry(lines: seq<string>, start: nat, M: int) returns (atoms: Option<seq<Atom>>)
    requires start <= |lines|
    ensures atoms == GeometryFrom(lines, start, M)
  {
    var search := SearchHeader(lines, start);
    match search
    case Exhausted => atoms := Some([]);
    case RanOut => atoms := None;
    case Found(h) => atoms := ReadTable(lines, h + 1, M);
  }

  /** Lines 175-177: `line` calls of nextLine; None when the log ends first.
      A negative count skips nothing. */
  method SkipLines(lines: seq<string>, line: int) returns (cur: Option<nat>)
    ensures var start := if line < 0 then 0 else line;
      if start > |lines| then cur == None else cur == Some(start)
  {
    var pos := 0;
    var i := 0;
    while i < line
      invariant 0 <= i && pos == i && pos <= |lines|
      invariant line >= 0 ==> i <= line
      invariant line < 0 ==> i == 0
    {
      if pos == |lines| {
        return None;
      }
      pos := pos + 1;
      i := i + 1;
    }
    cur := Some(pos);
  }

  /** Lines 180-193: read and test a line, skip the next one, until the
      header is found or the log ends. */
  method SearchHeader(lines: seq<string>, start: nat) returns (search: Search)
    requires start <= |lines|
    ensures search == StrideSearch(lines, start, ORIENTATION_HEADER)
  {
    var cur := start;
    while cur < |lines|
      invariant start <= cur <= |lines|
      invariant StrideSearch(lines, cur, ORIENTATION_HEADER) == StrideSearch(lines, start, ORIENTATION_HEADER)
    {
      var tested := lines[cur];
      cur := cur + 1;
      if Contains(tested, ORIENTATION_HEADER) {
        return Found(cur - 1);
      }
      if cur == |lines| {
        return RanOut;
      }
      cur := cur + 1;
    }
    search := Exhausted;
  }

  /** Lines 182-189: after the header line (the cursor is at `cur`), skip the
      preamble, collect M lines and parse them. */
  method ReadTable(lines: seq<string>, cur: nat, M: int) returns (atoms: Option<seq<Atom>>)
    requires 0 < cur <= |lines|
    ensures atoms == TableGeometry(lines, cur - 1, M)
  {
    if cur + TABLE_PREAMBLE > |lines| {
      return None;
    }
    var data := CollectRows(lines, cur + TABLE_PREAMBLE, M);
    if data.None? {
      return None;
    }
    atoms := ProcessLines(data.value);
  }

  /** Lines 184-187: the next M lines from `first`, each with "\n" appended;
      None when the log ends first. */
  method CollectRows(lines: seq<string>, first: nat, M: int) returns (data: Option<seq<string>>)
    requires first <= |lines|
    ensures first + RowCount(M) > |lines| ==> data == None
    ensures first + RowCount(M) <= |lines| ==> data == Some(Terminated(lines[first..first + RowCount(M)]))
  {
    var rows: seq<string> := [];
    var pos := first;
    var r := 0;
    while r < M
      invariant 0 <= r <= RowCount(M)
      invariant pos == first + r <= |lines|
      invariant |rows| == r
      invariant forall k :: 0 <= k < r ==> rows[k] == lines[first + k] + "\n"
    {
      if pos == |lines| {
        return None;
      }
      rows := rows + [lines[pos] + "\n"];
      pos := pos + 1;
      r := r + 1;
    }
    assert rows == Terminated(lines[first..first + RowCount(M)]);
    data := Some(rows);
  }

  /** `order` lists every key of `index` exactly once: the iteration order of
      the HashMap's key set. */
  ghost predicate EnumeratesKeys(order: seq<int>, index: map<int, seq<int>>)
  {
    && (forall j :: 0 <= j < |order| ==> order[j] in index)
    && (forall k :: k in index ==> k in order)
    && forall a, b :: 0 <= a < b < |order| ==> order[a] != order[b]
  }

  /** The geometries of the steps in key order, up to the first step that
      throws: the exception leaves the try around the whole loop, so every
      later step is dropped. */
  method SaveGeoms(index: map<int, seq<int>>, order: seq<int>, lines: seq<string>, M: int)
    returns (geoms: seq<seq<Atom>>)
    requires EnumeratesKeys(order, index)
    ensures |geoms| <= |order|
    ensures forall j :: 0 <= j < |geoms| ==> StepGeometry(lines, index[order[j]], M) == Some(geoms[j])
    ensures |geoms| < |order| ==> StepGeometry(lines, index[order[|geoms|]], M) == None
  {
    geoms := [];
    var j := 0;
    while j < |order|
      invariant 0 <= j <= |order| && |geoms| == j
      invariant forall m :: 0 <= m < j ==> StepGeometry(lines, index[order[m]], M) == Some(geoms[m])
    {
      var atoms := ExtractStep(lines, index[order[j]], M);
      if atoms.None? {
        return;
      }
      geoms := geoms + [atoms.value];
      j := j + 1;
    }
  }

  /** Row j of a block of printed lines, with the "\n" appended, parses
      back to its atom. */
  lemma TerminatedRowParses(lines: seq<string>, first: nat, n: nat, j: nat,
                            center: int, a: Atom, atomicType: int)
    requires first + n <= |lines| && j < n
    requires PrintedRow(lines[first + j], center, a, atomicType)
    ensures ParseRow(Terminated(lines[first..first + n])[j]) == Some(a)
  {
    assert Terminated(lines[first..first + n])[j] == lines[first + j] + "\n";
    ParsePrintedRow(lines[first + j], center, a, atomicType);
  }

  /** Every row of a block of printed lines, with the "\n" appended, parses
      back to its atom. */
  lemma PrintedBlockParses(lines: seq<string>, first: nat, atoms: seq<Atom>,
                           centers: seq<int>, types: seq<int>)
    requires first + |atoms| <= |lines|
    requires |centers| == |atoms| && |types| == |atoms|
    requires forall j :: 0 <= j < |atoms| ==>
      PrintedRow(lines[first + j], centers[j], atoms[j], types[j])
    ensures forall j :: 0 <= j < |atoms| ==>
      ParseRow(Terminated(lines[first..first + |atoms|])[j]) == Some(atoms[j])
  {
    forall j | 0 <= j < |atoms|
      ensures ParseRow(Terminated(lines[first..first + |atoms|])[j]) == Some(atoms[j])
    {
      TerminatedRowParses(lines, first, |atoms|, j, centers[j], atoms[j], types[j]);
    }
  }

  /** A header at line h followed by the preamble and M printed rows reads
      back as exactly the printed atoms, in row order; each row may carry
      any centre number and atomic type and any spacing. */
  lemma TableOfPrintedRows(lines: seq<string>, h: nat, atoms: seq<Atom>,
                           centers: seq<int>, types: seq<int>)
    requires h + 1 + TABLE_PREAMBLE + |atoms| <= |lines|
    requires |centers| == |atoms| && |types| == |atoms|
    requires forall j :: 0 <= j < |atoms| ==>
      PrintedRow(lines[h + 1 + TABLE_PREAMBLE + j], centers[j], atoms[j], types[j])
    ensures TableGeometry(lines, h, |atoms|) == Some(atoms)
  {
    var first, n := h + 1 + TABLE_PREAMBLE, |atoms|;
    PrintedBlockParses(lines, first, atoms, centers, types);
    var rows := Terminated(lines[first..first + n]);
    assert RowCount(n) == n;
    assert TableGeometry(lines, h, n) == ParseRows(rows);
    RowsParse(rows, atoms);
  }

  /** A Standard orientation block on the first tested line after the last
      marker, followed by the preamble and M printed rows, is extracted as
      exactly those M atoms, in row order. */
  lemma ExtractsPrintedBlock(lines: seq<string>, list: seq<int>, atoms: seq<Atom>, h: nat,
                             centers: seq<int>, types: seq<int>)
    requires list != [] && 0 <= list[|list| - 1]
    requires Tested(list[|list| - 1], h) && h + 1 + TABLE_PREAMBLE + |atoms| <= |lines|
    requires Contains(lines[h], ORIENTATION_HEADER)
    requires forall j :: Tested(list[|list| - 1], j) && j < h ==> !Contains(lines[j], ORIENTATION_HEADER)
    requires |centers| == |atoms| && |types| == |atoms|
    requires forall j :: 0 <= j < |atoms| ==>
      PrintedRow(lines[h + 1 + TABLE_PREAMBLE + j], centers[j], atoms[j], types[j])
    ensures StepGeometry(lines, list, |atoms|) == Some(atoms)
  {
    StrideSearchFinds(lines, list[|list| - 1], ORIENTATION_HEADER, h);
    TableOfPrintedRows(lines, h, atoms, centers, types);
  }

  /** When no tested line after the last marker holds the header, the step
      yields the empty geometry if an even number of lines follows the marker
      and throws otherwise. */
  lemma StepWithoutHeader(lines: seq<string>, list: seq<int>, M: int)
    requires list != [] && 0 <= list[|list| - 1] <= |lines|
    requires forall j :: Tested(list[|list| - 1], j) && j < |lines| ==> !Contains(lines[j], ORIENTATION_HEADER)
    ensures StepGeometry(lines, list, M)
      == if (|lines| - list[|list| - 1]) % 2 == 0 then Some([]) else None
  {
    StrideSearchCases(lines, list[|list| - 1], ORIENTATION_HEADER);
  }

}
