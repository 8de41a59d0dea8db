/** The range printer `ArrayToString` (service.go): the sorted, duplicate-free content of an
    array as text such as "1,3-5,8-9". */
module RangePrinter {
  import opened Wrappers
  import opened Words
  import opened Collections
  import opened Sorting
  import opened Text

  /** Go's `x + 1` on an unsigned 64-bit operand: it wraps to zero at the top. */
  function Successor(x: uint64): uint64 {
    (x + 1) % UINT64_END
  }

  // ---------------------------------------------------------------- ranges

  datatype Range = Range(lo: nat, hi: nat)

  /** The number x belongs to one of the ranges. */
  ghost predicate Covers(rs: seq<Range>, x: int) {
    exists i :: 0 <= i < |rs| && rs[i].lo <= x <= rs[i].hi
  }

  /** Strictly increasing, disjoint, and never adjacent, so no two ranges could be merged. */
  ghost predicate Canonical(rs: seq<Range>) {
    && (forall i :: 0 <= i < |rs| ==> rs[i].lo <= rs[i].hi)
    && (forall i, j :: 0 <= i < j < |rs| ==> rs[i].hi + 1 < rs[j].lo)
  }

  ghost predicate SameNumbers(rs: seq<Range>, qs: seq<Range>) {
    forall x :: Covers(rs, x) <==> Covers(qs, x)
  }

  // ---------------------------------------------------------------- text of ranges

  function RenderRange(r: Range): string {
    if r.lo == r.hi then FormatUint(r.lo) else FormatUint(r.lo) + "-" + FormatUint(r.hi)
  }

  function RenderAll(rs: seq<Range>): (parts: seq<string>)
    ensures |parts| == |rs|
    ensures forall i :: 0 <= i < |rs| ==> parts[i] == RenderRange(rs[i])
  {
    seq(|rs|, i requires 0 <= i < |rs| => RenderRange(rs[i]))
  }

  function Render(rs: seq<Range>): string {
    Join(RenderAll(rs), ",")
  }

  /** The reader of the format: the inverse the printer is meant to have. */
  function ParseRange(s: string): Option<Range> {
    var parts := Split(s, '-');
    if |parts| == 1 then
      match ParseUint(parts[0])
      case None => None
      case Some(n) => Some(Range(n, n))
    else if |parts| == 2 then
      match (ParseUint(parts[0]), ParseUint(parts[1]))
      case (Some(lo), Some(hi)) => Some(Range(lo, hi))
      case _ => None
    else None
  }

  function ParseParts(parts: seq<string>): Option<seq<Range>> {
    if parts == [] then Some([])
    else
      match (ParseRange(parts[0]), ParseParts(parts[1..]))
      case (Some(r), Some(rs)) => Some([r] + rs)
      case _ => None
  }

  function Parse(s: string): Option<seq<Range>> {
    if s == "" then Some([]) else ParseParts(Split(s, ','))
  }

  lemma NumeralHasNo(n: nat, c: char)
    requires !('0' <= c <= '9')
    ensures c !in FormatUint(n)
  {
    var s := FormatUint(n);
    assert forall i :: 0 <= i < |s| ==> '0' <= s[i] <= '9';
  }

  /** However much of a run has been printed, the text before the first dash is its start. */
  lemma SplitRecoversRunStart(r: Range)
    ensures Split(RenderRange(r), '-')[0] == FormatUint(r.lo)
  {
    NumeralHasNo(r.lo, '-');
    SplitPlain(FormatUint(r.lo), '-');
    SplitAtFirst(FormatUint(r.lo), '-', FormatUint(r.hi));
  }

  lemma ParseUndoesRenderRange(r: Range)
    ensures ParseRange(RenderRange(r)) == Some(r)
    ensures RenderRange(r) != "" && ',' !in RenderRange(r)
  {
    NumeralHasNo(r.lo, '-');
    NumeralHasNo(r.hi, '-');
    NumeralHasNo(r.lo, ',');
    NumeralHasNo(r.hi, ',');
    SplitPlain(FormatUint(r.lo), '-');
    SplitPlain(FormatUint(r.hi), '-');
    SplitAtFirst(FormatUint(r.lo), '-', FormatUint(r.hi));
    ParseUndoesFormat(r.lo);
    ParseUndoesFormat(r.hi);
  }

  lemma {:induction false} ParsePartsUndoesRenderAll(rs: seq<Range>)
    ensures ParseParts(RenderAll(rs)) == Some(rs)
  {
    if rs != [] {
      ParseUndoesRenderRange(rs[0]);
      ParsePartsUndoesRenderAll(rs[1..]);
      assert RenderAll(rs)[1..] == RenderAll(rs[1..]);
      assert rs == [rs[0]] + rs[1..];
    }
  }

  /** Reading what was printed gives back exactly the ranges, in order. */
  lemma ParseUndoesRender(rs: seq<Range>)
    ensures Parse(Render(rs)) == Some(rs)
  {
    if rs != [] {
      var parts := RenderAll(rs);
      forall p | p in parts ensures ',' !in p {
        var i :| 0 <= i < |parts| && parts[i] == p;
        ParseUndoesRenderRange(rs[i]);
      }
      ParseUndoesRenderRange(rs[0]);
      SplitUndoesJoin(parts, ',');
      ParsePartsUndoesRenderAll(rs);
      assert Render(rs) != "";
    }
  }

  // ---------------------------------------------------------------- nothing reads the same and is shorter

  function TotalLength(parts: seq<string>): nat {
    if parts == [] then 0 else |parts[0]| + TotalLength(parts[1..])
  }

  lemma {:induction false} SplitLength(s: string, sep: char)
    ensures TotalLength(Split(s, sep)) + |Split(s, sep)| == |s| + 1
  {
    if s != "" {
      var rest := Split(s[1..], sep);
      SplitLength(s[1..], sep);
      if s[0] == sep {
        assert ([""] + rest)[1..] == rest;
      } else {
        assert ([[s[0]] + rest[0]] + rest[1..])[1..] == rest[1..];
      }
    } else {
      assert TotalLength([""]) == 0;
    }
  }

  lemma {:induction false} JoinLength(parts: seq<string>, sep: string)
    requires |sep| == 1 && parts != []
    ensures TotalLength(parts) + |parts| == |Join(parts, sep)| + 1
  {
    if |parts| > 1 {
      JoinLength(parts[1..], sep);
    } else {
      assert TotalLength(parts[1..]) == 0;
    }
  }

  lemma RangeIsShortest(r: Range, t: string)
    requires ParseRange(t) == Some(r)
    ensures |RenderRange(r)| <= |t|
  {
    var parts := Split(t, '-');
    SplitLength(t, '-');
    if |parts| == 1 {
      FormatIsShortest(r.lo, parts[0]);
      assert TotalLength(parts) == |parts[0]|;
    } else {
      FormatIsShortest(r.lo, parts[0]);
      FormatIsShortest(r.hi, parts[1]);
      assert parts[1..][1..] == [] && TotalLength(parts[1..]) == |parts[1]|;
    }
  }

  lemma {:induction false} PartsAreShortest(rs: seq<Range>, parts: seq<string>)
    requires ParseParts(parts) == Some(rs)
    ensures |parts| == |rs| && TotalLength(RenderAll(rs)) <= TotalLength(parts)
    decreases |parts|
  {
    if parts != [] {
      var r, rest := ParseRange(parts[0]).value, ParseParts(parts[1..]).value;
      PartsAreShortest(rest, parts[1..]);
      RangeIsShortest(r, parts[0]);
      assert rs == [r] + rest && RenderAll(rs)[1..] == RenderAll(rest);
    }
  }

  /** No text that reads as these ranges is shorter than their print. */
  lemma RenderIsShortest(rs: seq<Range>, t: string)
    requires Parse(t) == Some(rs)
    ensures |Render(rs)| <= |t|
  {
    if t != "" {
      var parts := Split(t, ',');
      PartsAreShortest(rs, parts);
      SplitLength(t, ',');
      JoinLength(RenderAll(rs), ",");
    }
  }

  // ---------------------------------------------------------------- runs of an ascending sequence

  ghost predicate NonDecreasing(q: seq<nat>) {
    forall i, j :: 0 <= i < j < |q| ==> q[i] <= q[j]
  }

  /** The ranges after one more number of an ascending sequence: a repeat changes nothing,
      a successor widens the last range, anything else opens a new one. */
  function AddToRuns(rs: seq<Range>, x: nat): seq<Range> {
    if rs != [] && rs[|rs| - 1].hi == x then rs
    else if rs != [] && rs[|rs| - 1].hi + 1 == x then rs[|rs| - 1 := Range(rs[|rs| - 1].lo, x)]
    else rs + [Range(x, x)]
  }

  function RunsOf(q: seq<nat>): seq<Range> {
    if q == [] then [] else AddToRuns(RunsOf(q[..|q| - 1]), q[|q| - 1])
  }

  lemma CoversSnoc(rs: seq<Range>, r: Range, y: int)
    ensures Covers(rs + [r], y) <==> Covers(rs, y) || r.lo <= y <= r.hi
  {
    var ts := rs + [r];
    if i :| 0 <= i < |rs| && rs[i].lo <= y <= rs[i].hi {
      assert ts[i].lo <= y <= ts[i].hi;
    }
    assert ts[|rs|] == r;
  }

  lemma AddToRunsCovers(rs: seq<Range>, x: nat, y: int)
    requires Canonical(rs)
    requires rs != [] ==> rs[|rs| - 1].hi <= x
    ensures Covers(AddToRuns(rs, x), y) <==> Covers(rs, y) || y == x
  {
    CoversSnoc(rs, Range(x, x), y);
    if rs != [] {
      var init, last := rs[..|rs| - 1], rs[|rs| - 1];
      assert rs == init + [last];
      CoversSnoc(init, last, y);
      CoversSnoc(init, Range(last.lo, x), y);
      assert rs[|rs| - 1 := Range(last.lo, x)] == init + [Range(last.lo, x)];
    }
  }

  lemma AddToRunsIsCanonical(rs: seq<Range>, x: nat)
    requires Canonical(rs)
    requires rs != [] ==> rs[|rs| - 1].hi <= x
    ensures Canonical(AddToRuns(rs, x))
    ensures AddToRuns(rs, x) != [] && AddToRuns(rs, x)[|AddToRuns(rs, x)| - 1].hi == x
  {}

  lemma {:induction false} RunsAreCanonical(q: seq<nat>)
    requires NonDecreasing(q)
    ensures Canonical(RunsOf(q))
    ensures q != [] ==> RunsOf(q) != [] && RunsOf(q)[|RunsOf(q)| - 1].hi == q[|q| - 1]
  {
    if q != [] {
      RunsAreCanonical(q[..|q| - 1]);
      AddToRunsIsCanonical(RunsOf(q[..|q| - 1]), q[|q| - 1]);
    }
  }

  lemma {:induction false} RunsOfCovers(q: seq<nat>, y: int)
    requires NonDecreasing(q)
    ensures Covers(RunsOf(q), y) <==> y in q
  {
    if q != [] {
      var front, x := q[..|q| - 1], q[|q| - 1];
      RunsAreCanonical(front);
      RunsOfCovers(front, y);
      AddToRunsCovers(RunsOf(front), x, y);
      assert q == front + [x];
    }
  }

  // ---------------------------------------------------------------- canonicity

  lemma CanonicalHeads(rs: seq<Range>, qs: seq<Range>)
    requires Canonical(rs) && Canonical(qs) && SameNumbers(rs, qs)
    requires rs != [] && qs != []
    ensures rs[0].lo >= qs[0].lo && rs[0].hi >= qs[0].hi
  {
    assert Covers(qs, rs[0].lo) by { assert Covers(rs, rs[0].lo); }
    if rs[0].hi < qs[0].hi {
      assert Covers(rs, qs[0].lo) by { assert Covers(qs, qs[0].lo); }
      assert Covers(rs, rs[0].hi + 1) by { assert Covers(qs, rs[0].hi + 1); }
      assert false;
    }
  }

  lemma CanonicalTail(rs: seq<Range>, x: int)
    requires Canonical(rs) && rs != []
    ensures Covers(rs[1..], x) <==> Covers(rs, x) && !(rs[0].lo <= x <= rs[0].hi)
  {
    if Covers(rs[1..], x) {
      var i :| 0 <= i < |rs[1..]| && rs[1..][i].lo <= x <= rs[1..][i].hi;
      assert rs[i + 1].lo <= x <= rs[i + 1].hi;
    }
    if Covers(rs, x) && !(rs[0].lo <= x <= rs[0].hi) {
      var i :| 0 <= i < |rs| && rs[i].lo <= x <= rs[i].hi;
      assert rs[1..][i - 1].lo <= x <= rs[1..][i - 1].hi;
    }
  }

  /** A set of numbers has only one canonical list of ranges. */
  lemma {:induction false} CanonicalIsUnique(rs: seq<Range>, qs: seq<Range>)
    requires Canonical(rs) && Canonical(qs) && SameNumbers(rs, qs)
    ensures rs == qs
  {
    if rs == [] || qs == [] {
      assert rs != [] ==> Covers(rs, rs[0].lo);
      assert qs != [] ==> Covers(qs, qs[0].lo);
    } else {
      CanonicalHeads(rs, qs);
      CanonicalHeads(qs, rs);
      forall x ensures Covers(rs[1..], x) <==> Covers(qs[1..], x) {
        CanonicalTail(rs, x);
        CanonicalTail(qs, x);
      }
      CanonicalIsUnique(rs[1..], qs[1..]);
      assert rs == [rs[0]] + rs[1..] && qs == [qs[0]] + qs[1..];
    }
  }

  function Starts(rs: seq<Range>): set<nat> {
    if rs == [] then {} else {rs[0].lo} + Starts(rs[1..])
  }

  lemma {:induction false} StartsAre(rs: seq<Range>, x: nat)
    ensures x in Starts(rs) <==> exists i :: 0 <= i < |rs| && rs[i].lo == x
  {
    if rs != [] {
      StartsAre(rs[1..], x);
      if i :| 0 <= i < |rs| && rs[i].lo == x {
        assert i > 0 ==> rs[1..][i - 1].lo == x;
      }
      if i :| 0 <= i < |rs[1..]| && rs[1..][i].lo == x {
        assert rs[i + 1].lo == x;
      }
    }
  }

  lemma {:induction false} FewStarts(rs: seq<Range>)
    ensures |Starts(rs)| <= |rs|
    ensures Canonical(rs) ==> |Starts(rs)| == |rs|
  {
    if rs != [] {
      FewStarts(rs[1..]);
      StartsAre(rs[1..], rs[0].lo);
    }
  }

  /** Every range of a canonical list is maximal, so no list at all for the same numbers is shorter. */
  lemma CanonicalIsShortest(rs: seq<Range>, qs: seq<Range>)
    requires Canonical(rs) && SameNumbers(rs, qs)
    ensures |rs| <= |qs|
  {
    forall lo | lo in Starts(rs) ensures lo in Starts(qs) {
      StartsAre(rs, lo);
      StartsAre(qs, lo);
      var i :| 0 <= i < |rs| && rs[i].lo == lo;
      assert Covers(rs, lo);
      var j :| 0 <= j < |qs| && qs[j].lo <= lo <= qs[j].hi;
      if qs[j].lo < lo {
        assert Covers(qs, lo - 1);
        assert false;
      }
    }
    FewStarts(rs);
    FewStarts(qs);
    SubsetIsSmaller(Starts(rs), Starts(qs));
  }

  // ---------------------------------------------------------------- the printer

  ghost function NumbersOf(rs: seq<Range>): iset<int> {
    iset x: int | Covers(rs, x)
  }

  ghost function NumbersIn(q: seq<uint64>): iset<int> {
    iset x: int | x in q
  }

  /** The text is the canonical rendering of a set of numbers. */
  ghost predicate Prints(s: string, numbers: iset<int>) {
    exists rs :: PrintsRanges(s, rs, numbers)
  }

  ghost predicate PrintsRanges(s: string, rs: seq<Range>, numbers: iset<int>) {
    s == Render(rs) && Canonical(rs) && NumbersOf(rs) == numbers
  }

  lemma EqualNumbers(rs: seq<Range>, qs: seq<Range>)
    requires NumbersOf(rs) == NumbersOf(qs)
    ensures SameNumbers(rs, qs)
  {
    forall x ensures Covers(rs, x) <==> Covers(qs, x) {
      assert x in NumbersOf(rs) <==> x in NumbersOf(qs);
    }
  }

  /** Round trip: reading a printed set gives ranges holding exactly that set, and they are
      canonical and as few as any list of ranges for the set can be. */
  lemma PrintRoundTrip(s: string, numbers: iset<int>)
    requires Prints(s, numbers)
    ensures Parse(s).Some? && NumbersOf(Parse(s).value) == numbers
    ensures Canonical(Parse(s).value)
    ensures forall qs :: NumbersOf(qs) == numbers ==> |Parse(s).value| <= |qs|
  {
    var rs :| PrintsRanges(s, rs, numbers);
    ParseUndoesRender(rs);
    forall qs | NumbersOf(qs) == numbers ensures |rs| <= |qs| {
      EqualNumbers(rs, qs);
      CanonicalIsShortest(rs, qs);
    }
  }

  /** A printed text is as short as any that reads as the same ranges. */
  lemma PrintIsShortest(s: string, numbers: iset<int>, t: string)
    requires Prints(s, numbers) && Parse(t) == Parse(s)
    ensures |s| <= |t|
  {
    var rs :| PrintsRanges(s, rs, numbers);
    ParseUndoesRender(rs);
    RenderIsShortest(rs, t);
  }

  /** Two printed texts are equal exactly when they print the same set. */
  lemma PrintsSameTextIffSameSet(s: string, numbers: iset<int>, t: string, others: iset<int>)
    requires Prints(s, numbers) && Prints(t, others)
    ensures s == t <==> numbers == others
  {
    var rs :| PrintsRanges(s, rs, numbers);
    var qs :| PrintsRanges(t, qs, others);
    ParseUndoesRender(rs);
    ParseUndoesRender(qs);
    if numbers == others {
      EqualNumbers(rs, qs);
      CanonicalIsUnique(rs, qs);
    }
  }

  lemma ExampleNumbers(rs: seq<Range>)
    requires rs == [Range(1, 1), Range(3, 5), Range(8, 9)]
    ensures NumbersOf(rs) == iset{1, 3, 4, 5, 8, 9} && Canonical(rs)
  {
    forall x: int ensures Covers(rs, x) <==> x == 1 || 3 <= x <= 5 || 8 <= x <= 9 {
      if x == 1 {
        assert rs[0].lo <= x <= rs[0].hi;
      } else if 3 <= x <= 5 {
        assert rs[1].lo <= x <= rs[1].hi;
      } else if 8 <= x <= 9 {
        assert rs[2].lo <= x <= rs[2].hi;
      }
    }
  }

  lemma ExampleText(rs: seq<Range>)
    requires rs == [Range(1, 1), Range(3, 5), Range(8, 9)]
    ensures Render(rs) == "1,3-5,8-9"
  {
    assert FormatUint(1) == "1" && FormatUint(3) == "3" && FormatUint(5) == "5";
    assert FormatUint(8) == "8" && FormatUint(9) == "9";
    var parts := RenderAll(rs);
    assert parts[0] == "1" && parts[1] == "3-5" && parts[2] == "8-9";
    assert parts[1..] == ["3-5", "8-9"] && parts[1..][1..] == ["8-9"];
    assert Join(parts[1..], ",") == "3-5" + "," + "8-9";
  }

  /** The documented example: "1,3-5,8-9" is the only print of these six numbers. */
  lemma PrintedExample(s: string)
    ensures Prints(s, iset{1, 3, 4, 5, 8, 9}) <==> s == "1,3-5,8-9"
  {
    var rs := [Range(1, 1), Range(3, 5), Range(8, 9)];
    ExampleNumbers(rs);
    ExampleText(rs);
    assert PrintsRanges("1,3-5,8-9", rs, iset{1, 3, 4, 5, 8, 9});
    if Prints(s, iset{1, 3, 4, 5, 8, 9}) {
      PrintsSameTextIffSameSet(s, iset{1, 3, 4, 5, 8, 9}, "1,3-5,8-9", iset{1, 3, 4, 5, 8, 9});
    }
  }

  /** What the printer's two variables hold once `runs` have been met: the closed runs as
      finished pieces, the last run as the piece still being written. */
  ghost predicate Written(runs: seq<Range>, sarray: seq<string>, s: string) {
    if runs == [] then sarray == [] && s == ""
    else sarray == RenderAll(runs[..|runs| - 1]) && s == RenderRange(runs[|runs| - 1])
  }

  lemma WrittenWiden(runs: seq<Range>, sarray: seq<string>, s: string, x: nat)
    requires Written(runs, sarray, s) && runs != []
    requires runs[|runs| - 1].lo <= runs[|runs| - 1].hi && x == runs[|runs| - 1].hi + 1
    ensures Written(AddToRuns(runs, x), sarray, Split(s, '-')[0] + "-" + FormatUint(x))
  {
    var n := |runs| - 1;
    var next := AddToRuns(runs, x);
    SplitRecoversRunStart(runs[n]);
    assert next[..n] == runs[..n] && next[n] == Range(runs[n].lo, x);
  }

  lemma WrittenOpen(runs: seq<Range>, sarray: seq<string>, s: string, x: nat)
    requires Written(runs, sarray, s) && runs != []
    requires runs[|runs| - 1].hi + 1 < x
    ensures Written(AddToRuns(runs, x), sarray + [s], FormatUint(x))
  {
    var n := |runs| - 1;
    var next := AddToRuns(runs, x);
    assert next[..n + 1] == runs;
    assert RenderAll(runs) == RenderAll(runs[..n]) + [RenderRange(runs[n])];
  }

  lemma WrittenEnd(runs: seq<Range>, sarray: seq<string>, s: string)
    requires Written(runs, sarray, s)
    ensures s == "" <==> runs == []
    ensures RenderAll(runs) == if s != "" then sarray + [s] else sarray
  {
    if runs != [] {
      ParseUndoesRenderRange(runs[|runs| - 1]);
    }
  }

  /** Among ascending numbers the wrapping increment is the increment. */
  lemma SuccessorAbove(x: uint64, y: uint64)
    requires x < y
    ensures y == Successor(x) <==> y == x + 1
  {}

  lemma RunsOfPrefix(q: seq<uint64>, i: nat)
    requires i < |q| && NonDecreasing(q)
    ensures RunsOf(q[..i + 1]) == AddToRuns(RunsOf(q[..i]), q[i])
    ensures Canonical(RunsOf(q[..i]))
    ensures i > 0 ==> RunsOf(q[..i]) != [] && RunsOf(q[..i])[|RunsOf(q[..i])| - 1].hi == q[i - 1]
  {
    assert q[..i + 1][..i] == q[..i];
    RunsAreCanonical(q[..i]);
  }

  /** One turn of the printer's loop, after the first, on the ascending content q. */
  lemma PrinterTurn(q: seq<uint64>, i: nat, sarray: seq<string>, s: string)
    requires 0 < i < |q| && NonDecreasing(q)
    requires Written(RunsOf(q[..i]), sarray, s)
    ensures
      if q[i] == q[i - 1] then Written(RunsOf(q[..i + 1]), sarray, s)
      else if q[i] == Successor(q[i - 1]) then
        Written(RunsOf(q[..i + 1]), sarray, Split(s, '-')[0] + "-" + FormatUint(q[i]))
      else Written(RunsOf(q[..i + 1]), sarray + [s], FormatUint(q[i]))
  {
    RunsOfPrefix(q, i);
    var runs, x := RunsOf(q[..i]), q[i];
    assert q[i - 1] <= x;
    if q[i - 1] < x {
      SuccessorAbove(q[i - 1], x);
      if x == q[i - 1] + 1 {
        WrittenWiden(runs, sarray, s, x);
      } else {
        WrittenOpen(runs, sarray, s, x);
      }
    }
  }

  lemma PrinterEnd(q: seq<uint64>, sarray: seq<string>, s: string)
    requires NonDecreasing(q) && Written(RunsOf(q), sarray, s)
    ensures Prints(Join(if s != "" then sarray + [s] else sarray, ","), NumbersIn(q))
  {
    WrittenEnd(RunsOf(q), sarray, s);
    RunsAreCanonical(q);
    forall y: int ensures Covers(RunsOf(q), y) <==> y in q {
      RunsOfCovers(q, y);
    }
    assert NumbersOf(RunsOf(q)) == NumbersIn(q);
    assert PrintsRanges(Render(RunsOf(q)), RunsOf(q), NumbersIn(q));
  }

  method SortNumbers(numbers: array<uint64>)
    modifies numbers
    ensures NonDecreasing(numbers[..])
    ensures multiset(numbers[..]) == multiset(old(numbers[..]))
    ensures NumbersIn(numbers[..]) == NumbersIn(old(numbers[..]))
  {
    var key := (x: uint64) => x as int;
    SortSlice(numbers, key);
    ghost var q := numbers[..];
    forall i, j | 0 <= i < j < |q| ensures q[i] <= q[j] {
      assert key(q[i]) <= key(q[j]);
    }
    forall x: int ensures x in q <==> x in old(numbers[..]) {
      if 0 <= x < UINT64_END {
        assert x in q <==> x in multiset(q);
        assert x in old(numbers[..]) <==> x in multiset(old(numbers[..]));
      }
    }
  }

  /** The printer itself.  It sorts its argument in place; the text it returns is the canonical
      rendering of the numbers the array held, whatever their order and however often each
      occurs.  The 64-bit increment may wrap, but never on a comparison that matters. */
  method ArrayToString(numbers: array<uint64>) returns (text: string)
    modifies numbers
    ensures Prints(text, NumbersIn(old(numbers[..])))
    ensures NonDecreasing(numbers[..])
    ensures multiset(numbers[..]) == multiset(old(numbers[..]))
  {
    SortNumbers(numbers);
    ghost var q := numbers[..];

    var sarray: seq<string> := [];
    var s := "";
    for i := 0 to numbers.Length
      invariant numbers[..] == q
      invariant Written(RunsOf(q[..i]), sarray, s)
    {
      var elm := numbers[i];
      assert elm == q[i] && (i > 0 ==> numbers[i - 1] == q[i - 1]);
      if i == 0 {
        s := FormatUint(elm);
        assert q[..1] == [elm] && RunsOf(q[..1]) == [Range(elm, elm)];
        continue;
      }
      PrinterTurn(q, i, sarray, s);
      if elm == numbers[i - 1] {
        continue;
      } else if elm == Successor(numbers[i - 1]) {
        s := Split(s, '-')[0] + "-" + FormatUint(elm);
      } else {
        sarray := sarray + [s];
        s := FormatUint(elm);
      }
    }
    assert q[..numbers.Length] == q;
    PrinterEnd(q, sarray, s);
    if s != "" {
      sarray := sarray + [s];
    }
    text := Join(sarray, ",");
  }
}
