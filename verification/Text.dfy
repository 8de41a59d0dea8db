/** The string operations the range printer relies on: `strings.Split`, `strings.Join`,
    `strconv.FormatUint` in base ten, and the readers that undo them. */
module Text {
  import opened Wrappers

  const DIGITS: string := "0123456789"

  /** `strings.Split(s, sep)` for a one-character separator. */
  function Split(s: string, sep: char): (parts: seq<string>)
    ensures |parts| >= 1
  {
    if s == "" then [""]
    else
      var rest := Split(s[1..], sep);
      if s[0] == sep then [""] + rest else [[s[0]] + rest[0]] + rest[1..]
  }

  /** `strings.Join(parts, sep)`. */
  function Join(parts: seq<string>, sep: string): string {
    if |parts| == 0 then ""
    else if |parts| == 1 then parts[0]
    else parts[0] + sep + Join(parts[1..], sep)
  }

  lemma JoinIsNotEmpty(parts: seq<string>, sep: string)
    requires parts != [] && forall p :: p in parts ==> p != ""
    ensures Join(parts, sep) != ""
  {
    assert parts[0] in parts;
  }

  lemma {:induction false} SplitPlain(s: string, sep: char)
    requires sep !in s
    ensures Split(s, sep) == [s]
  {
    if s != "" {
      SplitPlain(s[1..], sep);
      assert s == [s[0]] + s[1..];
    }
  }

  lemma {:induction false} SplitAtFirst(head: string, sep: char, tail: string)
    requires sep !in head
    ensures Split(head + [sep] + tail, sep) == [head] + Split(tail, sep)
  {
    var s := head + [sep] + tail;
    if head == "" {
      assert s[1..] == tail;
    } else {
      SplitAtFirst(head[1..], sep, tail);
      assert s[1..] == head[1..] + [sep] + tail;
      assert head == [head[0]] + head[1..];
    }
  }

  lemma {:induction false} SplitUndoesJoin(parts: seq<string>, sep: char)
    requires parts != []
    requires forall p :: p in parts ==> sep !in p
    ensures Split(Join(parts, [sep]), sep) == parts
  {
    if |parts| == 1 {
      SplitPlain(parts[0], sep);
    } else {
      SplitUndoesJoin(parts[1..], sep);
      SplitAtFirst(parts[0], sep, Join(parts[1..], [sep]));
    }
  }

  lemma JoinStartsWithFirst(parts: seq<string>, sep: string)
    requires parts != []
    ensures parts[0] <= Join(parts, sep)
  {}

  /** The text contains the part. */
  ghost predicate Contains(whole: string, part: string) {
    exists before, after: string :: whole == before + part + after
  }

  lemma {:induction false} JoinContains(parts: seq<string>, sep: string, i: nat)
    requires i < |parts|
    ensures Contains(Join(parts, sep), parts[i])
  {
    var whole := Join(parts, sep);
    if |parts| == 1 {
      assert whole == "" + parts[0] + "";
    } else if i == 0 {
      assert whole == "" + parts[0] + (sep + Join(parts[1..], sep));
    } else {
      JoinContains(parts[1..], sep, i - 1);
      var before, after: string :| Join(parts[1..], sep) == before + parts[i] + after;
      assert whole == (parts[0] + sep + before) + parts[i] + after;
    }
  }

  lemma {:induction false} JoinSeparates(parts: seq<string>, sep: string, i: nat)
    requires i + 1 < |parts|
    ensures Contains(Join(parts, sep), parts[i] + sep + parts[i + 1])
  {
    var whole, rest := Join(parts, sep), parts[1..];
    if i > 0 {
      JoinSeparates(rest, sep, i - 1);
      var before, after: string :| Join(rest, sep) == before + (parts[i] + sep + parts[i + 1]) + after;
      assert whole == (parts[0] + sep + before) + (parts[i] + sep + parts[i + 1]) + after;
    } else {
      JoinStartsWithFirst(rest, sep);
      var after := Join(rest, sep)[|parts[1]|..];
      assert whole == "" + (parts[0] + sep + parts[1]) + after;
    }
  }

  predicate AllDigits(s: string) {
    forall i :: 0 <= i < |s| ==> '0' <= s[i] <= '9'
  }

  predicate IsNumeral(s: string) {
    s != "" && AllDigits(s)
  }

  /** `strconv.FormatUint(n, 10)`. */
  function FormatUint(n: nat): (s: string)
    ensures IsNumeral(s)
  {
    if n < 10 then [DIGITS[n]] else FormatUint(n / 10) + [DIGITS[n % 10]]
  }

  /** The number a decimal numeral stands for. */
  function NumeralValue(s: string): nat
    requires AllDigits(s)
  {
    if s == "" then 0
    else NumeralValue(s[..|s| - 1]) * 10 + (s[|s| - 1] as int - '0' as int)
  }

  function ParseUint(s: string): Option<nat> {
    if IsNumeral(s) then Some(NumeralValue(s)) else None
  }

  lemma {:induction false} ParseUndoesFormat(n: nat)
    ensures ParseUint(FormatUint(n)) == Some(n)
  {
    var s := FormatUint(n);
    var digit := if n < 10 then n else n % 10;
    assert s[|s| - 1] == DIGITS[digit] && DIGITS[digit] as int - '0' as int == digit;
    if n >= 10 {
      ParseUndoesFormat(n / 10);
      assert s[..|s| - 1] == FormatUint(n / 10);
    } else {
      assert s[..|s| - 1] == "";
      assert NumeralValue(s[..|s| - 1]) == 0;
    }
  }

  /** No leading zero, and no numeral of the same value is shorter. */
  lemma {:induction false} FormatIsShortest(n: nat, t: string)
    ensures |FormatUint(n)| > 1 ==> FormatUint(n)[0] != '0'
    ensures n > 0 ==> FormatUint(n)[0] != '0'
    ensures ParseUint(t) == Some(n) ==> |FormatUint(n)| <= |t|
  {
    if n >= 10 {
      var front := t[..if |t| > 0 then |t| - 1 else 0];
      FormatIsShortest(n / 10, front);
      if ParseUint(t) == Some(n) {
        assert NumeralValue(front) == n / 10;
        assert front != "";
      }
    }
  }
}
