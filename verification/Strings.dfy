/** The string operations the program takes from Go's standard library, on strings
    of ASCII characters. */
module Strings {
  import opened Sorting
  import opened Wrappers

  /** Go's `<` on strings: bytewise lexicographic order. */
  predicate Less(a: string, b: string) {
    b != [] && (a == [] || a[0] < b[0] || (a[0] == b[0] && Less(a[1..], b[1..])))
  }

  lemma {:induction false} LessTransitive(a: string, b: string, c: string)
    requires Less(a, b) && Less(b, c)
    ensures Less(a, c)
  {
    if a == [] {
    } else if a[0] == b[0] == c[0] {
      LessTransitive(a[1..], b[1..], c[1..]);
    }
  }

  lemma {:induction false} LessTotal(a: string, b: string)
    ensures a == b || Less(a, b) || Less(b, a)
    ensures !(Less(a, b) && Less(b, a)) && !Less(a, a)
  {
    if a != [] && b != [] && a[0] == b[0] {
      LessTotal(a[1..], b[1..]);
      assert a == [a[0]] + a[1..] && b == [b[0]] + b[1..];
    }
    if a != [] {
      LessTotal(a[1..], a[1..]);
    }
  }

  lemma LessIsOrder()
    ensures StrictWeakOrder(Less)
  {
    forall a: string ensures !Less(a, a) {
      LessTotal(a, a);
    }
    forall a, b, c | Less(a, b) && Less(b, c) ensures Less(a, c) {
      LessTransitive(a, b, c);
    }
    forall a, b, c | Less(a, c) ensures Less(a, b) || Less(b, c) {
      LessTotal(a, b);
      if Less(b, a) {
        LessTransitive(b, a, c);
      }
    }
  }

  /** The order of the first byte in which they differ, a proper prefix coming first. */
  lemma {:induction false} LessExactly(a: string, b: string)
    ensures Less(a, b) <==>
              exists i :: 0 <= i <= |a| && i < |b| && a[..i] == b[..i] && (i == |a| || a[i] < b[i])
  {
    forall i | 0 < i <= |a| && i < |b| && a[..i] == b[..i] ensures a[0] == b[0] {
      assert a[..i][0] == a[0] && b[..i][0] == b[0];
    }
    if a != [] && b != [] && a[0] == b[0] {
      LessExactly(a[1..], b[1..]);
      if Less(a, b) {
        var i :| 0 <= i <= |a[1..]| && i < |b[1..]| && a[1..][..i] == b[1..][..i] && (i == |a[1..]| || a[1..][i] < b[1..][i]);
        assert a[..i + 1] == [a[0]] + a[1..][..i] && b[..i + 1] == [b[0]] + b[1..][..i];
      }
      if i :| 0 <= i <= |a| && i < |b| && a[..i] == b[..i] && (i == |a| || a[i] < b[i]) {
        assert i > 0;
        assert a[1..][..i - 1] == a[..i][1..] && b[1..][..i - 1] == b[..i][1..];
      }
    } else if b != [] && (a == [] || a[0] < b[0]) {
      assert a[..0] == b[..0];
    }
  }

  lemma ConcatAssociative<T>(a: seq<T>, b: seq<T>, c: seq<T>)
    ensures a + (b + c) == (a + b) + c
  {
  }

  predicate HasSuffix(s: string, suffix: string) {
    |suffix| <= |s| && s[|s| - |suffix|..] == suffix
  }

  predicate HasPrefix(s: string, prefix: string) {
    |prefix| <= |s| && s[..|prefix|] == prefix
  }

  function TrimSuffix(s: string, suffix: string): string {
    if HasSuffix(s, suffix) then s[..|s| - |suffix|] else s
  }

  predicate IsSpace(c: char) {
    c == ' ' || c == '\t' || c == '\n' || c == '\r' || c == '\U{000B}' || c == '\U{000C}'
  }

  function TrimLeft(s: string): string {
    if s != [] && IsSpace(s[0]) then TrimLeft(s[1..]) else s
  }

  function TrimRight(s: string): string {
    if s != [] && IsSpace(s[|s| - 1]) then TrimRight(s[..|s| - 1]) else s
  }

  function TrimSpace(s: string): string {
    TrimRight(TrimLeft(s))
  }

  /** Nothing but blanks. */
  predicate Blank(s: string) {
    forall c | c in s :: c == ' ' || c == '\t' || c == '\n' || c == '\r' || c == '\U{000B}' || c == '\U{000C}'
  }

  /** No blank at either end. */
  predicate Trimmed(s: string) {
    s == "" || (!Blank(s[..1]) && !Blank(s[|s| - 1..]))
  }

  lemma {:induction false} TrimLeftExact(before: string, s: string)
    requires Blank(before) && (s == "" || !IsSpace(s[0]))
    ensures TrimLeft(before + s) == s
    decreases |before|
  {
    if before == "" {
      assert before + s == s;
    } else {
      assert before[0] in before && forall c | c in before[1..] :: c in before;
      assert (before + s)[0] == before[0] && (before + s)[1..] == before[1..] + s;
      TrimLeftExact(before[1..], s);
    }
  }

  lemma {:induction false} TrimRightExact(s: string, after: string)
    requires Blank(after) && (s == "" || !IsSpace(s[|s| - 1]))
    ensures TrimRight(s + after) == s
    decreases |after|
  {
    if after == "" {
      assert s + after == s;
    } else {
      var n := |after| - 1;
      assert after[n] in after && forall c | c in after[..n] :: c in after;
      assert (s + after)[|s + after| - 1] == after[n] && (s + after)[..|s + after| - 1] == s + after[..n];
      TrimRightExact(s, after[..n]);
    }
  }

  lemma {:induction false} BlankTrims(s: string)
    requires Blank(s)
    ensures TrimLeft(s) == ""
  {
    if s != "" {
      assert s[0] in s && forall c | c in s[1..] :: c in s;
      BlankTrims(s[1..]);
    }
  }

  /** Trimming takes away the blanks at both ends and nothing else. */
  lemma TrimSpaceExact(before: string, s: string, after: string)
    requires Blank(before) && Blank(after) && Trimmed(s)
    ensures TrimSpace(before + s + after) == s
  {
    if s == "" {
      assert before + s + after == before + after;
      BlankTrims(before + after);
    } else {
      assert s[..1] == [s[0]] && s[|s| - 1..] == [s[|s| - 1]];
      assert before + s + after == before + (s + after) && (s + after)[0] == s[0];
      TrimLeftExact(before, s + after);
      TrimRightExact(s, after);
    }
  }

  /** Every text is made so. */
  lemma {:induction false} TrimParts(text: string) returns (before: string, s: string, after: string)
    ensures text == before + s + after && Blank(before) && Blank(after) && Trimmed(s)
    decreases |text|
  {
    if text == "" {
      before, s, after := "", "", "";
    } else if Blank(text[..1]) {
      before, s, after := TrimParts(text[1..]);
      assert text == text[..1] + text[1..];
      before := text[..1] + before;
      assert text == before + s + after;
    } else if Blank(text[|text| - 1..]) {
      var n := |text| - 1;
      before, s, after := TrimParts(text[..n]);
      assert text == text[..n] + text[n..];
      after := after + text[n..];
      assert text == before + s + after;
    } else {
      before, s, after := "", text, "";
      assert text == before + s + after;
    }
  }

  function LowerChar(c: char): char {
    if 'A' <= c <= 'Z' then (c as int + 32) as char else c
  }

  function ToLower(s: string): (r: string)
    ensures |r| == |s|
    ensures forall i | 0 <= i < |s| :: r[i] == LowerChar(s[i])
  {
    seq(|s|, i requires 0 <= i < |s| => LowerChar(s[i]))
  }

  function Join(parts: seq<string>, sep: string): string {
    if parts == [] then ""
    else if |parts| == 1 then parts[0]
    else parts[0] + sep + Join(parts[1..], sep)
  }

  lemma JoinOne(part: string, sep: string)
    ensures Join([part], sep) == part
  {
  }

  function Split(s: string, c: char): (parts: seq<string>)
    ensures parts != []
  {
    if s == [] then
      [""]
    else
      var rest := Split(s[1..], c);
      if s[0] == c then [""] + rest else [[s[0]] + rest[0]] + rest[1..]
  }

  lemma {:induction false} JoinSplit(s: string, c: char)
    ensures Join(Split(s, c), [c]) == s
    ensures forall p | p in Split(s, c) :: c !in p
  {
    if s == [] {
    } else {
      JoinSplit(s[1..], c);
      var rest := Split(s[1..], c);
      assert s == [s[0]] + s[1..];
      if s[0] == c {
        assert ([""] + rest)[1..] == rest;
      } else {
        var head := [s[0]] + rest[0];
        assert ([head] + rest[1..])[1..] == rest[1..];
        assert rest[0] in rest;
        if |rest| > 1 {
          assert [s[0]] + (rest[0] + [c] + Join(rest[1..], [c])) == head + [c] + Join(rest[1..], [c]);
        }
      }
    }
  }

  lemma {:induction false} JoinConcat(p: seq<string>, q: seq<string>, sep: string)
    requires p != [] && q != []
    ensures Join(p + q, sep) == Join(p, sep) + sep + Join(q, sep)
  {
    if |p| == 1 {
      assert (p + q)[1..] == q;
    } else {
      JoinConcat(p[1..], q, sep);
      assert (p + q)[1..] == p[1..] + q;
    }
  }

  /** A separator splits the split. */
  lemma {:induction false} SplitConcat(a: string, c: char, b: string)
    ensures Split(a + [c] + b, c) == Split(a, c) + Split(b, c)
  {
    hide Split;
    if a == [] {
      assert a + [c] + b == [c] + b;
      SplitCons(c, b, c);
      SplitEmpty(c);
    } else {
      var tail := a[1..] + [c] + b;
      assert a + [c] + b == [a[0]] + tail;
      SplitConcat(a[1..], c, b);
      SplitCons(a[0], tail, c);
      SplitCons(a[0], a[1..], c);
      assert [a[0]] + a[1..] == a;
      var x, y := Split(a[1..], c), Split(b, c);
      if a[0] == c {
        ConcatAssociative([""], x, y);
      } else {
        assert (x + y)[0] == x[0] && (x + y)[1..] == x[1..] + y;
        ConcatAssociative([[a[0]] + x[0]], x[1..], y);
      }
    }
  }

  lemma SplitEmpty(c: char)
    ensures Split("", c) == [""]
  {
  }

  lemma SplitCons(d: char, s: string, c: char)
    ensures var rest := Split(s, c);
            Split([d] + s, c) == if d == c then [""] + rest else [[d] + rest[0]] + rest[1..]
  {
    assert ([d] + s)[1..] == s;
  }

  lemma {:induction false} SplitAtom(a: string, c: char)
    requires c !in a
    ensures Split(a, c) == [a]
  {
    if a == [] {
    } else {
      SplitAtom(a[1..], c);
      assert a == [a[0]] + a[1..];
    }
  }

  /** The first position of `c`, or the length. */
  function IndexOf(s: string, c: char): (i: nat)
    ensures i <= |s|
    ensures i < |s| ==> s[i] == c
    ensures forall j | 0 <= j < i :: s[j] != c
  {
    if s == [] || s[0] == c then 0 else 1 + IndexOf(s[1..], c)
  }

  /** One past the last position of `c`, or 0. */
  function LastIndexOf(s: string, c: char): (i: nat)
    ensures i <= |s|
    ensures i > 0 ==> s[i - 1] == c
    ensures forall j | i <= j < |s| :: s[j] != c
  {
    if s == [] then 0
    else if s[|s| - 1] == c then |s|
    else LastIndexOf(s[..|s| - 1], c)
  }

  lemma SliceOfTail(s: string, i: nat, n: nat)
    requires 1 + i + n <= |s|
    ensures s[1..][i..i + n] == s[1 + i..1 + i + n]
  {
  }

  /** The first position at which `sub` occurs, or None. */
  function Find(s: string, sub: string): (r: Option<nat>)
    ensures r.Some? ==> r.value + |sub| <= |s| && s[r.value..r.value + |sub|] == sub
  {
    if HasPrefix(s, sub) then Some(0)
    else if s == [] then None
    else match Find(s[1..], sub)
      case None => None
      case Some(i) =>
        SliceOfTail(s, i, |sub|);
        Some(1 + i)
  }

  predicate IsDigit(c: char) {
    '0' <= c <= '9'
  }

  function Digit(n: nat): char
    requires n < 10
  {
    ('0' as int + n) as char
  }

  function Itoa(n: nat): (s: string)
    ensures s != [] && forall c | c in s :: IsDigit(c)
  {
    if n < 10 then [Digit(n)] else Itoa(n / 10) + [Digit(n % 10)]
  }

  /** Go's strconv.Itoa, negative numbers included. */
  function Decimal(n: int): string {
    if n < 0 then "-" + Itoa(-n) else Itoa(n)
  }

  /** The value of a string of decimal digits. */
  function Value(s: string): nat
    requires forall c | c in s :: IsDigit(c)
  {
    if s == [] then 0
    else
      assert IsDigit(s[|s| - 1]);
      10 * Value(s[..|s| - 1]) + (s[|s| - 1] as int - '0' as int)
  }

  /** Go's strconv.Atoi: an optional sign and at least one digit. */
  function Atoi(s: string): Option<int> {
    var signed := s != [] && (s[0] == '+' || s[0] == '-');
    var digits := if signed then s[1..] else s;
    if digits == [] || exists c | c in digits :: !IsDigit(c) then None
    else
      var v: int := Value(digits);
      Some(if signed && s[0] == '-' then -v else v)
  }

  lemma {:induction false} ValueItoa(n: nat)
    ensures Value(Itoa(n)) == n
  {
    if n >= 10 {
      ValueItoa(n / 10);
      var s := Itoa(n);
      assert s[..|s| - 1] == Itoa(n / 10);
    }
  }

  lemma AtoiItoa(n: nat)
    ensures Atoi(Itoa(n)) == Some(n)
  {
    ValueItoa(n);
    assert Itoa(n)[0] in Itoa(n);
  }

  /** A sign counts, and anything but a sign and digits is no number. */
  lemma AtoiSigned(n: nat)
    ensures Atoi("+" + Itoa(n)) == Some(n)
    ensures var m: int := n; Atoi("-" + Itoa(n)) == Some(-m)
  {
    ValueItoa(n);
    assert ("+" + Itoa(n))[1..] == Itoa(n) && ("-" + Itoa(n))[1..] == Itoa(n);
  }

  lemma AtoiRefuses(s: string, c: char)
    requires s == "" || (c in s[1..] && !IsDigit(c)) || (!IsDigit(s[0]) && s[0] != '+' && s[0] != '-') || s == "+" || s == "-"
    ensures Atoi(s) == None
  {
    if s != "" && c in s[1..] {
      assert c in s;
    } else if s != "" && !IsDigit(s[0]) && s[0] != '+' && s[0] != '-' {
      assert s[0] in s;
    }
  }

  /** A printed number reads back, its sign included. */
  lemma DecimalReads(n: int)
    ensures Atoi(Decimal(n)) == Some(n)
  {
    if n < 0 {
      AtoiSigned(-n);
    } else {
      AtoiItoa(n);
    }
  }
}
