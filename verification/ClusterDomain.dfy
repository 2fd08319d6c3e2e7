/** The startup gate of internal/controller/reconciler.go: the cluster domain in canonical
    form, or no start at all. */
module ClusterDomain {
  import opened Wrappers
  import opened Strings
  import opened DnsName
  import opened Api
  import Conflict

  const EMPTY := "cluster domain must not be empty"
  const INVALID := "invalid cluster domain"

  /** A label of a DNS-1123 subdomain. */
  predicate SubdomainLabel(l: string) {
    && l != ""
    && LowerAlnum(l[0]) && LowerAlnum(l[|l| - 1])
    && forall c | c in l :: LowerAlnum(c) || c == '-'
  }

  predicate IsSubdomain(name: string) {
    |name| <= 253 && forall l | l in Labels(name) :: SubdomainLabel(l)
  }

  function Gate(raw: string): Result<string> {
    var s := TrimSpace(raw);
    if s == "" then Err(EMPTY)
    else if !IsSubdomain(TrimSuffix(Canonical(s), ".")) then Err(INVALID)
    else Ok(Canonical(s))
  }

  lemma SubdomainChars(name: string)
    requires IsSubdomain(name)
    ensures name != "" && LowerAlnum(name[0])
    ensures forall c | c in name :: LowerAlnum(c) || c == '-' || c == '.'
  {
    JoinSplit(name, '.');
    JoinChars(Labels(name), ".");
    forall c | c in name ensures LowerAlnum(c) || c == '-' || c == '.' {
      if c !in "." {
        var p :| p in Labels(name) && c in p;
        assert SubdomainLabel(p);
      }
    }
    assert Labels(name)[0] in Labels(name);
    FirstOfJoin(Labels(name), ".");
  }

  lemma FirstOfJoin(parts: seq<string>, sep: string)
    requires parts != [] && parts[0] != ""
    ensures Join(parts, sep) != "" && Join(parts, sep)[0] == parts[0][0]
  {
  }

  /** A domain that passes is its own canonical form and never blank, so the resolver's own
      check cannot fail on it, and every route claiming it or a name below it is rejected. */
  lemma GateOpens(raw: string, routes: seq<Conflict.Route>, existing: seq<Conflict.Existing>)
    requires Gate(raw).Ok?
    ensures var d := Gate(raw).value;
            && Canonical(d) == d
            && Conflict.Resolution(routes, existing, d) == Ok(Conflict.Decisions(routes, existing, d))
  {
    var s := TrimSpace(raw);
    var d, body := Canonical(s), TrimSuffix(Canonical(s), ".");
    CanonicalIdempotent(s);
    SubdomainChars(body);
    assert d[|d| - 1] == '.';
    assert d[..|d| - 1] == body by {
      assert d[|d| - 1..] == ".";
    }
    assert d[0] == body[0];
    assert TrimLeft(d) == d && TrimRight(d) == d;
  }

  // ---- which flags pass

  predicate DomainChar(c: char) {
    'a' <= c <= 'z' || '0' <= c <= '9' || c == '-' || c == '.'
  }

  predicate LetterOrDigit(c: char) {
    'a' <= c <= 'z' || '0' <= c <= '9'
  }

  ghost predicate AllDomainChars(s: string) {
    forall c | c in s :: DomainChar(c)
  }

  /** It is not empty and begins and ends with a letter or a digit. */
  predicate GoodEnds(s: string) {
    s != "" && LetterOrDigit(s[0]) && LetterOrDigit(s[|s| - 1])
  }

  /** Every dot inside stands between letters or digits. */
  ghost predicate GoodDots(s: string) {
    forall i | 0 < i < |s| - 1 && s[i] == '.' :: LetterOrDigit(s[i - 1]) && LetterOrDigit(s[i + 1])
  }

  /** Lower-case letters, digits and hyphens in parts separated by dots, each part beginning
      and ending with a letter or a digit. */
  ghost predicate DomainName(s: string) {
    AllDomainChars(s) && GoodEnds(s) && GoodDots(s)
  }

  lemma OneLabel(s: string)
    requires '.' !in s
    ensures DomainName(s) <==> SubdomainLabel(s)
  {
    if s != "" {
      assert s[0] in s && s[|s| - 1] in s;
      assert forall i | 0 <= i < |s| :: s[i] in s;
    }
  }

  lemma CharsOfBoth(a: string, b: string)
    ensures AllDomainChars(a + "." + b) <==> AllDomainChars(a) && AllDomainChars(b)
  {
    var s := a + "." + b;
    forall c | c in s ensures c in a || c == '.' || c in b {
    }
    forall c | c in a || c in b ensures c in s {
      if c in a {
        assert c in a + ".";
      }
    }
  }

  lemma DottedEnds(a: string, b: string)
    ensures var s := a + "." + b; (a != "" ==> s[0] == a[0]) && (b != "" ==> s[|s| - 1] == b[|b| - 1])
    ensures var s := a + "." + b; s[|a|] == '.' && (a == "" ==> s[0] == '.') && (b == "" ==> s[|s| - 1] == '.')
  {
  }

  lemma DotsOfFirst(a: string, b: string)
    requires GoodDots(a + "." + b)
    ensures GoodDots(a)
  {
    var s := a + "." + b;
    forall i | 0 < i < |a| - 1 && a[i] == '.' ensures LetterOrDigit(a[i - 1]) && LetterOrDigit(a[i + 1]) {
      assert s[i] == a[i] && s[i - 1] == a[i - 1] && s[i + 1] == a[i + 1];
    }
  }

  lemma DotsOfSecond(a: string, b: string)
    requires GoodDots(a + "." + b)
    ensures GoodDots(b)
  {
    var s, n := a + "." + b, |a| + 1;
    forall i | 0 < i < |b| - 1 && b[i] == '.' ensures LetterOrDigit(b[i - 1]) && LetterOrDigit(b[i + 1]) {
      assert s[n + i] == b[i] && s[n + i - 1] == b[i - 1] && s[n + i + 1] == b[i + 1];
    }
  }

  lemma DotBetween(a: string, b: string)
    requires GoodDots(a + "." + b) && GoodEnds(a + "." + b)
    ensures a != "" && b != "" && LetterOrDigit(a[|a| - 1]) && LetterOrDigit(b[0])
  {
    var s, n := a + "." + b, |a|;
    DottedEnds(a, b);
    assert 0 < n && n < |s| - 1;
    assert s[n - 1] == a[n - 1] && s[n + 1] == b[0];
  }

  lemma DotsOfBoth(a: string, b: string)
    requires GoodDots(a) && GoodDots(b) && GoodEnds(a) && GoodEnds(b)
    ensures GoodDots(a + "." + b)
  {
    var s, n := a + "." + b, |a|;
    forall i | 0 < i < |s| - 1 && s[i] == '.' ensures LetterOrDigit(s[i - 1]) && LetterOrDigit(s[i + 1]) {
      if i < n {
        assert a[i] == '.' && s[i - 1] == a[i - 1];
      } else if i > n {
        assert b[i - n - 1] == '.';
      }
    }
  }

  lemma TwoNames(a: string, b: string)
    ensures DomainName(a + "." + b) <==> DomainName(a) && DomainName(b)
  {
    hide GoodDots, AllDomainChars, LetterOrDigit;
    CharsOfBoth(a, b);
    DottedEnds(a, b);
    if DomainName(a + "." + b) {
      DotsOfFirst(a, b);
      DotsOfSecond(a, b);
      DotBetween(a, b);
    }
    if DomainName(a) && DomainName(b) {
      DotsOfBoth(a, b);
    }
  }

  lemma {:induction false} LabelsForm(s: string)
    ensures (forall l | l in Labels(s) :: SubdomainLabel(l)) <==> DomainName(s)
    decreases |s|
  {
    hide DomainName, SubdomainLabel;
    var i := IndexOf(s, '.');
    if i == |s| {
      assert '.' !in s;
      SplitAtom(s, '.');
      OneLabel(s);
      assert s in Labels(s);
    } else {
      var a, b := s[..i], s[i + 1..];
      assert s == a + "." + b && '.' !in a;
      SplitConcat(a, '.', b);
      SplitAtom(a, '.');
      assert Labels(s) == [a] + Labels(b);
      LabelsForm(b);
      OneLabel(a);
      TwoNames(a, b);
      assert a in Labels(s);
    }
  }

  /** The gate, for every flag: whatever blanks surround `flag`, it is let through exactly if,
      without one trailing dot and in lower case, it is a domain name of at most 253 characters,
      and it comes out as that with a dot at the end. */
  lemma GateExactly(before: string, flag: string, after: string)
    requires Blank(before) && Blank(after) && Trimmed(flag)
    ensures var name := ToLower(if flag != "" && flag[|flag| - 1] == '.' then flag[..|flag| - 1] else flag);
            Gate(before + flag + after)
              == if flag == "" then Err(EMPTY) else if DomainName(name) && |name| <= 253 then Ok(name + ".") else Err(INVALID)
  {
    hide TrimSpace, DomainName, SubdomainLabel;
    TrimSpaceExact(before, flag, after);
    if flag != "" {
      DropDot(flag);
      var name := ToLower(TrimSuffix(flag, "."));
      assert (name + ".")[|name|..] == ".";
      LabelsForm(name);
    }
  }

  lemma DropDot(s: string)
    requires s != ""
    ensures TrimSuffix(s, ".") == if s[|s| - 1] == '.' then s[..|s| - 1] else s
  {
    assert s[|s| - 1..] == [s[|s| - 1]];
  }

  /** A flag that is nothing but blanks stops the start, and the resolver refuses it as well. */
  lemma BlankRefused(raw: string, routes: seq<Conflict.Route>, existing: seq<Conflict.Existing>)
    ensures Gate(raw) == Err(EMPTY) <==> Blank(raw)
    ensures Conflict.Resolution(routes, existing, raw).Err? <==> Blank(raw)
  {
    hide Blank, TrimSpace, Conflict.Decisions;
    var before, s, after := TrimParts(raw);
    TrimSpaceExact(before, s, after);
    BlankParts(before, s, after);
  }

  lemma BlankParts(before: string, s: string, after: string)
    requires Blank(before) && Blank(after) && Trimmed(s)
    ensures Blank(before + s + after) <==> s == ""
  {
    if s != "" {
      assert s[..1] == [s[0]];
      assert (before + s + after)[|before|] == s[0] && s[0] in before + s + after;
    }
  }
}
