/** internal/dnsname/dnsname.go: the one normal form in which names are compared. */
module DnsName {
  import opened Strings
  import opened Sorting

  function Canonical(name: string): string {
    ToLower(TrimSuffix(name, ".")) + "."
  }

  lemma CanonicalIdempotent(name: string)
    ensures Canonical(Canonical(name)) == Canonical(name)
  {
    var c := Canonical(name);
    var body := ToLower(TrimSuffix(name, "."));
    assert c[|c| - 1..] == ".";
    assert TrimSuffix(c, ".") == body;
    assert ToLower(body) == body;
  }

  /** Equal up to the case of ASCII letters. */
  predicate EqualFold(a: string, b: string) {
    |a| == |b| && forall i | 0 <= i < |a| :: LowerChar(a[i]) == LowerChar(b[i])
  }

  /** Equal up to case and one trailing dot. */
  predicate SameName(a: string, b: string) {
    EqualFold(a, b) || EqualFold(a + ".", b) || EqualFold(a, b + ".")
  }

  lemma EqualFoldLower(a: string, b: string)
    ensures EqualFold(a, b) <==> ToLower(a) == ToLower(b)
  {
    if ToLower(a) == ToLower(b) {
      forall i | 0 <= i < |a| ensures LowerChar(a[i]) == LowerChar(b[i]) {
        assert ToLower(a)[i] == ToLower(b)[i];
      }
    }
  }

  lemma LowerCharDot(c: char)
    ensures LowerChar(c) == '.' <==> c == '.'
  {
  }

  /** Canonical forms agree exactly on names equal up to case and one trailing dot. */
  lemma CanonicalIdentifies(a: string, b: string)
    requires !HasSuffix(a, "..") && !HasSuffix(b, "..")
    ensures Canonical(a) == Canonical(b) <==> SameName(a, b)
  {
    var ta, tb := TrimSuffix(a, "."), TrimSuffix(b, ".");
    assert Canonical(a)[..|ta|] == ToLower(ta) && Canonical(b)[..|tb|] == ToLower(tb);
    EqualFoldLower(ta, tb);
    if EqualFold(ta, tb) {
      TrimFold(a, b);
    }
    if SameName(a, b) {
      FoldTrim(a, b);
    }
  }

  lemma TrimFold(a: string, b: string)
    requires EqualFold(TrimSuffix(a, "."), TrimSuffix(b, "."))
    ensures SameName(a, b)
  {
    var ta, tb := TrimSuffix(a, "."), TrimSuffix(b, ".");
    assert a == ta || a == ta + ".";
    assert b == tb || b == tb + ".";
    if a == ta && b == tb {
    } else if a == ta {
      EqualFoldDot(a, tb);
    } else if b == tb {
      EqualFoldDot(ta, b);
    } else {
      EqualFoldDot(ta, tb);
    }
  }

  lemma EqualFoldDot(a: string, b: string)
    requires EqualFold(a, b)
    ensures EqualFold(a + ".", b + ".")
  {
  }

  lemma TrimmedDot(x: string)
    requires !HasSuffix(x, "..")
    ensures TrimSuffix(x, ".") == if x != [] && x[|x| - 1] == '.' then x[..|x| - 1] else x
  {
    NoDoubleDot(x);
  }

  lemma FoldTrimSame(a: string, b: string)
    requires !HasSuffix(a, "..") && !HasSuffix(b, "..") && EqualFold(a, b)
    ensures EqualFold(TrimSuffix(a, "."), TrimSuffix(b, "."))
  {
    TrimmedDot(a);
    TrimmedDot(b);
    hide TrimSuffix, HasSuffix;
    if a != [] {
      LowerCharDot(a[|a| - 1]);
      LowerCharDot(b[|b| - 1]);
    }
  }

  lemma FoldTrimDotted(a: string, b: string)
    requires !HasSuffix(a, "..") && !HasSuffix(b, "..") && EqualFold(a + ".", b)
    ensures EqualFold(TrimSuffix(a, "."), TrimSuffix(b, "."))
  {
    TrimmedDot(a);
    TrimmedDot(b);
    NoDoubleDot(b);
    hide TrimSuffix, HasSuffix;
    var n := |a|;
    assert LowerChar((a + ".")[n]) == LowerChar(b[n]);
    LowerCharDot(b[n]);
    assert b[n] == '.';
    forall i | 0 <= i < n ensures LowerChar(a[i]) == LowerChar(b[i]) {
      assert (a + ".")[i] == a[i];
    }
    if n > 0 {
      LowerCharDot(a[n - 1]);
      LowerCharDot(b[n - 1]);
    }
  }

  lemma FoldTrim(a: string, b: string)
    requires !HasSuffix(a, "..") && !HasSuffix(b, "..")
    requires SameName(a, b)
    ensures EqualFold(TrimSuffix(a, "."), TrimSuffix(b, "."))
  {
    hide TrimSuffix, HasSuffix, EqualFold;
    if EqualFold(a, b) {
      FoldTrimSame(a, b);
    } else if EqualFold(a + ".", b) {
      FoldTrimDotted(a, b);
    } else {
      EqualFoldSymmetric(a, b + ".");
      FoldTrimDotted(b, a);
      EqualFoldSymmetric(TrimSuffix(b, "."), TrimSuffix(a, "."));
    }
  }

  lemma EqualFoldSymmetric(a: string, b: string)
    requires EqualFold(a, b)
    ensures EqualFold(b, a)
  {
  }

  lemma NoDoubleDot(x: string)
    requires !HasSuffix(x, "..")
    ensures |x| >= 2 ==> !(x[|x| - 1] == '.' && x[|x| - 2] == '.')
    ensures HasSuffix(x, ".") <==> x != [] && x[|x| - 1] == '.'
  {
    assert |x| >= 2 ==> x[|x| - 2..] == [x[|x| - 2], x[|x| - 1]];
  }

  /** The labels of a name, section 3.1 of RFC 1034: the root is the empty last label
      of a name written with its trailing dot. */
  function Labels(name: string): seq<string> {
    Split(name, '.')
  }

  predicate IsSuffixOf<T(==)>(s: seq<T>, t: seq<T>) {
    |s| <= |t| && t[|t| - |s|..] == s
  }

  /** `zone` is `domain` or a name below it: the test of the conflict resolver. */
  predicate Inside(zone: string, domain: string) {
    zone == domain || HasSuffix(zone, "." + domain)
  }

  /** The textual test is the subdomain relation of section 3.1 of RFC 1034: the
      domain's labels end the zone's labels. */
  lemma InsideIsSubdomain(zone: string, domain: string)
    ensures Inside(zone, domain) <==> IsSuffixOf(Labels(domain), Labels(zone))
  {
    var lz, ld := Labels(zone), Labels(domain);
    if HasSuffix(zone, "." + domain) {
      var x := zone[..|zone| - |domain| - 1];
      assert zone == x + "." + domain;
      SplitConcat(x, '.', domain);
      assert lz == Labels(x) + ld;
    }
    if IsSuffixOf(ld, lz) {
      var k := |lz| - |ld|;
      assert lz == lz[..k] + ld;
      JoinSplit(zone, '.');
      JoinSplit(domain, '.');
      if k == 0 {
        assert lz == ld;
      } else {
        JoinConcat(lz[..k], ld, ".");
        var x := Join(lz[..k], ".");
        assert zone == x + "." + domain;
        assert zone[|x|..] == "." + domain;
      }
    }
  }
}
