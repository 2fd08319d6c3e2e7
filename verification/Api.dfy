/** The admission rules of api/v1alpha1/types.go that the controller relies on, and what
    they say about the characters of zones, addresses and names. */
module Api {
  import opened Wrappers
  import opened Strings
  import opened DnsName

  predicate LowerAlnum(c: char) {
    'a' <= c <= 'z' || IsDigit(c)
  }

  predicate Alnum(c: char) {
    LowerAlnum(c) || 'A' <= c <= 'Z'
  }

  predicate LabelChar(c: char) {
    Alnum(c) || c == '-'
  }

  predicate ValidLabel(l: string) {
    && 1 <= |l| <= 63
    && Alnum(l[0]) && Alnum(l[|l| - 1])
    && forall c | c in l :: LabelChar(c)
  }

  /** The zone pattern: dot-separated labels, optionally one trailing dot. */
  predicate ValidZone(z: string) {
    && 1 <= |z| <= 254
    && forall l | l in Labels(TrimSuffix(z, ".")) :: ValidLabel(l)
  }

  /** The zone list: not empty, no two zones equal up to case and a trailing dot. */
  ghost predicate ValidZones(zones: seq<string>) {
    && zones != []
    && (forall z | z in zones :: ValidZone(z))
    && (forall i, j | 0 <= i < j < |zones| :: Canonical(zones[i]) != Canonical(zones[j]))
  }

  /** What a canonical IPv4 or IPv6 literal looks like: lower-case hexadecimal digits, dots
      and colons, and either no colon or at least two. */
  predicate ValidAddress(a: string) {
    && a != ""
    && (forall c | c in a :: IsDigit(c) || 'a' <= c <= 'f' || c == '.' || c == ':')
    && (':' in a ==> IndexOf(a, ':') + 1 < LastIndexOf(a, ':'))
  }

  /** Object names are DNS-1123 subdomains. */
  predicate ValidName(name: string) {
    forall c | c in name :: LowerAlnum(c) || c == '-' || c == '.'
  }

  lemma {:induction false} JoinChars(parts: seq<string>, sep: string)
    ensures forall c | c in Join(parts, sep) :: c in sep || exists p :: p in parts && c in p
    decreases |parts|
  {
    if |parts| > 1 {
      JoinChars(parts[1..], sep);
      assert parts[0] in parts;
      forall c | c in Join(parts, sep) ensures c in sep || exists p :: p in parts && c in p {
        if c in Join(parts[1..], sep) && c !in sep {
          var p :| p in parts[1..] && c in p;
          assert p in parts;
        }
      }
    }
  }

  predicate KeyChar(c: char) {
    LowerAlnum(c) || c == '-' || c == '.'
  }

  lemma EmptyLabel(t: string)
    ensures t == "" || HasSuffix(t, ".") ==> "" in Labels(t)
  {
    if t == "" {
      assert Labels(t)[0] == "";
    } else if HasSuffix(t, ".") {
      var x := t[..|t| - 1];
      assert t == x + "." + "";
      SplitConcat(x, '.', "");
      assert Labels(t) == Labels(x) + [""];
    }
  }

  lemma ZoneChars(z: string)
    requires ValidZone(z)
    ensures var t := TrimSuffix(z, ".");
            t != "" && (forall c | c in t :: LabelChar(c) || c == '.') && !HasSuffix(t, ".")
  {
    var t := TrimSuffix(z, ".");
    JoinSplit(t, '.');
    JoinChars(Labels(t), ".");
    forall c | c in t ensures LabelChar(c) || c == '.' {
      if c !in "." {
        var p :| p in Labels(t) && c in p;
        assert ValidLabel(p);
      }
    }
    EmptyLabel(t);
  }

  /** A valid zone as printed: its canonical form without the dot. */
  lemma PrintedZone(z: string)
    requires ValidZone(z)
    ensures var k := TrimSuffix(Canonical(z), ".");
            && k == ToLower(TrimSuffix(z, "."))
            && k != "" && (forall c | c in k :: KeyChar(c))
            && Canonical(k) == Canonical(z)
  {
    ZoneChars(z);
    var t := TrimSuffix(z, ".");
    var k := TrimSuffix(Canonical(z), ".");
    assert Canonical(z)[|t|..] == ".";
    assert k == ToLower(t);
    forall c | c in k ensures KeyChar(c) {
      var i :| 0 <= i < |k| && k[i] == c;
      assert t[i] in t;
    }
    assert !HasSuffix(k, ".") by {
      assert t[|t| - 1..] == [t[|t| - 1]];
      assert k[|k| - 1..] == [k[|k| - 1]];
      LowerCharDot(t[|t| - 1]);
    }
    assert ToLower(k) == k;
  }
}
