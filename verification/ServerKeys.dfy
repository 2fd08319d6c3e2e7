/** The keys of server blocks: what every way of writing one means, and which keys are
    refused. */
module ServerKeys {
  import opened Wrappers
  import opened Strings
  import opened Net
  import opened DnsName
  import opened Corefile

  const SCHEME := "://"

  lemma NoSchemeHere(s: string)
    requires s != "" && s[0] != ':'
    ensures !HasPrefix(s, SCHEME)
  {
    if |s| >= 3 {
      assert s[..3][0] == s[0];
    }
  }

  lemma {:induction false} FindAfter(t: string, rest: string)
    requires ':' !in t
    ensures Find(t + SCHEME + rest, SCHEME) == Some(|t|)
    decreases |t|
  {
    var s := t + SCHEME + rest;
    if t == "" {
      assert s[..3] == SCHEME;
    } else {
      hide HasPrefix;
      assert s[0] == t[0] && t[0] in t;
      assert s[1..] == t[1..] + SCHEME + rest;
      NoSchemeHere(s);
      FindAfter(t[1..], rest);
    }
  }

  lemma TransportsPlain(transport: string)
    requires transport in DEFAULT_PORTS
    ensures ':' !in transport
  {
  }

  lemma PartsOf(transport: string, host: string)
    requires transport in DEFAULT_PORTS
    ensures var key := transport + SCHEME + host;
            Find(key, SCHEME) == Some(|transport|) && key[..|transport|] == transport && key[|transport| + 3..] == host
  {
    TransportsPlain(transport);
    FindAfter(transport, host);
  }

  /** A key written out in full reads back as its listener, exactly for the valid ports. */
  lemma FullKeyParses(transport: string, host: string, port: nat)
    requires transport in DEFAULT_PORTS && '[' !in host && ']' !in host
    ensures var key := transport + SCHEME + JoinHostPort(host, Itoa(port));
            if 1 <= port <= 65535 then ParseKey(key) == Ok(Listener(transport, Canonical(host), port))
            else ParseKey(key) == Err(KeyError(key, INVALID_PORT))
  {
    hide SplitHostPort, JoinHostPort, Find, Canonical, Itoa, KeyError;
    PartsOf(transport, JoinHostPort(host, Itoa(port)));
    AtoiItoa(port);
    SplitJoinHostPort(host, Itoa(port));
  }

  function DefaultPort(transport: string): int {
    match transport
    case "dns" => 53
    case "tls" => 853
    case "quic" => 853
    case "unix" => 0
    case _ => 443
  }

  predicate Enclosed(host: string) {
    |host| >= 2 && HasPrefix(host, "[") && HasSuffix(host, "]")
  }

  lemma ColonFree(host: string)
    requires ':' !in host
    ensures SplitHostPort(host).Err?
  {
    assert LastIndexOf(host, ':') == 0;
  }

  lemma Bracketed(host: string)
    requires ':' in host && '[' !in host && ']' !in host
    ensures var s := "[" + host + "]";
            SplitHostPort(s).Err? && ':' in s && Enclosed(s) && s[1..|s| - 1] == host
  {
    var s := "[" + host + "]";
    var k :| 0 <= k < |host| && host[k] == ':';
    assert s[k + 1] == ':';
    assert s[|s| - 1..] == "]" && s[1..|s| - 1] == host;
    assert forall j | 1 <= j < |s| - 1 :: s[j] == host[j - 1];
    assert forall j | 0 <= j < |s| - 1 :: s[j] != ']';
    assert s[|s| - 1] == ']';
    assert IndexOf(s, ']') == |s| - 1;
  }

  lemma DefaultPorts(transport: string)
    requires transport in DEFAULT_PORTS
    ensures DEFAULT_PORTS[transport] == DefaultPort(transport)
  {
  }

  lemma ReadWithoutPort(transport: string, host: string)
    requires transport in DEFAULT_PORTS && SplitHostPort(host).Err?
    requires ':' !in host || Enclosed(host)
    ensures ParseKey(transport + SCHEME + host) ==
              Ok(Listener(transport, Canonical(if ':' !in host then host else host[1..|host| - 1]), DefaultPort(transport)))
  {
    hide Find, Canonical, KeyError, SplitHostPort, HasPrefix, HasSuffix, DefaultPort;
    PartsOf(transport, host);
    DefaultPorts(transport);
  }

  /** A key without a port stands for the default port of its transport; an IPv6 address is
      then written in brackets. */
  lemma KeyWithoutPort(transport: string, host: string)
    requires transport in DEFAULT_PORTS
    ensures ':' !in host ==>
              ParseKey(transport + SCHEME + host) == Ok(Listener(transport, Canonical(host), DefaultPort(transport)))
    ensures ':' in host && '[' !in host && ']' !in host ==>
              ParseKey(transport + SCHEME + ("[" + host + "]")) == Ok(Listener(transport, Canonical(host), DefaultPort(transport)))
  {
    hide ParseKey, Canonical, SplitHostPort, HasPrefix, HasSuffix, DefaultPort;
    if ':' !in host {
      ColonFree(host);
      ReadWithoutPort(transport, host);
    } else if '[' !in host && ']' !in host {
      Bracketed(host);
      ReadWithoutPort(transport, "[" + host + "]");
    }
  }

  // ---- which keys are refused

  function SchemeOf(key: string): string {
    var cut := Find(key, SCHEME);
    if cut.Some? then key[..cut.value] else "dns"
  }

  function HostOf(key: string): string {
    var cut := Find(key, SCHEME);
    if cut.Some? then key[cut.value + 3..] else key
  }

  predicate GoodPort(port: string) {
    var n := Atoi(port);
    n.Some? && 1 <= n.value <= 65535
  }

  ghost predicate HasPort(host: string) {
    exists name, port :: Joined(host, name, port)
  }

  /** A key is refused exactly if its transport is unknown, or its port is none, or it has a
      colon that neither separates a port nor is inside brackets. */
  lemma KeyRefused(key: string)
    ensures ParseKey(key).Err? <==>
              || SchemeOf(key) !in DEFAULT_PORTS
              || (exists name, port :: Joined(HostOf(key), name, port) && !GoodPort(port))
              || (':' in HostOf(key) && !HasPort(HostOf(key)) && !Enclosed(HostOf(key)))
  {
    hide SplitHostPort, Canonical, KeyError, Atoi, Joined;
    var host := HostOf(key);
    forall name, port ensures SplitHostPort(host) == Ok(HostPort(name, port)) <==> Joined(host, name, port) {
      SplitExact(host, name, port);
    }
    if SplitHostPort(host).Ok? {
      var hp := SplitHostPort(host).value;
      assert Joined(host, hp.host, hp.port);
    }
  }

  /** A key without a scheme means the same under `dns`. */
  lemma DnsIsImplied(key: string)
    requires Find(key, SCHEME).None?
    ensures var long := ParseKey("dns" + SCHEME + key);
            ParseKey(key).Ok? == long.Ok? && (long.Ok? ==> ParseKey(key) == long)
  {
    hide SplitHostPort, Canonical, KeyError, Atoi, Find;
    PartsOf("dns", key);
  }

  /** Whatever the key, its zone comes out in canonical form. */
  lemma KeyZoneCanonical(key: string)
    requires ParseKey(key).Ok?
    ensures Canonical(ParseKey(key).value.zone) == ParseKey(key).value.zone
  {
    hide SplitHostPort, Canonical, KeyError, Atoi, Find;
    var host := HostOf(key);
    if SplitHostPort(host).Ok? {
      CanonicalIdempotent(SplitHostPort(host).value.host);
    } else if ':' !in host {
      CanonicalIdempotent(host);
    } else {
      CanonicalIdempotent(host[1..|host| - 1]);
    }
  }
}
