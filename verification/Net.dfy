/** Go's net.SplitHostPort and net.JoinHostPort. */
module Net {
  import opened Wrappers
  import opened Strings

  datatype HostPort = HostPort(host: string, port: string)

  const MISSING_PORT := "missing port in address"
  const TOO_MANY_COLONS := "too many colons in address"
  const MISSING_BRACKET := "missing ']' in address"
  const UNEXPECTED_BRACKET := "unexpected bracket in address"

  function SplitHostPort(s: string): Result<HostPort> {
    var i := LastIndexOf(s, ':');
    if i == 0 then
      Err(MISSING_PORT)
    else if s[0] == '[' then
      var end := IndexOf(s, ']');
      if end == |s| then Err(MISSING_BRACKET)
      else if end + 1 == |s| then Err(MISSING_PORT)
      else if end + 2 != i then Err(if s[end + 1] == ':' then TOO_MANY_COLONS else MISSING_PORT)
      else if '[' in s[1..] || ']' in s[end + 1..] then Err(UNEXPECTED_BRACKET)
      else Ok(HostPort(s[1..end], s[i..]))
    else if ':' in s[..i - 1] then
      Err(TOO_MANY_COLONS)
    else if '[' in s || ']' in s then
      Err(UNEXPECTED_BRACKET)
    else
      Ok(HostPort(s[..i - 1], s[i..]))
  }

  function JoinHostPort(host: string, port: string): string {
    if ':' in host then "[" + host + "]:" + port else host + ":" + port
  }

  lemma SplitBracketed(host: string, port: string)
    requires '[' !in host && ']' !in host
    requires ':' !in port && '[' !in port && ']' !in port
    ensures SplitHostPort("[" + host + "]:" + port) == Ok(HostPort(host, port))
  {
    var s, k := "[" + host + "]:" + port, |host| + 1;
    hide IndexOf, LastIndexOf;
    BracketedParts(host, port);
    assert IndexOf(s, ']') == k;
    assert LastIndexOf(s, ':') == k + 2;
  }

  lemma BracketedParts(host: string, port: string)
    ensures var s, k := "[" + host + "]:" + port, |host| + 1;
            && |s| == k + 2 + |port|
            && s[0] == '[' && s[1..k] == host && s[k] == ']' && s[k + 1] == ':'
            && s[k + 1..] == ":" + port && s[k + 2..] == port
            && s[1..] == host + "]:" + port
            && (forall j | 1 <= j < k :: s[j] == host[j - 1])
            && (forall j | k + 2 <= j < |s| :: s[j] == port[j - k - 2])
  {
  }

  lemma SplitPlain(host: string, port: string)
    requires ':' !in host && '[' !in host && ']' !in host
    requires ':' !in port && '[' !in port && ']' !in port
    ensures SplitHostPort(host + ":" + port) == Ok(HostPort(host, port))
  {
    var s, k := host + ":" + port, |host|;
    assert s[..k] == host && s[k] == ':' && s[k + 1..] == port;
    assert forall j | k + 1 <= j < |s| :: s[j] == port[j - k - 1];
    assert LastIndexOf(s, ':') == k + 1;
    assert s[0] == ':' || s[0] in host;
  }

  /** Splitting undoes joining for every host and port without brackets and every port
      without colons. */
  lemma SplitJoinHostPort(host: string, port: string)
    requires '[' !in host && ']' !in host
    requires ':' !in port && '[' !in port && ']' !in port
    ensures SplitHostPort(JoinHostPort(host, port)) == Ok(HostPort(host, port))
  {
    if ':' in host {
      SplitBracketed(host, port);
    } else {
      SplitPlain(host, port);
    }
  }

  /** How a host and its port are written together. */
  predicate Joined(s: string, host: string, port: string) {
    && '[' !in host && ']' !in host
    && ':' !in port && '[' !in port && ']' !in port
    && (s == "[" + host + "]:" + port || (':' !in host && s == host + ":" + port))
  }

  /** Splitting succeeds exactly on a host and a port written together, and gives them back. */
  lemma SplitExact(s: string, host: string, port: string)
    ensures SplitHostPort(s) == Ok(HostPort(host, port)) <==> Joined(s, host, port)
  {
    if Joined(s, host, port) {
      if s == "[" + host + "]:" + port {
        SplitBracketed(host, port);
      } else {
        SplitPlain(host, port);
      }
    }
    if SplitHostPort(s) == Ok(HostPort(host, port)) {
      SplitIsJoined(s);
    }
  }

  lemma SplitIsJoined(s: string)
    requires SplitHostPort(s).Ok?
    ensures Joined(s, SplitHostPort(s).value.host, SplitHostPort(s).value.port)
  {
    var i := LastIndexOf(s, ':');
    if s[0] == '[' {
      var end := IndexOf(s, ']');
      assert forall j | 1 <= j < |s| :: s[j] == s[1..][j - 1];
      assert forall j | end + 1 <= j < |s| :: s[j] == s[end + 1..][j - end - 1];
      assert s == "[" + s[1..end] + "]:" + s[i..];
    } else {
      assert s == s[..i - 1] + ":" + s[i..];
    }
  }
}
