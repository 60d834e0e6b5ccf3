/**
  Ensemble discovery (`zk_conn_string`): the HTTP fetch of the cluster list is
  replaced by its result, a `Response`, and the rest is the pure rendering of that
  result into the list of `host:port` connection entries.
 */
module Discovery {
  import opened Wrappers
  import opened Strings
  import opened Order
  import opened Decimal

  /**
    What fetching the cluster list produced:
    - `Unreachable`: the fetch raised a `URLError`, which is caught;
    - `Malformed`: the body was not JSON or lacked `servers` or `port`, or the
      connection timed out or broke while the response was read, which is not a
      `URLError`; those errors are not caught and leave `zk_conn_string`;
    - `Cluster`: the decoded `servers` list and `port` number.
   */
  datatype Response = Unreachable | Malformed | Cluster(servers: seq<string>, port: int)

  /** The error that escapes discovery on a malformed response. */
  datatype Fault = UnreadableClusterList

  datatype Address = Address(host: string, port: int)

  /** `'%s:%d' % (host, port)`. */
  function FormatAddress(host: string, port: int): string {
    host + ":" + IntToDecimal(port)
  }

  /** Index of the last `:` in `s`, if any. */
  function LastColon(s: string): (k: Option<nat>)
    ensures k.Some? ==> k.value < |s| && s[k.value] == ':'
    ensures k.Some? ==> forall i :: k.value < i < |s| ==> s[i] != ':'
    ensures k.None? ==> forall i :: 0 <= i < |s| ==> s[i] != ':'
  {
    if s == [] then None
    else if s[|s| - 1] == ':' then Some(|s| - 1)
    else LastColon(s[..|s| - 1])
  }

  /**
    Reads `host:port`, splitting at the last colon (so a host may itself contain
    colons) and reading the port as a decimal integer.
   */
  function ParseAddress(s: string): Option<Address> {
    match LastColon(s)
    case None => None
    case Some(k) =>
      match ParseInt(s[k + 1..])
      case None => None
      case Some(p) => Some(Address(s[..k], p))
  }

  /** The host and the port of a formatted address can always be read back. */
  lemma ParseAddressOfFormat(host: string, port: int)
    ensures ParseAddress(FormatAddress(host, port)) == Some(Address(host, port))
  {
    var d := IntToDecimal(port);
    var s := host + ":" + d;
    var k := LastColon(s);
    assert s[|host|] == ':';
    assert forall i :: |host| < i < |s| ==> s[i] == d[i - |host| - 1];
    assert k == Some(|host|);
    assert s[..|host|] == host;
    assert s[|host| + 1..] == d;
    ParseIntOfDecimal(port);
  }

  /** The host part of each connection entry. */
  function Hosts(addresses: seq<string>): (hosts: seq<string>)
    ensures |hosts| == |addresses|
  {
    seq(|addresses|, i requires 0 <= i < |addresses| =>
      match ParseAddress(addresses[i]) case Some(a) => a.host case None => "")
  }

  /** One `host:port` entry per host, in the order given. */
  function Entries(hosts: seq<string>, port: int): (addresses: seq<string>)
    ensures |addresses| == |hosts|
  {
    seq(|hosts|, i requires 0 <= i < |hosts| => FormatAddress(hosts[i], port))
  }

  /** Each entry reads back as its host and the port. */
  lemma EntriesParse(hosts: seq<string>, port: int)
    ensures forall i :: 0 <= i < |hosts| ==> ParseAddress(Entries(hosts, port)[i]) == Some(Address(hosts[i], port))
  {
    forall i | 0 <= i < |hosts| ensures ParseAddress(Entries(hosts, port)[i]) == Some(Address(hosts[i], port)) {
      ParseAddressOfFormat(hosts[i], port);
    }
  }

  /**
    `zk_conn_string` once the fetch is done: an unreachable endpoint gives the
    empty list, a malformed answer raises, and a cluster list gives one entry per
    server (`ConnStringEntries` says which).
   */
  function ConnString(r: Response): (res: Result<seq<string>, Fault>)
    ensures r.Unreachable? ==> res == Success([])
    ensures r.Malformed? ==> res == Failure(UnreadableClusterList)
    ensures r.Cluster? ==> res.Success? && |res.value| == |r.servers|
  {
    match r
    case Unreachable => Success([])
    case Malformed => Failure(UnreadableClusterList)
    case Cluster(servers, port) =>
      Success(Entries(Sort(servers), port))
  }

  /**
    The entries of a cluster list read back as the listed port and hosts, and those
    hosts are the listed servers in ascending order.
   */
  lemma ConnStringEntries(r: Response)
    requires r.Cluster?
    ensures forall i :: 0 <= i < |ConnString(r).value| ==>
              ParseAddress(ConnString(r).value[i]).Some? && ParseAddress(ConnString(r).value[i]).value.port == r.port
    ensures Sorted(Hosts(ConnString(r).value)) && multiset(Hosts(ConnString(r).value)) == multiset(r.servers)
  {
    var hosts := Sort(r.servers);
    SortSorted(r.servers);
    var addresses := Entries(hosts, r.port);
    assert ConnString(r).value == addresses;
    EntriesParse(hosts, r.port);
    assert forall i :: 0 <= i < |addresses| ==> ParseAddress(addresses[i]) == Some(Address(hosts[i], r.port));
    assert Hosts(addresses) == hosts;
  }

  /**
    Two cluster lists naming the same servers, in whatever order, render to the same
    connection list, so discovery order never shows up as an ensemble change.
   */
  lemma ConnStringCanonical(servers1: seq<string>, servers2: seq<string>, port: int)
    requires multiset(servers1) == multiset(servers2)
    ensures ConnString(Cluster(servers1, port)) == ConnString(Cluster(servers2, port))
  {
    SortSorted(servers1);
    SortSorted(servers2);
    SortedUnique(Sort(servers1), Sort(servers2));
  }

  /**
    The connection list is the entries of the servers in their one ascending
    arrangement: any sorted list of the same servers determines it.
   */
  lemma ConnStringOfSorted(servers: seq<string>, hosts: seq<string>, port: int)
    requires Sorted(hosts) && multiset(hosts) == multiset(servers)
    ensures ConnString(Cluster(servers, port)) == Success(Entries(hosts, port))
  {
    SortSorted(servers);
    SortedUnique(Sort(servers), hosts);
  }

  /**
    A character that is not a digit, a colon or a minus sign appears in a
    connection entry only if it appeared in one of the servers listed.
   */
  lemma ConnStringAlphabet(r: Response, c: char)
    requires r.Cluster?
    requires forall i :: 0 <= i < |r.servers| ==> c !in r.servers[i]
    requires c != ':' && c != '-' && !IsDigit(c)
    ensures forall i :: 0 <= i < |ConnString(r).value| ==> c !in ConnString(r).value[i]
  {
    var hosts := Sort(r.servers);
    SortSorted(r.servers);
    assert ConnString(r).value == Entries(hosts, r.port);
    forall k | 0 <= k < |hosts| ensures c !in FormatAddress(hosts[k], r.port) {
      assert hosts[k] in multiset(r.servers);
      var j :| 0 <= j < |r.servers| && r.servers[j] == hosts[k];
      var d := IntToDecimal(r.port);
      assert FormatAddress(hosts[k], r.port) == hosts[k] + ":" + d;
      assert c !in d;
    }
  }
}
