/**
  Concrete runs: the repository's own test cases, stated on the model, and the
  observation that the connection list is ordered by host name rather than by the
  full `host:port` text.
 */
module Scenarios {
  import opened Wrappers
  import opened Strings
  import opened Order
  import opened Decimal
  import opened Discovery
  import opened Template
  import opened Supervisor

  lemma PortText()
    ensures IntToDecimal(2181) == "2181"
  {
    assert NatToDecimal(2) == "2";
    assert NatToDecimal(21) == "21";
    assert NatToDecimal(218) == "218";
  }

  /** The entry of a host at port 2181. */
  lemma Entry2181(host: string)
    ensures FormatAddress(host, 2181) == host + ":2181"
  {
    PortText();
  }

  lemma Entries2(h0: string, h1: string, port: int)
    ensures Entries([h0, h1], port) == [FormatAddress(h0, port), FormatAddress(h1, port)]
  {
  }

  lemma Entries3(h0: string, h1: string, h2: string, port: int)
    ensures Entries([h0, h1, h2], port) == [FormatAddress(h0, port), FormatAddress(h1, port), FormatAddress(h2, port)]
  {
  }

  /** The three-server cluster list renders in ascending host order, each with port 2181. */
  lemma ThreeServers()
    ensures ConnString(Cluster(["10.2.103.50", "10.2.101.144", "10.2.102.25"], 2181))
            == Success(["10.2.101.144:2181", "10.2.102.25:2181", "10.2.103.50:2181"])
  {
    var hosts := ["10.2.101.144", "10.2.102.25", "10.2.103.50"];
    ThreeHostsSorted();
    ConnStringOfSorted(["10.2.103.50", "10.2.101.144", "10.2.102.25"], hosts, 2181);
    Entries3(hosts[0], hosts[1], hosts[2], 2181);
    Entry2181(hosts[0]);
    Entry2181(hosts[1]);
    Entry2181(hosts[2]);
    ThreeEntriesText();
  }

  lemma ThreeHostsSorted()
    ensures Sorted(["10.2.101.144", "10.2.102.25", "10.2.103.50"])
    ensures multiset(["10.2.101.144", "10.2.102.25", "10.2.103.50"])
            == multiset(["10.2.103.50", "10.2.101.144", "10.2.102.25"])
  {
    ThreeHostsOrdered();
    SortedThree("10.2.101.144", "10.2.102.25", "10.2.103.50");
    RotateThree("10.2.101.144", "10.2.102.25", "10.2.103.50");
  }

  /** Three strings in ascending order. */
  lemma SortedThree(a: string, b: string, c: string)
    requires LessEq(a, b) && LessEq(b, c) && LessEq(a, c)
    ensures Sorted([a, b, c])
  {
  }

  /** Rotating three strings keeps their multiset. */
  lemma RotateThree(a: string, b: string, c: string)
    ensures multiset([a, b, c]) == multiset([c, a, b])
  {
  }

  lemma ThreeHostsOrdered()
    ensures LessEq("10.2.101.144", "10.2.102.25") && LessEq("10.2.102.25", "10.2.103.50")
    ensures LessEq("10.2.101.144", "10.2.103.50")
  {
    FirstBeforeSecond();
    SecondBeforeThird();
    FirstBeforeThird();
  }

  lemma FirstBeforeSecond()
    ensures LessEq("10.2.101.144", "10.2.102.25")
  {
    SubnetOrdered("1.144", "2.25");
    assert "10.2.10" + "1.144" == "10.2.101.144" && "10.2.10" + "2.25" == "10.2.102.25";
  }

  lemma SecondBeforeThird()
    ensures LessEq("10.2.102.25", "10.2.103.50")
  {
    SubnetOrdered("2.25", "3.50");
    assert "10.2.10" + "2.25" == "10.2.102.25" && "10.2.10" + "3.50" == "10.2.103.50";
  }

  lemma FirstBeforeThird()
    ensures LessEq("10.2.101.144", "10.2.103.50")
  {
    SubnetOrdered("1.144", "3.50");
    assert "10.2.10" + "1.144" == "10.2.101.144" && "10.2.10" + "3.50" == "10.2.103.50";
  }

  /** Two addresses of the `10.2.10` prefix compare as their last characters do. */
  lemma SubnetOrdered(a: string, b: string)
    requires a != [] && b != [] && a[0] < b[0]
    ensures LessEq("10.2.10" + a, "10.2.10" + b)
  {
    LessEqPrefix("10.2.10", a, b);
  }

  /** The rendered entries of the three servers, as literal text. */
  lemma ThreeEntriesText()
    ensures "10.2.101.144" + ":2181" == "10.2.101.144:2181"
    ensures "10.2.102.25" + ":2181" == "10.2.102.25:2181"
    ensures "10.2.103.50" + ":2181" == "10.2.103.50:2181"
  {
  }

  /** An unreachable exhibitor gives the empty list. */
  lemma UnreachableGivesNothing()
    ensures ConnString(Unreachable) == Success([])
  {
  }

  /**
    Host order is not address order: `sorted` runs on the host names before the port
    is appended. A host `h` sorts before `h + t`, yet when `t` starts with a character
    below `:` (a `.`, say, as in `a` and `a.b`) the entry of `h + t` is the smaller text.
   */
  lemma HostOrderNotAddressOrder(h: string, t: string, port: int)
    requires t != [] && t[0] < ':'
    ensures ConnString(Cluster([h + t, h], port)) == Success([FormatAddress(h, port), FormatAddress(h + t, port)])
    ensures !LessEq(FormatAddress(h, port), FormatAddress(h + t, port))
  {
    var hosts := [h, h + t];
    assert h == h + [];
    LessEqPrefix(h, [], t);
    assert Sorted(hosts);
    assert multiset(hosts) == multiset([h + t, h]);
    ConnStringOfSorted([h + t, h], hosts, port);
    Entries2(h, h + t, port);
    var d := IntToDecimal(port);
    var x, y := ":" + d, t + ":" + d;
    Regroup(h, [], ":", d);
    Regroup(h, t, ":", d);
    assert FormatAddress(h, port) == h + x;
    assert FormatAddress(h + t, port) == h + y;
    assert x[0] == ':' && y[0] == t[0];
    assert !LessEq(x, y);
    LessEqPrefix(h, x, y);
  }

  /** Regrouping a four-part concatenation around its first part. */
  lemma Regroup(a: string, b: string, c: string, d: string)
    ensures (a + b) + c + d == a + (b + c + d)
    ensures b == [] ==> a + c + d == a + (c + d)
  {
  }

  function Env(): map<string, string> {
    map["EXHIBITOR_BASE" := "http://test-exhibitor"]
  }

  /** A broker that has died with code -1 is reported at once, before any lock is requested. */
  lemma KafkaDies(template: string, discovery: Response)
    ensures Run(-1, Env(), template, Unreachable, [Tick(Some(-1), discovery, Acquired)])
            == Report(Exit(-1), [[]], [], 0, 0)
  {
  }

  /** One quiet loop with the exhibitor unreachable returns 0 and never asks for the lock. */
  lemma StaticEnsemble(template: string)
    ensures Run(1, Env(), template, Unreachable, [Tick(None, Unreachable, Acquired)])
            == Report(Exit(0), [[]], [], 0, 0)
  {
  }

  /** Two hosts already in ascending order at port 2181. */
  lemma TwoServers(h0: string, h1: string)
    requires LessEq(h0, h1)
    ensures ConnString(Cluster([h0, h1], 2181)) == Success([h0 + ":2181", h1 + ":2181"])
  {
    ConnStringOfSorted([h0, h1], [h0, h1], 2181);
    Entries2(h0, h1, 2181);
    Entry2181(h0);
    Entry2181(h1);
  }

  /** The literal texts of the restart case. */
  lemma RestartTexts()
    ensures LessEq("1.1.1.1", "2.2.2.2") && LessEq("2.2.2.2", "3.3.3.3")
    ensures "1.1.1.1" + ":2181" == "1.1.1.1:2181" && "2.2.2.2" + ":2181" == "2.2.2.2:2181"
    ensures "3.3.3.3" + ":2181" == "3.3.3.3:2181"
    ensures "2.2.2.2:2181" + "," + "3.3.3.3:2181" == "2.2.2.2:2181,3.3.3.3:2181"
    ensures LockPath("http://test-exhibitor") == "/kafka-exhibitor/http://test-exhibitor"
  {
  }

  /**
    The ensemble changes from {1.1.1.1, 2.2.2.2} to {2.2.2.2, 3.3.3.3} in the one loop:
    the lock is requested with the new ensemble and the broker started a second time.
   */
  lemma EnsembleRestart(template: string)
    ensures Run(1, Env(), template, Cluster(["1.1.1.1", "2.2.2.2"], 2181),
                [Tick(None, Cluster(["2.2.2.2", "3.3.3.3"], 2181), Acquired)])
            == Report(Exit(0),
                      [["1.1.1.1:2181", "2.2.2.2:2181"], ["2.2.2.2:2181", "3.3.3.3:2181"]],
                      [LockRequest("2.2.2.2:2181,3.3.3.3:2181", "/kafka-exhibitor/http://test-exhibitor")],
                      1, 1)
  {
    RestartTexts();
    TwoServers("1.1.1.1", "2.2.2.2");
    TwoServers("2.2.2.2", "3.3.3.3");
    var before, after := ["1.1.1.1:2181", "2.2.2.2:2181"], ["2.2.2.2:2181", "3.3.3.3:2181"];
    assert before[0] != after[0];
    assert Join(after, ",") == "2.2.2.2:2181,3.3.3.3:2181";
    OneRestart(Expand(template, Env(), Defaults(Env())), "http://test-exhibitor",
               Cluster(["1.1.1.1", "2.2.2.2"], 2181), Cluster(["2.2.2.2", "3.3.3.3"], 2181), before, after);
  }

  /** One loop in which discovery finds a recognised change and the lock is acquired. */
  lemma OneRestart(base: string, exhibitor: string, r0: Response, r1: Response, c0: seq<string>, c1: seq<string>)
    requires ConnString(r0) == Success(c0) && ConnString(r1) == Success(c1)
    requires Recognized(c0, c1)
    ensures Watch(base, exhibitor, 1, r0, [Tick(None, r1, Acquired)])
            == Report(Exit(0), [c0, c1], [LockRequest(Join(c1, ","), LockPath(exhibitor))], 1, 1)
  {
    var lock := LockRequest(Join(c1, ","), LockPath(exhibitor));
    var s0 := Initial(base, 1, c0);
    var tick := Tick(None, r1, Acquired);
    var next := State(0, c1, StartKafka(base, c1), [c0, c1], [lock], 1, 1);
    StepRestart(base, exhibitor, s0, tick, c1);
    assert s0.starts + [c1] == [c0, c1] && s0.locks + [lock] == [lock];
    assert Step(base, exhibitor, s0, tick) == Continue(next);
    assert Loop(base, exhibitor, next, []) == (next, Exit(0));
    assert [tick][0] == tick && [tick][1..] == [];
    assert Loop(base, exhibitor, s0, [tick]) == (next, Exit(0));
  }

  /**
    A stand-in template with the three lines the `server_template` test checks;
    the repository's own template file is not part of this model.
   */
  function ExamplePieces(): seq<Piece> {
    [Text("auto.create.topics.enable="), Hole("KAFKA_CREATE_TOPICS_ENABLE"),
     Text(" default.replication.factor="), Hole("KAFKA_REPLICATION_FACTOR"),
     Text(" zookeeper.connect="), Hole(ZOOKEEPER_CONNECTION_STRING)]
  }

  /**
    Expansion of a template holding two table entries and the connection string, with
    `KAFKA_REPLICATION_FACTOR=3` set and the topic-creation flag unset: the default
    and the override are filled in, the connection-string hole is left.
   */
  lemma ServerTemplateExample(env: map<string, string>)
    requires "KAFKA_REPLICATION_FACTOR" in env && env["KAFKA_REPLICATION_FACTOR"] == "3"
    requires "KAFKA_CREATE_TOPICS_ENABLE" !in env
    ensures Expand(Render(ExamplePieces()), env, Defaults(env)) == Render(ExampleResolved())
  {
    KeysBraceFree();
    assert WellFormed(ExamplePieces());
    ServerTemplateResolves(ExamplePieces(), env);
    ExampleSettings(env);
    ExampleResolves(env, Defaults(env));
  }

  function ExampleResolved(): seq<Piece> {
    [Text("auto.create.topics.enable="), Text("true"),
     Text(" default.replication.factor="), Text("3"),
     Text(" zookeeper.connect="), Hole(ZOOKEEPER_CONNECTION_STRING)]
  }

  lemma ExampleResolves(env: map<string, string>, table: seq<(string, string)>)
    requires Setting(env, table, "KAFKA_CREATE_TOPICS_ENABLE") == Some("true")
    requires Setting(env, table, "KAFKA_REPLICATION_FACTOR") == Some("3")
    requires Setting(env, table, ZOOKEEPER_CONNECTION_STRING) == None
    ensures Resolve(ExamplePieces(), env, table) == ExampleResolved()
  {
    var resolved := Resolve(ExamplePieces(), env, table);
    assert forall i :: 0 <= i < 6 ==> resolved[i] == ExampleResolved()[i];
  }

  lemma ExampleSettings(env: map<string, string>)
    requires "KAFKA_REPLICATION_FACTOR" in env && env["KAFKA_REPLICATION_FACTOR"] == "3"
    requires "KAFKA_CREATE_TOPICS_ENABLE" !in env
    ensures Setting(env, Defaults(env), "KAFKA_CREATE_TOPICS_ENABLE") == Some("true")
    ensures Setting(env, Defaults(env), "KAFKA_REPLICATION_FACTOR") == Some("3")
    ensures Setting(env, Defaults(env), ZOOKEEPER_CONNECTION_STRING) == None
  {
    DefaultsOverride(env, 1);
    DefaultsOverride(env, 2);
    DefaultsLeaveConnection(env);
    SettingLookup(env, Defaults(env), ZOOKEEPER_CONNECTION_STRING);
  }

  lemma KeysBraceFree()
    ensures BraceFree("KAFKA_CREATE_TOPICS_ENABLE") && BraceFree("KAFKA_REPLICATION_FACTOR")
    ensures BraceFree(ZOOKEEPER_CONNECTION_STRING)
    ensures BraceFree("auto.create.topics.enable=") && BraceFree(" default.replication.factor=")
    ensures BraceFree(" zookeeper.connect=")
  {
  }
}
