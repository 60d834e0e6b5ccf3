/**
  Rendering of the broker's property file: `server_template` expands the
  `{{KEY}}` placeholders named in the defaults table, each with its environment
  override or else its default, and `start_kafka` later fills the one placeholder
  the table leaves alone, `{{ZOOKEEPER_CONNECTION_STRING}}`, with the ensemble.

  The expansion is modelled as the source does it, by repeated textual
  replacement. Its meaning is stated on a `Piece` view of the template (brace-free
  text and named holes): replacement fills exactly the holes of the names it is
  asked for and nothing else.
 */
module Template {
  import opened Wrappers
  import opened Strings

  /** Name of the placeholder resolved only when the ensemble is known. */
  const ZOOKEEPER_CONNECTION_STRING := "ZOOKEEPER_CONNECTION_STRING"

  /** `'{{%s}}' % name`. */
  function Placeholder(name: string): string {
    "{{" + name + "}}"
  }

  /** `os.environ.get(key, default)`: a variable set to the empty string still counts. */
  function EnvGet(env: map<string, string>, key: string, default: string): string {
    if key in env then env[key] else default
  }

  /**
    `PROPERTIES_DEFAULTS` in its declaration order. The advertised host name
    defaults to the `IP` environment variable, or the empty string.
   */
  function Defaults(env: map<string, string>): seq<(string, string)> {
    [ ("KAFKA_BROKER_ID", "-1"),
      ("KAFKA_CREATE_TOPICS_ENABLE", "true"),
      ("KAFKA_REPLICATION_FACTOR", "1"),
      ("KAFKA_ADVERTISED_HOST_NAME", EnvGet(env, "IP", "")),
      ("KAFKA_DELETE_TOPIC_ENABLE", "false"),
      ("KAFKA_PORT", "9092"),
      ("KAFKA_ADVERTISED_PORT", "9092"),
      ("KAFKA_LOG_DIR", "/data"),
      ("KAFKA_NUM_PARTITIONS", "1"),
      ("KAFKA_LOG_RETENTION_HOURS", "168"),
      ("KAFKA_LOG_FLUSH_INTERVAL_MS", "3000"),
      ("KAFKA_LOG_FLUSH_INTERVAL_MESSAGES", "10000"),
      ("ZOOKEEPER_CHROOT", "/kafka"),
      ("ZOOKEEPER_CONNECTION_TIMEOUT_MS", "10000"),
      ("ZOOKEEPER_SESSION_TIMEOUT_MS", "10000") ]
  }

  /** The template after the replacements for every entry of `table`, first entry first. */
  function Expand(template: string, env: map<string, string>, table: seq<(string, string)>): string {
    if table == [] then template
    else
      var (key, default) := table[|table| - 1];
      Replace(Expand(template, env, table[..|table| - 1]), Placeholder(key), EnvGet(env, key, default))
  }

  /** `server_template` once the template file has been read into `template`. */
  method ServerTemplate(template: string, env: map<string, string>) returns (props: string)
    ensures props == Expand(template, env, Defaults(env))
  {
    var table := Defaults(env);
    props := template;
    for i := 0 to |table|
      invariant props == Expand(template, env, table[..i])
    {
      var (key, defaultValue) := table[i];
      var value := EnvGet(env, key, defaultValue);
      assert table[..i + 1][..i] == table[..i];
      props := Replace(props, Placeholder(key), value);
    }
    assert table[..|table|] == table;
  }

  /** The final property text of `start_kafka` before it is written out. */
  function StartKafka(base: string, zkConn: seq<string>): string {
    Replace(base, Placeholder(ZOOKEEPER_CONNECTION_STRING), Join(zkConn, ","))
  }

  // ---------------------------------------------------------------------------
  // What the replacements mean, on templates made of text and named holes.

  datatype Piece = Text(text: string) | Hole(name: string)

  function PieceText(p: Piece): string {
    match p
    case Text(t) => t
    case Hole(n) => Placeholder(n)
  }

  function Render(ps: seq<Piece>): string {
    if ps == [] then "" else PieceText(ps[0]) + Render(ps[1..])
  }

  /** Text and hole names contain no braces, so holes are the only placeholders. */
  ghost predicate WellFormed(ps: seq<Piece>) {
    forall i :: 0 <= i < |ps| ==> BraceFree(PieceBody(ps[i]))
  }

  /** The characters of a piece other than a hole's braces. */
  function PieceBody(p: Piece): string {
    if p.Text? then p.text else p.name
  }

  /** Every hole named `key` becomes the text `value`. */
  function Fill(ps: seq<Piece>, key: string, value: string): (r: seq<Piece>)
    ensures |r| == |ps|
  {
    seq(|ps|, i requires 0 <= i < |ps| => if ps[i] == Hole(key) then Text(value) else ps[i])
  }

  /**
    The value `server_template` substitutes for the hole `name`: that of the first
    entry of `table` with that key (override, else default), or `None` when no
    entry has it. Written from the last entry so that it follows `Expand`.
   */
  function Setting(env: map<string, string>, table: seq<(string, string)>, name: string): Option<string> {
    if table == [] then None
    else
      match Setting(env, table[..|table| - 1], name)
      case Some(v) => Some(v)
      case None =>
        var (key, default) := table[|table| - 1];
        if key == name then Some(EnvGet(env, key, default)) else None
  }

  /** Each hole replaced by its setting, where it has one. */
  function Resolve(ps: seq<Piece>, env: map<string, string>, table: seq<(string, string)>): (r: seq<Piece>)
    ensures |r| == |ps|
  {
    seq(|ps|, i requires 0 <= i < |ps| =>
      match ps[i]
      case Text(_) => ps[i]
      case Hole(n) => match Setting(env, table, n) case Some(v) => Text(v) case None => ps[i])
  }

  /**
    The table's keys are brace-free, and so is every setting the table puts into a
    hole of `ps`: settings of keys that name no hole are never inserted.
   */
  ghost predicate InsertedBraceFree(ps: seq<Piece>, env: map<string, string>, table: seq<(string, string)>) {
    forall i :: 0 <= i < |table| ==>
      BraceFree(table[i].0) && (Hole(table[i].0) in ps ==> BraceFree(EnvGet(env, table[i].0, table[i].1)))
  }

  /** One replacement fills exactly the holes of that name, whatever the value. */
  lemma {:induction false} FillReplace(ps: seq<Piece>, key: string, value: string)
    requires WellFormed(ps) && BraceFree(key)
    ensures Replace(Render(ps), Placeholder(key), value) == Render(Fill(ps, key, value))
  {
    var q := Placeholder(key);
    var filled := Fill(ps, key, value);
    if ps == [] {
      assert Render(ps) == "";
      assert Replace("", q, value) == "";
      assert filled == [];
    } else {
      var head, rest := PieceText(ps[0]), Render(ps[1..]);
      assert Render(ps) == head + rest;
      assert WellFormed(ps[1..]) by {
        forall i | 0 <= i < |ps| - 1 ensures ps[1..][i] == ps[i + 1] { }
      }
      PieceNoStraddle(ps[0], rest, key);
      ReplaceConcat(head, rest, q, value);
      FillReplace(ps[1..], key, value);
      PieceReplace(ps[0], key, value);
      FillTail(ps, key, value);
      assert Render(filled) == PieceText(filled[0]) + Render(filled[1..]);
    }
  }

  /** Filling keeps a template well formed when the value is brace-free or there is no hole to fill. */
  lemma FillWellFormed(ps: seq<Piece>, key: string, value: string)
    requires WellFormed(ps) && (BraceFree(value) || Hole(key) !in ps)
    ensures WellFormed(Fill(ps, key, value))
  {
    forall i | 0 <= i < |ps| ensures BraceFree(PieceBody(Fill(ps, key, value)[i])) {
      assert ps[i] == Hole(key) ==> Hole(key) in ps;
    }
  }

  /** `Fill` works piece by piece. */
  lemma FillTail(ps: seq<Piece>, key: string, value: string)
    requires ps != []
    ensures Fill(ps, key, value)[1..] == Fill(ps[1..], key, value)
  {
    var r, t := Fill(ps, key, value)[1..], Fill(ps[1..], key, value);
    forall i | 0 <= i < |t| ensures r[i] == t[i] {
      assert ps[1..][i] == ps[i + 1];
    }
  }

  /** Replacing in a single piece: a hole of that name becomes the value, anything else stays. */
  lemma PieceReplace(p: Piece, key: string, value: string)
    requires BraceFree(PieceBody(p)) && BraceFree(key)
    ensures Replace(PieceText(p), Placeholder(key), value) == PieceText(if p == Hole(key) then Text(value) else p)
  {
    var q := Placeholder(key);
    assert q[0] == '{';
    match p
    case Text(t) =>
      BraceFreeAbsent(t, q);
      ReplaceAbsent(t, q, value);
    case Hole(n) =>
      if n == key {
        ReplaceWhole(q, value);
      } else {
        PlaceholderAbsent(n, key);
        ReplaceAbsent(Placeholder(n), q, value);
      }
  }

  /** The placeholder of one brace-free name does not occur in that of another. */
  lemma PlaceholderAbsent(n: string, key: string)
    requires BraceFree(n) && BraceFree(key) && n != key
    ensures Absent(Placeholder(n), Placeholder(key))
  {
    var p, q := Placeholder(n), Placeholder(key);
    assert p[2..|p| - 2] == n && q[2..|q| - 2] == key;
    forall i ensures !OccursAt(p, q, i) {
      if 0 <= i && i + |q| <= |p| && (i > 0 || |key| < |n|) {
        var j := if i >= 2 then 0 else if i == 1 then 1 else |key| + 2;
        assert p[i + j] != q[j];
        assert p[i..i + |q|][j] == p[i + j];
      }
    }
  }

  /** No placeholder occurrence starts inside a piece and runs past its end. */
  lemma PieceNoStraddle(p: Piece, rest: string, key: string)
    requires BraceFree(PieceBody(p)) && BraceFree(key)
    ensures NoStraddle(PieceText(p), rest, Placeholder(key))
  {
    var a, q := PieceText(p), Placeholder(key);
    var s := a + rest;
    forall i | 0 <= i < |a| < i + |q| ensures !OccursAt(s, q, i) {
      if i + |q| <= |s| {
        var j := if p.Text? || i >= 2 then 0 else if i == 1 then 1 else |p.name| + 2;
        assert j < |a| - i;
        assert s[i + j] == a[i + j];
        assert a[i + j] != q[j];
        assert s[i..i + |q|][j] == s[i + j];
      }
    }
  }

  // ---------------------------------------------------------------------------
  // The table lookup that the replacements amount to.

  ghost predicate DistinctKeys(table: seq<(string, string)>) {
    forall i, j :: 0 <= i < j < |table| ==> table[i].0 != table[j].0
  }

  /**
    A hole has a setting exactly when some entry has its name, and the setting is
    the override or default of the first such entry.
   */
  lemma {:induction false} SettingLookup(env: map<string, string>, table: seq<(string, string)>, name: string)
    ensures Setting(env, table, name).None? <==> forall i :: 0 <= i < |table| ==> table[i].0 != name
    ensures Setting(env, table, name).Some? ==>
      exists i :: 0 <= i < |table| && table[i].0 == name && (forall j :: 0 <= j < i ==> table[j].0 != name) &&
        Setting(env, table, name).value == EnvGet(env, name, table[i].1)
  {
    if table != [] {
      var front := table[..|table| - 1];
      SettingLookup(env, front, name);
      assert forall i :: 0 <= i < |front| ==> front[i] == table[i];
    }
  }

  /** With distinct keys, each entry's name resolves to that entry's override or default. */
  lemma SettingOfEntry(env: map<string, string>, table: seq<(string, string)>, i: int)
    requires DistinctKeys(table) && 0 <= i < |table|
    ensures Setting(env, table, table[i].0) == Some(EnvGet(env, table[i].0, table[i].1))
  {
    SettingLookup(env, table, table[i].0);
  }

  /** Filling one more table entry's holes resolves against the longer table. */
  lemma ResolveStep(ps: seq<Piece>, env: map<string, string>, table: seq<(string, string)>)
    requires table != []
    ensures Fill(Resolve(ps, env, table[..|table| - 1]), table[|table| - 1].0,
                 EnvGet(env, table[|table| - 1].0, table[|table| - 1].1))
            == Resolve(ps, env, table)
  {
  }

  lemma InsertedBraceFreeFront(ps: seq<Piece>, env: map<string, string>, table: seq<(string, string)>)
    requires table != [] && InsertedBraceFree(ps, env, table)
    ensures InsertedBraceFree(ps, env, table[..|table| - 1])
  {
    assert forall i :: 0 <= i < |table| - 1 ==> table[..|table| - 1][i] == table[i];
  }

  /** A hole left by resolving was already a hole of the template. */
  lemma ResolveHoles(ps: seq<Piece>, env: map<string, string>, table: seq<(string, string)>, key: string)
    requires Hole(key) in Resolve(ps, env, table)
    ensures Hole(key) in ps
  {
    var i :| 0 <= i < |ps| && Resolve(ps, env, table)[i] == Hole(key);
    assert ps[i] == Hole(key);
  }

  /**
    What the repeated replacement computes: on a well-formed template, with brace-free
    keys and brace-free settings for the holes present, every hole named in the table
    becomes the setting of the first entry with that name, and every other hole and
    all text are left as they were.
   */
  lemma {:induction false} ExpandResolves(ps: seq<Piece>, env: map<string, string>, table: seq<(string, string)>)
    requires WellFormed(ps) && InsertedBraceFree(ps, env, table)
    ensures Expand(Render(ps), env, table) == Render(Resolve(ps, env, table))
    ensures WellFormed(Resolve(ps, env, table))
  {
    if table == [] {
      assert Resolve(ps, env, table) == ps;
    } else {
      var front := table[..|table| - 1];
      var (key, default) := table[|table| - 1];
      var resolved := Resolve(ps, env, front);
      InsertedBraceFreeFront(ps, env, table);
      ExpandResolves(ps, env, front);
      FillReplace(resolved, key, EnvGet(env, key, default));
      if Hole(key) in resolved {
        ResolveHoles(ps, env, front, key);
      }
      FillWellFormed(resolved, key, EnvGet(env, key, default));
      ResolveStep(ps, env, table);
    }
  }

  // ---------------------------------------------------------------------------
  // The broker's own table and the connection-string placeholder.

  /** The keys of the defaults table are pairwise distinct. */
  lemma DefaultsDistinct(env: map<string, string>)
    ensures DistinctKeys(Defaults(env))
  {
  }

  /** No key of the defaults table is the connection string's. */
  lemma DefaultsLeaveConnection(env: map<string, string>)
    ensures forall i :: 0 <= i < |Defaults(env)| ==> Defaults(env)[i].0 != ZOOKEEPER_CONNECTION_STRING
  {
  }

  /**
    The environment values `server_template` substitutes into `ps` are brace-free:
    those of the table keys that name a hole of `ps`, and `IP` when it stands in
    for an unset advertised host name that names one. No other variable is read.
   */
  ghost predicate SubstitutedBraceFree(ps: seq<Piece>, env: map<string, string>) {
    && (forall i :: 0 <= i < |Defaults(env)| && Hole(Defaults(env)[i].0) in ps && Defaults(env)[i].0 in env ==>
          BraceFree(env[Defaults(env)[i].0]))
    && (Hole("KAFKA_ADVERTISED_HOST_NAME") in ps && "KAFKA_ADVERTISED_HOST_NAME" !in env && "IP" in env ==>
          BraceFree(env["IP"]))
  }

  /** With brace-free substituted values, the defaults table inserts only brace-free text. */
  lemma DefaultsBraceFree(ps: seq<Piece>, env: map<string, string>)
    requires SubstitutedBraceFree(ps, env)
    ensures InsertedBraceFree(ps, env, Defaults(env))
  {
    DefaultEntriesBraceFree(env);
  }

  /** Every key and every listed default is brace-free, except the `IP` fallback. */
  lemma DefaultEntriesBraceFree(env: map<string, string>)
    ensures forall i :: 0 <= i < |Defaults(env)| ==> BraceFree(Defaults(env)[i].0)
    ensures forall i :: 0 <= i < |Defaults(env)| && i != 3 ==> BraceFree(Defaults(env)[i].1)
    ensures Defaults(env)[3] == ("KAFKA_ADVERTISED_HOST_NAME", EnvGet(env, "IP", ""))
  {
    KafkaKeysBraceFree();
    LogKeysBraceFree();
    ZooKeeperKeysBraceFree();
  }

  lemma KafkaKeysBraceFree()
    ensures BraceFree("KAFKA_BROKER_ID") && BraceFree("KAFKA_CREATE_TOPICS_ENABLE")
    ensures BraceFree("KAFKA_REPLICATION_FACTOR") && BraceFree("KAFKA_ADVERTISED_HOST_NAME")
    ensures BraceFree("KAFKA_DELETE_TOPIC_ENABLE") && BraceFree("KAFKA_PORT") && BraceFree("KAFKA_ADVERTISED_PORT")
  {
  }

  lemma LogKeysBraceFree()
    ensures BraceFree("KAFKA_LOG_DIR") && BraceFree("KAFKA_NUM_PARTITIONS") && BraceFree("KAFKA_LOG_RETENTION_HOURS")
    ensures BraceFree("KAFKA_LOG_FLUSH_INTERVAL_MS") && BraceFree("KAFKA_LOG_FLUSH_INTERVAL_MESSAGES")
  {
  }

  lemma ZooKeeperKeysBraceFree()
    ensures BraceFree("ZOOKEEPER_CHROOT") && BraceFree("ZOOKEEPER_CONNECTION_TIMEOUT_MS")
    ensures BraceFree("ZOOKEEPER_SESSION_TIMEOUT_MS") && BraceFree(ZOOKEEPER_CONNECTION_STRING)
  {
  }

  /** Every key of the defaults table takes its environment override, else its listed default. */
  lemma DefaultsOverride(env: map<string, string>, i: int)
    requires 0 <= i < |Defaults(env)|
    ensures Setting(env, Defaults(env), Defaults(env)[i].0) ==
            Some(if Defaults(env)[i].0 in env then env[Defaults(env)[i].0] else Defaults(env)[i].1)
  {
    DefaultsDistinct(env);
    SettingOfEntry(env, Defaults(env), i);
  }

  /**
    `server_template` on a well-formed template, when the values it substitutes are
    brace-free: exactly the holes named in the defaults table are filled,
    and every `{{ZOOKEEPER_CONNECTION_STRING}}` hole survives for `start_kafka`.
   */
  lemma ServerTemplateResolves(ps: seq<Piece>, env: map<string, string>)
    requires WellFormed(ps) && SubstitutedBraceFree(ps, env)
    ensures Expand(Render(ps), env, Defaults(env)) == Render(Resolve(ps, env, Defaults(env)))
    ensures WellFormed(Resolve(ps, env, Defaults(env)))
    ensures forall i :: 0 <= i < |ps| && ps[i] == Hole(ZOOKEEPER_CONNECTION_STRING) ==>
              Resolve(ps, env, Defaults(env))[i] == ps[i]
  {
    DefaultsBraceFree(ps, env);
    ExpandResolves(ps, env, Defaults(env));
    DefaultsLeaveConnection(env);
    SettingLookup(env, Defaults(env), ZOOKEEPER_CONNECTION_STRING);
  }

  /**
    `start_kafka` fills every `{{ZOOKEEPER_CONNECTION_STRING}}` hole with the
    comma-joined ensemble, whatever the entries: the inserted text is never rescanned.
   */
  lemma StartKafkaFills(ps: seq<Piece>, zkConn: seq<string>)
    requires WellFormed(ps)
    ensures StartKafka(Render(ps), zkConn) == Render(Fill(ps, ZOOKEEPER_CONNECTION_STRING, Join(zkConn, ",")))
  {
    ZooKeeperKeysBraceFree();
    FillReplace(ps, ZOOKEEPER_CONNECTION_STRING, Join(zkConn, ","));
  }

  /**
    The property file the broker is started with: the template resolved against the
    defaults table, then the ensemble filled in. No hole of a table key or of the
    connection string remains, and with brace-free ensemble entries every text piece
    of the final file is brace-free.
   */
  lemma PropertiesFile(ps: seq<Piece>, env: map<string, string>, zkConn: seq<string>)
    requires WellFormed(ps) && SubstitutedBraceFree(ps, env)
    ensures StartKafka(Expand(Render(ps), env, Defaults(env)), zkConn) ==
            Render(Fill(Resolve(ps, env, Defaults(env)), ZOOKEEPER_CONNECTION_STRING, Join(zkConn, ",")))
    ensures forall i, n ::
              (0 <= i < |ps| &&
               Fill(Resolve(ps, env, Defaults(env)), ZOOKEEPER_CONNECTION_STRING, Join(zkConn, ","))[i] == Hole(n)) ==>
              n != ZOOKEEPER_CONNECTION_STRING && forall j :: 0 <= j < |Defaults(env)| ==> Defaults(env)[j].0 != n
    ensures AllBraceFree(zkConn) ==>
              WellFormed(Fill(Resolve(ps, env, Defaults(env)), ZOOKEEPER_CONNECTION_STRING, Join(zkConn, ",")))
  {
    ServerTemplateResolves(ps, env);
    var resolved := Resolve(ps, env, Defaults(env));
    StartKafkaFills(resolved, zkConn);
    HolesLeft(ps, env, Defaults(env), ZOOKEEPER_CONNECTION_STRING, Join(zkConn, ","));
    FilledWellFormed(resolved, zkConn);
  }

  /** Filling brace-free ensemble entries into a well-formed template keeps it well formed. */
  lemma FilledWellFormed(ps: seq<Piece>, zkConn: seq<string>)
    requires WellFormed(ps)
    ensures AllBraceFree(zkConn) ==>
              WellFormed(Fill(ps, ZOOKEEPER_CONNECTION_STRING, Join(zkConn, ",")))
  {
    if AllBraceFree(zkConn) {
      assert BraceFree(",");
      JoinBraceFree(zkConn, ",");
      FillWellFormed(ps, ZOOKEEPER_CONNECTION_STRING, Join(zkConn, ","));
    }
  }

  /** After resolving against `table` and filling `key`, a remaining hole is named by neither. */
  lemma HolesLeft(ps: seq<Piece>, env: map<string, string>, table: seq<(string, string)>, key: string, value: string)
    ensures forall i, n ::
              (0 <= i < |ps| && Fill(Resolve(ps, env, table), key, value)[i] == Hole(n)) ==>
              n != key && forall j :: 0 <= j < |table| ==> table[j].0 != n
  {
    forall i, n | 0 <= i < |ps| && Fill(Resolve(ps, env, table), key, value)[i] == Hole(n)
      ensures forall j :: 0 <= j < |table| ==> table[j].0 != n
    {
      SettingLookup(env, table, n);
    }
  }
}
