# docker-kafka supervisor, modelled in Dafny

`start.py` is the entry point of a Kafka broker container. It does four things:

- It expands the broker's property template. Each `{{KEY}}` placeholder of a fixed defaults table is replaced by that key's environment override, or else by its default (`server_template`).
- It asks an Exhibitor endpoint for the ZooKeeper ensemble and renders it as a sorted list of `host:port` entries (`zk_conn_string`).
- It writes the final properties, with the ensemble in place of `{{ZOOKEEPER_CONNECTION_STRING}}`, and launches the broker (`start_kafka`).
- It then polls in a loop (`main`):
  - it stops with the broker's exit code once the broker dies;
  - when the ensemble changes to a different, no shorter list, it takes a ZooKeeper lock on `/kafka-exhibitor/<exhibitor>`, restarts the broker with the new ensemble, and always closes the lock client afterwards.

The model has eight modules:

- `Wrappers`: `Option` and `Result`.
- `Strings`: Python's `str.replace` (including the empty-pattern case), `sep.join` and `str.split`. It proves that replacement distributes over concatenation when no match crosses the boundary, and that `split` undoes `join`.
- `Order`: Python's string ordering `<=` as a total order, `sorted` as insertion sort, and the uniqueness of the sorted arrangement.
- `Decimal`: `'%d'` and its read-back.
- `Discovery`: `zk_conn_string` once the HTTP fetch is done. Its input is a `Response`:
  - `Unreachable`: the caught `URLError`;
  - `Malformed`: a body that is not JSON or lacks a key, or a network failure that `urlopen` does not wrap in `URLError`, such as a timeout or a dropped connection while the response is read. These errors are not caught;
  - `Cluster(servers, port)`.
- `Template`: `server_template` as an imperative loop of replacements, proved equal to a fold (`Expand`). A `Piece` view of the template (brace-free text and named holes) shows what that fold means: exactly the named holes are filled, each with the setting of the first table entry with its name.
- `Supervisor`: `main` as an imperative `while` loop (`Supervising`), proved equal to a pure pass function (`Step`) iterated by `Loop`. The outside world is a script:
  - an initial `Response`;
  - one `Tick` per pass: what `poll()` left in `returncode`, what discovery returned, and whether the lock was acquired.

  Each run yields a `Report`: how it ended; every ensemble the broker was started with; every lock request (hosts and path); how many lock clients were stopped; and how many brokers were terminated.
- `Scenarios`: every case of `test_start.py` stated on the model except `test_start_kafka`, which checks the `Popen` call, and two general facts about discovery.

Where descriptions of this program and its code disagree, the model follows the code:

- `sorted` is applied to the host names before `:port` is appended (start.py:111-113). The list is therefore in host order, which is not the order of the full `host:port` text: `a` and `a.b` give `a:P` before `a.b:P`, although `a.b:P` is the smaller string (`Scenarios.HostOrderNotAddressOrder`).
- Only `URLError` is caught (start.py:104-109). A malformed answer raises out of `zk_conn_string` and ends `main`; it does not give the empty list. The same holds for a timeout or a disconnect while the answer is being read (start.py:105-107): such an error is not a `URLError`, so a slow server can stop the program rather than yield no servers.
- `if kafka_pid.returncode:` is false for 0 as well as for `None` (start.py:62). A broker that exits with status 0 is not noticed, and the loop carries on (`Supervisor.ExitZeroIgnored`).

## Model

| member | source | states |
|---|---|---|
| Template.Defaults | start.py:16-32 | `PROPERTIES_DEFAULTS` in declaration order, the advertised host name defaulting to `IP`; a definition without a contract, its facts are `DefaultsDistinct`, `DefaultsLeaveConnection`, `DefaultsOverride` and `DefaultsBraceFree` |
| Template.Expand | start.py:96-98 | the replacements for the table's entries, first entry first; a definition without a contract, `ServerTemplate` is proved equal to it and `ExpandResolves` says what it computes |
| Template.StartKafka | start.py:116-118 | the one replacement of `{{ZOOKEEPER_CONNECTION_STRING}}` by `','.join(zk_conn)`; a definition without a contract, `StartKafkaFills` and `PropertiesFile` say what it computes |
| Template.Placeholder | start.py:98 | `'{{%s}}' % key`, the text of a named hole; its facts are `FillReplace` (replacing it fills exactly that hole) and `PlaceholderAbsent` |
| Template.PlaceholderAbsent | start.py:98 | the placeholder of one brace-free name never occurs inside that of another, so one key's replacement cannot touch another key's hole |
| Template.EnvGet | start.py:97 | `os.environ.get(key, default_value)`: the variable's value when set, even to `''`, else the default; `DefaultsOverride` states it for every table key |
| Strings.Replace | start.py:98 | Python's `str.replace`: left-to-right, non-overlapping, with the inserted text never rescanned, and an empty pattern inserting the replacement before every character and at the end; its facts are `ReplaceAbsent`, `ReplaceConcat`, `ReplaceWhole` and `FillReplace` |
| Strings.Join | start.py:71 | `sep.join(parts)`; its facts are `SplitJoin` and `JoinBraceFree` |
| Order.Sort | start.py:111 | `sorted` on strings, as insertion sort; its result has the input's length, and `SortSorted` and `SortedUnique` make it Python's one ascending permutation |
| Order.LessEq | start.py:111 | Python's `<=` on `str`, by code points, a proper prefix first; the order `sorted` uses, made a total order by `LessEqTotal`, `LessEqTransitive`, `LessEqAntisymmetric` and `LessEqPrefix` |
| Decimal.IntToDecimal | start.py:113 | `'%d' % n` is a non-empty run of digits, with a leading `-` only as its first character; `ParseIntOfDecimal` reads it back as `n` |
| Discovery.FormatAddress | start.py:113 | `'%s:%d' % (host, port)`; `ParseAddressOfFormat` reads it back |
| Discovery.Entries | start.py:113 | the list comprehension `['%s:%d' % (zk_server, zk_port) for zk_server in zk_servers]`: one entry per host, in the given order; `EntriesParse` reads each back and `ConnStringOfSorted` ties it to `zk_conn_string` |
| Supervisor.ExhibitorBase | start.py:47-48 | `os.environ.get('EXHIBITOR_BASE')` with `if not exhibitor`: an unset or empty variable gives nothing; `NoExhibitor` states the consequence |
| Supervisor.Recognized | start.py:68 | the restart condition `cur_zk != zk_conn and len(cur_zk) >= len(zk_conn)`; `RecognizedNonEmpty`, `EnsembleNeverShrinks` and `StepRestartsIff` state what it implies |
| Supervisor.LockPath | start.py:74 | `'/kafka-exhibitor/%s' % exhibitor`, the lock's path; `WatchSettled` states that every lock request uses it |
| Supervisor.Died | start.py:62 | the truthiness of `returncode`: only a present, non-zero code counts; `ExitZeroIgnored` and `DeathFirst` state what it implies |
| Supervisor.Step | start.py:61-88 | one pass of the loop body; a definition without a contract, stated by `StepRestartsIff`, `StepRestart`, `StepConsistent`, `DeathFirst` and `SteadyEnsemble`, and `Supervising` is proved equal to its iteration |
| Supervisor.Loop | start.py:59-89 | `while loops != 0`, one tick per pass; stated by `LoopSettled`, `LoopExtends`, `LoopCountsDown`, `LoopExitZero`, `LoopExitCode` and `CalmRunStarts` |
| Supervisor.Watch | start.py:55-89 | the first discovery and start, then `Loop`; stated by `WatchSettled`, and `Supervising` is proved equal to it |
| Supervisor.Initial | start.py:55-56 | the state after the first `zk_conn_string` and `start_kafka`: one start with that ensemble, its properties text, and no locks, stops or terminations; `Watch` begins `Loop` from it, and `WatchSettled` states the first start |
| Supervisor.Run | start.py:40-89 | `main`: the exhibitor check, the template expansion, then `Watch`; stated by `NoExhibitor`, and `Supervise` is proved equal to it |
| Template.ServerTemplate | start.py:92-99 | the loop of `replace` calls over the defaults table, in order, yields `Expand` of the template, i.e. the replacements for every table entry, first entry first |
| Template.ExpandResolves | start.py:96-98 | on a template of brace-free text and holes, with brace-free settings, the replacements fill every hole named by the table with the override or default of the first entry of that name, leave all other holes and text alone, and keep the result well formed |
| Template.SettingLookup | start.py:96-97 | a hole has a setting iff some table entry has its name; the setting is the `os.environ.get(key, default)` of the first such entry |
| Template.DefaultsOverride | start.py:16-32 | every key of `PROPERTIES_DEFAULTS` resolves to its environment value when set (even to the empty string), else to its listed default |
| Template.DefaultsDistinct | start.py:16-32 | the default table's keys are pairwise distinct |
| Template.DefaultsLeaveConnection | start.py:16-32 | no default key is `ZOOKEEPER_CONNECTION_STRING`, so `server_template` never fills that placeholder |
| Template.DefaultsBraceFree | start.py:16-32 | the table's keys are brace-free, and when the environment values substituted into a template (those of the keys it has holes for, and `IP` only when the advertised host name is unset and has a hole) are brace-free, so is every setting put into one of its holes |
| Template.ServerTemplateResolves | start.py:92-99 | when the values substituted are brace-free (no other variable matters), `server_template` resolves exactly the table's holes and keeps every `{{ZOOKEEPER_CONNECTION_STRING}}` hole |
| Template.FillReplace | start.py:98 | one `replace` of `{{key}}`, by any value, fills exactly the holes named `key` |
| Template.FillWellFormed | start.py:98 | the filled template is still text and holes when the value is brace-free or no hole of that name exists |
| Template.StartKafkaFills | start.py:116-118 | `start_kafka` replaces every connection-string hole by the comma-joined ensemble, whatever the entries contain |
| Template.PropertiesFile | start.py:52-56 | when the values substituted by `server_template` are brace-free, the file the broker starts with is the template resolved against the defaults and then filled with the ensemble; no hole of a table key or of the connection string remains; with brace-free ensemble entries, every text piece of that file is brace-free |
| Template.HolesLeft | start.py:96-98 | after resolving against a table and filling one key, any hole left is named by neither the key nor a table entry |
| Strings.ReplaceAbsent | start.py:98 | replacing a pattern that does not occur leaves the text unchanged |
| Strings.ReplaceConcat | start.py:98 | `replace` distributes over a concatenation when no match straddles the boundary |
| Strings.JoinBraceFree | start.py:118 | joining brace-free parts with a brace-free separator gives brace-free text; `FilledWellFormed` uses it for the ensemble |
| Template.FilledWellFormed | start.py:116-118 | filling the connection-string holes of a well-formed template with the `,`-join of brace-free entries leaves only brace-free text and holes |
| Strings.SplitJoin | start.py:71 | splitting the `','.join` of a non-empty list of entries without commas gives the entries back (an empty list joins to `''`, which splits to `['']`) |
| Order.LessEqTotal | start.py:111 | Python's string `<=` is total |
| Order.LessEqTransitive | start.py:111 | Python's string `<=` is transitive |
| Order.LessEqAntisymmetric | start.py:111 | Python's string `<=` is antisymmetric |
| Order.LessEqPrefix | start.py:111 | a common prefix does not change the order of two strings |
| Order.InsertSorted | start.py:111 | inserting into a sorted list keeps it sorted and adds exactly the element |
| Order.SortSorted | start.py:111 | `sorted` returns an ascending permutation of its input |
| Order.SortedUnique | start.py:111 | two sorted lists with the same elements are equal |
| Decimal.ParseIntOfDecimal | start.py:113 | the text of `'%d' % n` reads back as `n`, negative numbers included |
| Discovery.ParseAddressOfFormat | start.py:113 | `'%s:%d' % (host, port)` reads back as that host and port, splitting at the last colon |
| Discovery.EntriesParse | start.py:113 | each rendered entry reads back as its host and the port |
| Discovery.ConnString | start.py:102-113 | an unreachable endpoint gives `[]`; a malformed answer gives a failure; a cluster list gives one entry per server |
| Discovery.ConnStringEntries | start.py:111-113 | the entries of a cluster list carry the listed port, and their hosts are the listed servers in ascending order |
| Discovery.ConnStringCanonical | start.py:111 | the same servers in any order give the same connection list |
| Discovery.ConnStringOfSorted | start.py:111-113 | the connection list is the entries of any sorted arrangement of the servers |
| Discovery.ConnStringAlphabet | start.py:113 | a character other than a digit, `:` or `-` occurs in an entry only if it occurs in some server name |
| Supervisor.Supervise | start.py:40-89 | `main` returns -1 without a usable `EXHIBITOR_BASE`, and otherwise expands the template and runs the loop; its report equals `Run` |
| Supervisor.Supervising | start.py:55-89 | the first discovery and start, then the `while loops != 0` loop in the source's order (lock request, restart, then the client's stop in `finally`); its report equals `Watch` of the same script |
| Supervisor.NoExhibitor | start.py:47-50 | an unset or empty `EXHIBITOR_BASE` returns -1 and starts nothing |
| Supervisor.WatchSettled | start.py:55-89 | a malformed first answer raises before any start. Otherwise the broker is first started with the first ensemble. Every later start follows a recognised change and a lock request for those hosts on `/kafka-exhibitor/<exhibitor>`. There is one termination per restart, one extra lock request only when the run ends on a failed lock, and every lock client is stopped |
| Supervisor.StepConsistent | start.py:59-88 | one pass keeps the run's record consistent, or ends it settled |
| Supervisor.LoopSettled | start.py:59-88 | a consistently started loop ends settled |
| Supervisor.LoopExtends | start.py:59-88 | starts, lock requests and terminations are only ever appended to |
| Supervisor.StepRestartsIff | start.py:61-84 | a lock is requested iff the broker is alive, discovery succeeded and the ensemble differs and is no shorter; the broker is restarted iff, in addition, the lock is acquired; otherwise only the counter changes |
| Supervisor.StepRestart | start.py:68-84 | a recognised change with the lock acquired records the request, stops the client, terminates the broker, starts it with the new properties and adopts the new ensemble |
| Supervisor.LockFailedPass | start.py:71-84 | a failed lock ends the loop with the exception, after the lock request and the client's stop |
| Supervisor.EnsembleNeverShrinks | start.py:68 | no ensemble the broker is started with is shorter than an earlier one |
| Supervisor.RecognizedNonEmpty | start.py:68 | an empty discovery result never counts as a change |
| Supervisor.SteadyEnsemble | start.py:66-68 | an unreachable endpoint, or the same servers in any order, changes nothing but the loop counter |
| Supervisor.LockHostsRecoverable | start.py:71 | the lock client's host string splits back into the new ensemble when no server name contains a comma |
| Supervisor.DeathFirst | start.py:61-64 | a dead broker ends the run with its exit code before discovery or the lock |
| Supervisor.ExitZeroIgnored | start.py:62 | a `returncode` of 0 behaves exactly like `None` |
| Supervisor.LoopCountsDown | start.py:59-88 | `loops` ends exactly `Passes` below its start, `Passes` counting the passes that reach `loops -= 1`; there are at most as many passes as ticks, and from a non-negative start at most `loops` of them, so the counter ends between 0 and its start |
| Supervisor.NegativeLoopsNeverReturnZero | start.py:40-59 | with `loops < 0` the loop never returns 0 |
| Supervisor.LoopExitZero | start.py:59-89 | returning 0 means `loops` reached zero |
| Supervisor.LoopExitCode | start.py:62-64 | a non-zero exit code is the `returncode` of some poll |
| Supervisor.CalmRunReturnsZero | start.py:59-89 | `n >= 0` loops of live broker, readable discovery and acquired locks return 0 |
| Supervisor.ExitZeroMeansHealthy | start.py:59-89 | conversely, returning 0 means `loops` was not negative and no pass saw a dead broker or a malformed answer |
| Supervisor.CalmStep | start.py:66-88 | a calm pass continues and restarts exactly on a recognised change |
| Supervisor.CalmRunStarts | start.py:59-88 | in a calm run the broker is started once more, and terminated once, for each ensemble adopted from the discovered lists (the reference `Adopted`), and it ends on the last one adopted |
| Scenarios.ThreeServers | test_start.py:13-16 | the three-server reply renders as `10.2.101.144:2181, 10.2.102.25:2181, 10.2.103.50:2181` |
| Scenarios.UnreachableGivesNothing | test_start.py:48-52 | a connection failure gives the empty list |
| Scenarios.HostOrderNotAddressOrder | start.py:111-113 | the list is in host order, which differs from the order of the `host:port` texts |
| Scenarios.KafkaDies | test_start.py:68-78 | a broker found dead with -1 makes `main` return -1 without a lock request |
| Scenarios.StaticEnsemble | test_start.py:80-92 | one loop with an unchanged, empty ensemble returns 0 without a lock request |
| Scenarios.EnsembleRestart | test_start.py:94-110 | the change from `{1.1.1.1, 2.2.2.2}` to `{2.2.2.2, 3.3.3.3}` returns 0 after one lock request with the new hosts and a second start |
| Scenarios.OneRestart | start.py:59-89 | one loop whose discovery is a recognised change with the lock acquired ends with two starts, one lock request, one client stop and one termination |
| Scenarios.ServerTemplateExample | test_start.py:28-36 | in any environment with `KAFKA_REPLICATION_FACTOR=3` and the topic-creation flag unset, the topic-creation default `true` and the override `3` are filled, and the connection placeholder is kept |

## Left out

- The HTTP request of `zk_conn_string` is not modelled: the URL built from `CLUSTER_LIST_ENDPOINT`, the 3-second timeout and the JSON decoding. The model starts from what the request produced (`Response`).
- Every reply that raises while it is decoded or read becomes the one `Malformed` response: invalid JSON or UTF-8, a missing `servers` or `port` key, or a socket timeout or reset while the response is received. Replies that the source renders without raising but that `Cluster(seq<string>, int)` cannot hold are not represented: a float or boolean port (`'%d'` truncates it), or non-string servers (sorted and formatted through `'%s'`).
- Kazoo is reduced to two lock outcomes per pass, `Acquired` or `Failed`. Its connection, session and blocking wait are not modelled; a lock that is never acquired would block forever. Exceptions from `zk.start()` are also reduced to `Failed`. `KazooClient(...)` is constructed before the `try` (start.py:71); a constructor that raises (an unparsable host string, such as one from IPv6 servers) would skip `zk.stop()`, while the model's `Failed` always counts the client as stopped.
- Process control becomes the polled `returncode` of each tick and a termination counter: `Popen`, `poll`, `terminate` and `wait`. Exceptions from them, or from `start_kafka`'s file write, are not modelled, and neither are the `Popen` arguments `[START_COMMAND, PROPERTIES_PATH]` that `test_start_kafka` (test_start.py:54-66) checks.
- `PROPERTIES_DEFAULTS` is built once, when the module is imported, so its `IP` default is the value at import time (start.py:20); `Defaults(env)` reads `IP` from the environment passed to `server_template`. The two agree unless `IP` changes while the program runs.
- `server_template` opens and reads `PROPERTIES_TEMPLATE` itself (start.py:93-94); `ServerTemplate` receives the text instead. A template file that cannot be opened or read raises out of `main` at start.py:52, after the `EXHIBITOR_BASE` check and before any discovery or start; the model assumes the text was read, and `Run` has no such outcome. Writing `PROPERTIES_PATH` is represented by the `properties` text of the state.
- `time.sleep`, logging and the `__main__` block have no effect on the model.
- The script of ticks is finite, so a run with `loops < 0` ends as `Interrupted` when the script runs out. This stands for the container being stopped from outside.
- Template.ServerTemplateResolves: assumes brace-free template text and brace-free values for the substituted variables. A substituted value containing `{{` could form a placeholder for a later key; `ServerTemplate` itself covers that case, since it is exact for any text.
- Template.PropertiesFile: assumes brace-free template text and substituted values, for the same reason; the ensemble entries may hold anything.
- Template.ExpandResolves: assumes brace-free template text and brace-free settings for the keys the template has holes for, for the same reason.
- Template.StartKafkaFills: assumes brace-free template text, so that the template's holes are its only placeholders.
- Template.FillReplace: assumes brace-free template text and key, for the same reason.
